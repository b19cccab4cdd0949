/**
  The inspection runner of internal/inspection/runner.go: which credentials a
  bounded run picks, how a probe verdict is reached, which action a verdict
  becomes, and the fairness of the choice over consecutive runs.
 */
module InspectionRunner {
  import opened Common
  import opened Credentials
  import opened InspectionBatch
  import opened CredentialLifecycle
  import opened CredentialStore
  import opened Sorting

  datatype Settings = Settings(
    inspectQuarantined: bool, skipRecentSuccess: int, maxPerRun: int, confirmUnauthorized: int,
    purgeAfter: int, massFailureMinimum: int, massFailureRatio: real)

  const DEFAULT_MAX_PER_RUN := 100

  function Limit(s: Settings): (limit: nat)
    ensures limit > 0
  {
    if s.maxPerRun > 0 then s.maxPerRun else DEFAULT_MAX_PER_RUN
  }

  // ---------------------------------------------------------------------------
  // Choosing the batch

  predicate Eligible(c: Credential, s: Settings, now: int) {
    && !c.standing.manualDisabled
    && (c.standing.state == Quarantined ==> s.inspectQuarantined)
    && (c.standing.enabled || c.standing.state == Quarantined)
    && !(s.skipRecentSuccess > 0 && c.health.lastSuccessAt.Some? && now - c.health.lastSuccessAt.value < s.skipRecentSuccess)
  }

  predicate PurgeDue(c: Credential, now: int) {
    && !c.standing.manualDisabled
    && UnderQuarantine(c.standing)
    && c.standing.purgeAfter.Some? && c.standing.purgeAfter.value <= now
  }

  /** Who is inspected: nobody an operator disabled; the quarantined only when that is
      configured; of the others those in use; and nobody who succeeded recently enough. */
  lemma EligibleMeans(c: Credential, s: Settings, now: int)
    ensures Eligible(c, s, now) ==>
              && !c.standing.manualDisabled
              && (c.standing.state == Quarantined ==> s.inspectQuarantined)
              && (c.standing.state != Quarantined ==> c.standing.enabled)
              && (s.skipRecentSuccess > 0 && c.health.lastSuccessAt.Some? ==> c.health.lastSuccessAt.value + s.skipRecentSuccess <= now)
    ensures var long := c.health.lastSuccessAt.None? || s.skipRecentSuccess <= 0 || c.health.lastSuccessAt.value + s.skipRecentSuccess <= now;
            var open := (c.standing.enabled && c.standing.state == Active) || (c.standing.state == Quarantined && s.inspectQuarantined);
            !c.standing.manualDisabled && open && long ==> Eligible(c, s, now)
    ensures PurgeDue(c, now) <==>
              && c.standing.state == Quarantined && c.standing.reason == InvalidAuth && !c.standing.manualDisabled
              && c.standing.purgeAfter.Some? && c.standing.purgeAfter.value <= now
  {
  }

  /** In which order: a due purge before anything else, then who was never inspected,
      then who waits longest, and only then by id. */
  lemma SoonerMeans(a: Credential, b: Credential, now: int)
    ensures PurgeDue(a, now) && !PurgeDue(b, now) ==> Sooner(a, b, now) && !Sooner(b, a, now)
    ensures PurgeDue(a, now) == PurgeDue(b, now) ==>
              && (a.inspection.at.None? && b.inspection.at.Some? ==> Sooner(a, b, now) && !Sooner(b, a, now))
              && (a.inspection.at.Some? && b.inspection.at.Some? && a.inspection.at.value < b.inspection.at.value ==>
                    Sooner(a, b, now) && !Sooner(b, a, now))
              && (a.inspection.at == b.inspection.at ==> (Sooner(a, b, now) <==> StringBefore(a.id, b.id)))
  {
  }

  /** Due purges first, then never inspected, then least recently inspected. */
  predicate Sooner(a: Credential, b: Credential, now: int) {
    if PurgeDue(a, now) != PurgeDue(b, now) then PurgeDue(a, now)
    else if a.inspection.at != b.inspection.at then
      a.inspection.at.None? || (b.inspection.at.Some? && a.inspection.at.value < b.inspection.at.value)
    else StringBefore(a.id, b.id)
  }

  function CandidateBefore(now: int): (Credential, Credential) -> bool {
    (a: Credential, b: Credential) => Sooner(a, b, now)
  }

  function Candidates(listing: seq<Credential>, s: Settings, now: int): seq<Credential> {
    if listing == [] then []
    else
      var rest := Candidates(listing[1..], s, now);
      if PurgeDue(listing[0], now) || Eligible(listing[0], s, now) then [listing[0]] + rest else rest
  }

  function Batch(listing: seq<Credential>, s: Settings, now: int): seq<Credential> {
    var sorted := StableSort(CandidateBefore(now), Candidates(listing, s, now));
    if Limit(s) <= |sorted| then sorted[..Limit(s)] else sorted
  }

  lemma {:induction false} CandidatesAreListed(listing: seq<Credential>, s: Settings, now: int, c: Credential)
    ensures c in Candidates(listing, s, now) <==> c in listing && (PurgeDue(c, now) || Eligible(c, s, now))
  {
    if listing != [] {
      CandidatesAreListed(listing[1..], s, now, c);
      assert listing == [listing[0]] + listing[1..];
    }
  }

  lemma CandidateOrder(now: int)
    ensures WeakOrder(CandidateBefore(now))
  {
    forall x: Credential, y: Credential | CandidateBefore(now)(x, y) ensures !CandidateBefore(now)(y, x) {
      StringOrder(x.id, y.id, "");
    }
    forall x: Credential, y: Credential, z: Credential | CandidateBefore(now)(x, z)
      ensures CandidateBefore(now)(x, y) || CandidateBefore(now)(y, z)
    {
      StringOrder(x.id, y.id, z.id);
    }
  }

  /** A run takes a full batch whenever it leaves a candidate out, and whatever it
      leaves out comes no sooner than anything it takes. */
  lemma BatchTakesSoonest(listing: seq<Credential>, s: Settings, now: int, c: Credential)
    ensures forall x :: x in Batch(listing, s, now) ==> x in listing && (PurgeDue(x, now) || Eligible(x, s, now))
    ensures |Batch(listing, s, now)| <= Limit(s) && (s.maxPerRun > 0 ==> Limit(s) == s.maxPerRun) && (s.maxPerRun <= 0 ==> Limit(s) == 100)
    ensures c in listing && (PurgeDue(c, now) || Eligible(c, s, now)) && c !in Batch(listing, s, now) ==>
              && |Batch(listing, s, now)| == Limit(s)
              && forall x :: x in Batch(listing, s, now) ==> !Sooner(c, x, now)
  {
    hide PurgeDue, Eligible, StableSort, WeakOrder, StringBefore, Candidates;
    var before, all := CandidateBefore(now), Candidates(listing, s, now);
    var sorted, batch := StableSort(before, all), Batch(listing, s, now);
    SortKeepsAll(before, all);
    CandidateOrder(now);
    SortSorts(before, all);
    forall x | x in batch ensures x in listing && (PurgeDue(x, now) || Eligible(x, s, now)) {
      assert x in multiset(sorted);
      CandidatesAreListed(listing, s, now, x);
    }
    CandidatesAreListed(listing, s, now, c);
    if c in all && c !in batch {
      assert c in multiset(sorted);
      var k :| 0 <= k < |sorted| && sorted[k] == c;
      forall x | x in batch ensures !Sooner(c, x, now) {
        var i :| 0 <= i < |batch| && batch[i] == x;
        assert !before(sorted[k], sorted[i]);
      }
    }
  }

  // ---------------------------------------------------------------------------
  // A batch is as large as its set of ids

  function IdsOf(s: seq<Credential>): set<string> {
    set c | c in s :: c.id
  }

  ghost predicate DistinctRecords(s: seq<Credential>) {
    forall i, j :: 0 <= i < j < |s| ==> s[i].id != s[j].id
  }

  lemma {:induction false} DistinctDocRecords(doc: seq<Credential>)
    ensures DistinctDoc(doc) ==> DistinctRecords(doc)
    ensures DistinctDoc(doc) ==> forall c :: c in doc ==> Target(doc, c.id) == Some(c)
  {
    if doc != [] && DistinctDoc(doc) {
      DistinctDocRecords(doc[1..]);
      TargetHasId(doc[1..], doc[0].id);
      forall i, j | 0 <= i < j < |doc| ensures doc[i].id != doc[j].id {
        assert doc[j] == doc[1..][j - 1];
        if i > 0 {
          assert doc[i] == doc[1..][i - 1];
        }
      }
      assert doc == [doc[0]] + doc[1..];
    }
  }

  lemma {:induction false} TargetIsListed(doc: seq<Credential>, id: string)
    ensures Target(doc, id).Some? ==> Target(doc, id).value in doc
  {
    if doc != [] {
      TargetIsListed(doc[1..], id);
    }
  }

  lemma {:induction false} CandidatesDistinct(listing: seq<Credential>, s: Settings, now: int)
    requires DistinctRecords(listing)
    ensures DistinctRecords(Candidates(listing, s, now))
  {
    if listing != [] {
      var rest := Candidates(listing[1..], s, now);
      forall i, j | 0 <= i < j < |listing[1..]| ensures listing[1..][i].id != listing[1..][j].id {
        assert listing[i + 1].id != listing[j + 1].id;
      }
      CandidatesDistinct(listing[1..], s, now);
      forall x | x in rest ensures x.id != listing[0].id {
        CandidatesAreListed(listing[1..], s, now, x);
        var k :| 0 <= k < |listing[1..]| && listing[1..][k] == x;
        assert listing[k + 1] == x;
      }
    }
  }

  lemma {:induction false} DistinctOnce(s: seq<Credential>, c: Credential)
    requires DistinctRecords(s)
    ensures multiset(s)[c] <= 1
  {
    if s != [] {
      assert s == [s[0]] + s[1..];
      forall i, j | 0 <= i < j < |s[1..]| ensures s[1..][i].id != s[1..][j].id {
        assert s[i + 1].id != s[j + 1].id;
      }
      DistinctOnce(s[1..], c);
      if s[0] == c {
        forall k | 0 <= k < |s[1..]| ensures s[1..][k] != c {
          assert s[0].id != s[k + 1].id;
        }
      }
    }
  }

  lemma TwiceInMultiset(s: seq<Credential>, i: nat, j: nat)
    requires i < j < |s| && s[i] == s[j]
    ensures multiset(s)[s[i]] >= 2
  {
    assert s == s[..j] + [s[j]] + s[j + 1..];
    assert s[..j][i] == s[i];
    assert s[i] in multiset(s[..j]);
  }

  lemma ShuffleKeepsDistinct(s: seq<Credential>, shuffled: seq<Credential>)
    requires DistinctRecords(s) && multiset(s) == multiset(shuffled)
    ensures DistinctRecords(shuffled)
  {
    forall i, j | 0 <= i < j < |shuffled| ensures shuffled[i].id != shuffled[j].id {
      assert shuffled[i] in multiset(s) && shuffled[j] in multiset(s);
      var k :| 0 <= k < |s| && s[k] == shuffled[i];
      var l :| 0 <= l < |s| && s[l] == shuffled[j];
      if k == l {
        TwiceInMultiset(shuffled, i, j);
        DistinctOnce(s, shuffled[i]);
      }
    }
  }

  lemma {:induction false} DistinctIdCount(s: seq<Credential>)
    requires DistinctRecords(s)
    ensures |IdsOf(s)| == |s|
  {
    if s != [] {
      var most, last := s[..|s| - 1], s[|s| - 1];
      DistinctIdCount(most);
      assert IdsOf(s) == IdsOf(most) + {last.id} by {
        assert s == most + [last];
      }
      assert last.id !in IdsOf(most);
    }
  }

  lemma BatchIsDistinct(listing: seq<Credential>, s: Settings, now: int)
    requires DistinctRecords(listing)
    ensures DistinctRecords(Batch(listing, s, now))
  {
    CandidatesDistinct(listing, s, now);
    var all := Candidates(listing, s, now);
    SortKeepsAll(CandidateBefore(now), all);
    ShuffleKeepsDistinct(all, StableSort(CandidateBefore(now), all));
  }

  lemma BatchIdCount(listing: seq<Credential>, s: Settings, now: int)
    requires DistinctRecords(listing)
    ensures |IdsOf(Batch(listing, s, now))| == |Batch(listing, s, now)|
  {
    BatchIsDistinct(listing, s, now);
    DistinctIdCount(Batch(listing, s, now));
  }

  // ---------------------------------------------------------------------------
  // Consecutive runs over a changing store

  /** The file and every id it ever held; generated ids are never used again. */
  datatype World = World(doc: seq<Credential>, used: set<string>)

  predicate GeneratesFresh(w: World, e: Event) {
    match e
    case Create(i, id, now) => id !in w.used
    case Import(i, id, now) => id !in w.used
    case _ => true
  }

  function After(w: World, e: Event): World {
    World(NextDoc(w.doc, e),
          match e
          case Create(i, id, now) => w.used + {id}
          case Import(i, id, now) => w.used + {id}
          case _ => w.used)
  }

  ghost predicate WorldSound(w: World) {
    && DistinctDoc(w.doc) && Normal(w.doc)
    && forall id :: Target(w.doc, id).Some? ==> id in w.used
  }

  function AfterAll(w: World, events: seq<Event>): World
    decreases |events|
  {
    if events == [] then w else AfterAll(After(w, events[0]), events[1..])
  }

  /** What the rest of the process does meanwhile: anything but inspect. */
  predicate Churn(w: World, events: seq<Event>)
    decreases |events|
  {
    events == [] ||
    (!events[0].InspectBatch? && GeneratesFresh(w, events[0]) && Enabled(w.doc, events[0]) &&
     Churn(After(w, events[0]), events[1..]))
  }

  lemma StepKeepsStamp(e: Event, id: string, before: Option<Credential>, after: Option<Credential>)
    requires StepOf(e, id, before, after) && !e.InspectBatch? && before.Some? && after.Some?
    ensures after.value.inspection.at == before.value.inspection.at
  {
  }

  lemma EventKeepsStamp(w: World, e: Event, id: string)
    requires WorldSound(w) && !e.InspectBatch? && GeneratesFresh(w, e) && Enabled(w.doc, e)
    ensures WorldSound(After(w, e)) && w.used <= After(w, e).used
    ensures id in w.used && Target(After(w, e).doc, id).Some? ==>
              Target(w.doc, id).Some? && Target(After(w, e).doc, id).value.inspection.at == Target(w.doc, id).value.inspection.at
  {
    hide MergeInput, NewCredential, PatchRecord, Inspect;
    forall other ensures Target(After(w, e).doc, other).Some? ==> other in After(w, e).used {
      EventEffect(w.doc, e, other);
      TargetHasId(Written(w.doc, e), other);
      if e.Create? || e.Import? {
        NewCredentialId(e.input, e.id, e.now);
      }
    }
    EventEffect(w.doc, e, id);
    TargetHasId(Written(w.doc, e), id);
    var before, written := Target(w.doc, id), Target(Written(w.doc, e), id);
    if before.Some? && written.Some? {
      StepKeepsStamp(e, id, before, written);
    }
    if e.Create? || e.Import? {
      NewCredentialId(e.input, e.id, e.now);
    }
  }

  lemma {:induction false} ChurnKeepsStamp(w: World, events: seq<Event>, id: string)
    requires WorldSound(w) && Churn(w, events)
    ensures WorldSound(AfterAll(w, events)) && w.used <= AfterAll(w, events).used
    ensures id in w.used && Target(AfterAll(w, events).doc, id).Some? ==>
              Target(w.doc, id).Some? && Target(AfterAll(w, events).doc, id).value.inspection.at == Target(w.doc, id).value.inspection.at
    decreases |events|
  {
    if events != [] {
      EventKeepsStamp(w, events[0], id);
      ChurnKeepsStamp(After(w, events[0]), events[1..], id);
    }
  }

  /** One run: what happened while it probed, the inspections it finished, the
      actions it built from them and stored, and what happened until the next run. */
  datatype Round = Round(now: int, during: seq<Event>, checked: seq<Checked>, cool: Cooldowns, actions: seq<Action>, after: seq<Event>)

  function Listing(w: World): seq<Credential> {
    StableSort(ListingBefore(), w.doc)
  }

  lemma ListingHasAll(w: World)
    requires DistinctDoc(w.doc)
    ensures DistinctRecords(Listing(w))
    ensures forall c :: c in Listing(w) <==> c in w.doc
    ensures forall c :: c in w.doc ==> Target(w.doc, c.id) == Some(c)
  {
    SortKeepsAll(ListingBefore(), w.doc);
    DistinctDocRecords(w.doc);
    ShuffleKeepsDistinct(w.doc, Listing(w));
    forall c ensures c in Listing(w) <==> c in w.doc {
      assert c in Listing(w) <==> c in multiset(Listing(w));
      assert c in w.doc <==> c in multiset(w.doc);
    }
  }

  function Picked(w: World, r: Round, s: Settings): set<string> {
    IdsOf(Batch(Listing(w), s, r.now))
  }

  /** What makes an action stamp its record: the run's clock, no purge, and no
      quarantine of a credential an operator disabled at that revision. */
  predicate Stamping(doc: seq<Credential>, a: Action, now: int) {
    && a.at == Some(now) && a.kind != Purge && a.kind != Unknown
    && (a.kind == Quarantine && Target(doc, a.id).Some? && Target(doc, a.id).value.revision == a.expectedRevision ==>
          !Target(doc, a.id).value.standing.manualDisabled)
  }

  function AtStore(w: World, r: Round): World {
    AfterAll(w, r.during)
  }

  function EndOf(w: World, r: Round): World {
    var mid := AtStore(w, r);
    AfterAll(World(NextDoc(mid.doc, InspectBatch(r.actions, r.now)), mid.used), r.after)
  }

  /** The store held this very record at some moment while the run probed. */
  ghost predicate SeenDuring(w: World, during: seq<Event>, c: Credential) {
    exists j :: 0 <= j <= |during| && HeldAt(w, during, j, c)
  }

  predicate HeldAt(w: World, during: seq<Event>, j: nat, c: Credential)
    requires j <= |during|
  {
    Target(AfterAll(w, during[..j]).doc, c.id) == Some(c)
  }

  /** One finished inspection of the batch: started from the listing, its snapshot
      read from the store, and a prober that calls nothing unauthorized that an
      operator disabled. */
  ghost predicate Inspected(w: World, r: Round, s: Settings, c: Checked) {
    && c.observed.id in Picked(w, r, s)
    && (exists listed :: listed in Listing(w) && c == Judge(listed, c.observed, c.verdict, c.message, r.now))
    && SeenDuring(w, r.during, c.observed)
    && (c.verdict == IsUnauthorized ==> !c.observed.standing.manualDisabled)
  }

  ghost predicate RoundOk(w: World, r: Round, s: Settings) {
    && (forall c :: c in Listing(w) ==> !PurgeDue(c, r.now))
    && Churn(w, r.during)
    // Each picked credential is inspected once.
    && (forall k :: 0 <= k < |r.checked| ==> Inspected(w, r, s, r.checked[k]))
    && (forall j, k :: 0 <= j < k < |r.checked| ==> r.checked[j].observed.id != r.checked[k].observed.id)
    && (forall id :: id in Picked(w, r, s) ==> exists k :: 0 <= k < |r.checked| && r.checked[k].observed.id == id)
    // What is stored is what the run builds.
    && |r.actions| == |r.checked|
    && (forall k :: 0 <= k < |r.actions| ==> r.actions[k] == BuildAction(r.checked[k], MassFailure(r.checked, s), s, r.now, r.cool))
    && Churn(World(NextDoc(AtStore(w, r).doc, InspectBatch(r.actions, r.now)), AtStore(w, r).used), r.after)
  }

  lemma {:induction false} ChurnSplits(w: World, events: seq<Event>, j: nat)
    requires Churn(w, events) && j <= |events|
    ensures Churn(w, events[..j]) && Churn(AfterAll(w, events[..j]), events[j..])
    ensures AfterAll(AfterAll(w, events[..j]), events[j..]) == AfterAll(w, events)
    decreases |events|
  {
    if j == 0 {
      assert events[..0] == [] && events[0..] == events;
    } else {
      ChurnSplits(After(w, events[0]), events[1..], j - 1);
      assert events[..j][0] == events[0] && events[..j][1..] == events[1..][..j - 1];
      assert events[j..] == events[1..][j - 1..];
    }
  }

  /** Whatever else happens, a record that is still there is the same or has a higher revision. */
  lemma {:induction false} ChurnRaises(w: World, events: seq<Event>, id: string)
    requires WorldSound(w) && Churn(w, events)
    requires Target(w.doc, id).Some? && Target(AfterAll(w, events).doc, id).Some?
    ensures var before, after := Target(w.doc, id).value, Target(AfterAll(w, events).doc, id).value;
            after == before || after.revision > before.revision
    decreases |events|
  {
    if events != [] {
      hide NextDoc, Enabled, GeneratesFresh;
      var next := After(w, events[0]);
      EventKeepsStamp(w, events[0], id);
      ChurnKeepsStamp(next, events[1..], id);
      ChangeRaisesRevision(w.doc, events[0], id);
      ChurnRaises(next, events[1..], id);
    }
  }

  /** So a stored record at the observed revision is the observed record. */
  lemma RevisionNamesObserved(w: World, during: seq<Event>, c: Credential)
    requires WorldSound(w) && Churn(w, during) && SeenDuring(w, during, c)
    ensures var found := Target(AfterAll(w, during).doc, c.id);
            found.Some? && found.value.revision == c.revision ==> found.value == c
  {
    hide WorldSound, Churn, AfterAll, Target;
    var j :| 0 <= j <= |during| && HeldAt(w, during, j, c);
    ChurnSplits(w, during, j);
    ChurnKeepsStamp(w, during[..j], c.id);
    if Target(AfterAll(w, during).doc, c.id).Some? {
      ChurnRaises(AfterAll(w, during[..j]), during[j..], c.id);
    }
  }

  lemma BuiltActionStamps(w: World, r: Round, s: Settings, k: nat)
    requires WorldSound(w) && RoundOk(w, r, s) && k < |r.actions|
    ensures r.actions[k].id == r.checked[k].observed.id && r.actions[k].id in Picked(w, r, s)
    ensures Stamping(AtStore(w, r).doc, r.actions[k], r.now)
  {
    var c := r.checked[k];
    assert Inspected(w, r, s, c) && Churn(w, r.during);
    var listed :| listed in Listing(w) && c == Judge(listed, c.observed, c.verdict, c.message, r.now);
    assert !PurgeDue(listed, r.now) && r.actions[k] == BuildAction(c, MassFailure(r.checked, s), s, r.now, r.cool);
    hide *;
    ActionFollowsVerdict(listed, c.observed, c.verdict, c.message, MassFailure(r.checked, s), s, r.now, r.cool);
    ObservedAtStore(w, r, c.observed);
    StampingFrom(AtStore(w, r).doc, r.actions[k], c, r.now);
  }

  /** The actions a run builds are about its batch, one each, and stamp their records. */
  lemma BuiltActionsStamp(w: World, r: Round, s: Settings)
    requires WorldSound(w) && RoundOk(w, r, s)
    ensures DistinctIds(r.actions)
    ensures forall a :: a in r.actions ==> a.id in Picked(w, r, s) && Stamping(AtStore(w, r).doc, a, r.now)
    ensures forall id :: id in Picked(w, r, s) ==> exists a :: a in r.actions && a.id == id
  {
    hide Picked, PurgeDue, Churn, WorldSound, NextDoc, AtStore, Listing, MassFailure, Stamping, BuildAction, Inspected;
    forall k | 0 <= k < |r.actions|
      ensures r.actions[k].id == r.checked[k].observed.id
      ensures r.actions[k].id in Picked(w, r, s) && Stamping(AtStore(w, r).doc, r.actions[k], r.now)
    {
      BuiltActionStamps(w, r, s, k);
    }
    forall id | id in Picked(w, r, s) ensures exists a :: a in r.actions && a.id == id {
      var k :| 0 <= k < |r.checked| && r.checked[k].observed.id == id;
      assert r.actions[k] in r.actions;
    }
  }

  lemma ObservedAtStore(w: World, r: Round, c: Credential)
    requires WorldSound(w) && Churn(w, r.during) && SeenDuring(w, r.during, c)
    ensures var found := Target(AtStore(w, r).doc, c.id); found.Some? && found.value.revision == c.revision ==> found.value == c
  {
    RevisionNamesObserved(w, r.during, c);
  }

  lemma StampingFrom(doc: seq<Credential>, a: Action, c: Checked, now: int)
    requires a.id == c.observed.id && a.expectedRevision == c.observed.revision
    requires a.at == Some(now) && a.kind != Purge && a.kind != Unknown
    requires a.kind == Quarantine ==> !c.observed.standing.manualDisabled
    requires var found := Target(doc, c.observed.id); found.Some? && found.value.revision == c.observed.revision ==> found.value == c.observed
    ensures Stamping(doc, a, now)
  {
  }

  /** Whatever the verdict and whether or not its compare-and-swap succeeds, a
      stored action stamps its credential. */
  lemma StampedEvenOnMiss(c: Credential, a: Action, now: int)
    requires a.at == Some(now) && a.kind != Purge && a.kind != Unknown
    requires a.kind == Quarantine && c.revision == a.expectedRevision ==> !c.standing.manualDisabled
    ensures Inspect(c, a, now).record.Some? && Inspect(c, a, now).record.value.inspection.at == Some(now)
  {
  }

  /** The stored batch stamps what it names. */
  lemma NamedIsStamped(doc: seq<Credential>, actions: seq<Action>, now: int, a: Action)
    requires DistinctDoc(doc) && DistinctIds(actions) && a in actions && Stamping(doc, a, now) && Target(doc, a.id).Some?
    ensures var stored := Target(NextDoc(doc, InspectBatch(actions, now)), a.id);
            stored.Some? ==> stored.value.inspection.at == Some(now)
  {
    hide Inspect, Fold, DistinctDoc, DistinctIds;
    FoldHits(doc, actions, now, a);
    StampedEvenOnMiss(Target(doc, a.id).value, a, now);
    SavedTarget(Fold(doc, actions, now), a.id);
  }

  /** And leaves alone what it does not. */
  lemma UnnamedKeepsStamp(doc: seq<Credential>, actions: seq<Action>, now: int, id: string)
    requires DistinctDoc(doc) && DistinctIds(actions) && forall a :: a in actions ==> a.id != id
    ensures var stored := Target(NextDoc(doc, InspectBatch(actions, now)), id);
            stored.Some? ==> Target(doc, id).Some? && stored.value.inspection.at == Target(doc, id).value.inspection.at
  {
    hide Inspect, Fold, DistinctDoc, DistinctIds;
    FoldTarget(doc, actions, now, id);
    SavedTarget(Fold(doc, actions, now), id);
  }

  lemma NewlyStored(doc: seq<Credential>, actions: seq<Action>, now: int, id: string)
    requires DistinctDoc(doc) && DistinctIds(actions)
    ensures Target(NextDoc(doc, InspectBatch(actions, now)), id).Some? ==> Target(doc, id).Some?
  {
    hide Inspect, Fold, DistinctDoc, DistinctIds;
    FoldTarget(doc, actions, now, id);
    SavedTarget(Fold(doc, actions, now), id);
  }

  lemma BatchStamps(w: World, r: Round, s: Settings, id: string)
    requires WorldSound(w) && RoundOk(w, r, s) && id in w.used
    requires Target(EndOf(w, r).doc, id).Some?
    ensures Target(w.doc, id).Some?
    ensures Target(EndOf(w, r).doc, id).value.inspection.at ==
              if id in Picked(w, r, s) then Some(r.now) else Target(w.doc, id).value.inspection.at
  {
    RoundKeepsSound(w, r, s);
    BuiltActionsStamp(w, r, s);
    var mid := AtStore(w, r);
    var stored := World(NextDoc(mid.doc, InspectBatch(r.actions, r.now)), mid.used);
    assert Churn(w, r.during) && Churn(stored, r.after) && DistinctDoc(mid.doc);
    hide RoundOk, WorldSound, Churn, Picked, NextDoc, Stamping, AfterAll, DistinctDoc, DistinctIds, Target;
    ChurnKeepsStamp(w, r.during, id);
    ChurnKeepsStamp(stored, r.after, id);
    NewlyStored(mid.doc, r.actions, r.now, id);
    if id in Picked(w, r, s) {
      var a :| a in r.actions && a.id == id;
      NamedIsStamped(mid.doc, r.actions, r.now, a);
    } else {
      UnnamedKeepsStamp(mid.doc, r.actions, r.now, id);
    }
  }

  lemma {:induction false} FoldHits(doc: seq<Credential>, actions: seq<Action>, now: int, a: Action)
    requires DistinctDoc(doc) && DistinctIds(actions) && a in actions && Target(doc, a.id).Some?
    ensures Target(Fold(doc, actions, now), a.id) == Inspect(Target(doc, a.id).value, a, now).record
    decreases |actions|
  {
    hide Inspect;
    var first, next := actions[0], ApplyOne(doc, actions[0], now);
    ApplyOneTarget(doc, first, now);
    if first == a {
      forall b | b in actions[1..] ensures b.id != a.id {
        var j :| 0 <= j < |actions[1..]| && actions[1..][j] == b;
        assert actions[j + 1] == b;
      }
      FoldTarget(next, actions[1..], now, a.id);
    } else {
      var j :| 0 <= j < |actions| && actions[j] == a;
      assert actions[1..][j - 1] == a;
      OtherTargetStays(doc, first, now, a.id);
      FoldHits(next, actions[1..], now, a);
    }
  }

  lemma RoundKeepsSound(w: World, r: Round, s: Settings)
    requires WorldSound(w) && RoundOk(w, r, s)
    ensures WorldSound(AtStore(w, r)) && WorldSound(EndOf(w, r))
    ensures WorldSound(World(NextDoc(AtStore(w, r).doc, InspectBatch(r.actions, r.now)), AtStore(w, r).used))
    ensures w.used <= AtStore(w, r).used <= EndOf(w, r).used
  {
    hide Inspect, BuildAction, Judge, Picked, Inspected, MassFailure;
    var mid := AtStore(w, r);
    var e := InspectBatch(r.actions, r.now);
    BuiltActionsStamp(w, r, s);
    ChurnKeepsStamp(w, r.during, "");
    var stored := World(NextDoc(mid.doc, e), mid.used);
    EventEffect(mid.doc, e, "");
    forall id | Target(stored.doc, id).Some? ensures id in mid.used {
      EventEffect(mid.doc, e, id);
    }
    ChurnKeepsStamp(stored, r.after, "");
  }

  /** Whatever the prober makes of each credential, there is such a run. */
  lemma EveryVerdictHasARun(w: World, s: Settings, now: int, cool: Cooldowns, verdict: Credential -> Verdict) returns (r: Round)
    requires WorldSound(w) && forall c :: c in Listing(w) ==> !PurgeDue(c, now)
    requires forall c :: c in w.doc && c.standing.manualDisabled ==> verdict(c) != IsUnauthorized
    ensures RoundOk(w, r, s) && r.now == now
    ensures forall c :: c in r.checked ==> c.verdict == verdict(c.observed)
  {
    hide Batch, BuildAction, MassFailure, PurgeDue, Target, NextDoc, DistinctDoc, Normal, Judge;
    var batch := Batch(Listing(w), s, now);
    ListingHasAll(w);
    BatchIsDistinct(Listing(w), s, now);
    var checked := seq(|batch|, k requires 0 <= k < |batch| => Judge(batch[k], batch[k], verdict(batch[k]), "", now));
    var actions := seq(|checked|, k requires 0 <= k < |checked| => BuildAction(checked[k], MassFailure(checked, s), s, now, cool));
    r := Round(now, [], checked, cool, actions, []);
    forall k | 0 <= k < |checked| 
      ensures Inspected(w, r, s, checked[k]) && checked[k].observed == batch[k] && checked[k].verdict == verdict(batch[k])
    {
      var c := batch[k];
      BatchTakesSoonest(Listing(w), s, now, c);
      JudgeKeeps(c, verdict(c), now);
      assert HeldAt(w, [], 0, c);
    }
  }

  lemma JudgeKeeps(c: Credential, v: Verdict, now: int)
    ensures var j := Judge(c, c, v, "", now); j.observed == c && j.verdict == v && j.message == ""
  {
  }

  // ---------------------------------------------------------------------------
  // Fairness

  ghost predicate RoundsOk(w: World, rounds: seq<Round>, s: Settings)
    decreases |rounds|
  {
    rounds == [] || (RoundOk(w, rounds[0], s) && RoundsOk(EndOf(w, rounds[0]), rounds[1..], s))
  }

  /** Credential id is listed and eligible at every run, and no run picks it. */
  ghost predicate Starved(w: World, rounds: seq<Round>, s: Settings, id: string)
    decreases |rounds|
  {
    rounds == [] ||
    (Target(w.doc, id).Some? && Eligible(Target(w.doc, id).value, s, rounds[0].now) &&
     id !in Picked(w, rounds[0], s) && Starved(EndOf(w, rounds[0]), rounds[1..], s, id))
  }

  ghost predicate StaysEligible(w: World, rounds: seq<Round>, s: Settings, id: string)
    decreases |rounds|
  {
    rounds == [] ||
    (Target(w.doc, id).Some? && Eligible(Target(w.doc, id).value, s, rounds[0].now) &&
     StaysEligible(EndOf(w, rounds[0]), rounds[1..], s, id))
  }

  /** Some run inspects it, and thereby stamps it. */
  ghost predicate PickedSometime(w: World, rounds: seq<Round>, s: Settings, id: string)
    decreases |rounds|
  {
    rounds != [] && (id in Picked(w, rounds[0], s) || PickedSometime(EndOf(w, rounds[0]), rounds[1..], s, id))
  }

  lemma {:induction false} PickedOrStarved(w: World, rounds: seq<Round>, s: Settings, id: string)
    requires StaysEligible(w, rounds, s, id)
    ensures PickedSometime(w, rounds, s, id) || Starved(w, rounds, s, id)
    decreases |rounds|
  {
    if rounds != [] {
      PickedOrStarved(EndOf(w, rounds[0]), rounds[1..], s, id);
    }
  }

  /** Only ids of the pool are ever eligible. */
  ghost predicate WithinPool(w: World, rounds: seq<Round>, s: Settings, pool: set<string>)
    decreases |rounds|
  {
    rounds == [] ||
    ((forall c :: c in Listing(w) && Eligible(c, s, rounds[0].now) ==> c.id in pool) &&
     WithinPool(EndOf(w, rounds[0]), rounds[1..], s, pool))
  }

  ghost predicate ClocksFrom(rounds: seq<Round>, start: int) {
    forall i :: 0 <= i < |rounds| ==> rounds[i].now >= start
  }

  /** `taken` are the ids picked so far while `id` waited. */
  ghost predicate Waiting(w: World, id: string, taken: set<string>, start: int) {
    && id !in taken && id in w.used && taken <= w.used
    && (Target(w.doc, id).Some? ==> Target(w.doc, id).value.inspection.at.None? || Target(w.doc, id).value.inspection.at.value < start)
    && (forall x :: x in taken && Target(w.doc, x).Some? ==>
          Target(w.doc, x).value.inspection.at.Some? && Target(w.doc, x).value.inspection.at.value >= start)
  }

  /** While a credential waits, a full batch of others goes ahead of it, and none
      of them was ahead of it before. */
  lemma PickedAreNew(w: World, r: Round, s: Settings, id: string, taken: set<string>, start: int)
    requires WorldSound(w) && RoundOk(w, r, s) && r.now >= start && Waiting(w, id, taken, start)
    requires Target(w.doc, id).Some? && Eligible(Target(w.doc, id).value, s, r.now) && id !in Picked(w, r, s)
    ensures |Picked(w, r, s)| == Limit(s)
    ensures forall x :: x in Picked(w, r, s) ==>
              x !in taken && x in w.used && exists d :: d in Listing(w) && d.id == x && Eligible(d, s, r.now)
  {
    hide Eligible;
    var c := Target(w.doc, id).value;
    TargetHasId(w.doc, id);
    TargetIsListed(w.doc, id);
    ListingHasAll(w);
    BatchTakesSoonest(Listing(w), s, r.now, c);
    BatchIdCount(Listing(w), s, r.now);
    forall x | x in Picked(w, r, s)
      ensures x !in taken && x in w.used && exists d :: d in Listing(w) && d.id == x && Eligible(d, s, r.now)
    {
      var d :| d in Batch(Listing(w), s, r.now) && d.id == x;
      assert Target(w.doc, x) == Some(d);
      assert !Sooner(c, d, r.now);
    }
  }

  lemma PickedWaitBehind(w: World, r: Round, s: Settings, id: string, taken: set<string>, start: int)
    requires WorldSound(w) && RoundOk(w, r, s) && r.now >= start && Waiting(w, id, taken, start)
    requires id !in Picked(w, r, s) && Picked(w, r, s) <= w.used
    ensures Waiting(EndOf(w, r), id, taken + Picked(w, r, s), start)
  {
    hide EndOf, RoundOk, Picked;
    RoundKeepsSound(w, r, s);
    var taken' := taken + Picked(w, r, s);
    if Target(EndOf(w, r).doc, id).Some? {
      BatchStamps(w, r, s, id);
    }
    forall x | x in taken' && Target(EndOf(w, r).doc, x).Some?
      ensures Target(EndOf(w, r).doc, x).value.inspection.at.Some? && Target(EndOf(w, r).doc, x).value.inspection.at.value >= start
    {
      BatchStamps(w, r, s, x);
    }
  }

  lemma OneMore(n: nat, limit: nat)
    ensures (n + 1) * limit == limit + n * limit
  {
  }

  lemma TakenGrows(w: World, r: Round, s: Settings, id: string, pool: set<string>, taken: set<string>, start: int)
    returns (taken': set<string>)
    requires WorldSound(w) && RoundOk(w, r, s) && r.now >= start && Waiting(w, id, taken, start)
    requires Target(w.doc, id).Some? && Eligible(Target(w.doc, id).value, s, r.now) && id !in Picked(w, r, s)
    requires taken <= pool && forall c :: c in Listing(w) && Eligible(c, s, r.now) ==> c.id in pool
    ensures WorldSound(EndOf(w, r)) && Waiting(EndOf(w, r), id, taken', start)
    ensures taken' <= pool && |taken'| == |taken| + Limit(s)
  {
    hide RoundOk, EndOf, Waiting, Eligible, Picked;
    PickedAreNew(w, r, s, id, taken, start);
    PickedWaitBehind(w, r, s, id, taken, start);
    RoundKeepsSound(w, r, s);
    taken' := taken + Picked(w, r, s);
    assert taken !! Picked(w, r, s);
  }

  lemma {:induction false} WaitingIsBounded(w: World, rounds: seq<Round>, s: Settings, id: string,
                                            pool: set<string>, taken: set<string>, start: int)
    requires WorldSound(w) && RoundsOk(w, rounds, s) && Starved(w, rounds, s, id) && WithinPool(w, rounds, s, pool)
    requires ClocksFrom(rounds, start) && Waiting(w, id, taken, start)
    requires id in pool && taken <= pool
    ensures |taken| + |rounds| * Limit(s) < |pool|
    decreases |rounds|
  {
    hide RoundOk, EndOf, Eligible, Picked, Limit;
    if rounds == [] {
      SubsetIsSmaller(taken + {id}, pool);
    } else {
      var taken' := TakenGrows(w, rounds[0], s, id, pool, taken, start);
      forall i | 0 <= i < |rounds[1..]| ensures rounds[1..][i].now >= start {
        assert rounds[i + 1].now >= start;
      }
      WaitingIsBounded(EndOf(w, rounds[0]), rounds[1..], s, id, pool, taken', start);
      OneMore(|rounds[1..]|, Limit(s));
    }
  }

  /** Any ceil(n / limit) consecutive runs over a pool of n inspect every credential
      that stays eligible, even one whose compare-and-swap misses every time. */
  lemma InspectionIsFair(w: World, rounds: seq<Round>, s: Settings, id: string, pool: set<string>)
    requires WorldSound(w) && RoundsOk(w, rounds, s) && WithinPool(w, rounds, s, pool)
    requires rounds != [] && ClocksFrom(rounds, rounds[0].now)
    requires StaysEligible(w, rounds, s, id)
    // The credential's own stamp came from an earlier run.
    requires Target(w.doc, id).value.inspection.at.None? || Target(w.doc, id).value.inspection.at.value < rounds[0].now
    requires |rounds| * Limit(s) >= |pool|
    ensures PickedSometime(w, rounds, s, id)
  {
    hide RoundOk, EndOf, Eligible, Picked, Limit;
    PickedOrStarved(w, rounds, s, id);
    if Starved(w, rounds, s, id) {
      ListingHasAll(w);
      TargetHasId(w.doc, id);
      TargetIsListed(w.doc, id);
      assert id in pool;
      WaitingIsBounded(w, rounds, s, id, pool, {}, rounds[0].now);
      assert false;
    }
  }

  // ---------------------------------------------------------------------------
  // The verdict of one inspection

  datatype Verdict =
    | IsHealthy | IsUnauthorized | Unconfirmed | RateLimited | QuotaExhausted
    | StateChanged | SettingsChanged | HttpError | ProbeError | SystemError | RefreshError

  /** A probe's HTTP status (0 when there is none), its error, and whether the
      credential or route was found changed. */
  datatype Probe = Probe(status: int, failed: bool, invalidated: bool)

  datatype RefreshOutcome = Refreshed | Invalidated | Terminal | System | Transient

  /** What one probe answer settles; None for a plain 401. */
  function Settle(p: Probe): Option<Verdict> {
    if p.invalidated then Some(StateChanged)
    else if p.status == 200 && !p.failed then Some(IsHealthy)
    else if p.status == 429 then Some(RateLimited)
    else if p.status == 402 then Some(QuotaExhausted)
    else if p.status != 401 then Some(if p.status > 0 then HttpError else ProbeError)
    else None
  }

  /** A confirming probe's answer: there a 402 is one more HTTP error. */
  function SettleConfirming(p: Probe): Option<Verdict> {
    if p.status == 402 && !p.invalidated then Some(HttpError) else Settle(p)
  }

  predicate Plain401(p: Probe) {
    p.status == 401 && !p.invalidated
  }

  /** The k-th look is reached: the settings stood still up to it, every look before
      it was a plain 401, and the forced refresh left the question open. */
  predicate Undecided(probes: seq<Probe>, refresh: RefreshOutcome, settings: seq<bool>, k: nat)
    requires k < |probes| && |settings| == |probes| + 1
  {
    && settings[0] && (forall j :: 0 <= j < k ==> Plain401(probes[j]))
    && (k > 0 ==> (refresh == Terminal || refresh == Refreshed) && forall j :: 0 <= j <= k + 1 ==> settings[j])
  }

  function Confirmations(requested: int): (n: nat)
    ensures n >= 2 && n >= requested && (n == 2 || n == requested)
  {
    if requested < 2 then 2 else requested
  }

  /** `settings[k]` is whether the k-th look at the settings revision found it unchanged. */
  method InspectOne(probes: seq<Probe>, refresh: RefreshOutcome, requested: int, settings: seq<bool>) returns (v: Verdict)
    requires |probes| == Confirmations(requested) && |settings| == Confirmations(requested) + 1
    // Unauthorized takes a first 401, a terminal refresh error, and a 401 on every
    // confirming probe, all under one settings revision.
    ensures v == IsUnauthorized <==>
              && (forall k :: 0 <= k < |probes| ==> Plain401(probes[k]))
              && (forall k :: 0 <= k < |settings| ==> settings[k])
              && refresh == Terminal
    ensures v == Unconfirmed <==>
              && (forall k :: 0 <= k < |probes| ==> Plain401(probes[k]))
              && (forall k :: 0 <= k < |settings| ==> settings[k])
              && refresh == Refreshed
    // Only the first probe's 402 counts as a spent quota.
    ensures v == QuotaExhausted <==> settings[0] && probes[0].status == 402 && !probes[0].invalidated
    // The first look that settles anything decides.
    ensures forall k :: 0 <= k < |probes| && Undecided(probes, refresh, settings, k) && !probes[k].invalidated ==>
              && (probes[k].status == 200 && !probes[k].failed ==> v == IsHealthy)
              && (probes[k].status == 429 ==> v == RateLimited)
              && (probes[k].status !in {200, 401, 402, 429} ==> v == if probes[k].status > 0 then HttpError else ProbeError)
              && (probes[k].status == 200 && probes[k].failed ==> v == HttpError)
    ensures forall k :: 0 <= k < |probes| && Undecided(probes, refresh, settings, k) && probes[k].invalidated ==> v == StateChanged
    ensures v == IsHealthy ==>
              exists k :: 0 <= k < |probes| && Undecided(probes, refresh, settings, k)
                && probes[k].status == 200 && !probes[k].failed && !probes[k].invalidated
    ensures settings[0] && Plain401(probes[0]) && settings[1] ==>
              && (refresh == Invalidated ==> v == StateChanged)
              && (refresh == System ==> v == SystemError)
              && (refresh == Transient ==> v == RefreshError)
    ensures !settings[0] || (Plain401(probes[0]) && !settings[1]) ==> v == SettingsChanged
  {
    if !settings[0] {
      return SettingsChanged;
    }
    var first := Settle(probes[0]);
    if first.Some? {
      return first.value;
    }
    if !settings[1] {
      return SettingsChanged;
    }
    var terminal := false;
    match refresh {
      case Invalidated => return StateChanged;
      case System => return SystemError;
      case Transient => return RefreshError;
      case Terminal => terminal := true;
      case Refreshed =>
    }
    var attempt := 1;
    while attempt < Confirmations(requested)
      invariant 1 <= attempt <= Confirmations(requested)
      invariant forall k :: 0 <= k < attempt ==> Plain401(probes[k])
      invariant forall k :: 0 <= k <= attempt ==> settings[k]
    {
      if !settings[attempt + 1] {
        return SettingsChanged;
      }
      var settled := SettleConfirming(probes[attempt]);
      if settled.Some? {
        return settled.value;
      }
      attempt := attempt + 1;
    }
    return if terminal then IsUnauthorized else Unconfirmed;
  }

  // ---------------------------------------------------------------------------
  // From verdicts to actions

  /** One finished inspection: the snapshot last observed and the evidence the run
      started from. */
  datatype Checked = Checked(
    observed: Credential, verdict: Verdict, message: string,
    purgeCandidate: bool, resetEvidence: bool, stalePurgeAfter: Option<int>, stalePrint: Fingerprint)

  /** Evidence of an earlier token pair no longer counts towards a purge. */
  function Judge(listed: Credential, observed: Credential, verdict: Verdict, message: string, now: int): Checked {
    var due := PurgeDue(listed, now);
    var stale := due && (listed.standing.fingerprint == NoPrint || listed.standing.fingerprint != listed.tokens.Digest());
    Checked(observed, verdict, message,
            due && !stale,
            stale && !observed.standing.enabled && !observed.standing.manualDisabled && UnderQuarantine(observed.standing),
            if stale then listed.standing.purgeAfter else None,
            if stale then listed.standing.fingerprint else NoPrint)
  }

  function CountUnauthorized(checked: seq<Checked>): nat {
    if checked == [] then 0
    else CountUnauthorized(checked[..|checked| - 1]) + if checked[|checked| - 1].verdict == IsUnauthorized then 1 else 0
  }

  /** A run in which too large a share failed is not trusted. */
  predicate MassFailure(checked: seq<Checked>, s: Settings) {
    var bad := CountUnauthorized(checked);
    bad >= s.massFailureMinimum && |checked| > 0 && (bad as real) / (|checked| as real) >= s.massFailureRatio
  }

  function StatusText(v: Verdict): string {
    match v
    case IsHealthy => "healthy"
    case IsUnauthorized => "unauthorized"
    case Unconfirmed => "unauthorized_unconfirmed"
    case RateLimited => "rate_limited"
    case QuotaExhausted => "quota_exhausted"
    case StateChanged => "state_changed"
    case SettingsChanged => "settings_changed"
    case HttpError => "http_error"
    case ProbeError => "probe_error"
    case SystemError => "system_error"
    case RefreshError => "refresh_error"
  }

  /** No two verdicts are told alike. */
  lemma StatusNamesVerdict(v: Verdict, w: Verdict)
    ensures StatusText(v) == StatusText(w) ==> v == w
  {
  }

  /** The runner's own cooldowns, in seconds; the quota one may be unset. */
  datatype Cooldowns = Cooldowns(rateLimit: int, quota: int)

  function CooldownFor(v: Verdict, cool: Cooldowns): (seconds: int)
    ensures 0 < seconds
  {
    var wanted := if v == QuotaExhausted && cool.quota > 0 then cool.quota else cool.rateLimit;
    if wanted <= 0 then 60 else wanted
  }

  function BuildAction(c: Checked, guard: bool, s: Settings, now: int, cool: Cooldowns): Action {
    var deadline := if s.purgeAfter > 0 then Some(now + s.purgeAfter) else None;
    var blank := Action(c.observed.id, c.observed.revision, Fail, Some(now), StatusText(c.verdict), c.message,
                        None, None, None, NoPrint, false);
    var base := if c.resetEvidence
      then blank.(resetEvidence := true, expectedPurgeAfter := c.stalePurgeAfter, expectedPrint := c.stalePrint, purgeAfter := deadline)
      else blank;
    match c.verdict
    case IsHealthy => base.(kind := Healthy)
    case IsUnauthorized =>
      if guard then base.(status := "mass_failure_guard", message := "confirmed unauthorized")
      else if c.purgeCandidate then
        base.(kind := Purge, expectedPurgeAfter := c.observed.standing.purgeAfter, expectedPrint := c.observed.tokens.Digest())
      else base.(kind := Quarantine, purgeAfter := if base.purgeAfter.None? then deadline else base.purgeAfter)
    case RateLimited => base.(cooldownUntil := Some(now + CooldownFor(c.verdict, cool)))
    case QuotaExhausted => base.(cooldownUntil := Some(now + CooldownFor(c.verdict, cool)))
    case StateChanged => base.(kind := Attempt)
    case SettingsChanged => base.(kind := Attempt)
    case _ => base
  }

  method BuildActions(checked: seq<Checked>, s: Settings, now: int,
      cool: Cooldowns) returns (actions: seq<Action>, guard: bool)
    ensures guard == MassFailure(checked, s)
    ensures |actions| == |checked|
    ensures forall k :: 0 <= k < |checked| ==> actions[k] == BuildAction(checked[k], guard, s, now, cool)
  {
    var bad, k := 0, 0;
    while k < |checked|
      invariant 0 <= k <= |checked|
      invariant bad == CountUnauthorized(checked[..k])
    {
      assert checked[..k + 1][..k] == checked[..k];
      if checked[k].verdict == IsUnauthorized {
        bad := bad + 1;
      }
      k := k + 1;
    }
    assert checked[..k] == checked;
    guard := bad >= s.massFailureMinimum && |checked| > 0 && (bad as real) / (|checked| as real) >= s.massFailureRatio;
    actions, k := [], 0;
    while k < |checked|
      invariant 0 <= k <= |checked| && |actions| == k
      invariant forall j :: 0 <= j < k ==> actions[j] == BuildAction(checked[j], guard, s, now, cool)
    {
      actions := actions + [BuildAction(checked[k], guard, s, now, cool)];
      k := k + 1;
    }
  }

  /** What each verdict may ask the store for, under what evidence. */
  lemma ActionFollowsVerdict(listed: Credential, observed: Credential, v: Verdict, message: string, guard: bool,
      s: Settings, now: int, cool: Cooldowns)
    ensures var a := BuildAction(Judge(listed, observed, v, message, now), guard, s, now, cool);
            && a.id == observed.id && a.at == Some(now) && a.kind != Unknown && a.expectedRevision == observed.revision
            && (a.kind == Healthy <==> v == IsHealthy)
            && (a.kind == Purge || a.kind == Quarantine ==> v == IsUnauthorized && !guard)
            && (a.kind == Purge ==>
                  PurgeDue(listed, now) && listed.standing.fingerprint == listed.tokens.Digest() && a.expectedPrint == observed.tokens.Digest())
  {
  }

  /** What an action of each kind may do to a stored credential. */
  lemma KindLimits(stored: Credential, a: Action, now: int)
    requires StandingSound(stored.standing)
    ensures var record := Inspect(stored, a, now).record;
            && (record.None? ==> a.kind == Purge && stored.revision == a.expectedRevision && stored.tokens.Digest() == a.expectedPrint)
            && (record.Some? && stored.standing.enabled && !record.value.standing.enabled ==>
                  a.kind == Quarantine && stored.revision == a.expectedRevision)
            && (record.Some? && !stored.standing.enabled && record.value.standing.enabled ==>
                  a.kind == Healthy && stored.revision == a.expectedRevision && !stored.standing.manualDisabled)
  {
    hide ResetEvidence;
    ResetStaysSound(stored, a, now);
  }

  /** Only a confirmed 401 outside a mass failure takes a credential out of use, and
      only one whose listed evidence was due and matched its tokens deletes it. */
  lemma ActionLimits(listed: Credential, observed: Credential, v: Verdict, message: string,
                     guard: bool, s: Settings, now: int, cool: Cooldowns, stored: Credential)
    requires StandingSound(stored.standing)
    ensures var a := BuildAction(Judge(listed, observed, v, message, now), guard, s, now, cool);
            var e := Inspect(stored, a, now);
            && a.at == Some(now) && a.kind != Unknown && (a.kind == Purge ==> PurgeDue(listed, now))
            && (e.record.None? ==>
                  && v == IsUnauthorized && !guard
                  && PurgeDue(listed, now) && listed.standing.fingerprint == listed.tokens.Digest()
                  && stored.revision == observed.revision && stored.tokens.Digest() == observed.tokens.Digest())
            && (e.record.Some? && stored.standing.enabled && !e.record.value.standing.enabled ==>
                  v == IsUnauthorized && !guard && stored.revision == observed.revision)
            && (e.record.Some? && !stored.standing.enabled && e.record.value.standing.enabled ==>
                  v == IsHealthy && stored.revision == observed.revision && !stored.standing.manualDisabled)
  {
    hide BuildAction, Judge, Inspect, PurgeDue, StandingSound;
    ActionFollowsVerdict(listed, observed, v, message, guard, s, now, cool);
    KindLimits(stored, BuildAction(Judge(listed, observed, v, message, now), guard, s, now, cool), now);
  }
}
