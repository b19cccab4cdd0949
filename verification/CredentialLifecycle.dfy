/**
  Whole runs of the credential store: creation, upserts, field patches, admin
  deletion and inspection batches, with the quarantine and purge lifecycle of
  internal/storage/credentials.go.
 */
module CredentialLifecycle {
  import opened Common
  import opened Credentials
  import opened InspectionBatch

  // ---------------------------------------------------------------------------
  // Field patches

  /** The mutations that run under PatchCredential. */
  datatype Patch =
    | SetEnabled(enabled: bool)
    | SetPriority(priority: int)
    | SetRoute(route: Route)
    | RotateTokens(previousRefresh: string, access: string, refresh: string, expiresAt: Option<int>)
    | SetHealth(failureCount: nat, cooldownUntil: Option<int>, lastError: string, lastSuccessAt: Option<int>)
    | SetLastUsed(at: int)
    | SetRateLimit(requests: Option<int>, tokens: Option<int>)

  /** The mutate callback: None when it reports an error, and then nothing is saved. */
  function Mutate(c: Credential, p: Patch): Option<Credential> {
    match p
    case SetEnabled(enabled) =>
      if enabled then Some(c.(standing := IN_USE, inspection := c.inspection.(unauthorized := 0)))
      else Some(c.(standing := c.standing.(enabled := false, manualDisabled := true, reason := Manual)))
    case SetPriority(priority) => Some(c.(priority := priority))
    case SetRoute(route) => Some(c.(route := route))
    case RotateTokens(previous, access, refresh, expiresAt) =>
      if c.tokens.refresh != previous then None
      else Some(c.(tokens := Tokens(access, FirstNonEmpty(refresh, c.tokens.refresh),
                                    if expiresAt.Some? then expiresAt else c.tokens.expiresAt)))
    case SetHealth(failureCount, cooldownUntil, lastError, lastSuccessAt) =>
      Some(c.(health := c.health.(failureCount := failureCount, cooldownUntil := cooldownUntil, lastError := lastError,
              lastSuccessAt := if lastSuccessAt.Some? then lastSuccessAt else c.health.lastSuccessAt)))
    case SetLastUsed(at) => Some(c.(health := c.health.(lastUsedAt := Some(at))))
    case SetRateLimit(requests, tokens) =>
      Some(c.(health := c.health.(remainingRequests := requests, remainingTokens := tokens)))
  }

  function PatchRecord(c: Credential, p: Patch, now: int): Option<Credential> {
    var next := Mutate(c, p);
    if next.None? then None
    else Some(next.value.(id := c.id, createdAt := c.createdAt, revision := c.revision + 1, updatedAt := now))
  }

  /** A patch writes its own fields and the bookkeeping, and nothing else; a rotation
      only goes onto the refresh token it came from. */
  lemma PatchWrites(c: Credential, p: Patch, now: int)
    ensures PatchRecord(c, p, now).None? <==> p.RotateTokens? && c.tokens.refresh != p.previousRefresh
    ensures PatchRecord(c, p, now).Some? ==>
              var n := PatchRecord(c, p, now).value;
              && n.id == c.id && n.createdAt == c.createdAt && n.revision == c.revision + 1 && n.updatedAt == now && n.who == c.who
              && (!p.SetEnabled? ==> n.standing == c.standing && n.inspection == c.inspection)
              && (!p.SetPriority? ==> n.priority == c.priority) && (!p.SetRoute? ==> n.route == c.route)
              && (!p.RotateTokens? ==> n.tokens == c.tokens)
              && (!p.SetHealth? && !p.SetLastUsed? && !p.SetRateLimit? ==> n.health == c.health)
              && match p
                 case SetEnabled(true) => n.standing == Standing(true, false, Active, NoReason, None, None, NoPrint) && n.inspection.unauthorized == 0
                 case SetEnabled(false) => !n.standing.enabled && n.standing.manualDisabled && n.standing.reason == Manual
                                           && n.standing.fingerprint == c.standing.fingerprint && n.standing.purgeAfter == c.standing.purgeAfter
                 case SetPriority(priority) => n.priority == priority
                 case SetRoute(route) => n.route == route
                 case RotateTokens(_, access, refresh, expiresAt) =>
                   && n.tokens.access == access && Brought(refresh, c.tokens.refresh, n.tokens.refresh)
                   && (expiresAt.Some? ==> n.tokens.expiresAt == expiresAt) && (expiresAt.None? ==> n.tokens.expiresAt == c.tokens.expiresAt)
                 case SetHealth(failures, until, error, success) =>
                   && n.health.failureCount == failures && n.health.cooldownUntil == until && n.health.lastError == error
                   && n.health.lastUsedAt == c.health.lastUsedAt && n.health.remainingRequests == c.health.remainingRequests
                   && (success.Some? ==> n.health.lastSuccessAt == success) && (success.None? ==> n.health.lastSuccessAt == c.health.lastSuccessAt)
                 case SetLastUsed(at) => n.health == c.health.(lastUsedAt := Some(at))
                 case SetRateLimit(requests, tokens) =>
                   n.health.remainingRequests == requests && n.health.remainingTokens == tokens
                   && n.health.cooldownUntil == c.health.cooldownUntil && n.health.failureCount == c.health.failureCount
  {
  }

  /** PatchCredential: the first record with this id; None when there is none or
      the callback failed. */
  function PatchDoc(doc: seq<Credential>, id: string, p: Patch, now: int): Option<seq<Credential>> {
    if doc == [] then None
    else if doc[0].id == id then
      var next := PatchRecord(doc[0], p, now);
      if next.None? then None else Some([next.value] + doc[1..])
    else
      var rest := PatchDoc(doc[1..], id, p, now);
      if rest.None? then None else Some([doc[0]] + rest.value)
  }

  function DeleteDoc(doc: seq<Credential>, id: string): seq<Credential> {
    if doc == [] then []
    else if doc[0].id == id then DeleteDoc(doc[1..], id) else [doc[0]] + DeleteDoc(doc[1..], id)
  }

  // ---------------------------------------------------------------------------
  // Runs

  datatype Event =
    | Create(input: Input, id: string, now: int)
    | Import(input: Input, id: string, now: int)
    | PatchOne(id: string, patch: Patch, now: int)
    | Remove(id: string)
    | InspectBatch(actions: seq<Action>, now: int)

  /** The file, and for each id the token pair it held when its quarantine
      evidence was last recorded. */
  datatype Book = Book(doc: seq<Credential>, recorded: map<string, Fingerprint>)

  predicate MatchesSome(doc: seq<Credential>, i: Input) {
    FirstMatch(doc, i) < |doc|
  }

  /** The ids the store generates are new, and a batch names each id once. */
  predicate Enabled(doc: seq<Credential>, e: Event) {
    match e
    case Create(i, id, now) => Target(doc, id).None?
    case Import(i, id, now) => Target(doc, id).None?
    case InspectBatch(actions, now) => DistinctIds(actions)
    case _ => true
  }

  /** What the operation hands to the save; an operation that fails saves nothing. */
  function Written(doc: seq<Credential>, e: Event): seq<Credential> {
    match e
    case Create(i, id, now) => if MatchesSome(doc, i) then doc else doc + [NewCredential(i, id, now)]
    case Import(i, id, now) => Upsert(doc, i, id, now)
    case PatchOne(id, p, now) =>
      var next := PatchDoc(doc, id, p, now);
      if next.Some? then next.value else doc
    case Remove(id) => DeleteDoc(doc, id)
    case InspectBatch(actions, now) => Fold(doc, actions, now)
  }

  function NextDoc(doc: seq<Credential>, e: Event): seq<Credential> {
    NormalizeAll(Written(doc, e))
  }

  /** Quarantine evidence appeared or was replaced. */
  predicate Recorded(before: Option<Credential>, after: Credential) {
    after.standing.fingerprint != NoPrint &&
    (before.None? ||
     before.value.standing.fingerprint != after.standing.fingerprint ||
     before.value.standing.quarantinedAt != after.standing.quarantinedAt)
  }

  function NextRecorded(recorded: map<string, Fingerprint>, before: seq<Credential>,
      after: seq<Credential>): map<string, Fingerprint>
    decreases |after|
  {
    if after == [] then recorded
    else
      var rest := NextRecorded(recorded, before, after[1..]);
      if Target(after[1..], after[0].id).None? && Recorded(Target(before, after[0].id), after[0])
      then rest[after[0].id := after[0].tokens.Digest()] else rest
  }

  function Next(b: Book, e: Event): Book {
    var doc := NextDoc(b.doc, e);
    Book(doc, NextRecorded(b.recorded, b.doc, doc))
  }

  function Run(b: Book, events: seq<Event>): Book
    decreases |events|
  {
    if events == [] then b else Run(Next(b, events[0]), events[1..])
  }

  predicate EnabledRun(b: Book, events: seq<Event>)
    decreases |events|
  {
    events == [] || (Enabled(b.doc, events[0]) && EnabledRun(Next(b, events[0]), events[1..]))
  }

  const EMPTY_BOOK := Book([], map[])

  // ---------------------------------------------------------------------------
  // What every step does to one record

  predicate DistinctDoc(doc: seq<Credential>) {
    doc == [] || (Target(doc[1..], doc[0].id).None? && DistinctDoc(doc[1..]))
  }

  /** How one event may change the record of an id. */
  ghost predicate StepOf(e: Event, id: string, before: Option<Credential>, after: Option<Credential>) {
    || after == before
    || (e.Create? && before.None? && after == Some(NewCredential(e.input, e.id, e.now)))
    || (e.Import? && before.None? && after == Some(NewCredential(e.input, e.id, e.now)))
    || (e.Import? && before.Some? && after == Some(MergeInput(before.value, e.input, e.now)))
    || (e.PatchOne? && e.id == id && before.Some? && after.Some? && after == PatchRecord(before.value, e.patch, e.now))
    || (e.Remove? && e.id == id && after.None?)
    || (e.InspectBatch? && before.Some? &&
        exists a :: a in e.actions && a.id == id && after == Inspect(before.value, a, e.now).record)
  }

  lemma {:induction false} AppendTarget(doc: seq<Credential>, c: Credential, id: string)
    ensures Target(doc + [c], id) == if c.id == id then Some(c) else Target(doc, id)
    ensures DistinctDoc(doc) && Target(doc, c.id).None? ==> DistinctDoc(doc + [c])
  {
    if doc == [] {
      assert doc + [c] == [c];
      assert Target([c][1..], id).None?;
    } else {
      assert (doc + [c])[1..] == doc[1..] + [c];
      AppendTarget(doc[1..], c, id);
      AppendTarget(doc[1..], c, doc[0].id);
    }
  }

  lemma {:induction false} UpdateTarget(doc: seq<Credential>, k: nat, c: Credential, id: string)
    requires k < |doc| && c.id == doc[k].id && DistinctDoc(doc)
    ensures Target(doc, doc[k].id) == Some(doc[k])
    ensures Target(doc[k := c], id) == if c.id == id then Some(c) else Target(doc, id)
    ensures DistinctDoc(doc[k := c])
  {
    if k == 0 {
      assert doc[0 := c][1..] == doc[1..];
    } else {
      assert doc[k := c][1..] == doc[1..][k - 1 := c];
      UpdateTarget(doc[1..], k - 1, c, id);
      UpdateTarget(doc[1..], k - 1, c, doc[0].id);
    }
  }

  lemma {:induction false} PatchTarget(doc: seq<Credential>, p: Patch, now: int, patched: string, id: string)
    requires DistinctDoc(doc) && PatchDoc(doc, patched, p, now).Some?
    ensures var next := PatchDoc(doc, patched, p, now).value;
            && DistinctDoc(next)
            && Target(doc, patched).Some? && PatchRecord(Target(doc, patched).value, p, now).Some?
            && Target(next, id) == if id == patched then PatchRecord(Target(doc, patched).value, p, now) else Target(doc, id)
  {
    var next := PatchDoc(doc, patched, p, now).value;
    TargetHasId(doc[1..], doc[0].id);
    if doc[0].id == patched {
      assert next[1..] == doc[1..];
    } else {
      PatchTarget(doc[1..], p, now, patched, id);
      PatchTarget(doc[1..], p, now, patched, doc[0].id);
      assert next[1..] == PatchDoc(doc[1..], patched, p, now).value;
    }
  }

  lemma {:induction false} DeleteTarget(doc: seq<Credential>, removed: string, id: string)
    requires DistinctDoc(doc)
    ensures DistinctDoc(DeleteDoc(doc, removed))
    ensures Target(DeleteDoc(doc, removed), id) == if id == removed then None else Target(doc, id)
  {
    if doc != [] {
      DeleteTarget(doc[1..], removed, id);
      DeleteTarget(doc[1..], removed, doc[0].id);
      var next := DeleteDoc(doc, removed);
      if doc[0].id != removed {
        assert next[1..] == DeleteDoc(doc[1..], removed);
      }
    }
  }

  lemma {:induction false} ApplyOneTarget(doc: seq<Credential>, a: Action, now: int)
    requires DistinctDoc(doc)
    ensures DistinctDoc(ApplyOne(doc, a, now))
    ensures Target(doc, a.id).None? ==> ApplyOne(doc, a, now) == doc
    ensures Target(doc, a.id).Some? ==> Target(ApplyOne(doc, a, now), a.id) == Inspect(Target(doc, a.id).value, a, now).record
  {
    hide Inspect;
    if doc != [] {
      var next := ApplyOne(doc, a, now);
      ApplyOneTarget(doc[1..], a, now);
      TargetHasId(doc[1..], a.id);
      if Target(doc[1..], a.id).Some? {
        assert next[1..] == ApplyOne(doc[1..], a, now);
        OtherTargetStays(doc[1..], a, now, doc[0].id);
      } else if doc[0].id == a.id {
        InspectKeepsId(doc[0], a, now);
        var record := Inspect(doc[0], a, now).record;
        if record.Some? {
          assert next[1..] == doc[1..];
        }
      }
    }
  }

  lemma {:induction false} FoldTarget(doc: seq<Credential>, actions: seq<Action>, now: int, id: string)
    requires DistinctDoc(doc) && DistinctIds(actions)
    ensures DistinctDoc(Fold(doc, actions, now))
    ensures Target(Fold(doc, actions, now), id) == Target(doc, id) ||
            (Target(doc, id).Some? &&
             exists a :: a in actions && a.id == id && Target(Fold(doc, actions, now), id) == Inspect(Target(doc, id).value, a, now).record)
    ensures (forall a :: a in actions ==> a.id != id) ==> Target(Fold(doc, actions, now), id) == Target(doc, id)
    decreases |actions|
  {
    hide Inspect;
    if actions != [] {
      var a, next := actions[0], ApplyOne(doc, actions[0], now);
      ApplyOneTarget(doc, a, now);
      FoldTarget(next, actions[1..], now, id);
      if a.id != id {
        OtherTargetStays(doc, a, now, id);
      } else {
        forall b | b in actions[1..] ensures b.id != id {
          var j :| 0 <= j < |actions[1..]| && actions[1..][j] == b;
          assert actions[j + 1] == b;
        }
      }
    }
  }

  lemma MatchedTarget(doc: seq<Credential>, i: Input, newId: string, now: int, id: string)
    requires DistinctDoc(doc) && Target(doc, newId).None?
    ensures DistinctDoc(Upsert(doc, i, newId, now))
    ensures StepOf(Import(i, newId, now), id, Target(doc, id), Target(Upsert(doc, i, newId, now), id))
  {
    var k := FirstMatch(doc, i);
    if k < |doc| {
      UpdateTarget(doc, k, MergeInput(doc[k], i, now), id);
    } else {
      AppendTarget(doc, NewCredential(i, newId, now), id);
    }
  }

  /** Every event leaves a record as it was, or changes it in the one way its kind allows. */
  lemma EventEffect(doc: seq<Credential>, e: Event, id: string)
    requires DistinctDoc(doc) && Enabled(doc, e)
    ensures DistinctDoc(NextDoc(doc, e)) && Normal(NextDoc(doc, e))
    ensures var written := Target(Written(doc, e), id);
            && StepOf(e, id, Target(doc, id), written)
            && Target(NextDoc(doc, e), id) == Saved(written)
  {
    WrittenEffect(doc, e, id);
    SavedTarget(Written(doc, e), id);
    NormalizeTwice(Written(doc, e));
  }

  function Saved(written: Option<Credential>): Option<Credential> {
    if written.Some? then Some(Normalize(written.value)) else None
  }

  lemma {:induction false} SavedTarget(doc: seq<Credential>, id: string)
    ensures Target(NormalizeAll(doc), id) == Saved(Target(doc, id))
    ensures DistinctDoc(doc) ==> DistinctDoc(NormalizeAll(doc))
    ensures Normal(doc) && Target(doc, id).Some? ==> Normalize(Target(doc, id).value) == Target(doc, id).value
  {
    if doc != [] {
      assert NormalizeAll(doc)[1..] == NormalizeAll(doc[1..]);
      assert NormalizeAll(doc)[0] == Normalize(doc[0]);
      SavedTarget(doc[1..], id);
      SavedTarget(doc[1..], doc[0].id);
    }
  }

  lemma WrittenEffect(doc: seq<Credential>, e: Event, id: string)
    requires DistinctDoc(doc) && Enabled(doc, e)
    ensures DistinctDoc(Written(doc, e))
    ensures StepOf(e, id, Target(doc, id), Target(Written(doc, e), id))
  {
    hide Inspect, MergeInput, NewCredential, PatchRecord;
    match e
    case Create(i, newId, now) => NewCredentialId(i, newId, now); AppendTarget(doc, NewCredential(i, newId, now), id);
    case Import(i, newId, now) => MatchedTarget(doc, i, newId, now, id);
    case PatchOne(patched, p, now) =>
      if PatchDoc(doc, patched, p, now).Some? {
        PatchTarget(doc, p, now, patched, id);
        PatchTarget(doc, p, now, patched, patched);
      }
    case Remove(removed) => DeleteTarget(doc, removed, id);
    case InspectBatch(actions, now) => FoldTarget(doc, actions, now, id);
  }

  lemma NewCredentialId(i: Input, id: string, now: int)
    ensures NewCredential(i, id, now).id == id
  {
  }

  // ---------------------------------------------------------------------------
  // The lifecycle invariant

  ghost predicate NoEvidence(st: Standing) {
    st.quarantinedAt.None? && st.purgeAfter.None? && st.fingerprint == NoPrint
  }

  /** In use means active without evidence; out of use means by an operator, or
      quarantined for invalid auth with the evidence on record. */
  ghost predicate StandingSound(st: Standing) {
    if st.enabled then st.state == Active && st.reason == NoReason && !st.manualDisabled && NoEvidence(st)
    else if st.manualDisabled then st.reason == Manual && st.state != Unset
    else UnderQuarantine(st) && st.quarantinedAt.Some? && st.fingerprint != NoPrint
  }

  ghost predicate RecordSound(c: Credential, recorded: map<string, Fingerprint>) {
    && StandingSound(c.standing)
    && (c.standing.fingerprint != NoPrint ==> c.id in recorded && c.standing.fingerprint == recorded[c.id])
  }

  ghost predicate BookSound(b: Book) {
    && DistinctDoc(b.doc) && Normal(b.doc)
    && forall id :: Target(b.doc, id).Some? ==> RecordSound(Target(b.doc, id).value, b.recorded)
  }

  lemma ResetStaysSound(c: Credential, a: Action, now: int)
    requires StandingSound(c.standing)
    ensures var d := ResetEvidence(c, a, now);
            && StandingSound(d.standing)
            && d == c.(standing := d.standing)
            && d.standing.enabled == c.standing.enabled && d.standing.manualDisabled == c.standing.manualDisabled
            && (d.standing == c.standing ||
                (UnderQuarantine(c.standing) && UnderQuarantine(d.standing) && d.standing.fingerprint == c.tokens.Digest() &&
                 c.standing.purgeAfter == a.expectedPurgeAfter && c.standing.fingerprint == a.expectedPrint))
  {
  }

  lemma InspectStaysSound(c: Credential, a: Action, now: int)
    requires StandingSound(c.standing) && Inspect(c, a, now).record.Some?
    ensures var d := Inspect(c, a, now).record.value;
            && StandingSound(d.standing)
            && (Recorded(Some(c), d) ==> d.standing.fingerprint == d.tokens.Digest())
  {
    hide ResetEvidence;
    ResetStaysSound(c, a, now);
  }

  /** An inspection removes only what it may purge, never what an operator
      disabled, and raises the revision of everything it changes. */
  lemma InspectLimits(c: Credential, a: Action, now: int)
    requires StandingSound(c.standing)
    ensures var record := Inspect(c, a, now).record;
            && (record.None? ==>
                  && !c.standing.enabled && !c.standing.manualDisabled && UnderQuarantine(c.standing)
                  && c.standing.purgeAfter.Some? && c.standing.purgeAfter.value <= now
                  && c.standing.fingerprint == c.tokens.Digest())
            && (record.Some? && c.standing.manualDisabled ==> !record.value.standing.enabled && record.value.standing.manualDisabled)
  {
    hide ResetEvidence;
    ResetStaysSound(c, a, now);
  }

  lemma InspectRaisesRevision(c: Credential, a: Action, now: int)
    ensures var record := Inspect(c, a, now).record;
            record.Some? ==> record.value == c || record.value.revision == c.revision + 1
  {
  }

  lemma SavedKeepsStanding(c: Credential)
    requires StandingSound(c.standing)
    ensures var d := Normalize(c);
            d.standing == c.standing && d.tokens == c.tokens && d.id == c.id && d.revision == c.revision
  {
  }

  lemma OtherStepsStaySound(e: Event, id: string, before: Option<Credential>, after: Option<Credential>)
    requires StepOf(e, id, before, after) && !e.InspectBatch? && after.Some?
    requires before.Some? ==> StandingSound(before.value.standing)
    requires after != before
    ensures StandingSound(after.value.standing)
    ensures !Recorded(before, after.value)
  {
  }

  lemma {:induction false} RecordedLookup(recorded: map<string, Fingerprint>, before: seq<Credential>,
      after: seq<Credential>, id: string)
    ensures var next := NextRecorded(recorded, before, after);
            var c := Target(after, id);
            && (c.Some? && Recorded(Target(before, id), c.value) ==> id in next && next[id] == c.value.tokens.Digest())
            && (c.None? || !Recorded(Target(before, id), c.value) ==> (id in next <==> id in recorded) && (id in next ==> next[id] == recorded[id]))
    decreases |after|
  {
    if after != [] {
      RecordedLookup(recorded, before, after[1..], id);
      TargetHasId(after[1..], id);
    }
  }

  lemma WrittenStaysSound(b: Book, e: Event, id: string)
    requires BookSound(b) && Enabled(b.doc, e) && Target(Written(b.doc, e), id).Some?
    ensures var before, written := Target(b.doc, id), Target(Written(b.doc, e), id).value;
            && StandingSound(written.standing)
            && (Recorded(before, written) ==> written.standing.fingerprint == written.tokens.Digest())
  {
    hide Inspect, MergeInput, NewCredential, PatchRecord, Normalize;
    var before, written := Target(b.doc, id), Target(Written(b.doc, e), id);
    WrittenEffect(b.doc, e, id);
    if before.Some? {
      assert RecordSound(before.value, b.recorded);
    }
    if written != before {
      if e.InspectBatch? {
        var a :| a in e.actions && a.id == id && written == Inspect(before.value, a, e.now).record;
        InspectStaysSound(before.value, a, e.now);
      } else {
        OtherStepsStaySound(e, id, before, written);
      }
    }
  }

  lemma NextStaysSound(b: Book, e: Event, id: string)
    requires BookSound(b) && Enabled(b.doc, e) && Target(Next(b, e).doc, id).Some?
    ensures RecordSound(Target(Next(b, e).doc, id).value, Next(b, e).recorded)
  {
    hide StepOf, Normalize;
    EventEffect(b.doc, e, id);
    WrittenStaysSound(b, e, id);
    SavedKeepsStanding(Target(Written(b.doc, e), id).value);
    RecordedLookup(b.recorded, b.doc, NextDoc(b.doc, e), id);
    TargetHasId(NextDoc(b.doc, e), id);
    if Target(b.doc, id).Some? {
      assert RecordSound(Target(b.doc, id).value, b.recorded);
      TargetHasId(b.doc, id);
    }
  }

  lemma {:induction false} RunStaysSound(b: Book, events: seq<Event>)
    requires BookSound(b) && EnabledRun(b, events)
    ensures BookSound(Run(b, events))
    decreases |events|
  {
    if events != [] {
      var next := Next(b, events[0]);
      forall id | Target(next.doc, id).Some? ensures RecordSound(Target(next.doc, id).value, next.recorded) {
        NextStaysSound(b, events[0], id);
      }
      EventEffect(b.doc, events[0], "");
      RunStaysSound(next, events[1..]);
    }
  }

  /** Over every run of the store: an enabled credential is active and carries no
      quarantine evidence, a disabled one is an operator's or is quarantined for
      invalid auth. */
  lemma LifecycleSound(events: seq<Event>, id: string)
    requires EnabledRun(EMPTY_BOOK, events) && Target(Run(EMPTY_BOOK, events).doc, id).Some?
    ensures StandingSound(Target(Run(EMPTY_BOOK, events).doc, id).value.standing)
  {
    RunStaysSound(EMPTY_BOOK, events);
    assert RecordSound(Target(Run(EMPTY_BOOK, events).doc, id).value, Run(EMPTY_BOOK, events).recorded);
  }

  /** What an operator does to this id on purpose. */
  predicate ByOperator(e: Event, id: string) {
    (e.PatchOne? && e.id == id && e.patch.SetEnabled?) || (e.Remove? && e.id == id)
  }

  /** Neither an import, a refresh nor an inspection ever enables or deletes a
      credential an operator disabled. */
  lemma AutomationSparesManual(b: Book, e: Event, id: string)
    requires BookSound(b) && Enabled(b.doc, e) && !ByOperator(e, id)
    requires Target(b.doc, id).Some? && Target(b.doc, id).value.standing.manualDisabled
    ensures var after := Target(Next(b, e).doc, id);
            after.Some? && !after.value.standing.enabled && after.value.standing.manualDisabled
  {
    hide Inspect, Normalize;
    var before, written := Target(b.doc, id), Target(Written(b.doc, e), id);
    assert RecordSound(before.value, b.recorded);
    EventEffect(b.doc, e, id);
    if e.InspectBatch? && written != before {
      var a :| a in e.actions && a.id == id && written == Inspect(before.value, a, e.now).record;
      InspectLimits(before.value, a, e.now);
    }
    if written.Some? {
      WrittenStaysSound(b, e, id);
      SavedKeepsStanding(written.value);
    }
  }

  /** A record only ever disappears by an operator's deletion or by a purge; and a
      purged credential was quarantined by automation, its deadline had passed, and
      it held the very token pair it had when its evidence was last recorded. */
  lemma PurgeSafe(events: seq<Event>, e: Event, id: string)
    requires EnabledRun(EMPTY_BOOK, events)
    requires Enabled(Run(EMPTY_BOOK, events).doc, e)
    requires var b := Run(EMPTY_BOOK, events); Target(b.doc, id).Some? && Target(Next(b, e).doc, id).None?
    requires !(e.Remove? && e.id == id)
    ensures var b := Run(EMPTY_BOOK, events);
            var c := Target(b.doc, id).value;
            && e.InspectBatch?
            && !c.standing.enabled && !c.standing.manualDisabled && UnderQuarantine(c.standing)
            && c.standing.purgeAfter.Some? && c.standing.purgeAfter.value <= e.now
            && id in b.recorded && b.recorded[id] == c.tokens.Digest()
  {
    hide Inspect, MergeInput, NewCredential, PatchRecord;
    var b := Run(EMPTY_BOOK, events);
    RunStaysSound(EMPTY_BOOK, events);
    var c := Target(b.doc, id).value;
    assert RecordSound(c, b.recorded);
    TargetHasId(b.doc, id);
    EventEffect(b.doc, e, id);
    var a :| a in e.actions && a.id == id && Inspect(c, a, e.now).record.None?;
    InspectLimits(c, a, e.now);
  }

  /** Every event that changes a record raises its revision, so a revision names
      one version of the record's contents. */
  lemma ChangeRaisesRevision(doc: seq<Credential>, e: Event, id: string)
    requires DistinctDoc(doc) && Normal(doc) && Enabled(doc, e)
    requires Target(doc, id).Some? && Target(NextDoc(doc, e), id).Some?
    ensures var before, after := Target(doc, id).value, Target(NextDoc(doc, e), id).value;
            after == before || after.revision == before.revision + 1
  {
    hide Inspect;
    var before, written := Target(doc, id), Target(Written(doc, e), id);
    EventEffect(doc, e, id);
    SavedTarget(doc, id);
    if e.InspectBatch? && written != before {
      var a :| a in e.actions && a.id == id && written == Inspect(before.value, a, e.now).record;
      InspectRaisesRevision(before.value, a, e.now);
    }
  }
}
