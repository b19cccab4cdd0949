/**
  Batch application of inspection actions in internal/storage/credentials.go: a
  compare-and-swap per record, deletions deferred to the end of the batch, and
  the proof that the batch is the one-action step folded in any order.
 */
module InspectionBatch {
  import opened Common
  import opened Credentials

  datatype ActionKind = Healthy | Fail | Quarantine | Purge | Attempt | Unknown

  datatype Action = Action(
    id: string, expectedRevision: nat, kind: ActionKind, at: Option<int>, status: string, message: string,
    purgeAfter: Option<int>, cooldownUntil: Option<int>,
    expectedPurgeAfter: Option<int>, expectedPrint: Fingerprint, resetEvidence: bool)

  datatype ActionResult = ActionResult(
    id: string, kind: ActionKind, applied: bool, deleted: bool,
    reactivated: bool, quarantined: bool, attemptRecorded: bool)

  /** What an action does to the record it found: None removes it. */
  datatype Effect = Effect(record: Option<Credential>, result: ActionResult)

  function NoResult(a: Action): ActionResult {
    ActionResult(a.id, a.kind, false, false, false, false, false)
  }

  function When(a: Action, now: int): int {
    if a.at.Some? then a.at.value else now
  }

  predicate UnderQuarantine(st: Standing) {
    st.state == Quarantined && st.reason == InvalidAuth
  }

  /** The stale evidence the action expected is replaced by fresh evidence. */
  function ResetEvidence(c: Credential, a: Action, now: int): Credential {
    var st := c.standing;
    if a.resetEvidence && !st.enabled && !st.manualDisabled && UnderQuarantine(st) &&
       st.purgeAfter == a.expectedPurgeAfter && st.fingerprint == a.expectedPrint
    then c.(standing := st.(quarantinedAt := Some(When(a, now)), purgeAfter := a.purgeAfter, fingerprint := c.tokens.Digest()))
    else c
  }

  predicate MayPurge(c: Credential, a: Action, now: int) {
    var st := c.standing;
    && a.expectedPurgeAfter.Some? && a.expectedPrint != NoPrint
    && !st.manualDisabled && !st.enabled && UnderQuarantine(st)
    && st.purgeAfter == a.expectedPurgeAfter && st.purgeAfter.value <= now
    && st.fingerprint == a.expectedPrint
    && c.tokens.Digest() == a.expectedPrint
  }

  function Stamp(c: Credential, revision: nat, now: int): Credential {
    c.(revision := revision + 1, updatedAt := now)
  }

  function QuarantineStanding(c: Credential, a: Action, now: int): Standing {
    var st := c.standing;
    Standing(false, st.manualDisabled, Quarantined, InvalidAuth,
             if st.quarantinedAt.None? then Some(When(a, now)) else st.quarantinedAt,
             if st.purgeAfter.None? then a.purgeAfter else st.purgeAfter,
             if st.fingerprint == NoPrint then c.tokens.Digest() else st.fingerprint)
  }

  /** One action against the record it addresses. */
  function Inspect(found: Credential, a: Action, now: int): Effect {
    var at := When(a, now);
    var miss := NoResult(a);
    if found.revision != a.expectedRevision then
      // A miss records only that the inspection was attempted.
      var seen := found.inspection.(at := Some(at), status := "state_changed", error := "credential changed during inspection");
      Effect(Some(Stamp(found.(inspection := seen), found.revision, now)), miss.(attemptRecorded := true))
    else
      var c := ResetEvidence(found, a, now);
      match a.kind
      case Healthy =>
        var revived := UnderQuarantine(c.standing) && !c.standing.manualDisabled;
        var standing := if revived then IN_USE else c.standing;
        Effect(Some(Stamp(c.(standing := standing, inspection := Inspection(Some(at), "healthy", "", 0)), c.revision, now)),
               miss.(applied := true, reactivated := revived))
      case Attempt =>
        var seen := c.inspection.(at := Some(at), status := a.status, error := a.message);
        Effect(Some(Stamp(c.(inspection := seen), c.revision, now)), miss.(applied := true))
      case Fail =>
        var count := if a.status == "mass_failure_guard" then c.inspection.unauthorized + 1
                     else if a.status != "unauthorized" then 0 else c.inspection.unauthorized;
        var health := if a.cooldownUntil.Some? then c.health.(cooldownUntil := a.cooldownUntil) else c.health;
        Effect(Some(Stamp(c.(health := health, inspection := Inspection(Some(at), a.status, a.message, count)), c.revision, now)),
               miss.(applied := true))
      case Quarantine =>
        if c.standing.manualDisabled then Effect(Some(found), miss)
        else
          var seen := Inspection(Some(at), "unauthorized", "confirmed unauthorized", c.inspection.unauthorized + 1);
          Effect(Some(Stamp(c.(standing := QuarantineStanding(c, a, now), inspection := seen), c.revision, now)),
                 miss.(applied := true, quarantined := !UnderQuarantine(c.standing)))
      case Purge =>
        if MayPurge(c, a, now) then Effect(None, miss.(applied := true, deleted := true)) else Effect(Some(found), miss)
      case Unknown => Effect(Some(found), miss)
  }

  /** A compare-and-swap miss leaves everything but the scheduling stamp alone. */
  lemma MissTouchesOnlyScheduling(c: Credential, a: Action, now: int)
    requires c.revision != a.expectedRevision
    ensures var e := Inspect(c, a, now);
            && e.record.Some?
            && e.record.value.inspection.at == Some(When(a, now))
            && e.record.value.inspection.status == "state_changed"
            && e.record.value.inspection.unauthorized == c.inspection.unauthorized
            && e.record.value.(inspection := c.inspection, updatedAt := c.updatedAt, revision := c.revision) == c
            && e.record.value.revision == c.revision + 1
            && !e.result.applied && !e.result.deleted && e.result.attemptRecorded
  {
  }

  /** What a result reports is what became of the record: deleted, newly under
      quarantine, or let out of it; and when it reports nothing, nothing changed. */
  lemma ResultTells(c: Credential, a: Action, now: int)
    ensures var e := Inspect(c, a, now);
            var jailed := c.standing.state == Quarantined && c.standing.reason == InvalidAuth;
            var jails := e.record.Some? && e.record.value.standing.state == Quarantined && e.record.value.standing.reason == InvalidAuth;
            && e.result.id == a.id && e.result.kind == a.kind
            && (e.result.deleted <==> e.record.None?)
            && (e.result.quarantined <==> jails && !jailed)
            && (e.result.reactivated <==> jailed && !jails && e.record.Some?)
            && (e.result.attemptRecorded <==> c.revision != a.expectedRevision)
            && (!e.result.applied && !e.result.attemptRecorded <==> e.record == Some(c))
            && !(e.result.applied && e.result.attemptRecorded)
  {
    hide MayPurge;
    ResetKeepsState(c, a, now);
    hide ResetEvidence;
  }

  lemma ResetKeepsState(c: Credential, a: Action, now: int)
    ensures var reset := ResetEvidence(c, a, now);
            && reset.(standing := c.standing) == c
            && reset.standing.(quarantinedAt := c.standing.quarantinedAt, purgeAfter := c.standing.purgeAfter,
                               fingerprint := c.standing.fingerprint) == c.standing
  {
  }

  // ---------------------------------------------------------------------------
  // The one-action step and its fold

  predicate HasId(doc: seq<Credential>, id: string) {
    exists k :: 0 <= k < |doc| && doc[k].id == id
  }

  /** The record an id addresses: the last one that carries it. */
  function Target(doc: seq<Credential>, id: string): Option<Credential> {
    if doc == [] then None
    else if Target(doc[1..], id).Some? then Target(doc[1..], id)
    else if doc[0].id == id then Some(doc[0])
    else None
  }

  function Put(record: Option<Credential>, rest: seq<Credential>): seq<Credential> {
    match record
    case None => rest
    case Some(c) => [c] + rest
  }

  /** A batch of one. */
  function ApplyOne(doc: seq<Credential>, a: Action, now: int): seq<Credential> {
    if doc == [] then []
    else if Target(doc[1..], a.id).Some? then [doc[0]] + ApplyOne(doc[1..], a, now)
    else if doc[0].id == a.id then Put(Inspect(doc[0], a, now).record, doc[1..])
    else doc
  }

  function ResultOne(doc: seq<Credential>, a: Action, now: int): ActionResult {
    var target := Target(doc, a.id);
    if target.Some? then Inspect(target.value, a, now).result else NoResult(a)
  }

  function Fold(doc: seq<Credential>, actions: seq<Action>, now: int): seq<Credential>
    decreases |actions|
  {
    if actions == [] then doc else Fold(ApplyOne(doc, actions[0], now), actions[1..], now)
  }

  function FoldResults(doc: seq<Credential>, actions: seq<Action>, now: int): seq<ActionResult>
    decreases |actions|
  {
    if actions == [] then []
    else [ResultOne(doc, actions[0], now)] + FoldResults(ApplyOne(doc, actions[0], now), actions[1..], now)
  }

  predicate DistinctIds(actions: seq<Action>) {
    forall i, j :: 0 <= i < j < |actions| ==> actions[i].id != actions[j].id
  }

  lemma {:induction false} TargetHasId(doc: seq<Credential>, id: string)
    ensures Target(doc, id).Some? ==> Target(doc, id).value.id == id
    ensures Target(doc, id).Some? <==> HasId(doc, id)
  {
    if doc != [] {
      TargetHasId(doc[1..], id);
      if HasId(doc, id) {
        var k :| 0 <= k < |doc| && doc[k].id == id;
        if k > 0 {
          assert doc[1..][k - 1].id == id;
        }
      }
      if HasId(doc[1..], id) {
        var k :| 0 <= k < |doc[1..]| && doc[1..][k].id == id;
        assert doc[k + 1].id == id;
      }
    }
  }

  lemma InspectKeepsId(c: Credential, a: Action, now: int)
    ensures Inspect(c, a, now).record.Some? ==> Inspect(c, a, now).record.value.id == c.id
  {
  }

  /** An action never moves, adds or removes the target of another id. */
  lemma {:induction false} OtherTargetStays(doc: seq<Credential>, a: Action, now: int, id: string)
    requires id != a.id
    ensures Target(ApplyOne(doc, a, now), id) == Target(doc, id)
  {
    if doc != [] {
      TargetHasId(doc[1..], a.id);
      InspectKeepsId(doc[0], a, now);
      var next := ApplyOne(doc, a, now);
      if Target(doc[1..], a.id).Some? {
        OtherTargetStays(doc[1..], a, now, id);
        assert next[1..] == ApplyOne(doc[1..], a, now);
      } else if doc[0].id == a.id {
        if Inspect(doc[0], a, now).record.Some? {
          assert next[1..] == doc[1..];
        }
      }
    }
  }

  /** Every action of a batch is judged against the record as the batch found it. */
  lemma {:induction false} ResultsFromOriginal(doc: seq<Credential>, actions: seq<Action>, now: int)
    requires DistinctIds(actions)
    ensures |FoldResults(doc, actions, now)| == |actions|
    ensures forall i :: 0 <= i < |actions| ==> FoldResults(doc, actions, now)[i] == ResultOne(doc, actions[i], now)
    decreases |actions|
  {
    if actions != [] {
      var next := ApplyOne(doc, actions[0], now);
      ResultsFromOriginal(next, actions[1..], now);
      forall i | 0 < i < |actions| ensures FoldResults(doc, actions, now)[i] == ResultOne(doc, actions[i], now) {
        assert FoldResults(doc, actions, now)[i] == FoldResults(next, actions[1..], now)[i - 1];
        assert actions[1..][i - 1] == actions[i];
        OtherTargetStays(doc, actions[0], now, actions[i].id);
      }
    }
  }

  // ---------------------------------------------------------------------------
  // Order does not matter

  /** The batch as a set of actions keyed by id, applied to every target at once. */
  function ApplyMap(doc: seq<Credential>, m: map<string, Action>, now: int): seq<Credential> {
    if doc == [] then []
    else if doc[0].id in m && Target(doc[1..], doc[0].id).None? then
      Put(Inspect(doc[0], m[doc[0].id], now).record, ApplyMap(doc[1..], m, now))
    else [doc[0]] + ApplyMap(doc[1..], m, now)
  }

  function ById(actions: seq<Action>): map<string, Action> {
    if actions == [] then map[] else ById(actions[1..])[actions[0].id := actions[0]]
  }

  lemma {:induction false} ByIdIsExact(actions: seq<Action>)
    requires DistinctIds(actions)
    ensures forall i :: 0 <= i < |actions| ==> actions[i].id in ById(actions) && ById(actions)[actions[i].id] == actions[i]
    ensures forall id :: id in ById(actions) ==> ById(actions)[id] in actions && ById(actions)[id].id == id
  {
    if actions != [] {
      ByIdIsExact(actions[1..]);
      forall i | 0 < i < |actions| ensures actions[i].id in ById(actions) && ById(actions)[actions[i].id] == actions[i] {
        assert actions[1..][i - 1] == actions[i];
      }
    }
  }

  /** One more action may be applied before the others or together with them. */
  lemma {:induction false} AbsorbAction(doc: seq<Credential>, a: Action, m: map<string, Action>, now: int)
    requires a.id !in m
    ensures ApplyMap(ApplyOne(doc, a, now), m, now) == ApplyMap(doc, m[a.id := a], now)
  {
    if doc != [] {
      var head, tail := doc[0], doc[1..];
      AbsorbAction(tail, a, m, now);
      if Target(tail, a.id).Some? {
        var next := [head] + ApplyOne(tail, a, now);
        assert next[1..] == ApplyOne(tail, a, now);
        if head.id != a.id {
          OtherTargetStays(tail, a, now, head.id);
        }
      } else if head.id == a.id {
        AbsentActionIsNoOp(tail, a, m, now);
        InspectKeepsId(head, a, now);
        var e := Inspect(head, a, now);
        if e.record.Some? {
          assert Put(e.record, tail)[1..] == tail;
        }
      } else {
        AbsentActionIsNoOp(tail, a, m, now);
        assert ApplyOne(tail, a, now) == tail by { NoTargetNoChange(tail, a, now); }
      }
    }
  }

  lemma {:induction false} NoTargetNoChange(doc: seq<Credential>, a: Action, now: int)
    requires Target(doc, a.id).None?
    ensures ApplyOne(doc, a, now) == doc
  {
  }

  lemma {:induction false} AbsentActionIsNoOp(doc: seq<Credential>, a: Action, m: map<string, Action>, now: int)
    requires Target(doc, a.id).None?
    ensures ApplyMap(doc, m[a.id := a], now) == ApplyMap(doc, m, now)
  {
    if doc != [] {
      AbsentActionIsNoOp(doc[1..], a, m, now);
    }
  }

  lemma {:induction false} EmptyMapIsNoOp(doc: seq<Credential>, now: int)
    ensures ApplyMap(doc, map[], now) == doc
  {
    if doc != [] {
      EmptyMapIsNoOp(doc[1..], now);
    }
  }

  lemma {:induction false} FoldIsMap(doc: seq<Credential>, actions: seq<Action>, now: int)
    requires DistinctIds(actions)
    ensures Fold(doc, actions, now) == ApplyMap(doc, ById(actions), now)
    decreases |actions|
  {
    if actions == [] {
      EmptyMapIsNoOp(doc, now);
    } else {
      var a, rest := actions[0], actions[1..];
      ByIdIsExact(rest);
      forall id | id in ById(rest) ensures id != a.id {
        var k :| 0 <= k < |rest| && rest[k] == ById(rest)[id];
        assert actions[k + 1] == rest[k];
      }
      FoldIsMap(ApplyOne(doc, a, now), rest, now);
      AbsorbAction(doc, a, ById(rest), now);
    }
  }

  /** Any order of the same actions gives the same file, and each action the same result. */
  lemma OrderIrrelevant(doc: seq<Credential>, actions: seq<Action>, shuffled: seq<Action>, now: int)
    requires DistinctIds(actions) && DistinctIds(shuffled)
    requires forall a :: a in actions <==> a in shuffled
    ensures Fold(doc, actions, now) == Fold(doc, shuffled, now)
    ensures |FoldResults(doc, actions, now)| == |actions| && |FoldResults(doc, shuffled, now)| == |shuffled|
    ensures forall i, j :: 0 <= i < |actions| && 0 <= j < |shuffled| && actions[i] == shuffled[j] ==>
              FoldResults(doc, actions, now)[i] == FoldResults(doc, shuffled, now)[j]
  {
    FoldIsMap(doc, actions, now);
    FoldIsMap(doc, shuffled, now);
    ByIdIsExact(actions);
    ByIdIsExact(shuffled);
    assert ById(actions) == ById(shuffled);
    ResultsFromOriginal(doc, actions, now);
    ResultsFromOriginal(doc, shuffled, now);
  }

  /** The records of `few` are, by id and in order, some of those of `many`. */
  predicate Subsequence(few: seq<Credential>, many: seq<Credential>) {
    if few == [] then true
    else if many == [] then false
    else if few[0].id == many[0].id then Subsequence(few[1..], many[1..]) else Subsequence(few, many[1..])
  }

  lemma {:induction false} SkippingKeepsSubsequence(c: Credential, few: seq<Credential>, many: seq<Credential>)
    requires Subsequence(few, many)
    ensures Subsequence(few, [c] + many)
    ensures few != [] ==> Subsequence(few[1..], many)
    decreases |many|
  {
    assert ([c] + many)[1..] == many;
    if few != [] {
      assert [many[0]] + many[1..] == many;
      if few[0].id == many[0].id {
        SkippingKeepsSubsequence(many[0], few[1..], many[1..]);
      } else {
        SkippingKeepsSubsequence(many[0], few, many[1..]);
        SkippingKeepsSubsequence(many[0], few[1..], many[1..]);
      }
    }
  }

  /** The batch keeps the order of the records it does not purge. */
  lemma {:induction false} SurvivorsKeepOrder(doc: seq<Credential>, m: map<string, Action>, now: int)
    ensures Subsequence(ApplyMap(doc, m, now), doc)
  {
    if doc != [] {
      SurvivorsKeepOrder(doc[1..], m, now);
      var rest := ApplyMap(doc[1..], m, now);
      assert [doc[0]] + doc[1..] == doc;
      SkippingKeepsSubsequence(doc[0], rest, doc[1..]);
      if doc[0].id in m {
        InspectKeepsId(doc[0], m[doc[0].id], now);
      }
      assert ApplyMap(doc, m, now) != rest ==> ApplyMap(doc, m, now)[1..] == rest;
    }
  }

  // ---------------------------------------------------------------------------
  // The loop: one index of the file, updates in place, deletions deferred

  predicate IsTarget(doc: seq<Credential>, k: int) {
    0 <= k < |doc| && forall j :: k < j < |doc| ==> doc[j].id != doc[k].id
  }

  /** What the actions seen so far have made of record k. */
  function Outcome(doc: seq<Credential>, m: map<string, Action>, now: int, k: int): Option<Credential>
    requires 0 <= k < |doc|
  {
    if IsTarget(doc, k) && doc[k].id in m then Inspect(doc[k], m[doc[k].id], now).record else Some(doc[k])
  }

  function Survivors(work: seq<Credential>, deleted: set<int>, k: nat): seq<Credential>
    requires k <= |work|
    decreases |work| - k
  {
    if k == |work| then []
    else if k in deleted then Survivors(work, deleted, k + 1) else [work[k]] + Survivors(work, deleted, k + 1)
  }

  ghost predicate WorkMatches(doc: seq<Credential>, work: seq<Credential>, deleted: set<int>,
      m: map<string, Action>, now: int) {
    && |work| == |doc|
    && forall k :: 0 <= k < |doc| ==>
         var o := Outcome(doc, m, now, k);
         (k in deleted <==> o.None?) && work[k] == (if o.Some? then o.value else doc[k])
  }

  lemma {:induction false} TargetAt(doc: seq<Credential>, k: nat)
    requires k < |doc|
    ensures IsTarget(doc, k) <==> Target(doc[k + 1..], doc[k].id).None?
    ensures IsTarget(doc, k) ==> Target(doc, doc[k].id) == Some(doc[k])
    decreases k
  {
    TargetHasId(doc[k + 1..], doc[k].id);
    if HasId(doc[k + 1..], doc[k].id) {
      var j :| 0 <= j < |doc[k + 1..]| && doc[k + 1..][j].id == doc[k].id;
      assert doc[k + 1 + j].id == doc[k].id;
    } else {
      forall j | k < j < |doc| ensures doc[j].id != doc[k].id {
        assert doc[j] == doc[k + 1..][j - k - 1];
      }
    }
    if IsTarget(doc, k) {
      TargetIsLast(doc, k);
    }
  }

  lemma {:induction false} TargetIsLast(doc: seq<Credential>, k: nat)
    requires k < |doc| && Target(doc[k + 1..], doc[k].id).None?
    ensures Target(doc, doc[k].id) == Some(doc[k])
    decreases k
  {
    if k > 0 {
      assert doc[1..][k - 1] == doc[k] && doc[1..][k..] == doc[k + 1..];
      TargetIsLast(doc[1..], k - 1);
    }
  }

  lemma {:induction false} SurvivorsAreMap(doc: seq<Credential>, work: seq<Credential>, deleted: set<int>,
                                           m: map<string, Action>, now: int, k: nat)
    requires WorkMatches(doc, work, deleted, m, now) && k <= |doc|
    ensures Survivors(work, deleted, k) == ApplyMap(doc[k..], m, now)
    decreases |doc| - k
  {
    if k < |doc| {
      SurvivorsAreMap(doc, work, deleted, m, now, k + 1);
      TargetAt(doc, k);
      assert doc[k..][1..] == doc[k + 1..];
    }
  }

  /** One turn of the loop: the action's effect on its target, or no target at all. */
  lemma WorkHits(doc: seq<Credential>, work: seq<Credential>, deleted: set<int>, m: map<string, Action>,
      now: int, a: Action, k: nat)
    requires WorkMatches(doc, work, deleted, m, now) && a.id !in m
    requires IsTarget(doc, k) && doc[k].id == a.id
    ensures work[k] == doc[k] && k !in deleted
    ensures var record := Inspect(doc[k], a, now).record;
            && (record.Some? ==> WorkMatches(doc, work[k := record.value], deleted, m[a.id := a], now))
            && (record.None? ==> WorkMatches(doc, work, deleted + {k}, m[a.id := a], now))
  {
    hide Inspect;
    var m' := m[a.id := a];
    forall j | 0 <= j < |doc| && j != k ensures Outcome(doc, m', now, j) == Outcome(doc, m, now, j) {
    }
  }

  lemma WorkMisses(doc: seq<Credential>, work: seq<Credential>, deleted: set<int>, m: map<string, Action>,
      now: int, a: Action)
    requires WorkMatches(doc, work, deleted, m, now) && Target(doc, a.id).None?
    ensures WorkMatches(doc, work, deleted, m[a.id := a], now)
  {
    hide Inspect;
    TargetHasId(doc, a.id);
    forall j | 0 <= j < |doc| ensures Outcome(doc, m[a.id := a], now, j) == Outcome(doc, m, now, j) {
      assert doc[j].id != a.id;
    }
  }

  /** The actions already applied, keyed by id. */
  ghost predicate Seen(m: map<string, Action>, actions: seq<Action>, n: nat)
    requires n <= |actions|
  {
    && (forall i :: 0 <= i < n ==> actions[i].id in m && m[actions[i].id] == actions[i])
    && (forall id :: id in m ==> m[id] in actions[..n] && m[id].id == id)
  }

  lemma SeenNext(m: map<string, Action>, actions: seq<Action>, n: nat)
    requires n < |actions| && Seen(m, actions, n) && DistinctIds(actions)
    ensures actions[n].id !in m
    ensures Seen(m[actions[n].id := actions[n]], actions, n + 1)
  {
  }

  lemma NothingSeen(actions: seq<Action>)
    ensures Seen(map[], actions, 0)
  {
  }

  lemma WorkStarts(doc: seq<Credential>, now: int)
    ensures WorkMatches(doc, doc, {}, map[], now)
  {
  }

  lemma BatchDone(doc: seq<Credential>, actions: seq<Action>, now: int,
                  work: seq<Credential>, deleted: set<int>, m: map<string, Action>)
    requires DistinctIds(actions) && Seen(m, actions, |actions|)
    requires WorkMatches(doc, work, deleted, m, now)
    ensures Survivors(work, deleted, 0) == Fold(doc, actions, now)
  {
    hide Inspect;
    ByIdIsExact(actions);
    assert actions[..|actions|] == actions;
    forall id | id in m ensures id in ById(actions) && ById(actions)[id] == m[id] {
      var i :| 0 <= i < |actions| && actions[i] == m[id];
    }
    assert m == ById(actions);
    SurvivorsAreMap(doc, work, deleted, m, now, 0);
    assert doc[0..] == doc;
    FoldIsMap(doc, actions, now);
  }

  predicate Touches(r: ActionResult) {
    r.applied || r.attemptRecorded
  }

  /** The lookup table: a later record of the same id replaces an earlier one. */
  method IndexById(doc: seq<Credential>) returns (indexes: map<string, int>)
    ensures forall id :: id in indexes <==> Target(doc, id).Some?
    ensures forall id :: id in indexes ==> IsTarget(doc, indexes[id]) && doc[indexes[id]].id == id
  {
    indexes := map[];
    var k := 0;
    while k < |doc|
      invariant 0 <= k <= |doc|
      invariant forall id :: id in indexes ==> 0 <= indexes[id] < k && doc[indexes[id]].id == id
      invariant forall j :: 0 <= j < k ==> doc[j].id in indexes && indexes[doc[j].id] >= j
    {
      indexes := indexes[doc[k].id := k];
      k := k + 1;
    }
    forall id ensures id in indexes <==> Target(doc, id).Some? {
      TargetHasId(doc, id);
    }
  }

  /** One action of the batch, at its turn in the loop. */
  method ApplyNext(ghost doc: seq<Credential>, indexes: map<string, int>, work: seq<Credential>, deleted: set<int>,
                   a: Action, now: int, ghost m: map<string, Action>)
    returns (result: ActionResult, work': seq<Credential>, deleted': set<int>)
    requires forall id :: id in indexes <==> Target(doc, id).Some?
    requires forall id :: id in indexes ==> IsTarget(doc, indexes[id]) && doc[indexes[id]].id == id
    requires WorkMatches(doc, work, deleted, m, now) && a.id !in m
    ensures WorkMatches(doc, work', deleted', m[a.id := a], now)
    ensures result == ResultOne(doc, a, now)
    ensures !Touches(result) ==> work' == work && deleted' == deleted
  {
    result, work', deleted' := NoResult(a), work, deleted;
    if a.id !in indexes {
      WorkMisses(doc, work, deleted, m, now, a);
    } else {
      var k := indexes[a.id];
      WorkHits(doc, work, deleted, m, now, a, k);
      TargetAt(doc, k);
      var e := Inspect(work[k], a, now);
      UntouchedIsUnchanged(work[k], a, now);
      result := e.result;
      if e.record.Some? {
        work' := work[k := e.record.value];
      } else {
        deleted' := deleted + {k};
      }
    }
  }

  lemma UntouchedIsUnchanged(c: Credential, a: Action, now: int)
    ensures !Touches(Inspect(c, a, now).result) ==> Inspect(c, a, now).record == Some(c)
  {
  }

  /** The body of ApplyInspectionActions under the store lock. */
  method ApplyActions(doc: seq<Credential>, actions: seq<Action>, now: int)
    returns (results: seq<ActionResult>, next: seq<Credential>, changed: bool)
    requires DistinctIds(actions)
    ensures results == FoldResults(doc, actions, now)
    ensures next == Fold(doc, actions, now)
    ensures changed <==> exists i :: 0 <= i < |results| && Touches(results[i])
    ensures !changed ==> next == doc
  {
    hide Inspect, WorkMatches, Seen, ResultOne;
    WorkStarts(doc, now);
    var indexes := IndexById(doc);
    var work, deleted: set<int> := doc, {};
    results, changed := [], false;
    var n := 0;
    ghost var seen: map<string, Action> := map[];
    NothingSeen(actions);
    while n < |actions|
      invariant 0 <= n <= |actions| && |results| == n
      invariant Seen(seen, actions, n)
      invariant WorkMatches(doc, work, deleted, seen, now)
      invariant forall i :: 0 <= i < n ==> results[i] == ResultOne(doc, actions[i], now)
      invariant changed <==> exists i :: 0 <= i < n && Touches(results[i])
      invariant !changed ==> work == doc && deleted == {}
    {
      SeenNext(seen, actions, n);
      var result;
      result, work, deleted := ApplyNext(doc, indexes, work, deleted, actions[n], now, seen);
      changed := changed || Touches(result);
      results := results + [result];
      seen := seen[actions[n].id := actions[n]];
      n := n + 1;
    }
    ResultsFromOriginal(doc, actions, now);
    assert results == FoldResults(doc, actions, now);
    BatchDone(doc, actions, now, work, deleted, seen);
    next := Compact(work, deleted);
    if !changed {
      NothingDeleted(work, 0);
    }
  }

  lemma {:induction false} NothingDeleted(work: seq<Credential>, k: nat)
    requires k <= |work|
    ensures Survivors(work, {}, k) == work[k..]
    decreases |work| - k
  {
    if k < |work| {
      NothingDeleted(work, k + 1);
    }
  }

  /** The second loop: rebuild the file without the deferred deletions. */
  method Compact(work: seq<Credential>, deleted: set<int>) returns (next: seq<Credential>)
    ensures next == Survivors(work, deleted, 0)
  {
    next := [];
    var k := 0;
    while k < |work|
      invariant 0 <= k <= |work|
      invariant next + Survivors(work, deleted, k) == Survivors(work, deleted, 0)
    {
      if k !in deleted {
        next := next + [work[k]];
      }
      k := k + 1;
    }
  }
}
