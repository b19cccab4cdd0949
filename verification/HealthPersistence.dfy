/**
  How marks reach the store: each mark bumps a version under the selector's lock
  and then, outside it, persists its snapshot under a second lock, but only if
  its version is still current. Threads interleave at every lock and store call.
  (internal/lb/selector.go)
 */
module HealthPersistence {
  import opened Common
  import opened Selection

  /** A mark as Selector records it: any failure or quota mark sets a deadline and
      an error text; a success clears both. */
  datatype Mark = Failing(until: nat, error: string) | Succeeding(now: nat)

  function Marked(st: Health, mark: Mark): Health {
    match mark
    case Failing(until, error) =>
      st.(failureCount := st.failureCount + 1, cooldownUntil := until, lastError := error, version := st.version + 1)
    case Succeeding(now) => AfterSuccess(st, now)
  }

  function Persists(st: Health, mark: Mark): Option<Snapshot> {
    var next := Marked(st, mark);
    match mark
    case Failing(until, error) => Some(Snapshot(next.version, next.failureCount, Some(ToSecond(until)), error, None))
    case Succeeding(now) => if NeedsPersist(st, now) then Some(Snapshot(next.version, 0, None, "", Some(ToSecond(now)))) else None
  }

  /** The stored health fields of a credential. */
  datatype Durable = Durable(failureCount: nat, cooldownUntil: Option<nat>, lastError: string, lastSuccessAt: Option<nat>)

  function Patched(d: Durable, snap: Snapshot): Durable {
    Durable(snap.failureCount, snap.cooldownUntil, snap.lastError,
            if snap.lastSuccessAt.Some? then snap.lastSuccessAt else d.lastSuccessAt)
  }

  /** A patch writes its snapshot; a failure leaves the time of the last success. */
  lemma PatchedMeans(d: Durable, snap: Snapshot)
    ensures var p := Patched(d, snap);
            && p.failureCount == snap.failureCount && p.cooldownUntil == snap.cooldownUntil && p.lastError == snap.lastError
            && (snap.lastSuccessAt.Some? ==> p.lastSuccessAt == snap.lastSuccessAt)
            && (snap.lastSuccessAt.None? ==> p.lastSuccessAt == d.lastSuccessAt)
  {
  }

  /** A persisting thread: before the check, or past it with the version found current. */
  datatype Persisting = Persisting(id: string, snap: Snapshot, checked: bool)

  datatype State = State(
    states: States,
    durable: map<string, Durable>,
    threads: map<nat, Persisting>,
    lock: Option<nat>,
    applied: seq<(string, nat)>,     // history: patches in the order the store took them
    failed: set<(string, nat)>,      // history: patches the store refused
    rewritten: set<string>)          // history: records another writer touched since their last patch

  datatype Step =
    | Seed(id: string, from: Health)
    | Record(id: string, mark: Mark, thread: nat)
    | Lock(thread: nat)
    | Check(thread: nat)
    | Patch(thread: nat, saved: bool)
    | Rewrite(id: string, to: Option<Durable>)   // an inspection, an operator or an import

  function Apply(s: State, step: Step): Option<State> {
    match step
    case Seed(id, from) =>
      if id in s.states || from.version != 0 then None else Some(s.(states := s.states[id := from]))
    case Record(id, mark, thread) =>
      if thread in s.threads then None
      else
        var st := StateOf(s.states, id);
        var t := s.(states := s.states[id := Marked(st, mark)]);
        (match Persists(st, mark)
         case None => Some(t)
         case Some(snap) => Some(t.(threads := s.threads[thread := Persisting(id, snap, false)])))
    case Lock(thread) =>
      if s.lock.Some? || thread !in s.threads then None else Some(s.(lock := Some(thread)))
    case Check(thread) =>
      if s.lock != Some(thread) || thread !in s.threads || s.threads[thread].checked then None
      else
        var p := s.threads[thread];
        if StateOf(s.states, p.id).version != p.snap.version then Some(s.(threads := s.threads - {thread}, lock := None))
        else Some(s.(threads := s.threads[thread := p.(checked := true)]))
    case Patch(thread, saved) =>
      if s.lock != Some(thread) || thread !in s.threads || !s.threads[thread].checked then None
      else
        var p := s.threads[thread];
        var t := s.(threads := s.threads - {thread}, lock := None);
        if saved && p.id in s.durable then
          Some(t.(durable := s.durable[p.id := Patched(s.durable[p.id], p.snap)], applied := s.applied + [(p.id, p.snap.version)],
                  rewritten := s.rewritten - {p.id}))
        else Some(t.(failed := s.failed + {(p.id, p.snap.version)}))
    case Rewrite(id, to) =>
      Some(s.(durable := if to.Some? then s.durable[id := to.value] else s.durable - {id}, rewritten := s.rewritten + {id}))
  }

  function Run(s: State, steps: seq<Step>): Option<State>
    decreases |steps|
  {
    if steps == [] then Some(s)
    else
      match Run(s, steps[..|steps| - 1])
      case None => None
      case Some(t) => Apply(t, steps[|steps| - 1])
  }

  function Start(durable: map<string, Durable>): State {
    State(map[], durable, map[], None, [], {}, {})
  }

  // ---------------------------------------------------------------------------
  // Agreement

  /** Stored and in-memory health say the same, deadlines to the second. */
  predicate Agrees(st: Health, d: Durable) {
    && d.failureCount == st.failureCount
    && d.lastError == st.lastError
    && OrZero(d.cooldownUntil) == ToSecond(st.cooldownUntil)
  }

  predicate Describes(snap: Snapshot, st: Health) {
    snap.version == st.version && snap.failureCount == st.failureCount && snap.lastError == st.lastError
    && OrZero(snap.cooldownUntil) == ToSecond(st.cooldownUntil)
  }

  /** A success too recent to be stored again leaves memory as it was. */
  lemma QuietSuccess(st: Health, now: nat)
    requires !NeedsPersist(st, now)
    ensures Marked(st, Succeeding(now)) == st
  {
  }

  /** Patches of one credential, oldest first, carry strictly rising versions. */
  ghost predicate Rising(applied: seq<(string, nat)>) {
    forall j, k :: 0 <= j < k < |applied| && applied[j].0 == applied[k].0 ==> applied[j].1 < applied[k].1
  }

  ghost predicate ThreadInv(s: State, thread: nat)
    requires thread in s.threads
  {
    var p := s.threads[thread];
    var st := StateOf(s.states, p.id);
    && 1 <= p.snap.version <= st.version
    && (p.snap.version == st.version ==> Describes(p.snap, st))
    && (p.checked ==> s.lock == Some(thread))
    && (p.checked || p.snap.version == st.version ==> forall a :: a in s.applied && a.0 == p.id ==> a.1 < p.snap.version)
  }

  predicate Carries(p: Persisting, id: string, version: nat) {
    p.id == id && p.snap.version == version
  }

  /** The current version is on its way, stored and perhaps overwritten since, or was refused by the store. */
  ghost predicate CurrentInv(s: State, id: string) {
    var version := StateOf(s.states, id).version;
    version >= 1 ==>
      || (exists thread :: thread in s.threads && Carries(s.threads[thread], id, version))
      || (id, version) in s.failed
      || ((id, version) in s.applied && (id in s.rewritten || (id in s.durable && Agrees(StateOf(s.states, id), s.durable[id]))))
  }

  ghost predicate Inv(s: State) {
    && Rising(s.applied)
    && (forall a :: a in s.applied ==> a.1 <= StateOf(s.states, a.0).version)
    && (forall thread :: thread in s.threads ==> ThreadInv(s, thread))
    && (forall t, u :: t in s.threads && u in s.threads && t != u && s.threads[t].id == s.threads[u].id ==>
          s.threads[t].snap.version != s.threads[u].snap.version)
    && (forall id :: CurrentInv(s, id))
  }

  lemma SeedStep(s: State, id: string, from: Health)
    requires Inv(s) && Apply(s, Seed(id, from)).Some?
    ensures Inv(Apply(s, Seed(id, from)).value)
  {
    var t := Apply(s, Seed(id, from)).value;
    forall other ensures CurrentInv(t, other) {
      assert CurrentInv(s, other);
    }
    forall thread | thread in t.threads ensures ThreadInv(t, thread) {
      assert ThreadInv(s, thread);
    }
  }

  lemma RecordStep(s: State, id: string, mark: Mark, thread: nat)
    requires Inv(s) && Apply(s, Record(id, mark, thread)).Some?
    ensures Inv(Apply(s, Record(id, mark, thread)).value)
  {
    var t := Apply(s, Record(id, mark, thread)).value;
    var st := StateOf(s.states, id);
    if Persists(st, mark).None? {
      QuietSuccess(st, mark.now);
      assert forall other :: StateOf(t.states, other) == StateOf(s.states, other);
      forall other ensures CurrentInv(t, other) {
        assert CurrentInv(s, other);
      }
      forall u | u in t.threads ensures ThreadInv(t, u) {
        assert ThreadInv(s, u);
      }
    } else {
      NewVersion(s, id, mark, thread);
    }
  }

  lemma NewVersion(s: State, id: string, mark: Mark, thread: nat)
    requires Inv(s) && Apply(s, Record(id, mark, thread)).Some? && Persists(StateOf(s.states, id), mark).Some?
    ensures Inv(Apply(s, Record(id, mark, thread)).value)
  {
    var t := Apply(s, Record(id, mark, thread)).value;
    var st := StateOf(s.states, id);
    var next := Marked(st, mark);
    var snap := Persists(st, mark).value;
    assert snap.version == st.version + 1 == next.version && Describes(snap, next);
    hide Marked, Persists, Agrees, Describes, ToSecond, NeedsPersist, CurrentInv;
    assert t == s.(states := s.states[id := next], threads := s.threads[thread := Persisting(id, snap, false)]);
    forall other ensures CurrentInv(t, other) {
      NewVersionCurrent(s, t, id, next, snap, thread, other);
    }
    forall u | u in t.threads ensures ThreadInv(t, u) {
      if u != thread {
        assert ThreadInv(s, u);
      }
    }
    forall u, v | u in t.threads && v in t.threads && u != v && t.threads[u].id == t.threads[v].id
      ensures t.threads[u].snap.version != t.threads[v].snap.version
    {
      if u != thread {
        assert ThreadInv(s, u);
      }
      if v != thread {
        assert ThreadInv(s, v);
      }
    }
  }

  lemma NewVersionCurrent(s: State, t: State, id: string, next: Health, snap: Snapshot, thread: nat, other: string)
    requires CurrentInv(s, other) && thread !in s.threads && snap.version == next.version
    requires t == s.(states := s.states[id := next], threads := s.threads[thread := Persisting(id, snap, false)])
    ensures CurrentInv(t, other)
  {
    hide Agrees;
    var version := StateOf(s.states, other).version;
    if other == id {
      assert Carries(t.threads[thread], id, snap.version);
    } else if exists u :: u in s.threads && Carries(s.threads[u], other, version) {
      var u :| u in s.threads && Carries(s.threads[u], other, version);
      assert t.threads[u] == s.threads[u];
    }
  }

  lemma LockStep(s: State, thread: nat)
    requires Inv(s) && Apply(s, Lock(thread)).Some?
    ensures Inv(Apply(s, Lock(thread)).value)
  {
    hide Agrees, Describes;
    var t := Apply(s, Lock(thread)).value;
    forall other ensures CurrentInv(t, other) {
      assert CurrentInv(s, other);
    }
    forall u | u in t.threads ensures ThreadInv(t, u) {
      assert ThreadInv(s, u);
    }
  }

  lemma CheckStep(s: State, thread: nat)
    requires Inv(s) && Apply(s, Check(thread)).Some?
    ensures Inv(Apply(s, Check(thread)).value)
  {
    hide Agrees, Describes;
    var t := Apply(s, Check(thread)).value;
    assert ThreadInv(s, thread);
    forall other ensures CurrentInv(t, other) {
      assert CurrentInv(s, other);
      var version := StateOf(s.states, other).version;
      if exists u :: u in s.threads && Carries(s.threads[u], other, version) {
        var u :| u in s.threads && Carries(s.threads[u], other, version);
        assert u in t.threads && Carries(t.threads[u], other, version);
      }
    }
    forall u | u in t.threads ensures ThreadInv(t, u) {
      assert ThreadInv(s, u);
    }
  }

  lemma PatchCurrent(s: State, thread: nat, saved: bool, other: string)
    requires Inv(s) && Apply(s, Patch(thread, saved)).Some?
    ensures CurrentInv(Apply(s, Patch(thread, saved)).value, other)
  {
    hide ToSecond, Rising;
    var t := Apply(s, Patch(thread, saved)).value;
    assert ThreadInv(s, thread);
    assert CurrentInv(s, other);
    var version := StateOf(s.states, other).version;
    if exists u :: u in s.threads && u != thread && Carries(s.threads[u], other, version) {
      var u :| u in s.threads && u != thread && Carries(s.threads[u], other, version);
      assert u in t.threads;
    }
  }

  lemma PatchStep(s: State, thread: nat, saved: bool)
    requires Inv(s) && Apply(s, Patch(thread, saved)).Some?
    ensures Inv(Apply(s, Patch(thread, saved)).value)
  {
    hide CurrentInv, Describes, Patched;
    var t := Apply(s, Patch(thread, saved)).value;
    assert ThreadInv(s, thread);
    forall u | u in t.threads ensures ThreadInv(t, u) {
      assert ThreadInv(s, u);
    }
    forall other ensures CurrentInv(t, other) {
      PatchCurrent(s, thread, saved, other);
    }
  }

  lemma RewriteStep(s: State, id: string, to: Option<Durable>)
    requires Inv(s)
    ensures Inv(Apply(s, Rewrite(id, to)).value)
  {
    hide Agrees, Describes;
    var t := Apply(s, Rewrite(id, to)).value;
    forall other ensures CurrentInv(t, other) {
      assert CurrentInv(s, other);
    }
    forall u | u in t.threads ensures ThreadInv(t, u) {
      assert ThreadInv(s, u);
    }
  }

  lemma InvStep(s: State, step: Step)
    requires Inv(s) && Apply(s, step).Some?
    ensures Inv(Apply(s, step).value)
  {
    hide Inv, Apply;
    match step
    case Seed(id, from) => SeedStep(s, id, from);
    case Record(id, mark, thread) => RecordStep(s, id, mark, thread);
    case Lock(thread) => LockStep(s, thread);
    case Check(thread) => CheckStep(s, thread);
    case Patch(thread, saved) => PatchStep(s, thread, saved);
    case Rewrite(id, to) => RewriteStep(s, id, to);
  }

  lemma {:induction false} InvRun(durable: map<string, Durable>, steps: seq<Step>)
    requires Run(Start(durable), steps).Some?
    ensures Inv(Run(Start(durable), steps).value)
    decreases |steps|
  {
    if steps != [] {
      hide Inv, Apply;
      InvRun(durable, steps[..|steps| - 1]);
      InvStep(Run(Start(durable), steps[..|steps| - 1]).value, steps[|steps| - 1]);
    }
  }

  /** Whatever the timing of the threads, the store takes one credential's
      patches in strictly rising version order. */
  lemma PatchesRise(durable: map<string, Durable>, steps: seq<Step>)
    requires Run(Start(durable), steps).Some?
    ensures Rising(Run(Start(durable), steps).value.applied)
  {
    InvRun(durable, steps);
  }

  /** Once every persisting thread is through, a credential that was ever marked
      durably holds the failure count, error and deadline that memory holds,
      unless the store refused the patch for its last mark or another writer touched
      the record after taking it. */
  lemma SettledHealthIsStored(durable: map<string, Durable>, steps: seq<Step>, id: string)
    requires Run(Start(durable), steps).Some?
    requires var s := Run(Start(durable), steps).value;
             && (forall thread :: thread in s.threads ==> s.threads[thread].id != id)
             && StateOf(s.states, id).version >= 1
    ensures var s := Run(Start(durable), steps).value;
            || (id, StateOf(s.states, id).version) in s.failed
            || id in s.rewritten
            || (id in s.durable && Agrees(StateOf(s.states, id), s.durable[id]))
  {
    InvRun(durable, steps);
    assert CurrentInv(Run(Start(durable), steps).value, id);
  }

  // ---------------------------------------------------------------------------
  // The selector takes these steps

  /** How an attempt ends for its credential. */
  datatype Ending = Refused(status: int, retryAfter: nat, random: nat) | Spent(resetAt: nat) | Succeeded(key: string, release: bool)

  /** Every mark of the selector is one Record step: the same health, and a thread
      just when a snapshot is handed out, carrying that snapshot. */
  method RecordMark(s: Selector, id: string, ending: Ending, now: nat, ghost p: State, thread: nat)
      returns (persist: Option<Snapshot>, ghost mark: Mark)
    requires s.Valid() && id != "" && p.states == s.states && thread !in p.threads
    modifies s
    ensures s.Valid()
    ensures var t := Apply(p, Record(id, mark, thread));
            && t.Some? && t.value.states == s.states && t.value.durable == p.durable
            && t.value.threads == (if persist.Some? then p.threads[thread := Persisting(id, persist.value, false)] else p.threads)
    ensures mark.Succeeding? == ending.Succeeded?
  {
    hide Selector.Valid, ToSecond, Cooldown, Jitter, ErrorText, WithoutCredential, Released;
    var was := StateOf(s.states, id);
    match ending
    case Refused(status, retryAfter, random) =>
      var d := Cooldown(s.cooldownBase, s.cooldownMax, status, retryAfter, was.failureCount);
      mark := Failing(now + d + Jitter(d, random), ErrorText(status));
      persist := s.MarkFailure(id, status, retryAfter, random, now);
    case Spent(resetAt) =>
      mark := Failing(if resetAt > now then resetAt else now + s.quotaCooldown, "quota_exhausted");
      persist := s.MarkQuotaExhaustedUntil(id, now, resetAt);
    case Succeeded(key, release) =>
      mark := Succeeding(now);
      persist := s.MarkSuccess(id, key, now, release);
  }

  /** What the selector seeds from the candidates of a pick is a run of Seed steps. */
  lemma {:induction false} SeedingIsSteps(p: State, creds: seq<Candidate>) returns (steps: seq<Step>)
    ensures Run(p, steps) == Some(p.(states := SeedAll(p.states, creds)))
    ensures forall step :: step in steps ==> step.Seed?
  {
    if creds == [] {
      return [];
    }
    var front, last := creds[..|creds| - 1], creds[|creds| - 1];
    steps := SeedingIsSteps(p, front);
    var states := SeedAll(p.states, front);
    if last.enabled && last.id !in states {
      var seeded := Seed(last.id, Selection.Seed(states, last)[last.id]);
      assert (steps + [seeded])[..|steps|] == steps;
      steps := steps + [seeded];
    }
  }
}
