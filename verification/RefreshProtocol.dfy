/**
  The token refresh protocol of internal/auth/refresh.go together with the
  durable load and compare-and-swap persist of internal/proxy/executor.go, as a
  transition system over all credentials of one process. A step is one critical
  section, one store call or one message; everything else may interleave.
 */
module RefreshProtocol {
  import opened Common
  import opened RefreshCache

  /** A caller that captured its epoch and has not yet joined a flight. */
  datatype Caller = Caller(key: string, current: TokenSet, captured: Epoch)

  /** The single flight of a key, by the point its closure has reached. */
  datatype Flight =
    | Started(captured: Epoch, previous: TokenSet)
    | Loaded(captured: Epoch, previous: TokenSet)   // previous is what the store held
    | Checked(captured: Epoch, previous: TokenSet)  // the epoch was still current
    | OnWire(captured: Epoch, previous: TokenSet)   // the grant request was sent
    | Granted(captured: Epoch, previous: TokenSet, next: TokenSet)
    | Persisted(captured: Epoch, previous: TokenSet, next: TokenSet)
  {
    predicate PastCheck() {
      !Started? && !Loaded?
    }
  }

  datatype Sent = Sent(key: string, refresh: string, replayed: bool)

  datatype State = State(
    cache: CacheState,
    durable: map<string, TokenSet>,   // the credential store, by credential id
    callers: map<nat, Caller>,
    flights: map<string, Flight>,     // at most one flight per key
    writers: map<string, nat>,        // store writes whose closing invalidation is due
    // History:
    retired: set<string>,             // refresh tokens the provider replaced by a rotation
    lost: set<string>,                // retired tokens whose rotation never reached the store
    owner: map<string, string>,       // the credential each known refresh token belongs to
    sends: seq<Sent>
  ) {
    function Writers(key: string): nat {
      if key in writers then writers[key] else 0
    }

    function EndFlight(key: string): State {
      this.(flights := flights - {key})
    }
  }

  const INITIAL := State(EMPTY_CACHE, map[], map[], map[], map[], {}, {}, map[], [])

  datatype Step =
    | Capture(caller: nat, key: string, current: TokenSet)
    | Begin(caller: nat)
    | Load(key: string, ok: bool)
    | Check(key: string, resolved: bool)
    | Send(key: string)
    | Rotate(key: string, tokens: TokenSet)                  // the provider answered with a new pair
    | Reissue(key: string, access: string, expiresAt: int)   // it omitted a new refresh token
    | NoAnswer(key: string, consumed: bool)                  // an error; consumed when it had rotated all the same
    | Persist(key: string, saved: bool)
    | Finish(key: string)
    // The environment: imports, admin edits, deletions and invalidations.
    | Write(key: string, access: string, refresh: string, expiresAt: int)
    | Delete(key: string)
    | CloseWrite(key: string)
    | InvalidateKey(key: string)
    | InvalidateAll

  /** An import keeps the stored value of every token it does not bring. */
  function Merge(held: TokenSet, access: string, refresh: string, expiresAt: int): TokenSet {
    TokenSet(if access != "" then access else held.access,
             if refresh != "" then refresh else held.refresh,
             if expiresAt != 0 then expiresAt else held.expiresAt)
  }

  function Held(s: State, key: string): TokenSet {
    if key in s.durable then s.durable[key] else TokenSet("", "", 0)
  }

  /** One step, or None when it is not enabled in this state. */
  function Apply(s: State, step: Step): Option<State> {
    match step
    case Capture(c, key, current) =>
      if current.refresh == "" then None
      else Some(s.(callers := s.callers[c := Caller(key, current, s.cache.EpochOf(key))]))
    case Begin(c) => ApplyBegin(s, c)
    case Load(key, ok) => ApplyLoad(s, key, ok)
    case Check(key, resolved) => ApplyCheck(s, key, resolved)
    case Send(key) => ApplySend(s, key)
    case Rotate(key, tokens) => ApplyRotate(s, key, tokens)
    case Reissue(key, access, expiresAt) => ApplyReissue(s, key, access, expiresAt)
    case NoAnswer(key, consumed) => ApplyNoAnswer(s, key, consumed)
    case Persist(key, saved) => ApplyPersist(s, key, saved)
    case Finish(key) => ApplyFinish(s, key)
    case Write(key, access, refresh, expiresAt) =>
      var tokens := Merge(Held(s, key), access, refresh, expiresAt);
      Some(s.(durable := s.durable[key := tokens],
              writers := s.writers[key := s.Writers(key) + 1],
              owner := if refresh == "" then s.owner else s.owner[refresh := key]))
    case Delete(key) =>
      Some(s.(durable := s.durable - {key}, writers := s.writers[key := s.Writers(key) + 1]))
    case CloseWrite(key) =>
      if s.Writers(key) == 0 then None
      else Some(s.(cache := s.cache.InvalidateKey(key), writers := s.writers[key := s.Writers(key) - 1]))
    case InvalidateKey(key) => Some(s.(cache := s.cache.InvalidateKey(key)))
    case InvalidateAll => Some(s.(cache := s.cache.InvalidateEvery()))
  }

  /** The first waiter's closure runs; the others would only wait for its result. */
  function ApplyBegin(s: State, c: nat): Option<State> {
    if c !in s.callers || s.callers[c].key in s.flights then None
    else
      var caller := s.callers[c];
      var cached := if caller.key in s.cache.cache then Some(s.cache.cache[caller.key]) else None;
      var flight := Started(caller.captured, MergeCached(caller.current, cached));
      Some(s.(callers := s.callers - {c}, flights := s.flights[caller.key := flight]))
  }

  /** The durable reload: a changed token ends the flight before anything is sent. */
  function ApplyLoad(s: State, key: string, ok: bool): Option<State> {
    if key !in s.flights || !s.flights[key].Started? then None
    else if !ok || key !in s.durable || !SameMaterial(s.flights[key].previous, s.durable[key]) then Some(s.EndFlight(key))
    else Some(s.(flights := s.flights[key := Loaded(s.flights[key].captured, s.durable[key])]))
  }

  function ApplyCheck(s: State, key: string, resolved: bool): Option<State> {
    if key !in s.flights || !s.flights[key].Loaded? then None
    else
      var f := s.flights[key];
      if f.captured != s.cache.EpochOf(key) || f.previous.refresh == "" || !resolved then Some(s.EndFlight(key))
      else Some(s.(flights := s.flights[key := Checked(f.captured, f.previous)]))
  }

  function ApplySend(s: State, key: string): Option<State> {
    if key !in s.flights || !s.flights[key].Checked? then None
    else
      var f := s.flights[key];
      Some(s.(flights := s.flights[key := OnWire(f.captured, f.previous)],
              sends := s.sends + [Sent(key, f.previous.refresh, f.previous.refresh in s.retired)]))
  }

  function ApplyRotate(s: State, key: string, tokens: TokenSet): Option<State> {
    if key !in s.flights || !s.flights[key].OnWire? || tokens.refresh == "" then None
    else
      var f := s.flights[key];
      Some(s.(flights := s.flights[key := Granted(f.captured, f.previous, tokens)],
              retired := s.retired + {f.previous.refresh},
              owner := s.owner[tokens.refresh := key]))
  }

  function ApplyReissue(s: State, key: string, access: string, expiresAt: int): Option<State> {
    if key !in s.flights || !s.flights[key].OnWire? then None
    else
      var f := s.flights[key];
      var tokens := TokenSet(access, f.previous.refresh, expiresAt);
      Some(s.(flights := s.flights[key := Granted(f.captured, f.previous, tokens)]))
  }

  function ApplyNoAnswer(s: State, key: string, consumed: bool): Option<State> {
    if key !in s.flights || !s.flights[key].OnWire? then None
    else
      var gone := if consumed then {s.flights[key].previous.refresh} else {};
      Some(s.(flights := s.flights - {key}, retired := s.retired + gone, lost := s.lost + gone))
  }

  /** The compare-and-swap patch: it writes only while the store still holds the
      refresh token that was sent. */
  function ApplyPersist(s: State, key: string, saved: bool): Option<State> {
    if key !in s.flights || !s.flights[key].Granted? then None
    else
      var f := s.flights[key];
      if key !in s.durable || s.durable[key].refresh != f.previous.refresh then Some(s.EndFlight(key))
      else if !saved then
        Some(s.EndFlight(key).(lost := if f.next.refresh == f.previous.refresh then s.lost else s.lost + {f.previous.refresh}))
      else
        var expiresAt := if f.next.expiresAt != 0 then f.next.expiresAt else s.durable[key].expiresAt;
        Some(s.(durable := s.durable[key := TokenSet(f.next.access, f.next.refresh, expiresAt)],
                flights := s.flights[key := Persisted(f.captured, f.previous, f.next)]))
  }

  function ApplyFinish(s: State, key: string): Option<State> {
    if key !in s.flights || !s.flights[key].Persisted? then None
    else
      var f := s.flights[key];
      Some(s.EndFlight(key).(cache := s.cache.Commit(key, f.next, f.captured)))
  }

  /** A whole run of the process, or None if some step was not enabled. */
  function Run(s: State, steps: seq<Step>): Option<State>
    decreases |steps|
  {
    if steps == [] then Some(s)
    else
      var next := Apply(s, steps[0]);
      if next.None? then None else Run(next.value, steps[1..])
  }

  // ---------------------------------------------------------------------------
  // Cache coherence

  /** No store write awaits its invalidation and no flight is between its store
      patch and its cache commit. */
  predicate Quiet(s: State, key: string) {
    s.Writers(key) == 0 && (key in s.flights ==> !s.flights[key].Persisted?)
  }

  ghost predicate Coherent(s: State, key: string) {
    key in s.cache.cache ==> key in s.durable && SameMaterial(s.cache.cache[key], s.durable[key])
  }

  ghost predicate CallerInv(s: State, c: nat)
    requires c in s.callers
  {
    EpochAtMost(s.callers[c].captured, s.cache.EpochOf(s.callers[c].key))
  }

  ghost predicate FlightInv(s: State, key: string)
    requires key in s.flights
  {
    var f := s.flights[key];
    && EpochAtMost(f.captured, s.cache.EpochOf(key))
    // A flight retired after its check leaves no entry a later commit could miss.
    && (f.PastCheck() && f.captured != s.cache.EpochOf(key) ==> key !in s.cache.cache)
    && (f.Persisted? && f.captured == s.cache.EpochOf(key) && s.Writers(key) == 0 ==>
          key in s.durable && SameMaterial(f.next, s.durable[key]))
  }

  ghost predicate CoherenceInv(s: State) {
    && (forall c :: c in s.callers ==> CallerInv(s, c))
    && (forall key :: key in s.flights ==> FlightInv(s, key))
    && (forall key :: Quiet(s, key) ==> Coherent(s, key))
  }

  lemma EpochsNeverFall(s: State, step: Step, key: string)
    requires Apply(s, step).Some?
    ensures EpochAtMost(s.cache.EpochOf(key), Apply(s, step).value.cache.EpochOf(key))
  {
  }

  /** A caller either stood there before or has just captured its key's epoch. */
  lemma CallerBefore(s: State, step: Step, c: nat)
    requires Apply(s, step).Some? && c in Apply(s, step).value.callers
    ensures var t := Apply(s, step).value;
            || (c in s.callers && t.callers[c] == s.callers[c])
            || t.callers[c].captured == t.cache.EpochOf(t.callers[c].key)
  {
  }

  lemma CallersStayBelow(s: State, step: Step, c: nat)
    requires CoherenceInv(s) && Apply(s, step).Some? && c in Apply(s, step).value.callers
    ensures CallerInv(Apply(s, step).value, c)
  {
    hide Apply, FlightInv, Coherent, Quiet;
    CallerBefore(s, step, c);
    if c in s.callers {
      assert CallerInv(s, c);
      EpochsNeverFall(s, step, s.callers[c].key);
    }
  }

  /** The key a step works on; only InvalidateAll reaches every key. */
  predicate About(s: State, step: Step, key: string) {
    match step
    case Begin(c) => c in s.callers && s.callers[c].key == key
    case InvalidateAll => true
    case _ => step.key == key
  }

  /** The steps of a flight before and after the provider's answer. */
  predicate BeforeAnswer(step: Step) {
    step.Begin? || step.Load? || step.Check? || step.Send?
  }

  predicate FromAnswer(step: Step) {
    step.Rotate? || step.Reissue? || step.NoAnswer? || step.Persist? || step.Finish?
  }

  ghost predicate SameAt(s: State, t: State, key: string) {
    && t.cache.EpochOf(key) == s.cache.EpochOf(key)
    && t.Writers(key) == s.Writers(key)
    && (key in t.cache.cache <==> key in s.cache.cache)
    && (key in t.cache.cache ==> t.cache.cache[key] == s.cache.cache[key])
    && (key in t.durable <==> key in s.durable)
    && (key in t.durable ==> t.durable[key] == s.durable[key])
    && (key in t.flights <==> key in s.flights)
    && (key in t.flights ==> t.flights[key] == s.flights[key])
  }

  lemma StartLeavesOthers(s: State, step: Step, key: string)
    requires Apply(s, step).Some? && !About(s, step, key) && (step.Begin? || step.Load?)
    ensures SameAt(s, Apply(s, step).value, key)
  {
  }

  lemma SendLeavesOthers(s: State, step: Step, key: string)
    requires Apply(s, step).Some? && !About(s, step, key) && (step.Check? || step.Send?)
    ensures SameAt(s, Apply(s, step).value, key)
  {
  }

  lemma RequestLeavesOthers(s: State, step: Step, key: string)
    requires Apply(s, step).Some? && !About(s, step, key) && BeforeAnswer(step)
    ensures SameAt(s, Apply(s, step).value, key)
  {
    hide Apply, SameAt, About;
    if step.Begin? || step.Load? {
      StartLeavesOthers(s, step, key);
    } else {
      SendLeavesOthers(s, step, key);
    }
  }

  lemma ProviderLeavesOthers(s: State, step: Step, key: string)
    requires Apply(s, step).Some? && !About(s, step, key) && (step.Rotate? || step.Reissue? || step.NoAnswer?)
    ensures SameAt(s, Apply(s, step).value, key)
  {
  }

  lemma CommitLeavesOthers(s: State, step: Step, key: string)
    requires Apply(s, step).Some? && !About(s, step, key) && (step.Persist? || step.Finish?)
    ensures SameAt(s, Apply(s, step).value, key)
  {
  }

  lemma AnswerLeavesOthers(s: State, step: Step, key: string)
    requires Apply(s, step).Some? && !About(s, step, key) && FromAnswer(step)
    ensures SameAt(s, Apply(s, step).value, key)
  {
    hide Apply, SameAt, About;
    if step.Persist? || step.Finish? {
      CommitLeavesOthers(s, step, key);
    } else {
      ProviderLeavesOthers(s, step, key);
    }
  }

  lemma ElsewhereUnchanged(s: State, step: Step, key: string)
    requires Apply(s, step).Some? && !About(s, step, key)
    ensures SameAt(s, Apply(s, step).value, key)
  {
    if BeforeAnswer(step) {
      RequestLeavesOthers(s, step, key);
    } else if FromAnswer(step) {
      AnswerLeavesOthers(s, step, key);
    }
  }

  lemma RequestStaysCoherent(s: State, step: Step, key: string)
    requires CoherenceInv(s) && BeforeAnswer(step) && Apply(s, step).Some? && About(s, step, key)
    ensures key in Apply(s, step).value.flights ==> FlightInv(Apply(s, step).value, key)
    ensures Quiet(Apply(s, step).value, key) ==> Coherent(Apply(s, step).value, key)
  {
    if step.Begin? {
      assert CallerInv(s, step.caller);
    } else {
      assert FlightInv(s, key);
    }
    if Quiet(s, key) {
      assert Coherent(s, key);
    }
  }

  lemma AnswerStaysCoherent(s: State, step: Step, key: string)
    requires CoherenceInv(s) && FromAnswer(step) && Apply(s, step).Some? && About(s, step, key)
    ensures key in Apply(s, step).value.flights ==> FlightInv(Apply(s, step).value, key)
    ensures Quiet(Apply(s, step).value, key) ==> Coherent(Apply(s, step).value, key)
  {
    assert FlightInv(s, key);
    if Quiet(s, key) {
      assert Coherent(s, key);
    }
  }

  lemma OutsideStepStaysCoherent(s: State, step: Step, key: string)
    requires CoherenceInv(s) && !BeforeAnswer(step) && !FromAnswer(step) && Apply(s, step).Some? && About(s, step, key)
    ensures key in Apply(s, step).value.flights ==> FlightInv(Apply(s, step).value, key)
    ensures Quiet(Apply(s, step).value, key) ==> Coherent(Apply(s, step).value, key)
  {
    EpochsNeverFall(s, step, key);
    if key in s.flights {
      assert FlightInv(s, key);
    }
    if Quiet(s, key) {
      assert Coherent(s, key);
    }
  }

  lemma KeyStaysCoherent(s: State, step: Step, key: string)
    requires CoherenceInv(s) && Apply(s, step).Some?
    ensures key in Apply(s, step).value.flights ==> FlightInv(Apply(s, step).value, key)
    ensures Quiet(Apply(s, step).value, key) ==> Coherent(Apply(s, step).value, key)
  {
    if !About(s, step, key) {
      ElsewhereUnchanged(s, step, key);
      if key in s.flights {
        assert FlightInv(s, key);
      }
      if Quiet(s, key) {
        assert Coherent(s, key);
      }
    } else if BeforeAnswer(step) {
      RequestStaysCoherent(s, step, key);
    } else if FromAnswer(step) {
      AnswerStaysCoherent(s, step, key);
    } else {
      OutsideStepStaysCoherent(s, step, key);
    }
  }

  lemma CoherenceStep(s: State, step: Step)
    requires CoherenceInv(s) && Apply(s, step).Some?
    ensures CoherenceInv(Apply(s, step).value)
  {
    var t := Apply(s, step).value;
    forall c | c in t.callers ensures CallerInv(t, c) {
      CallersStayBelow(s, step, c);
    }
    forall key | key in t.flights ensures FlightInv(t, key) {
      KeyStaysCoherent(s, step, key);
    }
    forall key | Quiet(t, key) ensures Coherent(t, key) {
      KeyStaysCoherent(s, step, key);
    }
  }

  lemma {:induction false} CoherenceRun(s: State, steps: seq<Step>)
    requires CoherenceInv(s) && Run(s, steps).Some?
    ensures CoherenceInv(Run(s, steps).value)
    decreases |steps|
  {
    if steps != [] {
      CoherenceStep(s, steps[0]);
      CoherenceRun(Apply(s, steps[0]).value, steps[1..]);
    }
  }

  /** In every run, with no hypothesis on the provider, the imports or the disk,
      a cached token set is the durable one whenever its key is quiet. */
  lemma CacheCoherence(steps: seq<Step>, key: string)
    requires Run(INITIAL, steps).Some?
    requires Quiet(Run(INITIAL, steps).value, key)
    ensures Coherent(Run(INITIAL, steps).value, key)
    // In the fields themselves.
    ensures var s := Run(INITIAL, steps).value;
            key in s.cache.cache ==>
              key in s.durable && s.cache.cache[key].access == s.durable[key].access && s.cache.cache[key].refresh == s.durable[key].refresh
  {
    assert CoherenceInv(INITIAL);
    CoherenceRun(INITIAL, steps);
  }

  // ---------------------------------------------------------------------------
  // At-most-once use of a refresh token

  /** What the protocol asks of the outside world: the provider issues refresh
      tokens nobody has seen, and an import brings none that belongs to another
      credential or that the provider has already retired. */
  predicate Lawful(s: State, step: Step) {
    match step
    case Rotate(key, tokens) => tokens.refresh !in s.owner
    case Write(key, access, refresh, expiresAt) =>
      || refresh == ""
      || refresh == Held(s, key).refresh
      || refresh !in s.owner
      || (s.owner[refresh] == key && refresh !in s.retired)
    case _ => true
  }

  predicate LawfulRun(s: State, steps: seq<Step>)
    decreases |steps|
  {
    steps == [] ||
    (Lawful(s, steps[0]) && Apply(s, steps[0]).Some? && LawfulRun(Apply(s, steps[0]).value, steps[1..]))
  }

  ghost predicate Owns(s: State, key: string, refresh: string) {
    refresh == "" || (refresh in s.owner && s.owner[refresh] == key)
  }

  /** The rotation of this token is on its way to the store. */
  ghost predicate InHand(s: State, key: string, refresh: string) {
    key in s.flights && s.flights[key].Granted? && s.flights[key].previous.refresh == refresh
  }

  ghost predicate DurableInv(s: State, key: string)
    requires key in s.durable
  {
    var refresh := s.durable[key].refresh;
    Owns(s, key, refresh) && (refresh in s.retired ==> refresh in s.lost || InHand(s, key, refresh))
  }

  ghost predicate TokenInv(s: State, key: string)
    requires key in s.flights
  {
    var f := s.flights[key];
    && (!f.Started? ==> Owns(s, key, f.previous.refresh))
    && (f.PastCheck() ==> f.previous.refresh != "")
    && (f.Loaded? || f.Checked? || f.OnWire? ==> f.previous.refresh in s.retired ==> f.previous.refresh in s.lost)
    && (f.Granted? ==>
          && f.next.refresh != ""
          && Owns(s, key, f.next.refresh)
          && (f.next.refresh != f.previous.refresh ==> f.previous.refresh in s.retired && f.next.refresh !in s.retired)
          && (f.next.refresh == f.previous.refresh ==> f.previous.refresh in s.retired ==> f.previous.refresh in s.lost))
  }

  ghost predicate HistoryInv(s: State) {
    && s.lost <= s.retired
    && "" !in s.owner
    && (forall refresh :: refresh in s.retired ==> refresh in s.owner)
    && (forall i :: 0 <= i < |s.sends| ==> s.sends[i].replayed ==> s.sends[i].refresh in s.lost)
  }

  ghost predicate AtMostOnceInv(s: State) {
    && HistoryInv(s)
    && (forall key :: key in s.durable ==> DurableInv(s, key))
    && (forall key :: key in s.flights ==> TokenInv(s, key))
  }

  /** A token known to belong to one credential is never retired through another. */
  lemma RetiredOnlyByOwner(s: State, step: Step, key: string, refresh: string)
    requires AtMostOnceInv(s) && Lawful(s, step) && Apply(s, step).Some? && !About(s, step, key)
    requires Owns(s, key, refresh)
    ensures var t := Apply(s, step).value;
            && Owns(t, key, refresh)
            && (refresh in t.retired <==> refresh in s.retired)
            && s.lost <= t.lost
  {
    if (step.Rotate? || step.NoAnswer?) && step.key in s.flights {
      assert TokenInv(s, step.key);
    }
    if step.Write? && step.refresh == Held(s, step.key).refresh && step.key in s.durable {
      assert DurableInv(s, step.key);
    }
  }

  lemma RequestStaysSound(s: State, step: Step, key: string)
    requires AtMostOnceInv(s) && Lawful(s, step) && BeforeAnswer(step) && Apply(s, step).Some? && About(s, step, key)
    ensures key in Apply(s, step).value.durable ==> DurableInv(Apply(s, step).value, key)
    ensures key in Apply(s, step).value.flights ==> TokenInv(Apply(s, step).value, key)
  {
    if key in s.durable {
      assert DurableInv(s, key);
    }
    if key in s.flights {
      assert TokenInv(s, key);
    }
  }

  lemma ProviderStaysSound(s: State, step: Step, key: string)
    requires AtMostOnceInv(s) && Lawful(s, step) && (step.Rotate? || step.Reissue? || step.NoAnswer?) && Apply(s, step).Some? && About(s, step, key)
    ensures key in Apply(s, step).value.durable ==> DurableInv(Apply(s, step).value, key)
    ensures key in Apply(s, step).value.flights ==> TokenInv(Apply(s, step).value, key)
  {
    if key in s.durable {
      assert DurableInv(s, key);
    }
    if key in s.flights {
      assert TokenInv(s, key);
    }
  }

  lemma CommitStaysSound(s: State, step: Step, key: string)
    requires AtMostOnceInv(s) && Lawful(s, step) && (step.Persist? || step.Finish?) && Apply(s, step).Some? && About(s, step, key)
    ensures key in Apply(s, step).value.durable ==> DurableInv(Apply(s, step).value, key)
    ensures key in Apply(s, step).value.flights ==> TokenInv(Apply(s, step).value, key)
  {
    if key in s.durable {
      assert DurableInv(s, key);
    }
    if key in s.flights {
      assert TokenInv(s, key);
    }
  }

  lemma AnswerStaysSound(s: State, step: Step, key: string)
    requires AtMostOnceInv(s) && Lawful(s, step) && FromAnswer(step) && Apply(s, step).Some? && About(s, step, key)
    ensures key in Apply(s, step).value.durable ==> DurableInv(Apply(s, step).value, key)
    ensures key in Apply(s, step).value.flights ==> TokenInv(Apply(s, step).value, key)
  {
    hide AtMostOnceInv, Apply, Lawful, About, DurableInv, TokenInv;
    if step.Persist? || step.Finish? {
      CommitStaysSound(s, step, key);
    } else {
      ProviderStaysSound(s, step, key);
    }
  }

  lemma OutsideStepStaysSound(s: State, step: Step, key: string)
    requires AtMostOnceInv(s) && Lawful(s, step) && !BeforeAnswer(step) && !FromAnswer(step) && Apply(s, step).Some? && About(s, step, key)
    ensures key in Apply(s, step).value.durable ==> DurableInv(Apply(s, step).value, key)
    ensures key in Apply(s, step).value.flights ==> TokenInv(Apply(s, step).value, key)
  {
    if key in s.durable {
      assert DurableInv(s, key);
    }
    if key in s.flights {
      assert TokenInv(s, key);
    }
  }

  lemma KeyStaysSound(s: State, step: Step, key: string)
    requires AtMostOnceInv(s) && Lawful(s, step) && Apply(s, step).Some?
    ensures key in Apply(s, step).value.durable ==> DurableInv(Apply(s, step).value, key)
    ensures key in Apply(s, step).value.flights ==> TokenInv(Apply(s, step).value, key)
  {
    if !About(s, step, key) {
      ElsewhereUnchanged(s, step, key);
      if key in s.durable {
        assert DurableInv(s, key);
        RetiredOnlyByOwner(s, step, key, s.durable[key].refresh);
      }
      if key in s.flights {
        assert TokenInv(s, key);
        if !s.flights[key].Started? {
          RetiredOnlyByOwner(s, step, key, s.flights[key].previous.refresh);
        }
        if s.flights[key].Granted? {
          RetiredOnlyByOwner(s, step, key, s.flights[key].next.refresh);
        }
      }
    } else if BeforeAnswer(step) {
      RequestStaysSound(s, step, key);
    } else if FromAnswer(step) {
      AnswerStaysSound(s, step, key);
    } else {
      OutsideStepStaysSound(s, step, key);
    }
  }

  lemma HistoryStaysSound(s: State, step: Step)
    requires AtMostOnceInv(s) && Lawful(s, step) && Apply(s, step).Some?
    ensures HistoryInv(Apply(s, step).value)
  {
    if (step.Send? || FromAnswer(step)) && step.key in s.flights {
      assert TokenInv(s, step.key);
    }
  }

  lemma AtMostOnceStep(s: State, step: Step)
    requires AtMostOnceInv(s) && Lawful(s, step) && Apply(s, step).Some?
    ensures AtMostOnceInv(Apply(s, step).value)
  {
    var t := Apply(s, step).value;
    HistoryStaysSound(s, step);
    forall key | key in t.durable ensures DurableInv(t, key) {
      KeyStaysSound(s, step, key);
    }
    forall key | key in t.flights ensures TokenInv(t, key) {
      KeyStaysSound(s, step, key);
    }
  }

  lemma {:induction false} AtMostOnceRun(s: State, steps: seq<Step>)
    requires AtMostOnceInv(s) && LawfulRun(s, steps)
    ensures Run(s, steps).Some? && AtMostOnceInv(Run(s, steps).value)
    decreases |steps|
  {
    if steps != [] {
      AtMostOnceStep(s, steps[0]);
      AtMostOnceRun(Apply(s, steps[0]).value, steps[1..]);
    }
  }

  /** Exactly when a token whose grant already succeeded is sent again: when, and
      only when, its rotation was lost before it reached the store. */
  lemma ReplayOnlyOfLostRotation(steps: seq<Step>, key: string)
    requires LawfulRun(INITIAL, steps)
    ensures Run(INITIAL, steps).Some?
    ensures var s := Run(INITIAL, steps).value;
            Apply(s, Send(key)).Some? ==>
              (s.flights[key].previous.refresh in s.retired <==> s.flights[key].previous.refresh in s.lost)
    ensures forall i :: 0 <= i < |Run(INITIAL, steps).value.sends| && Run(INITIAL, steps).value.sends[i].replayed ==>
              Run(INITIAL, steps).value.sends[i].refresh in Run(INITIAL, steps).value.lost
  {
    assert AtMostOnceInv(INITIAL);
    AtMostOnceRun(INITIAL, steps);
    var s := Run(INITIAL, steps).value;
    if Apply(s, Send(key)).Some? {
      assert TokenInv(s, key);
    }
  }

  /** The steps that lose a rotation: a response that never arrives, or a store
      patch that fails. */
  predicate Lossless(step: Step) {
    !(step.NoAnswer? && step.consumed) && !(step.Persist? && !step.saved)
  }

  lemma LosslessStepLosesNothing(s: State, step: Step)
    requires Apply(s, step).Some? && Lossless(step)
    ensures Apply(s, step).value.lost == s.lost
  {
  }

  lemma {:induction false} LosslessRunLosesNothing(s: State, steps: seq<Step>)
    requires Run(s, steps).Some? && forall i :: 0 <= i < |steps| ==> Lossless(steps[i])
    ensures Run(s, steps).value.lost == s.lost
    decreases |steps|
  {
    hide Apply, Lossless;
    if steps != [] {
      LosslessStepLosesNothing(s, steps[0]);
      forall i | 0 <= i < |steps[1..]| ensures Lossless(steps[1..][i]) {
        assert Lossless(steps[i + 1]);
      }
      LosslessRunLosesNothing(Apply(s, steps[0]).value, steps[1..]);
    }
  }

  /** In every interleaving in which responses arrive and store patches succeed,
      no refresh token is sent after the provider has rotated it away. */
  lemma AtMostOnceUse(steps: seq<Step>)
    requires LawfulRun(INITIAL, steps) && forall i :: 0 <= i < |steps| ==> Lossless(steps[i])
    ensures Run(INITIAL, steps).Some?
    ensures forall i :: 0 <= i < |Run(INITIAL, steps).value.sends| ==> !Run(INITIAL, steps).value.sends[i].replayed
  {
    ReplayOnlyOfLostRotation(steps, "");
    LosslessRunLosesNothing(INITIAL, steps);
  }

  lemma RunFirst(s: State, step: Step, rest: seq<Step>)
    requires Apply(s, step).Some?
    ensures Run(s, [step] + rest) == Run(Apply(s, step).value, rest)
    ensures LawfulRun(s, [step] + rest) <==> Lawful(s, step) && LawfulRun(Apply(s, step).value, rest)
  {
  }

  /** From an idle key, one flight up to the point where its grant is on the wire. */
  function Opening(key: string, held: TokenSet, rest: seq<Step>): seq<Step> {
    [Capture(0, key, held)] + ([Begin(0)] + ([Load(key, true)] + rest))
  }

  function Sending(key: string, rest: seq<Step>): seq<Step> {
    [Check(key, true)] + ([Send(key)] + rest)
  }

  lemma OpeningLoads(s: State, key: string, rest: seq<Step>)
    requires key in s.durable && key !in s.flights && key !in s.cache.cache && s.durable[key].refresh != ""
    ensures var held := s.durable[key];
            var begun := s.(callers := s.callers - {0}, flights := s.flights[key := Loaded(s.cache.EpochOf(key), held)]);
            && Run(s, Opening(key, held, rest)) == Run(begun, rest)
            && (LawfulRun(s, Opening(key, held, rest)) <==> LawfulRun(begun, rest))
  {
    var held := s.durable[key];
    var epoch := s.cache.EpochOf(key);
    var s1 := s.(callers := s.callers[0 := Caller(key, held, epoch)]);
    var s2 := s1.(callers := s.callers - {0}, flights := s.flights[key := Started(epoch, held)]);
    assert s1.callers - {0} == s.callers - {0};
    assert s2.flights[key := Loaded(epoch, held)] == s.flights[key := Loaded(epoch, held)];
    RunFirst(s, Capture(0, key, held), [Begin(0)] + ([Load(key, true)] + rest));
    RunFirst(s1, Begin(0), [Load(key, true)] + rest);
    RunFirst(s2, Load(key, true), rest);
  }

  lemma SendingSends(s: State, key: string, rest: seq<Step>)
    requires key in s.flights && s.flights[key].Loaded? && s.flights[key].captured == s.cache.EpochOf(key)
    requires s.flights[key].previous.refresh != ""
    ensures var f := s.flights[key];
            var sent := s.(flights := s.flights[key := OnWire(f.captured, f.previous)],
                           sends := s.sends + [Sent(key, f.previous.refresh, f.previous.refresh in s.retired)]);
            && Run(s, Sending(key, rest)) == Run(sent, rest)
            && (LawfulRun(s, Sending(key, rest)) <==> LawfulRun(sent, rest))
  {
    var f := s.flights[key];
    var s1 := s.(flights := s.flights[key := Checked(f.captured, f.previous)]);
    assert s1.flights[key := OnWire(f.captured, f.previous)] == s.flights[key := OnWire(f.captured, f.previous)];
    RunFirst(s, Check(key, true), [Send(key)] + rest);
    RunFirst(s1, Send(key), rest);
  }

  ghost predicate Idle(s: State, key: string) {
    key in s.durable && key !in s.flights && key !in s.cache.cache && s.durable[key].refresh != ""
  }

  lemma OneFlightSends(s: State, key: string, rest: seq<Step>) returns (t: State)
    requires Idle(s, key)
    ensures t == s.(callers := s.callers - {0},
                    flights := s.flights[key := OnWire(s.cache.EpochOf(key), s.durable[key])],
                    sends := s.sends + [Sent(key, s.durable[key].refresh, s.durable[key].refresh in s.retired)])
    ensures Run(s, Opening(key, s.durable[key], Sending(key, rest))) == Run(t, rest)
    ensures LawfulRun(s, Opening(key, s.durable[key], Sending(key, rest))) <==> LawfulRun(t, rest)
  {
    var held := s.durable[key];
    var s1 := s.(callers := s.callers - {0}, flights := s.flights[key := Loaded(s.cache.EpochOf(key), held)]);
    OpeningLoads(s, key, Sending(key, rest));
    SendingSends(s1, key, rest);
    var f := OnWire(s.cache.EpochOf(key), held);
    t := s.(callers := s.callers - {0}, flights := s.flights[key := f],
            sends := s.sends + [Sent(key, held.refresh, held.refresh in s.retired)]);
    assert s1.flights[key := f] == t.flights;
  }

  /** The losslessness hypothesis is needed, in every state: when a response never
      arrives the store still holds the retired token, and the next flight sends it. */
  lemma LostResponseReplays(s: State, key: string) returns (steps: seq<Step>)
    requires Idle(s, key)
    ensures LawfulRun(s, steps) && Run(s, steps).Some?
    ensures var refresh := s.durable[key].refresh;
            Run(s, steps).value.sends == s.sends + [Sent(key, refresh, refresh in s.retired), Sent(key, refresh, true)]
  {
    var held := s.durable[key];
    var again := Opening(key, held, Sending(key, []));
    steps := Opening(key, held, Sending(key, [NoAnswer(key, true)] + again));
    var t := OneFlightSends(s, key, [NoAnswer(key, true)] + again);
    RunFirst(t, NoAnswer(key, true), again);
    var u := Apply(t, NoAnswer(key, true)).value;
    var v := OneFlightSends(u, key, []);
  }

  // ---------------------------------------------------------------------------
  // What a finished flight leaves behind

  /** A flight whose captured epoch is still current leaves the granted set in the
      cache; one whose epoch has moved on leaves the cache as it was. */
  lemma FinishCaches(s: State, key: string)
    requires Apply(s, Finish(key)).Some?
    ensures var f, t := s.flights[key], Apply(s, Finish(key)).value;
            && key !in t.flights && t.durable == s.durable
            && (f.captured == s.cache.EpochOf(key) ==> key in t.cache.cache && t.cache.cache[key] == f.next)
            && (f.captured != s.cache.EpochOf(key) ==> t.cache == s.cache)
            && (forall other :: other != key ==> (other in t.cache.cache <==> other in s.cache.cache))
            && (forall other :: other != key && other in t.cache.cache ==> t.cache.cache[other] == s.cache.cache[other])
  {
  }

  /** Steps that drop a key's cached set, or replace it. */
  predicate Disturbs(step: Step, key: string) {
    step.InvalidateAll? || ((step.InvalidateKey? || step.CloseWrite? || step.Finish?) && step.key == key)
  }

  /** Until such a step the key keeps its cached set, whatever else goes on. */
  lemma {:induction false} CachedUntilDisturbed(s: State, steps: seq<Step>, key: string)
    requires Run(s, steps).Some? && key in s.cache.cache
    requires forall i :: 0 <= i < |steps| ==> !Disturbs(steps[i], key)
    ensures key in Run(s, steps).value.cache.cache && Run(s, steps).value.cache.cache[key] == s.cache.cache[key]
    decreases |steps|
  {
    hide Apply, Disturbs;
    if steps != [] {
      KeepsCached(s, steps[0], key);
      forall i | 0 <= i < |steps[1..]| ensures !Disturbs(steps[1..][i], key) {
        assert !Disturbs(steps[i + 1], key);
      }
      CachedUntilDisturbed(Apply(s, steps[0]).value, steps[1..], key);
    }
  }

  lemma KeepsCached(s: State, step: Step, key: string)
    requires Apply(s, step).Some? && key in s.cache.cache && !Disturbs(step, key)
    ensures key in Apply(s, step).value.cache.cache && Apply(s, step).value.cache.cache[key] == s.cache.cache[key]
  {
  }

  /** One ordinary flight from an idle key. */
  function WholeFlight(key: string, held: TokenSet, tokens: TokenSet): seq<Step> {
    Opening(key, held, Sending(key, Answering(key, tokens)))
  }

  function Answering(key: string, tokens: TokenSet): seq<Step> {
    [Rotate(key, tokens)] + ([Persist(key, true)] + ([Finish(key)] + []))
  }

  /** A granted set as stored: an expiry the grant does not tell stays the one known. */
  function Kept(held: TokenSet, tokens: TokenSet): TokenSet {
    tokens.(expiresAt := if tokens.expiresAt != 0 then tokens.expiresAt else held.expiresAt)
  }

  lemma AnsweringKeeps(s: State, key: string, tokens: TokenSet)
    requires key in s.flights && s.flights[key].OnWire? && s.flights[key].captured == s.cache.EpochOf(key)
    requires key in s.durable && s.flights[key].previous == s.durable[key] && tokens.refresh != ""
    ensures var run := Run(s, Answering(key, tokens));
            && run.Some? && key !in run.value.flights
            && run.value.durable == s.durable[key := Kept(s.durable[key], tokens)]
            && run.value.cache == s.cache.(cache := s.cache.cache[key := tokens])
            && run.value.sends == s.sends && run.value.retired == s.retired + {s.durable[key].refresh}
  {
    var f := s.flights[key];
    var last := [Finish(key)] + [];
    var s1 := s.(flights := s.flights[key := Granted(f.captured, f.previous, tokens)],
                 retired := s.retired + {f.previous.refresh}, owner := s.owner[tokens.refresh := key]);
    var s2 := s1.(durable := s.durable[key := Kept(s.durable[key], tokens)], flights := s1.flights[key := Persisted(f.captured, f.previous, tokens)]);
    var s3 := s2.(flights := s2.flights - {key}, cache := s.cache.(cache := s.cache.cache[key := tokens]));
    FirstSteps(s, key, tokens, s1, s2, s3);
    RunFirst(s, Rotate(key, tokens), [Persist(key, true)] + last);
    RunFirst(s1, Persist(key, true), last);
    RunFirst(s2, Finish(key), []);
  }

  lemma FirstSteps(s: State, key: string, tokens: TokenSet, s1: State, s2: State, s3: State)
    requires key in s.flights && s.flights[key].OnWire? && s.flights[key].captured == s.cache.EpochOf(key)
    requires key in s.durable && s.flights[key].previous == s.durable[key] && tokens.refresh != ""
    requires s1 == s.(flights := s.flights[key := Granted(s.flights[key].captured, s.durable[key], tokens)],
                      retired := s.retired + {s.durable[key].refresh}, owner := s.owner[tokens.refresh := key])
    requires s2 == s1.(durable := s.durable[key := Kept(s.durable[key], tokens)],
                       flights := s1.flights[key := Persisted(s.flights[key].captured, s.durable[key], tokens)])
    requires s3 == s2.(flights := s2.flights - {key}, cache := s.cache.(cache := s.cache.cache[key := tokens]))
    ensures ApplyRotate(s, key, tokens) == Some(s1) && ApplyPersist(s1, key, true) == Some(s2) && ApplyFinish(s2, key) == Some(s3)
  {
  }

  /** It sends the stored refresh token once, and ends with the granted set both
      stored and cached. */
  lemma FlightIsKept(s: State, key: string, tokens: TokenSet)
    requires Idle(s, key) && tokens.refresh != ""
    ensures var run := Run(s, WholeFlight(key, s.durable[key], tokens));
            && run.Some? && key !in run.value.flights
            && run.value.durable == s.durable[key := Kept(s.durable[key], tokens)]
            && run.value.cache == s.cache.(cache := s.cache.cache[key := tokens])
            && run.value.sends == s.sends + [Sent(key, s.durable[key].refresh, s.durable[key].refresh in s.retired)]
            && run.value.retired == s.retired + {s.durable[key].refresh}
  {
    hide Apply, Run, Opening, Sending, Answering;
    var t := OneFlightSends(s, key, Answering(key, tokens));
    AnsweringKeeps(t, key, tokens);
  }

  /** From a finished flight on, until its key's cached set is dropped or replaced or
      expires, every caller is served the granted set, whatever its own snapshot. */
  method ServedAfterFlight(r: Refresher, ghost s: State, ghost steps: seq<Step>, key: string,
      current: TokenSet, now: int, skew: int) returns (d: AccessDecision)
    requires key != "" && Apply(s, Finish(key)).Some? && s.flights[key].captured == s.cache.EpochOf(key)
    requires Run(Apply(s, Finish(key)).value, steps).Some? && forall i :: 0 <= i < |steps| ==> !Disturbs(steps[i], key)
    requires r.State() == Run(Apply(s, Finish(key)).value, steps).value.cache
    requires s.flights[key].next.access != "" && !s.flights[key].next.Expired(now, skew)
    ensures d.UseCached? && d.tokens == s.flights[key].next
  {
    FinishCaches(s, key);
    CachedUntilDisturbed(Apply(s, Finish(key)).value, steps, key);
    hide Apply, Run;
    d := r.EnsureAccess(key, current, now, skew);
  }

  // ---------------------------------------------------------------------------
  // Who changes what

  /** A stored token pair changes only by an import, an edit or a deletion of its own
      key, or by a finished grant, and by that only while the store still holds the
      refresh token that was sent; what is stored then is what was granted. */
  lemma StoreChangesOnly(s: State, step: Step, key: string)
    requires Apply(s, step).Some?
    ensures var t := Apply(s, step).value;
            && (step.Write? && step.key == key ==>
                  && key in t.durable
                  && (step.access != "" ==> t.durable[key].access == step.access)
                  && (step.refresh != "" ==> t.durable[key].refresh == step.refresh)
                  && (step.expiresAt != 0 ==> t.durable[key].expiresAt == step.expiresAt)
                  && (key in s.durable ==>
                        && (step.access == "" ==> t.durable[key].access == s.durable[key].access)
                        && (step.refresh == "" ==> t.durable[key].refresh == s.durable[key].refresh)
                        && (step.expiresAt == 0 ==> t.durable[key].expiresAt == s.durable[key].expiresAt)))
            && (step.Delete? && step.key == key ==> key !in t.durable)
            && (((key in t.durable <==> key in s.durable) && (key in s.durable ==> t.durable[key] == s.durable[key]))
                || ((step.Write? || step.Delete?) && step.key == key)
                || (step == Persist(key, true) && key in s.flights && s.flights[key].Granted?
                    && key in s.durable && s.durable[key].refresh == s.flights[key].previous.refresh
                    && key in t.durable && t.durable[key].access == s.flights[key].next.access
                    && t.durable[key].refresh == s.flights[key].next.refresh
                    && t.durable[key].expiresAt == (if s.flights[key].next.expiresAt != 0 then s.flights[key].next.expiresAt
                                                   else s.durable[key].expiresAt)))
  {
  }

  /** How a flight begins: with its caller's epoch and its snapshot, or what the cache
      knows better. */
  lemma FlightBegins(s: State, caller: nat)
    requires Apply(s, Begin(caller)).Some?
    ensures var c, t := s.callers[caller], Apply(s, Begin(caller)).value;
            && c.key !in s.flights && c.key in t.flights && t.flights[c.key].Started? && t.flights[c.key].captured == c.captured
            && (c.key !in s.cache.cache ==> t.flights[c.key].previous == c.current)
            && (c.key in s.cache.cache && s.cache.cache[c.key].refresh != "" ==> t.flights[c.key].previous.refresh == s.cache.cache[c.key].refresh)
  {
  }

  /** What is sent upstream is the refresh token that the store held and that the
      flight's own snapshot agreed with, under an epoch that was current when checked;
      a flight that finds anything else ends without sending. */
  lemma FlightGuards(s: State, key: string)
    ensures forall ok :: Apply(s, Load(key, ok)).Some? ==>
              var t := Apply(s, Load(key, ok)).value;
              && (key in t.flights <==>
                    ok && key in s.durable
                    && s.flights[key].previous.access == s.durable[key].access && s.flights[key].previous.refresh == s.durable[key].refresh)
              && (key in t.flights ==> t.flights[key] == Loaded(s.flights[key].captured, s.durable[key]))
    ensures forall resolved :: Apply(s, Check(key, resolved)).Some? ==>
              var t := Apply(s, Check(key, resolved)).value;
              && (key in t.flights <==> resolved && s.flights[key].captured == s.cache.EpochOf(key) && s.flights[key].previous.refresh != "")
              && (key in t.flights ==> t.flights[key] == Checked(s.flights[key].captured, s.flights[key].previous))
    ensures Apply(s, Send(key)).Some? ==>
              var t := Apply(s, Send(key)).value;
              && s.flights[key].Checked? && key in t.flights && t.flights[key] == OnWire(s.flights[key].captured, s.flights[key].previous)
              && |t.sends| == |s.sends| + 1 && t.sends[|s.sends|].key == key && t.sends[|s.sends|].refresh == s.flights[key].previous.refresh
  {
  }

  /** A grant that brings a new refresh token retires the one sent; one that brings
      none keeps it; an unanswered or failed one ends the flight and stores nothing. */
  lemma GrantMeans(s: State, key: string)
    ensures forall tokens :: Apply(s, Rotate(key, tokens)).Some? ==>
              var t := Apply(s, Rotate(key, tokens)).value;
              && key in t.flights && t.flights[key] == Granted(s.flights[key].captured, s.flights[key].previous, tokens)
              && t.retired == s.retired + {s.flights[key].previous.refresh} && t.lost == s.lost
    ensures forall access, expiresAt :: Apply(s, Reissue(key, access, expiresAt)).Some? ==>
              var t := Apply(s, Reissue(key, access, expiresAt)).value;
              && key in t.flights && t.retired == s.retired
              && t.flights[key] == Granted(s.flights[key].captured, s.flights[key].previous,
                                           TokenSet(access, s.flights[key].previous.refresh, expiresAt))
    ensures forall consumed :: Apply(s, NoAnswer(key, consumed)).Some? ==>
              var t := Apply(s, NoAnswer(key, consumed)).value;
              && key !in t.flights && t.durable == s.durable && t.cache == s.cache
              && (s.flights[key].previous.refresh in t.lost <==> consumed || s.flights[key].previous.refresh in s.lost)
    ensures forall saved :: Apply(s, Persist(key, saved)).Some? ==>
              var t := Apply(s, Persist(key, saved)).value;
              && (key in t.flights <==> saved && key in s.durable && s.durable[key].refresh == s.flights[key].previous.refresh)
              && (key in t.flights ==> t.flights[key] == Persisted(s.flights[key].captured, s.flights[key].previous, s.flights[key].next))
  {
  }
}
