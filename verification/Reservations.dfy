/**
  Reservation accounting over interleaved requests: each request's calls to the
  selector follow a discipline, and then the in-flight counts of the selector
  are exactly the attempts and response bodies still open.
  (internal/lb/selector.go, internal/proxy/executor.go)
 */
module Reservations {
  import opened Common
  import opened Selection

  /** What one request holds: nothing, an attempt on a credential, or a response body. */
  datatype Hand = Empty | Open(id: string) | Body(id: string) | Broken

  function After(hand: Hand, call: Call): Hand {
    match call
    case Picked(id) => if hand == Empty && id != "" then Open(id) else Broken
    case Completed(id, how) =>
      if hand == Open(id) then Empty
      else if hand == Body(id) && how == ReleasedIt then Empty
      else Broken
    case Kept(id) => if hand == Open(id) then Body(id) else Broken
  }

  /** Runs a request's calls from what it held before. */
  function HandAfter(hand: Hand, calls: seq<Call>): Hand {
    if calls == [] then hand else After(HandAfter(hand, calls[..|calls| - 1]), calls[|calls| - 1])
  }

  lemma {:induction false} HandJoin(hand: Hand, before: seq<Call>, after: seq<Call>)
    ensures HandAfter(hand, before + after) == HandAfter(HandAfter(hand, before), after)
    decreases |after|
  {
    if after == [] {
      assert before + after == before;
    } else {
      HandJoin(hand, before, after[..|after| - 1]);
      assert (before + after)[..|before + after| - 1] == before + after[..|after| - 1];
    }
  }

  datatype Act = Act(thread: nat, call: Call)

  function CallsOf(acts: seq<Act>): seq<Call> {
    if acts == [] then [] else CallsOf(acts[..|acts| - 1]) + [acts[|acts| - 1].call]
  }

  /** What a request holds at the end of an interleaving. */
  function HandIn(acts: seq<Act>, thread: nat): Hand {
    if acts == [] then Empty
    else
      var before := HandIn(acts[..|acts| - 1], thread);
      var act := acts[|acts| - 1];
      if act.thread == thread then After(before, act.call) else before
  }

  function Threads(acts: seq<Act>): set<nat> {
    set act | act in acts :: act.thread
  }

  predicate Holds(hand: Hand, id: string) {
    hand == Open(id) || hand == Body(id)
  }

  function Holders(acts: seq<Act>, id: string): set<nat> {
    set thread | thread in Threads(acts) && Holds(HandIn(acts, thread), id)
  }

  /** Every request follows the discipline throughout. */
  ghost predicate Disciplined(acts: seq<Act>) {
    forall thread: nat :: HandIn(acts, thread) != Broken
  }

  lemma DisciplinedBefore(acts: seq<Act>)
    requires acts != [] && Disciplined(acts)
    ensures Disciplined(acts[..|acts| - 1])
  {
    var front := acts[..|acts| - 1];
    forall thread: nat ensures HandIn(front, thread) != Broken {
      assert HandIn(acts, thread) != Broken;
    }
  }

  lemma {:induction false} StrangersHoldNothing(acts: seq<Act>, thread: nat)
    requires thread !in Threads(acts)
    ensures HandIn(acts, thread) == Empty
  {
    if acts != [] {
      assert acts[|acts| - 1] in acts;
      assert forall act :: act in acts[..|acts| - 1] ==> act in acts;
      StrangersHoldNothing(acts[..|acts| - 1], thread);
    }
  }

  /** One more act changes only its own request's part in the holders. */
  lemma HoldersAfter(acts: seq<Act>, id: string)
    requires acts != [] && Disciplined(acts)
    ensures var front, act := acts[..|acts| - 1], acts[|acts| - 1];
            Holders(acts, id) == match act.call
              case Picked(other) => if other == id then Holders(front, id) + {act.thread} else Holders(front, id)
              case Completed(other, _) => if other == id then Holders(front, id) - {act.thread} else Holders(front, id)
              case Kept(_) => Holders(front, id)
    ensures var front, act := acts[..|acts| - 1], acts[|acts| - 1];
            && (act.call.Picked? ==> act.thread !in Holders(front, id) && act.call.id != "")
            && (act.call.Completed? && act.call.id == id ==> act.thread in Holders(front, id))
  {
    hide HandIn;
    var front, act := acts[..|acts| - 1], acts[|acts| - 1];
    assert acts == front + [act];
    ThreadsAfter(front, act);
    forall thread: nat
      ensures HandIn(acts, thread) == if thread == act.thread then After(HandIn(front, thread), act.call) else HandIn(front, thread)
      ensures thread !in Threads(front) ==> HandIn(front, thread) == Empty
      ensures HandIn(acts, thread) != Broken
    {
      HandStep(front, act, thread);
      if thread !in Threads(front) {
        StrangersHoldNothing(front, thread);
      }
    }
  }

  lemma ThreadsAfter(acts: seq<Act>, act: Act)
    ensures Threads(acts + [act]) == Threads(acts) + {act.thread}
  {
  }

  lemma HandStep(acts: seq<Act>, act: Act, thread: nat)
    ensures HandIn(acts + [act], thread) == if thread == act.thread then After(HandIn(acts, thread), act.call) else HandIn(acts, thread)
  {
  }

  /** Conservation: in every interleaving of disciplined requests a credential's
      in-flight count is the number of requests holding it, and every completion
      finds a count of at least one, so none is ever lost to the clamp at zero. */
  lemma {:induction false} InFlightIsHeld(acts: seq<Act>, id: string)
    requires Disciplined(acts)
    ensures Load(LoadsAfter(CallsOf(acts)), id) == |Holders(acts, id)|
    ensures acts != [] && acts[|acts| - 1].call.Completed? && acts[|acts| - 1].call.id == id ==>
              Load(LoadsAfter(CallsOf(acts[..|acts| - 1])), id) >= 1
  {
    if acts != [] {
      hide Holders, HandIn, Disciplined, LoadsAfter, Load;
      var front, act := acts[..|acts| - 1], acts[|acts| - 1];
      DisciplinedBefore(acts);
      InFlightIsHeld(front, id);
      HoldersAfter(acts, id);
      LoadAfterCall(CallsOf(front), act.call, id);
    }
  }

  lemma LoadAfterCall(calls: seq<Call>, call: Call, id: string)
    ensures var before := Load(LoadsAfter(calls), id);
            Load(LoadsAfter(calls + [call]), id) ==
              if call.Picked? && call.id == id && id != "" then before + 1
              else if call.Completed? && call.id == id && before > 0 then before - 1
              else before
  {
  }

  /** Every pick in the history found its credential below the cap. */
  ghost predicate PicksBelow(calls: seq<Call>, cap: nat) {
    forall k :: 0 <= k < |calls| && calls[k].Picked? ==> Load(LoadsAfter(calls[..k]), calls[k].id) < cap
  }

  /** So no credential ever has more in flight than the cap. */
  lemma {:induction false} NeverAboveCap(calls: seq<Call>, cap: nat, id: string)
    requires PicksBelow(calls, cap)
    ensures Load(LoadsAfter(calls), id) <= cap
  {
    if calls != [] {
      var front := calls[..|calls| - 1];
      forall k | 0 <= k < |front| ensures front[..k] == calls[..k] {
      }
      NeverAboveCap(front, cap, id);
    }
  }

  // ---------------------------------------------------------------------------
  // From one request to all of them

  /** The calls one request made, in order. */
  function CallsBy(acts: seq<Act>, thread: nat): seq<Call> {
    if acts == [] then []
    else
      var act := acts[|acts| - 1];
      CallsBy(acts[..|acts| - 1], thread) + if act.thread == thread then [act.call] else []
  }

  lemma {:induction false} HandIsItsOwn(acts: seq<Act>, thread: nat)
    ensures HandIn(acts, thread) == HandAfter(Empty, CallsBy(acts, thread))
  {
    if acts != [] {
      var front, act := acts[..|acts| - 1], acts[|acts| - 1];
      HandIsItsOwn(front, thread);
      if act.thread == thread {
        assert CallsBy(acts, thread)[..|CallsBy(acts, thread)| - 1] == CallsBy(front, thread);
      } else {
        assert CallsBy(acts, thread) == CallsBy(front, thread);
      }
    }
  }

  lemma {:induction false} BrokenStaysBroken(calls: seq<Call>)
    ensures HandAfter(Broken, calls) == Broken
  {
    if calls != [] {
      BrokenStaysBroken(calls[..|calls| - 1]);
    }
  }

  /** Requests that each follow the discipline on their own do so in every
      interleaving, however far each has got. */
  lemma InterleavingKeepsDiscipline(acts: seq<Act>, whole: map<nat, seq<Call>>)
    requires forall thread: nat :: CallsBy(acts, thread) != [] ==> thread in whole
    requires forall thread :: thread in whole ==> CallsBy(acts, thread) <= whole[thread] && HandAfter(Empty, whole[thread]) != Broken
    ensures Disciplined(acts)
  {
    forall thread: nat ensures HandIn(acts, thread) != Broken {
      HandIsItsOwn(acts, thread);
      if thread in whole {
        var made := CallsBy(acts, thread);
        var rest := whole[thread][|made|..];
        assert whole[thread] == made + rest;
        HandJoin(Empty, made, rest);
        BrokenStaysBroken(rest);
      }
    }
  }

  // ---------------------------------------------------------------------------
  // Requests

  predicate Attempted(pick: Call, done: Call) {
    pick.Picked? && pick.id != "" && done.Completed? && done.id == pick.id
  }

  predicate KeptOpen(pick: Call, kept: Call) {
    pick.Picked? && pick.id != "" && kept == Kept(pick.id)
  }

  /** Attempts one after another, each a pick and its one completion. */
  predicate Rounds(calls: seq<Call>) {
    calls == []
    || (|calls| >= 2 && Rounds(calls[..|calls| - 2]) && Attempted(calls[|calls| - 2], calls[|calls| - 1]))
  }

  /** All the calls one request can make: attempts, perhaps a last one whose
      body it keeps, and perhaps the close of that body. */
  predicate Request(calls: seq<Call>) {
    var n := |calls|;
    || Rounds(calls)
    || (n >= 2 && Rounds(calls[..n - 2]) && KeptOpen(calls[n - 2], calls[n - 1]))
    || (n >= 3 && Rounds(calls[..n - 3]) && KeptOpen(calls[n - 3], calls[n - 2])
        && calls[n - 1] == Completed(calls[n - 3].id, ReleasedIt))
  }

  lemma PickThen(calls: seq<Call>, id: string, next: Call)
    requires HandAfter(Empty, calls) == Empty && id != ""
    ensures HandAfter(Empty, calls + [Picked(id), next]) == After(Open(id), next)
  {
    var all := calls + [Picked(id), next];
    assert all[..|all| - 1] == calls + [Picked(id)];
    assert (calls + [Picked(id)])[..|calls|] == calls;
  }

  lemma {:induction false} RoundsEndEmpty(calls: seq<Call>)
    requires Rounds(calls)
    ensures HandAfter(Empty, calls) == Empty
  {
    if calls != [] {
      var front, pick, done := calls[..|calls| - 2], calls[|calls| - 2], calls[|calls| - 1];
      RoundsEndEmpty(front);
      PickThen(front, pick.id, done);
      assert calls == front + [pick, done];
    }
  }

  /** A body kept open is held until it is closed. */
  lemma KeepingHolds(calls: seq<Call>, id: string)
    requires Rounds(calls) && id != ""
    ensures var kept := calls + [Picked(id), Kept(id)];
            HandAfter(Empty, kept) == Body(id) && HandAfter(Empty, kept + [Completed(id, ReleasedIt)]) == Empty
  {
    RoundsEndEmpty(calls);
    PickThen(calls, id, Kept(id));
    var kept := calls + [Picked(id), Kept(id)];
    assert (kept + [Completed(id, ReleasedIt)])[..|kept|] == kept;
  }

  lemma LastTwo<T>(s: seq<T>)
    requires |s| >= 2
    ensures s == s[..|s| - 2] + [s[|s| - 2], s[|s| - 1]]
  {
  }

  lemma LastThree<T>(s: seq<T>)
    requires |s| >= 3
    ensures s == s[..|s| - 3] + [s[|s| - 3], s[|s| - 2]] + [s[|s| - 1]]
  {
  }

  /** Every request follows the discipline. */
  lemma RequestIsDisciplined(calls: seq<Call>)
    requires Request(calls)
    ensures HandAfter(Empty, calls) != Broken
  {
    hide HandAfter, Rounds;
    var n := |calls|;
    if Rounds(calls) {
      RoundsEndEmpty(calls);
    } else if Rounds(calls[..n - 2]) && KeptOpen(calls[n - 2], calls[n - 1]) {
      LastTwo(calls);
      KeepingHolds(calls[..n - 2], calls[n - 2].id);
    } else {
      LastThree(calls);
      KeepingHolds(calls[..n - 3], calls[n - 3].id);
    }
  }

  /** Closing the body a request kept completes the request. */
  lemma ClosingCompletes(calls: seq<Call>, id: string)
    requires Request(calls) && HandAfter(Empty, calls) == Body(id)
    ensures Request(calls + [Completed(id, ReleasedIt)])
  {
    var n, all := |calls|, calls + [Completed(id, ReleasedIt)];
    if Rounds(calls) {
      RoundsEndEmpty(calls);
    } else {
      assert all[..n - 2] == calls[..n - 2];
    }
  }

  /** One more attempt makes a longer list of attempts, or the last of a request. */
  lemma OneMoreAttempt(calls: seq<Call>, id: string, next: Call)
    requires Rounds(calls) && id != "" && next.id == id && !next.Picked?
    ensures var all := calls + [Picked(id), next]; Request(all) && (next.Completed? ==> Rounds(all))
  {
    var all := calls + [Picked(id), next];
    assert all[..|all| - 2] == calls;
  }

  // ---------------------------------------------------------------------------
  // All requests at once

  /** Some candidate with this id was usable at these counts: what a pick promises. */
  ghost predicate MayPick(loads: Loads, cap: int, id: string) {
    exists states: States, now: nat, c: Candidate :: c.id == id && Usable(states, loads, cap, now, c)
  }

  /** The picks of an interleaving are picks the selector makes. */
  ghost predicate PicksAreUsable(acts: seq<Act>, cap: int) {
    forall k :: 0 <= k < |acts| && acts[k].call.Picked? ==> MayPick(LoadsAfter(CallsOf(acts[..k])), cap, acts[k].call.id)
  }

  lemma {:induction false} PrefixCalls(acts: seq<Act>, k: nat)
    requires k <= |acts|
    ensures |CallsOf(acts)| == |acts| && CallsOf(acts)[..k] == CallsOf(acts[..k])
    ensures k < |acts| ==> CallsOf(acts)[k] == acts[k].call
  {
    if k < |acts| {
      PrefixCalls(acts[..|acts| - 1], k);
      assert acts[..|acts| - 1][..k] == acts[..k];
    } else {
      assert acts[..k] == acts;
      if acts != [] {
        PrefixCalls(acts[..|acts| - 1], |acts| - 1);
      }
    }
  }

  lemma UsableIsBelow(acts: seq<Act>, cap: nat)
    requires 0 < cap && PicksAreUsable(acts, cap)
    ensures PicksBelow(CallsOf(acts), cap)
  {
    var calls := CallsOf(acts);
    PrefixCalls(acts, 0);
    forall k | 0 <= k < |calls| && calls[k].Picked? ensures Load(LoadsAfter(calls[..k]), calls[k].id) < cap {
      PrefixCalls(acts, k);
    }
  }

  lemma {:induction false} DisciplinedPrefix(acts: seq<Act>, k: nat)
    requires k <= |acts| && Disciplined(acts)
    ensures Disciplined(acts[..k])
    decreases |acts|
  {
    if k < |acts| {
      DisciplinedBefore(acts);
      DisciplinedPrefix(acts[..|acts| - 1], k);
      assert acts[..|acts| - 1][..k] == acts[..k];
    } else {
      assert acts[..k] == acts;
    }
  }

  /** No completion is lost: each finds its credential counted at least once. */
  lemma NothingClamped(acts: seq<Act>, k: nat)
    requires Disciplined(acts) && k < |acts| && acts[k].call.Completed?
    ensures Load(LoadsAfter(CallsOf(acts[..k])), acts[k].call.id) >= 1
  {
    DisciplinedPrefix(acts, k + 1);
    InFlightIsHeld(acts[..k + 1], acts[k].call.id);
    assert acts[..k + 1][..k] == acts[..k];
  }

  /** Conservation over all interleavings: however any number of requests
      interleave, and however far each has got, a credential's in-flight count is
      the number of requests holding it, no completion is lost to the clamp at
      zero, and no count exceeds the concurrency cap. */
  lemma RequestsConserve(acts: seq<Act>, whole: map<nat, seq<Call>>, cap: int, id: string)
    requires forall thread: nat :: CallsBy(acts, thread) != [] ==> thread in whole
    requires forall thread :: thread in whole ==> CallsBy(acts, thread) <= whole[thread] && Request(whole[thread])
    requires PicksAreUsable(acts, cap)
    ensures Load(LoadsAfter(CallsOf(acts)), id) == |Holders(acts, id)|
    ensures forall k :: 0 <= k < |acts| && acts[k].call.Completed? ==>
              Load(LoadsAfter(CallsOf(acts[..k])), acts[k].call.id) >= 1
    ensures cap > 0 ==> |Holders(acts, id)| <= cap
  {
    hide Request, CallsBy, Holders, LoadsAfter, PicksAreUsable, Load;
    forall thread | thread in whole ensures HandAfter(Empty, whole[thread]) != Broken {
      RequestIsDisciplined(whole[thread]);
    }
    InterleavingKeepsDiscipline(acts, whole);
    InFlightIsHeld(acts, id);
    forall k | 0 <= k < |acts| && acts[k].call.Completed?
      ensures Load(LoadsAfter(CallsOf(acts[..k])), acts[k].call.id) >= 1
    {
      NothingClamped(acts, k);
    }
    if cap > 0 {
      UsableIsBelow(acts, cap);
      NeverAboveCap(CallsOf(acts), cap, id);
    }
  }

  // ---------------------------------------------------------------------------
  // The selector shared by requests

  /** What a request would do when it is scheduled. */
  datatype Wish =
    | Choose(candidates: seq<Candidate>, key: string, now: nat)
    | GiveBack
    | Failing(status: int, retryAfter: nat, random: nat, now: nat)
    | Exhausting(now: nat, resetAt: nat)
    | Succeeding(key: string, now: nat, keep: bool)

  datatype Turn = Turn(thread: nat, wish: Wish)

  lemma ActAdds(acts: seq<Act>, act: Act)
    ensures CallsOf(acts + [act]) == CallsOf(acts) + [act.call]
    ensures forall thread: nat :: HandIn(acts + [act], thread) ==
              if thread == act.thread then After(HandIn(acts, thread), act.call) else HandIn(acts, thread)
    ensures forall thread: nat :: CallsBy(acts + [act], thread) ==
              if thread == act.thread then CallsBy(acts, thread) + [act.call] else CallsBy(acts, thread)
  {
    assert (acts + [act])[..|acts|] == acts;
    forall thread: nat | thread != act.thread ensures CallsBy(acts + [act], thread) == CallsBy(acts, thread) {
      assert CallsBy(acts, thread) + [] == CallsBy(acts, thread);
    }
  }

  /** One selector and the requests that use it: each locked selector call is one
      act of one request. */
  class Traffic {
    const selector: Selector
    var hands: map<nat, Hand>
    ghost var acts: seq<Act>

    constructor (selector: Selector)
      requires selector.Valid() && selector.log == []
      ensures Valid() && this.selector == selector && acts == []
    {
      this.selector := selector;
      hands := map[];
      acts := [];
    }

    function HandOf(thread: nat): Hand
      reads `hands
    {
      if thread in hands then hands[thread] else Empty
    }

    ghost predicate Agree()
      reads `hands, `acts
    {
      forall thread: nat :: HandIn(acts, thread) == HandOf(thread) != Broken
    }

    ghost predicate Valid()
      reads this, selector
    {
      selector.Valid() && selector.log == CallsOf(acts) && Agree()
    }

    /** In-flight counts are what requests hold, and never above the cap. */
    lemma CountsAreHolders(id: string)
      requires Valid()
      ensures Load(selector.inFlight, id) == |Holders(acts, id)|
      ensures selector.maxConcurrent > 0 ==> |Holders(acts, id)| <= selector.maxConcurrent
    {
      hide RingValid, LoadsAfter, Holders;
      assert Disciplined(acts);
      InFlightIsHeld(acts, id);
      assert selector.maxConcurrent > 0 ==> Load(selector.inFlight, id) <= selector.maxConcurrent;
    }

    /** Books the call a request just made. */
    method Book(thread: nat, hand: Hand, ghost call: Call)
      requires selector.Valid() && selector.log == CallsOf(acts) + [call] && Agree()
      requires hand == After(HandOf(thread), call) && hand != Broken
      modifies this
      ensures Valid() && acts == old(acts) + [Act(thread, call)] && HandOf(thread) == hand
      ensures CallsBy(acts, thread) == old(CallsBy(acts, thread)) + [call]
      ensures forall other: nat :: other != thread ==>
                CallsBy(acts, other) == old(CallsBy(acts, other)) && HandOf(other) == old(HandOf(other))
    {
      hide Selector.Valid, CallsOf, HandIn, CallsBy;
      ActAdds(acts, Act(thread, call));
      hands := hands[thread := hand];
      acts := acts + [Act(thread, call)];
    }

    /** Lets one request act, if what it holds allows what it wishes. */
    method Schedule(turn: Turn)
      requires Valid()
      modifies this, selector
      ensures Valid() && old(acts) <= acts
      ensures forall thread: nat :: thread != turn.thread ==>
                CallsBy(acts, thread) == old(CallsBy(acts, thread)) && HandOf(thread) == old(HandOf(thread))
    {
      hide Selector.Valid, CallsOf, HandIn, CallsBy, Usable, Filter, SeedAll, Preferred, ByStrategy, OnSticky, Cooldown, Jitter;
      var thread, hand := turn.thread, HandOf(turn.thread);
      match turn.wish
      case Choose(candidates, key, now) =>
        if hand == Empty && forall c | c in candidates :: c.id != "" {
          var picked := selector.Pick(candidates, key, now);
          if picked.Some? {
            Book(thread, Open(picked.value.id), Picked(picked.value.id));
          }
        }
      case GiveBack =>
        if (hand.Open? || hand.Body?) && hand.id != "" {
          selector.Release(hand.id);
          Book(thread, Empty, Completed(hand.id, ReleasedIt));
        }
      case Failing(status, retryAfter, random, now) =>
        if hand.Open? && hand.id != "" {
          var _ := selector.MarkFailure(hand.id, status, retryAfter, random, now);
          Book(thread, Empty, Completed(hand.id, FailedIt));
        }
      case Exhausting(now, resetAt) =>
        if hand.Open? && hand.id != "" {
          var _ := selector.MarkQuotaExhaustedUntil(hand.id, now, resetAt);
          Book(thread, Empty, Completed(hand.id, ExhaustedIt));
        }
      case Succeeding(key, now, keep) =>
        if hand.Open? && hand.id != "" {
          var _ := selector.MarkSuccess(hand.id, key, now, !keep);
          var call := if keep then Kept(hand.id) else Completed(hand.id, SucceededIt);
          Book(thread, if keep then Body(hand.id) else Empty, call);
        }
    }

    /** Any number of turns of requests other than `me`. */
    method LetOthersRun(turns: seq<Turn>, me: nat)
      requires Valid()
      modifies this, selector
      ensures Valid() && old(acts) <= acts
      ensures CallsBy(acts, me) == old(CallsBy(acts, me)) && HandOf(me) == old(HandOf(me))
      ensures turns == [] ==> acts == old(acts) && selector.states == old(selector.states) && selector.inFlight == old(selector.inFlight)
    {
      hide Valid, CallsBy, HandOf;
      for k := 0 to |turns|
        invariant Valid() && old(acts) <= acts
        invariant CallsBy(acts, me) == old(CallsBy(acts, me)) && HandOf(me) == old(HandOf(me))
        invariant k == 0 ==> acts == old(acts) && selector.states == old(selector.states) && selector.inFlight == old(selector.inFlight)
      {
        if turns[k].thread != me {
          Schedule(turns[k]);
        }
      }
    }
  }
}
