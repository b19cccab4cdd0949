/**
  One forwarded request: pick a credential, ensure its token, bind the request to
  one durable revision and route, send, and fail over. Every exit path of an
  attempt completes its reservation exactly once, and every send is bound.
  (internal/proxy/executor.go)
 */
module Failover {
  import opened Common
  import opened Selection
  import opened Reservations
  import opened Routing

  datatype Tokens = Tokens(access: string, refresh: string)

  datatype TokenAnswer = Got(tokens: Tokens) | Invalidated | Refused

  datatype Reply =
    | NetworkError
    | Response(status: int, exhausted: bool, resetAfter: nat, quotaDenied: bool, retryAfter: nat)

  datatype Error = Cancelled | NotFound | RefreshInvalidated | TokenError | RouteError | SendError | StatusError(status: int) | NoCredential

  /** The instants at which a bound send reads the world, and what comes back. */
  datatype Window = Window(durable: nat, before: nat, resolve: nat, after: nat, verify: nat, last: nat, reply: Reply)

  /** Everything the outside decides about one attempt. */
  datatype Script = Script(
    cancelled: bool, now: nat, random: nat,
    load: nat, tokens: TokenAnswer, recheck: nat, first: Window,
    check: nat, checkRoute: nat, refreshed: TokenAnswer, second: Window)

  predicate WindowInOrder(w: Window, from: nat) {
    from <= w.durable <= w.before <= w.resolve <= w.after <= w.verify <= w.last
  }

  predicate InOrder(s: Script, h: seq<World>) {
    && s.load <= s.recheck < |h|
    && WindowInOrder(s.first, s.load)
    && s.first.last <= s.check <= s.checkRoute
    && WindowInOrder(s.second, s.checkRoute)
    && s.second.last < |h|
  }

  /** Reads one credential at an instant. */
  function Get(h: seq<World>, i: nat, id: string): Option<Record>
    requires i < |h|
  {
    if h[i].readable && id in h[i].records then Some(h[i].records[id]) else None
  }

  predicate Sendable(r: Record) {
    r.enabled && !r.manualDisabled
  }

  predicate Matches(tokens: Tokens, r: Record) {
    tokens.access == r.access && tokens.refresh == r.refresh
  }

  /** What goes upstream. */
  datatype Send = Send(id: string, token: string, route: Route, revision: nat, seen: nat)

  /** The send's token and route are those of one enabled revision of its
      credential, under the settings in force at one and the same instant. */
  predicate Bound(send: Send, h: seq<World>) {
    && send.seen < |h|
    && send.id in h[send.seen].records
    && var r := h[send.seen].records[send.id];
       && r.enabled && !r.manualDisabled
       && r.revision == send.revision && r.access == send.token
       && Resolve(r.proxy, h[send.seen].global) == Some(send.route)
  }

  predicate IsSuccess(status: int) {
    200 <= status < 300
  }

  predicate IsRetryable(status: int) {
    status == 402 || status == 429 || status == 403 || 500 <= status <= 599
  }

  /** The answer to "may this be sent now": refused with a reason, or bound. */
  datatype Binding = Refusal(error: Error, retry: bool, hurt: bool) | Ready(send: Send)

  /** Nothing moved from one instant to another, and what is there can be sent with these tokens. */
  ghost predicate Steady(h: seq<World>, from: nat, to: nat, id: string, tokens: Tokens)
    requires from <= to < |h|
  {
    && (forall i :: from <= i <= to ==> h[i] == h[from])
    && var r := Get(h, from, id);
       r.Some? && Sendable(r.value) && Matches(tokens, r.value) && Resolve(r.value.proxy, h[from].global).Some?
  }

  lemma SteadyLater(h: seq<World>, from: nat, later: nat, to: nat, id: string, tokens: Tokens)
    requires from <= later <= to < |h| && Steady(h, from, to, id, tokens)
    ensures Steady(h, later, to, id, tokens) && Get(h, from, id).Some?
  {
  }

  /** Re-reads the credential after the token is known, resolves its route, and
      verifies that neither moved. `strict` is the first send, which also compares
      the route revision right after resolution and blames a bad route on the credential. */
  method Bind(h: seq<World>, w: Window, from: nat, id: string, tokens: Tokens, strict: bool) returns (b: Binding)
    requires History(h) && WindowInOrder(w, from) && w.last < |h|
    ensures b.Ready? ==> Bound(b.send, h) && b.send.id == id && b.send.token == tokens.access && b.send.seen == w.verify
    ensures b.Ready? ==> h[w.before].routeRevision == h[w.last].routeRevision
    ensures b.Refusal? ==>
              && (b.hurt <==> strict && b.error == RouteError)
              && (b.error == NotFound || b.error == RefreshInvalidated || b.error == RouteError)
              && (b.retry ==> b.error == RefreshInvalidated)
    ensures Steady(h, w.durable, w.last, id, tokens) ==> b.Ready?
    // Why not, and whether the credential is worth another try.
    ensures var latest, verified := Get(h, w.durable, id), Get(h, w.verify, id);
            if latest.None? then b == Refusal(if strict then NotFound else RefreshInvalidated, false, false)
            else if !Sendable(latest.value) || !Matches(tokens, latest.value) then
              b == Refusal(RefreshInvalidated, Sendable(latest.value), false)
            else if Resolve(latest.value.proxy, h[w.resolve].global).None? then b == Refusal(RouteError, false, strict)
            else b.Refusal? ==> b == Refusal(RefreshInvalidated, verified.Some? && Sendable(verified.value), false)
    ensures b.Ready? ==>
              && h[w.verify].readable && id in h[w.verify].records
              && h[w.verify].records[id].access == tokens.access && h[w.verify].records[id].refresh == tokens.refresh
    ensures b.Ready? ==> Resolve(Get(h, w.durable, id).value.proxy, h[w.resolve].global) == Some(b.send.route)
  {
    var latest := Get(h, w.durable, id);
    if latest.None? {
      return Refusal(if strict then NotFound else RefreshInvalidated, false, false);
    }
    if !Sendable(latest.value) || !Matches(tokens, latest.value) {
      return Refusal(RefreshInvalidated, Sendable(latest.value), false);
    }
    var before := h[w.before].routeRevision;
    var route := Resolve(latest.value.proxy, h[w.resolve].global);
    if route.None? {
      return Refusal(RouteError, false, strict);
    }
    var verified := Get(h, w.verify, id);
    if verified.None? || (strict && h[w.after].routeRevision != before) || h[w.last].routeRevision != before
       || verified.value.revision != latest.value.revision || !Sendable(verified.value) || !Matches(tokens, verified.value) {
      return Refusal(RefreshInvalidated, verified.Some? && Sendable(verified.value), false);
    }
    SameRevisionSameRecord(h, w.durable, w.verify, id);
    SameRouteThroughout(h, w.before, w.resolve, w.last);
    SameRouteThroughout(h, w.before, w.verify, w.last);
    b := Ready(Send(id, verified.value.access, route.value, verified.value.revision, w.verify));
  }

  /** How an attempt ends: another selection, or an answer for the caller. */
  datatype Outcome =
    | Again(error: Error, resp: Option<Reply>, retry: bool)
    | Give(reply: Reply, held: bool)

  /** The one selector call that completes an attempt, judged by how it ended:
      a caller's open body keeps the reservation; a credential that may be tried
      again, or whose view was merely retired, is released without blame; a
      status that fails over is blamed on the credential or its quota. */
  predicate Completes(call: Call, id: string, outcome: Outcome, holds: bool) {
    call.id == id
    && match outcome
       case Again(error, _, retry) =>
         && call.Completed? && error != Cancelled && error != NoCredential
         && (retry || error == RefreshInvalidated || error == NotFound ==> call.how == ReleasedIt)
         && (error == SendError ==> call.how == FailedIt)
         && (error == TokenError && !retry ==> call.how == FailedIt)
         && (error.StatusError? ==> call.how == FailedIt || call.how == ExhaustedIt)
       case Give(reply, held) =>
         && reply.Response?
         && (held <==> call.Kept?)
         && (if !IsSuccess(reply.status) then call.Completed? && call.how == ReleasedIt
             else if reply.exhausted then call.Completed? && call.how == ExhaustedIt
             else if holds then held
             else call.Completed? && call.how == SucceededIt)
  }

  /** The reply to the last of an attempt's sends. */
  function LastReply(s: Script, sent: nat): Option<Reply> {
    if sent == 1 then Some(s.first.reply) else if sent == 2 then Some(s.second.reply) else None
  }

  /** A reply that ends the request: after one send any status that is neither 401,
      402, 403, 429 nor 5xx, after a forced refresh only a success or a 426. */
  predicate Final(s: Script, sent: nat) {
    LastReply(s, sent).Some? && LastReply(s, sent).value.Response?
    && var status := LastReply(s, sent).value.status;
       if sent == 1 then status !in {401, 402, 403, 429} && !(500 <= status <= 599)
       else 200 <= status <= 299 || status == 426
  }

  /** The reply an attempt leaves for the caller in case nothing better comes. */
  function Leaves(s: Script, sent: nat): Option<Reply> {
    if LastReply(s, sent).Some? && LastReply(s, sent).value.Response? then LastReply(s, sent) else None
  }

  /** An attempt ends the request with its last reply exactly when that is final;
      otherwise it leaves that reply, and the reason why it failed. */
  predicate Judged(s: Script, sent: nat, outcome: Outcome) {
    && sent <= 2
    && (outcome.Give? <==> Final(s, sent))
    && (outcome.Give? ==> Some(outcome.reply) == LastReply(s, sent))
    && (outcome.Again? ==> outcome.resp == Leaves(s, sent))
    && (outcome.Again? && LastReply(s, sent) == Some(NetworkError) ==> outcome.error == SendError && !outcome.retry)
    && (outcome.Again? && LastReply(s, sent).Some? && LastReply(s, sent).value.Response? ==>
          var status := LastReply(s, sent).value.status;
          if sent == 1 && status == 401 then outcome.error in {NotFound, RefreshInvalidated, TokenError, RouteError}
          else outcome.error == StatusError(status) && !outcome.retry)
    && (outcome.Again? && sent == 0 ==> outcome.error in {NotFound, RefreshInvalidated, TokenError, RouteError})
  }

  ghost predicate OthersKept(before: States, after: States, id: string) {
    forall other :: other != id ==> (other in after <==> other in before) && (other in after ==> after[other] == before[other])
  }

  lemma KeptAsIs(states: States, id: string)
    ensures OthersKept(states, states, id)
  {
  }

  lemma Http401()
    ensures ErrorText(401) == "http 401" && ErrorText(0) == "network error"
  {
    assert Decimal(4) == "4" && Decimal(40) == "40" && Decimal(401) == "401";
  }

  /** What memory holds of a credential after one failure more. */
  ghost predicate Failed1(before: States, after: States, id: string, error: string) {
    && id in after && after[id].lastError == error
    && after[id].failureCount == (if id in before then before[id].failureCount else 0) + 1
  }

  /** What memory holds after its quota ran out: a wait until the announced reset. */
  ghost predicate Drained(before: States, after: States, id: string, now: nat, resetAfter: nat) {
    && Failed1(before, after, id, "quota_exhausted")
    && (resetAfter > 0 ==> after[id].cooldownUntil == now + resetAfter)
    && now <= after[id].cooldownUntil
  }

  /** What memory holds after a reply the request fails over from. */
  ghost predicate Blamed(before: States, after: States, id: string, now: nat, reply: Reply)
    requires reply.Response?
  {
    if reply.exhausted || (reply.status == 403 && reply.quotaDenied) then Drained(before, after, id, now, reply.resetAfter)
    else
      && Failed1(before, after, id, ErrorText(reply.status))
      && (reply.status in {402, 429} && reply.retryAfter > 0 ==>
            now + reply.retryAfter <= after[id].cooldownUntil <= now + reply.retryAfter + reply.retryAfter / 10)
      && now <= after[id].cooldownUntil
  }

  /** The selector remembers an attempt by its outcome: a success clears the
      credential's health, or cools it when it used its quota up; a failing reply, an
      unsent request or a refused token is counted and cooled as its reply asks; and
      whatever was no fault of the credential is not held against it. */
  ghost predicate Remembers(s: Script, sent: nat, outcome: Outcome, before: States, after: States, id: string) {
    && OthersKept(before, after, id)
    && match outcome
       case Give(reply, _) =>
         reply.Response? &&
         if !(200 <= reply.status <= 299) then after == before
         else if reply.exhausted then Drained(before, after, id, s.now, reply.resetAfter)
         else id in after && after[id].failureCount == 0 && after[id].cooldownUntil == 0 && after[id].lastError == ""
       case Again(error, resp, retry) =>
         if error.StatusError? then resp.Some? && resp.value.Response? && Blamed(before, after, id, s.now, resp.value)
         else if error == SendError then Failed1(before, after, id, if sent == 1 then "network error" else "http 401")
         else if error == TokenError && !retry then Failed1(before, after, id, "http 401")
         else if error == RouteError && sent == 0 then Failed1(before, after, id, "network error")
         else after == before
  }

  /** The effect of one completing call on everyone's in-flight count. */
  predicate Settles(before: Loads, after: Loads, id: string, kept: bool) {
    after == if kept then before else Selection.Released(before, id)
  }

  predicate ReplyFrom(reply: Reply, s: Script) {
    reply == s.first.reply || reply == s.second.reply
  }

  lemma JudgedReply(s: Script, sent: nat, outcome: Outcome)
    requires Judged(s, sent, outcome)
    ensures outcome.Give? ==> ReplyFrom(outcome.reply, s)
    ensures outcome.Again? && outcome.resp.Some? ==> ReplyFrom(outcome.resp.value, s)
    ensures outcome.Give? <==> Final(s, sent)
    ensures outcome.Give? ==> Some(outcome.reply) == LastReply(s, sent)
    ensures outcome.Again? ==> outcome.resp == Leaves(s, sent)
  {
  }

  datatype Result = Answer(reply: Reply, holding: Option<string>) | Failed(error: Error)

  /** What a request holds when it is over: nothing, or the credential whose
      response body it returned. */
  function Holding(result: Result): Hand {
    if result.Answer? && result.holding.Some? then Body(result.holding.value) else Empty
  }

  /** The hand an attempt leaves. */
  function HandOfOutcome(id: string, outcome: Outcome): Hand {
    if outcome.Give? && outcome.held then Body(id) else Empty
  }

  lemma OneAttempt(calls: seq<Call>, id: string, call: Call, outcome: Outcome, holds: bool)
    requires Rounds(calls) && id != "" && Completes(call, id, outcome, holds)
    ensures After(Open(id), call) == HandOfOutcome(id, outcome)
    ensures Request(calls + [Picked(id), call])
    ensures HandOfOutcome(id, outcome) == Empty ==> Rounds(calls + [Picked(id), call])
    ensures outcome.Give? && outcome.held ==> outcome.reply.Response? && IsSuccess(outcome.reply.status) && holds
    ensures outcome.Again? ==> outcome.error != Cancelled
  {
    hide Rounds, Request;
    OneMoreAttempt(calls, id, call);
  }

  lemma NoCallsYet(tried: set<string>)
    ensures Rounds([]) && Request([]) && BlamedStayOut([]) && BlamedAreTried([], tried)
  {
  }

  /** A credential blamed for a failure or a spent quota is not picked again by the same request. */
  ghost predicate BlamedStayOut(calls: seq<Call>) {
    forall j, k :: 0 <= j < k < |calls| && Blames(calls[j]) && calls[k].Picked? ==> calls[k].id != calls[j].id
  }

  predicate Blames(call: Call) {
    call.Completed? && (call.how == FailedIt || call.how == ExhaustedIt)
  }

  ghost predicate BlamedAreTried(calls: seq<Call>, tried: set<string>) {
    forall j :: 0 <= j < |calls| && Blames(calls[j]) ==> calls[j].id in tried
  }

  /** One more attempt on an untried credential, which may become untried again only if it was not blamed. */
  lemma BlameIsRemembered(calls: seq<Call>, tried: set<string>, id: string, call: Call, outcome: Outcome, holds: bool)
    requires BlamedStayOut(calls) && BlamedAreTried(calls, tried) && id !in tried && Completes(call, id, outcome, holds)
    ensures BlamedStayOut(calls + [Picked(id), call])
    ensures BlamedAreTried(calls + [Picked(id), call], tried + {id})
    ensures outcome.Again? && outcome.retry ==> BlamedAreTried(calls + [Picked(id), call], tried + {id} - {id})
  {
    var after := calls + [Picked(id), call];
    assert forall j :: 0 <= j < |after| && Blames(after[j]) ==> (j < |calls| && after[j] == calls[j]) || j == |calls| + 1;
  }

  /** How one attempt ended: after how many sends, and with what. */
  datatype End = End(id: string, sent: nat, outcome: Outcome)

  /** The token is there, and nothing moves between selection and send. */
  ghost predicate Reliable(h: seq<World>, s: Script, id: string) {
    InOrder(s, h) && s.tokens.Got? && Steady(h, s.load, s.first.last, id, s.tokens.tokens)
  }

  /** A credential whose token is there and about which nothing moves is sent with;
      only a 401 leads to a second send. */
  ghost predicate Reaches(h: seq<World>, s: Script, id: string, sent: nat) {
    && (Reliable(h, s, id) ==> sent > 0)
    && (sent > 1 ==> s.first.reply.Response? && s.first.reply.status == 401)
  }

  /** Each attempt, on one of the candidates, is judged by its own script, and only
      the last can be final. */
  ghost predicate Attempts(h: seq<World>, candidates: seq<Candidate>, scripts: seq<Script>, ends: seq<End>)
    requires |ends| <= |scripts|
  {
    && (forall k :: 0 <= k < |ends| ==> Judged(scripts[k], ends[k].sent, ends[k].outcome))
    && (forall k :: 0 <= k < |ends| ==> Reaches(h, scripts[k], ends[k].id, ends[k].sent))
    && (forall k :: 0 <= k < |ends| ==> exists c :: c in candidates && c.id == ends[k].id)
    && forall k :: 0 <= k < |ends| - 1 ==> !Final(scripts[k], ends[k].sent)
  }

  /** The loop's state after some attempts, none of them final. */
  ghost predicate GoesOn(h: seq<World>, candidates: seq<Candidate>, scripts: seq<Script>, ends: seq<End>,
      reply: Option<Reply>, error: Option<Error>)
    requires |ends| <= |scripts|
  {
    && Attempts(h, candidates, scripts, ends)
    && (ends != [] ==> !Final(scripts[|ends| - 1], ends[|ends| - 1].sent))
    && Remaining(reply, error, scripts, ends)
  }

  predicate LastToLeave(scripts: seq<Script>, ends: seq<End>, k: nat)
    requires k < |ends| <= |scripts|
  {
    Leaves(scripts[k], ends[k].sent).Some? && forall j :: k < j < |ends| ==> Leaves(scripts[j], ends[j].sent).None?
  }

  /** What the caller gets: the final reply as soon as there is one; the context's
      error if it was cancelled; otherwise the last reply any attempt left, or else
      the last attempt's error, and no credential only if there was no attempt. */
  ghost predicate Concludes(result: Result, scripts: seq<Script>, ends: seq<End>)
    requires |ends| <= |scripts|
  {
    var n := |ends|;
    if n > 0 && Final(scripts[n - 1], ends[n - 1].sent) then
      result.Answer? && Some(result.reply) == LastReply(scripts[n - 1], ends[n - 1].sent)
    else if n < |scripts| && scripts[n].cancelled then result == Failed(Cancelled)
    else
      && (forall k :: 0 <= k < n && LastToLeave(scripts, ends, k) ==> result == Answer(Leaves(scripts[k], ends[k].sent).value, None))
      && ((forall k :: 0 <= k < n ==> Leaves(scripts[k], ends[k].sent).None?) ==>
            if n == 0 then result == Failed(NoCredential) else ends[n - 1].outcome.Again? && result == Failed(ends[n - 1].outcome.error))
  }

  /** The reply and the error kept for the caller are the last ones there were. */
  ghost predicate Remaining(reply: Option<Reply>, error: Option<Error>, scripts: seq<Script>, ends: seq<End>)
    requires |ends| <= |scripts|
  {
    var n := |ends|;
    && (reply.None? <==> forall k :: 0 <= k < n ==> Leaves(scripts[k], ends[k].sent).None?)
    && (reply.Some? ==> exists k :: 0 <= k < n && LastToLeave(scripts, ends, k) && Leaves(scripts[k], ends[k].sent) == reply)
    && (n == 0 ==> error.None?)
    && (n > 0 ==> ends[n - 1].outcome.Again? && error == Some(ends[n - 1].outcome.error))
  }

  lemma NoAttemptsYet(h: seq<World>, candidates: seq<Candidate>, scripts: seq<Script>)
    ensures GoesOn(h, candidates, scripts, [], None, None)
  {
  }

  lemma OneMoreEnd(h: seq<World>, candidates: seq<Candidate>, scripts: seq<Script>, ends: seq<End>, end: End,
      reply: Option<Reply>, error: Option<Error>)
    requires |ends| < |scripts| && GoesOn(h, candidates, scripts, ends, reply, error)
    requires Judged(scripts[|ends|], end.sent, end.outcome) && Reaches(h, scripts[|ends|], end.id, end.sent)
    requires exists c :: c in candidates && c.id == end.id
    ensures Attempts(h, candidates, scripts, ends + [end])
    ensures end.outcome.Again? ==>
              GoesOn(h, candidates, scripts, ends + [end],
                     if end.outcome.resp.Some? then end.outcome.resp else reply, Some(end.outcome.error))
    ensures end.outcome.Give? ==> Concludes(Answer(end.outcome.reply, None), scripts, ends + [end])
  {
    hide Final, LastReply, Reaches, Judged, Leaves, Remaining, Attempts;
    JudgedEnd(scripts[|ends|], end.sent, end.outcome);
    OneMoreAttempted(h, candidates, scripts, ends, end);
    if end.outcome.Again? {
      StillRemaining(scripts, ends, end, reply, error);
    }
  }

  lemma OneMoreAttempted(h: seq<World>, candidates: seq<Candidate>, scripts: seq<Script>, ends: seq<End>, end: End)
    requires |ends| < |scripts| && Attempts(h, candidates, scripts, ends)
    requires ends != [] ==> !Final(scripts[|ends| - 1], ends[|ends| - 1].sent)
    requires Judged(scripts[|ends|], end.sent, end.outcome) && Reaches(h, scripts[|ends|], end.id, end.sent)
    requires exists c :: c in candidates && c.id == end.id
    ensures Attempts(h, candidates, scripts, ends + [end])
  {
    hide Final, Reaches, Judged;
  }

  lemma StillRemaining(scripts: seq<Script>, ends: seq<End>, end: End, reply: Option<Reply>, error: Option<Error>)
    requires |ends| < |scripts| && Remaining(reply, error, scripts, ends)
    requires end.outcome.Again? && end.outcome.resp == Leaves(scripts[|ends|], end.sent)
    ensures Remaining(if end.outcome.resp.Some? then end.outcome.resp else reply, Some(end.outcome.error), scripts, ends + [end])
  {
    hide Leaves;
    var n, all := |ends|, ends + [end];
    if end.outcome.resp.None? && reply.Some? {
      var k :| 0 <= k < n && LastToLeave(scripts, ends, k) && Leaves(scripts[k], ends[k].sent) == reply;
      assert LastToLeave(scripts, all, k);
    }
    if end.outcome.resp.Some? {
      assert LastToLeave(scripts, all, n);
    }
  }

  lemma JudgedEnd(s: Script, sent: nat, outcome: Outcome)
    requires Judged(s, sent, outcome)
    ensures outcome.Give? <==> Final(s, sent)
    ensures outcome.Give? ==> Some(outcome.reply) == LastReply(s, sent)
    ensures outcome.Again? ==> outcome.resp == Leaves(s, sent)
  {
  }

  /** When no more is to be tried the caller gets the best there is. */
  lemma Concluded(h: seq<World>, candidates: seq<Candidate>, scripts: seq<Script>, ends: seq<End>,
      reply: Option<Reply>, error: Option<Error>)
    requires |ends| <= |scripts| && GoesOn(h, candidates, scripts, ends, reply, error)
    ensures |ends| < |scripts| && scripts[|ends|].cancelled ==> Concludes(Failed(Cancelled), scripts, ends)
    ensures !(|ends| < |scripts| && scripts[|ends|].cancelled) ==> Concludes(Leave(reply, error), scripts, ends)
  {
    hide Final, LastReply, Leaves, Attempts;
  }

  /** Whether the answer's body is held makes no difference to what it says. */
  lemma HeldOrNot(reply: Reply, holding: Option<string>, scripts: seq<Script>, ends: seq<End>)
    requires 0 < |ends| <= |scripts| && Concludes(Answer(reply, None), scripts, ends)
    requires Final(scripts[|ends| - 1], ends[|ends| - 1].sent)
    ensures Concludes(Answer(reply, holding), scripts, ends)
  {
  }

  lemma AllUntried(candidates: seq<Candidate>)
    ensures Filter(candidates, Untried({})) == candidates
  {
    FilterKeeps(candidates, Untried({}));
  }

  function Untried(tried: set<string>): Candidate -> bool {
    (c: Candidate) => c.id !in tried
  }

  class Executor {
    const selector: Selector

    constructor (selector: Selector)
      ensures this.selector == selector
    {
      this.selector := selector;
    }

    /** From one open reservation to its completion. */
    method Attempt(h: seq<World>, s: Script, id: string, convId: string) returns (outcome: Outcome, ghost sends: seq<Send>)
      requires selector.Valid() && History(h) && InOrder(s, h) && id != ""
      modifies selector
      ensures selector.Valid()
      ensures exists call :: selector.log == old(selector.log) + [call] && Completes(call, id, outcome, selector.maxConcurrent > 0)
      ensures Settles(old(selector.inFlight), selector.inFlight, id, outcome.Give? && outcome.held)
      ensures |sends| <= 2 && forall k :: 0 <= k < |sends| ==> Bound(sends[k], h) && sends[k].id == id
      ensures |sends| == 2 ==> s.refreshed.Got? && sends[1].token == s.refreshed.tokens.access && sends[0].seen <= sends[1].seen
      ensures Judged(s, |sends|, outcome)
      ensures s.tokens.Got? && Steady(h, s.load, s.first.last, id, s.tokens.tokens) ==> sends != []
      ensures sends == [] ==>
                var selected, latest := Get(h, s.load, id), Get(h, s.recheck, id);
                if selected.None? then outcome == Again(NotFound, None, false)
                else if s.tokens.Invalidated? then outcome == Again(RefreshInvalidated, None, true)
                else if s.tokens.Refused? then
                  outcome == Again(TokenError, None, latest.Some? && latest.value.refresh != "" && latest.value.refresh != selected.value.refresh)
                else outcome.Again? && outcome.error != TokenError
      ensures Remembers(s, |sends|, outcome, old(selector.states), selector.states, id)
      ensures |sends| == 2 ==> s.first.reply.Response? && s.first.reply.status == 401
    {
      hide Failed1, OthersKept, Drained, Blamed, Selector.Valid, History, Bound, Steady, Get;
      KeptAsIs(selector.states, id);
      sends := [];
      ghost var steady := s.tokens.Got? && Steady(h, s.load, s.first.last, id, s.tokens.tokens);
      if steady {
        SteadyLater(h, s.load, s.first.durable, s.first.last, id, s.tokens.tokens);
      }
      var selected := Get(h, s.load, id);
      if selected.None? {
        selector.Release(id);
        return Again(NotFound, None, false), sends;
      }
      match s.tokens
      case Invalidated =>
        selector.Release(id);
        return Again(RefreshInvalidated, None, true), sends;
      case Refused =>
        outcome := OnRefused(h, s, id, selected.value);
      case Got(tokens) =>
        var binding := Bind(h, s.first, s.load, id, tokens, true);
        if binding.Refusal? {
          outcome := OnUnbound(s, id, binding);
          return;
        }
        sends := [binding.send];
        outcome, sends := OnFirstReply(h, s, id, convId, binding.send);
    }

    /** The grant was refused: blame the credential, unless its refresh token has moved on meanwhile. */
    method OnRefused(h: seq<World>, s: Script, id: string, selected: Record) returns (outcome: Outcome)
      requires selector.Valid() && InOrder(s, h) && id != ""
      modifies selector
      ensures selector.Valid() && outcome.Again? && outcome.error == TokenError && outcome.resp.None?
      ensures exists call :: selector.log == old(selector.log) + [call] && Completes(call, id, outcome, selector.maxConcurrent > 0)
      ensures Settles(old(selector.inFlight), selector.inFlight, id, false)
      ensures var latest := Get(h, s.recheck, id);
              outcome.retry <==> latest.Some? && latest.value.refresh != "" && latest.value.refresh != selected.refresh
      ensures Remembers(s, 0, outcome, old(selector.states), selector.states, id)
    {
      hide Failed1, OthersKept, Drained, Blamed, Selector.Valid;
      KeptAsIs(selector.states, id);
      var latest := Get(h, s.recheck, id);
      if latest.Some? && latest.value.refresh != "" && latest.value.refresh != selected.refresh {
        selector.Release(id);
        return Again(TokenError, None, true);
      }
      Fault(s, id, 401);
      return Again(TokenError, None, false);
    }

    /** Nothing may be sent: release, or blame a route that does not resolve. */
    method OnUnbound(s: Script, id: string, b: Binding) returns (outcome: Outcome)
      requires selector.Valid() && id != "" && b.Refusal?
      requires b.hurt <==> b.error == RouteError
      requires b.error == NotFound || b.error == RefreshInvalidated || b.error == RouteError
      requires b.retry ==> b.error == RefreshInvalidated
      modifies selector
      ensures selector.Valid() && outcome == Again(b.error, None, b.retry)
      ensures exists call :: selector.log == old(selector.log) + [call] && Completes(call, id, outcome, selector.maxConcurrent > 0)
      ensures Settles(old(selector.inFlight), selector.inFlight, id, false)
      ensures Remembers(s, 0, outcome, old(selector.states), selector.states, id)
    {
      hide Failed1, OthersKept, Drained, Blamed, Selector.Valid;
      KeptAsIs(selector.states, id);
      if b.hurt {
        Fault(s, id, 0);
      } else {
        selector.Release(id);
      }
      return Again(b.error, None, b.retry);
    }

    method OnFirstReply(h: seq<World>, s: Script, id: string, convId: string,
        sent: Send) returns (outcome: Outcome, ghost sends: seq<Send>)
      requires selector.Valid() && History(h) && InOrder(s, h) && id != ""
      requires Bound(sent, h) && sent.id == id && sent.seen == s.first.verify
      modifies selector
      ensures selector.Valid()
      ensures exists call :: selector.log == old(selector.log) + [call] && Completes(call, id, outcome, selector.maxConcurrent > 0)
      ensures Settles(old(selector.inFlight), selector.inFlight, id, outcome.Give? && outcome.held)
      ensures 1 <= |sends| <= 2 && forall k :: 0 <= k < |sends| ==> Bound(sends[k], h) && sends[k].id == id
      ensures |sends| == 2 ==> s.refreshed.Got? && sends[1].token == s.refreshed.tokens.access && sends[0].seen <= sends[1].seen
      ensures Judged(s, |sends|, outcome)
      ensures Remembers(s, |sends|, outcome, old(selector.states), selector.states, id)
      ensures |sends| == 2 ==> s.first.reply.Response? && s.first.reply.status == 401
    {
      hide Failed1, OthersKept, Drained, Blamed, Selector.Valid, History, Bound;
      KeptAsIs(selector.states, id);
      sends := [sent];
      match s.first.reply
      case NetworkError =>
        Fault(s, id, 0);
        return Again(SendError, None, false), sends;
      case Response(status, exhausted, resetAfter, quotaDenied, retryAfter) =>
        if status == 426 {
          selector.Release(id);
          return Give(s.first.reply, false), sends;
        }
        if IsSuccess(status) {
          var held := Succeed(s, id, convId, s.first.reply);
          return Give(s.first.reply, held), sends;
        }
        if status == 401 {
          outcome, sends := OnUnauthorized(h, s, id, convId, sent);
          return;
        }
        if IsRetryable(status) {
          Blame(s, id, s.first.reply);
          return Again(StatusError(status), Some(s.first.reply), false), sends;
        }
        selector.Release(id);
        return Give(s.first.reply, false), sends;
    }

    /** A 401: one forced refresh and one more bound send on the same credential. */
    method OnUnauthorized(h: seq<World>, s: Script, id: string, convId: string,
        sent: Send) returns (outcome: Outcome, ghost sends: seq<Send>)
      requires selector.Valid() && History(h) && InOrder(s, h) && id != "" && s.first.reply.Response? && s.first.reply.status == 401
      requires Bound(sent, h) && sent.id == id && sent.seen == s.first.verify
      modifies selector
      ensures selector.Valid()
      ensures exists call :: selector.log == old(selector.log) + [call] && Completes(call, id, outcome, selector.maxConcurrent > 0)
      ensures Settles(old(selector.inFlight), selector.inFlight, id, outcome.Give? && outcome.held)
      ensures 1 <= |sends| <= 2 && forall k :: 0 <= k < |sends| ==> Bound(sends[k], h) && sends[k].id == id
      ensures |sends| == 2 ==> s.refreshed.Got? && sends[1].token == s.refreshed.tokens.access && sends[0].seen <= sends[1].seen
      ensures Judged(s, |sends|, outcome)
      ensures |sends| == 1 ==> outcome == Again(outcome.error, Some(s.first.reply), outcome.retry)
      ensures |sends| == 1 && outcome.Again? ==>
                var latest := Get(h, s.check, id);
                if latest.None? then outcome.error == NotFound && !outcome.retry
                else if !Sendable(latest.value) || latest.value.revision != sent.revision
                        || h[s.checkRoute].routeRevision != h[s.first.before].routeRevision then
                  outcome.error == RefreshInvalidated && outcome.retry == Sendable(latest.value)
                else if s.refreshed.Invalidated? then outcome.error == RefreshInvalidated && outcome.retry
                else if s.refreshed.Refused? then outcome.error == TokenError && !outcome.retry
                else outcome.error in {RefreshInvalidated, RouteError}
      ensures Remembers(s, |sends|, outcome, old(selector.states), selector.states, id)
    {
      hide Failed1, OthersKept, Drained, Blamed, Selector.Valid, History, Bound, Steady, IsRetryable, IsSuccess;
      KeptAsIs(selector.states, id);
      sends := [sent];
      var first := Some(s.first.reply);
      var latest := Get(h, s.check, id);
      if latest.None? {
        selector.Release(id);
        return Again(NotFound, first, false), sends;
      }
      if !Sendable(latest.value) || latest.value.revision != sent.revision
         || h[s.checkRoute].routeRevision != h[s.first.before].routeRevision {
        selector.Release(id);
        return Again(RefreshInvalidated, first, Sendable(latest.value)), sends;
      }
      match s.refreshed
      case Invalidated =>
        selector.Release(id);
        return Again(RefreshInvalidated, first, true), sends;
      case Refused =>
        Fault(s, id, 401);
        return Again(TokenError, first, false), sends;
      case Got(tokens) =>
        outcome, sends := SendAgain(h, s, id, convId, sent);
    }

    /** The refreshed token, bound anew and sent once more. */
    method SendAgain(h: seq<World>, s: Script, id: string, convId: string, sent: Send) returns (outcome: Outcome, ghost sends: seq<Send>)
      requires selector.Valid() && History(h) && InOrder(s, h) && id != "" && s.first.reply.Response? && s.first.reply.status == 401
      requires s.refreshed.Got? && Bound(sent, h) && sent.id == id && sent.seen == s.first.verify
      modifies selector
      ensures selector.Valid()
      ensures exists call :: selector.log == old(selector.log) + [call] && Completes(call, id, outcome, selector.maxConcurrent > 0)
      ensures Settles(old(selector.inFlight), selector.inFlight, id, outcome.Give? && outcome.held)
      ensures 1 <= |sends| <= 2 && forall k :: 0 <= k < |sends| ==> Bound(sends[k], h) && sends[k].id == id
      ensures |sends| == 2 ==> sends[1].token == s.refreshed.tokens.access && sends[0].seen <= sends[1].seen
      ensures Judged(s, |sends|, outcome)
      ensures |sends| == 1 ==> outcome.Again? && outcome.error in {RefreshInvalidated, RouteError}
      ensures Remembers(s, |sends|, outcome, old(selector.states), selector.states, id)
    {
      hide Failed1, OthersKept, Drained, Blamed, Selector.Valid, History, Bound, Steady, IsRetryable, IsSuccess;
      KeptAsIs(selector.states, id);
      sends := [sent];
      var binding := Bind(h, s.second, s.checkRoute, id, s.refreshed.tokens, false);
      if binding.Refusal? {
        selector.Release(id);
        return Again(binding.error, Some(s.first.reply), binding.retry), sends;
      }
      sends := [sent, binding.send];
      outcome := OnSecondReply(s, id, convId);
    }

    method OnSecondReply(s: Script, id: string, convId: string) returns (outcome: Outcome)
      requires selector.Valid() && id != ""
      modifies selector
      ensures selector.Valid()
      ensures exists call :: selector.log == old(selector.log) + [call] && Completes(call, id, outcome, selector.maxConcurrent > 0)
      ensures Settles(old(selector.inFlight), selector.inFlight, id, outcome.Give? && outcome.held)
      ensures Judged(s, 2, outcome)
      ensures Remembers(s, 2, outcome, old(selector.states), selector.states, id)
    {
      hide Failed1, OthersKept, Drained, Blamed, Selector.Valid;
      KeptAsIs(selector.states, id);
      match s.second.reply
      case NetworkError =>
        Fault(s, id, 401);
        return Again(SendError, None, false);
      case Response(status, _, _, _, _) =>
        if IsSuccess(status) {
          var held := Succeed(s, id, convId, s.second.reply);
          return Give(s.second.reply, held);
        }
        if status == 426 {
          selector.Release(id);
          return Give(s.second.reply, false);
        }
        Blame(s, id, s.second.reply);
        return Again(StatusError(status), Some(s.second.reply), false);
    }

    /** Success: cool a spent quota down, or record it and keep the reservation
        with the body when there is a concurrency cap. */
    method Succeed(s: Script, id: string, convId: string, reply: Reply) returns (held: bool)
      requires selector.Valid() && id != "" && reply.Response? && IsSuccess(reply.status)
      modifies selector
      ensures selector.Valid()
      ensures exists call :: selector.log == old(selector.log) + [call] && Completes(call, id, Give(reply, held), selector.maxConcurrent > 0)
      ensures Settles(old(selector.inFlight), selector.inFlight, id, held)
      ensures Remembers(s, 1, Give(reply, held), old(selector.states), selector.states, id)
      ensures Remembers(s, 2, Give(reply, held), old(selector.states), selector.states, id)
    {
      hide Failed1, Drained, Selector.Valid;
      held := false;
      if reply.exhausted {
        MarkQuota(s, id, reply.resetAfter);
      } else {
        held := selector.maxConcurrent > 0;
        var _ := selector.MarkSuccess(id, convId, s.now, !held);
      }
    }

    /** A failure that brought no status, or a refused token. */
    method Fault(s: Script, id: string, status: int)
      requires selector.Valid() && id != "" && (status == 0 || status == 401)
      modifies selector
      ensures selector.Valid() && selector.log == old(selector.log) + [Completed(id, FailedIt)]
      ensures selector.inFlight == Selection.Released(old(selector.inFlight), id)
      ensures Failed1(old(selector.states), selector.states, id, if status == 401 then "http 401" else "network error")
      ensures OthersKept(old(selector.states), selector.states, id)
    {
      hide Selector.Valid, Cooldown, Jitter, Selection.Released, WithoutCredential;
      Http401();
      var _ := selector.MarkFailure(id, status, 0, s.random, s.now);
    }

    method MarkQuota(s: Script, id: string, resetAfter: nat)
      requires selector.Valid() && id != ""
      modifies selector
      ensures selector.Valid() && selector.log == old(selector.log) + [Completed(id, ExhaustedIt)]
      ensures selector.inFlight == Selection.Released(old(selector.inFlight), id)
      ensures Drained(old(selector.states), selector.states, id, s.now, resetAfter)
      ensures OthersKept(old(selector.states), selector.states, id)
    {
      hide Selector.Valid;
      var _ := selector.MarkQuotaExhaustedUntil(id, s.now, if resetAfter > 0 then s.now + resetAfter else 0);
    }

    /** A failing status is blamed on the quota when it is spent or denied, else on the credential. */
    method Blame(s: Script, id: string, reply: Reply)
      requires selector.Valid() && id != "" && reply.Response?
      modifies selector
      ensures selector.Valid()
      ensures selector.log == old(selector.log) +
                [Completed(id, if reply.exhausted || (reply.status == 403 && reply.quotaDenied) then ExhaustedIt else FailedIt)]
      ensures selector.inFlight == Selection.Released(old(selector.inFlight), id)
      ensures Blamed(old(selector.states), selector.states, id, s.now, reply)
      ensures OthersKept(old(selector.states), selector.states, id)
    {
      hide Selector.Valid;
      if reply.exhausted || (reply.status == 403 && reply.quotaDenied) {
        MarkQuota(s, id, reply.resetAfter);
      } else {
        var _ := selector.MarkFailure(id, reply.status, reply.retryAfter, s.random, s.now);
      }
    }

    /** The pick itself, booked; no id when nobody is usable. */
    method TakeOne(untried: seq<Candidate>, convId: string, now: nat, traffic: Traffic, me: nat, earlier: seq<Turn>) returns (id: string)
      requires traffic.selector == selector && traffic.Valid() && traffic.HandOf(me) == Empty
      requires forall c :: c in untried ==> c.id != ""
      modifies traffic, selector
      ensures traffic.Valid() && traffic.HandOf(me) == if id == "" then Empty else Open(id)
      ensures CallsBy(traffic.acts, me) == old(CallsBy(traffic.acts, me)) + if id == "" then [] else [Picked(id)]
      ensures id != "" ==> exists c :: c in untried && c.id == id
      ensures id == "" && earlier == [] ==>
                forall c :: !Clear(old(selector.states), old(selector.inFlight), selector.maxConcurrent, now, untried, c)
    {
      hide Clear, Yields, Selector.Valid, CallsBy, CallsOf, HandIn, Filter, Usable, UsableIn, SeedAll, Preferred, OnSticky, ByStrategy;
      traffic.LetOthersRun(earlier, me);
      var picked := selector.Pick(untried, convId, now);
      if picked.None? {
        return "";
      }
      id := picked.value.id;
      traffic.Book(me, Open(id), Picked(id));
    }

    /** One round of the loop: a pick, and the attempt it starts. Other requests run
        before the pick and again before the call that completes the attempt. */
    method TryOne(h: seq<World>, untried: seq<Candidate>, convId: string, s: Script, traffic: Traffic, me: nat,
        earlier: seq<Turn>, meanwhile: seq<Turn>, ghost calls: seq<Call>)
        returns (id: string, outcome: Option<Outcome>, ghost sends: seq<Send>, ghost made: seq<Call>)
      requires traffic.selector == selector && traffic.Valid() && traffic.HandOf(me) == Empty
      requires History(h) && InOrder(s, h) && Rounds(calls)
      requires forall c :: c in untried ==> c.id != ""
      modifies traffic, selector
      ensures traffic.Valid() && CallsBy(traffic.acts, me) == old(CallsBy(traffic.acts, me)) + made
      ensures outcome.None? ==> made == [] && sends == [] && traffic.HandOf(me) == Empty
      ensures outcome.Some? ==> exists c :: c in untried && c.id == id
      ensures outcome.Some? ==>
                && |made| == 2 && made == [Picked(id), made[1]] && Completes(made[1], id, outcome.value, selector.maxConcurrent > 0)
                && traffic.HandOf(me) == HandOfOutcome(id, outcome.value)
                && Request(calls + made) && (traffic.HandOf(me) == Empty ==> Rounds(calls + made))
                && Judged(s, |sends|, outcome.value)
                && (outcome.value.Again? ==> outcome.value.error != Cancelled)
                && (outcome.value.Give? && outcome.value.held ==>
                      selector.maxConcurrent > 0 && outcome.value.reply.Response? && IsSuccess(outcome.value.reply.status))
      ensures |sends| <= 2 && forall k :: 0 <= k < |sends| ==> Bound(sends[k], h) && sends[k].id == id
      ensures outcome.Some? ==> Reaches(h, s, id, |sends|)
      ensures outcome.None? && earlier == [] ==>
                forall c :: !Clear(old(selector.states), old(selector.inFlight), selector.maxConcurrent, s.now, untried, c)
    {
      hide Clear, Yields, Remembers, Judged, Steady, Selector.Valid, History, Bound, InOrder, Rounds, Request, CallsBy, CallsOf, HandIn,
        Completes, Settles, Filter, Usable, UsableIn, SeedAll, Preferred, OnSticky, ByStrategy;
      outcome, sends, made := None, [], [];
      id := TakeOne(untried, convId, s.now, traffic, me, earlier);
      if id == "" {
        return;
      }
      traffic.LetOthersRun(meanwhile, me);
      ghost var log := selector.log;
      var o, more := Attempt(h, s, id, convId);
      ghost var call :| selector.log == log + [call] && Completes(call, id, o, selector.maxConcurrent > 0);
      OneAttempt(calls, id, call, o, selector.maxConcurrent > 0);
      traffic.Book(me, HandOfOutcome(id, o), call);
      made := [Picked(id), call];
      outcome, sends := Some(o), more;
    }

    /** The failover loop, as request `me` among any others. Each script is one
        attempt as the outside plays it, one script for each attempt allowed (ten by
        default); `others` are the turns other requests take around each attempt. */
    method Post(h: seq<World>, candidates: seq<Candidate>, convId: string, scripts: seq<Script>, traffic: Traffic, me: nat,
        others: seq<(seq<Turn>, seq<Turn>)>)
        returns (result: Result, ghost sends: seq<Send>, ghost calls: seq<Call>, ghost ends: seq<End>)
      requires traffic.selector == selector && traffic.Valid() && traffic.HandOf(me) == Empty
      requires History(h) && |others| == |scripts|
      requires forall c :: c in candidates ==> c.id != ""
      requires forall k :: 0 <= k < |scripts| ==> InOrder(scripts[k], h)
      modifies traffic, selector
      ensures traffic.Valid() && traffic.HandOf(me) == Holding(result)
      ensures CallsBy(traffic.acts, me) == old(CallsBy(traffic.acts, me)) + calls && Request(calls)
      ensures |calls| <= 2 * |scripts| && BlamedStayOut(calls)
      ensures Holding(result).Body? ==> selector.maxConcurrent > 0 && result.reply.Response? && IsSuccess(result.reply.status)
      ensures |sends| <= 2 * |scripts| && forall k :: 0 <= k < |sends| ==> Bound(sends[k], h)
      ensures result.Answer? ==> exists k :: 0 <= k < |scripts| && ReplyFrom(result.reply, scripts[k])
      // One attempt for each script, until one ends with a final reply; then the best there is.
      ensures |ends| <= |scripts| && Attempts(h, candidates, scripts, ends) && Concludes(result, scripts, ends)
      ensures ends == [] && scripts != [] && !scripts[0].cancelled && others[0].0 == [] ==>
                forall c :: !Clear(old(selector.states), old(selector.inFlight), selector.maxConcurrent, scripts[0].now, candidates, c)
    {
      hide Judged, ReplyFrom, Selector.Valid, Traffic.Valid, Traffic.HandOf, History, Bound, InOrder, Rounds, Request, CallsBy, Completes,
        BlamedStayOut, BlamedAreTried, Filter, Attempts, GoesOn, Concludes, Reaches, Final, Leaves, LastReply, Clear, Steady;
      var tried: set<string> := {};
      var lastError: Option<Error>, lastReply: Option<Reply> := None, None;
      sends, calls, ends := [], [], [];
      NoCallsYet(tried);
      NoAttemptsYet(h, candidates, scripts);
      for k := 0 to |scripts|
        invariant traffic.Valid() && traffic.HandOf(me) == Empty
        invariant CallsBy(traffic.acts, me) == old(CallsBy(traffic.acts, me)) + calls && Rounds(calls) && Request(calls)
        invariant lastReply.Some? ==> exists j :: 0 <= j < k && ReplyFrom(lastReply.value, scripts[j])
        invariant lastError != Some(Cancelled)
        invariant |calls| <= 2 * k && BlamedStayOut(calls) && BlamedAreTried(calls, tried)
        invariant |sends| <= 2 * k && forall j :: 0 <= j < |sends| ==> Bound(sends[j], h)
        invariant |ends| == k && GoesOn(h, candidates, scripts, ends, lastReply, lastError)
        invariant k == 0 ==> tried == {} && selector.states == old(selector.states) && selector.inFlight == old(selector.inFlight)
      {
        Concluded(h, candidates, scripts, ends, lastReply, lastError);
        GoesOnIsAttempts(h, candidates, scripts, ends, lastReply, lastError);
        if scripts[k].cancelled {
          return Failed(Cancelled), sends, calls, ends;
        }
        var untried := Skip(candidates, tried);
        var id, outcome, more, made := TryOne(h, untried, convId, scripts[k], traffic, me, others[k].0, others[k].1, calls);
        if outcome.None? {
          AllUntried(candidates);
          return Leave(lastReply, lastError), sends, calls, ends;
        }
        sends := sends + more;
        JudgedReply(scripts[k], |more|, outcome.value);
        BlameIsRemembered(calls, tried, id, made[1], outcome.value, selector.maxConcurrent > 0);
        calls := calls + made;
        tried := tried + {id};
        OneMoreEnd(h, candidates, scripts, ends, End(id, |more|, outcome.value), lastReply, lastError);
        ends := ends + [End(id, |more|, outcome.value)];
        match outcome.value
        case Give(reply, held) =>
          HeldOrNot(reply, if held then Some(id) else None, scripts, ends);
          return Answer(reply, if held then Some(id) else None), sends, calls, ends;
        case Again(error, reply, retry) =>
          if retry {
            tried := tried - {id};
          }
          lastError := Some(error);
          if reply.Some? {
            lastReply := reply;
          }
      }
      Concluded(h, candidates, scripts, ends, lastReply, lastError);
      GoesOnIsAttempts(h, candidates, scripts, ends, lastReply, lastError);
      return Leave(lastReply, lastError), sends, calls, ends;
    }
  }

  lemma GoesOnIsAttempts(h: seq<World>, candidates: seq<Candidate>, scripts: seq<Script>, ends: seq<End>,
      reply: Option<Reply>, error: Option<Error>)
    requires |ends| <= |scripts| && GoesOn(h, candidates, scripts, ends, reply, error)
    ensures Attempts(h, candidates, scripts, ends)
  {
  }

  /** Whatever comes back first from a steady credential, as long as it is final, is
      the answer: with a clear candidate, every candidate steady, nobody else ahead in
      the selector and a first reply that does not fail over, that reply is returned. */
  method PostToSteady(e: Executor, h: seq<World>, candidates: seq<Candidate>, convId: string, scripts: seq<Script>, traffic: Traffic,
      me: nat, others: seq<(seq<Turn>, seq<Turn>)>, ghost clear: Candidate) returns (result: Result)
    requires traffic.selector == e.selector && traffic.Valid() && traffic.HandOf(me) == Empty
    requires History(h) && |others| == |scripts| && scripts != [] && others[0].0 == []
    requires forall c :: c in candidates ==> c.id != ""
    requires forall k :: 0 <= k < |scripts| ==> InOrder(scripts[k], h)
    requires Clear(e.selector.states, e.selector.inFlight, e.selector.maxConcurrent, scripts[0].now, candidates, clear)
    requires !scripts[0].cancelled && forall c :: c in candidates ==> Reliable(h, scripts[0], c.id)
    requires scripts[0].first.reply.Response?
    requires var status := scripts[0].first.reply.status; status !in {401, 402, 403, 429} && !(500 <= status <= 599)
    modifies traffic, e.selector
    ensures result.Answer? && result.reply == scripts[0].first.reply
  {
    hide Traffic.Valid, Traffic.HandOf, History, InOrder, Reliable, Clear, Judged, Request, CallsBy;
    ghost var sends, calls, ends;
    result, sends, calls, ends := e.Post(h, candidates, convId, scripts, traffic, me, others);
    assert ends != [];
    assert Reaches(h, scripts[0], ends[0].id, ends[0].sent) && Judged(scripts[0], ends[0].sent, ends[0].outcome);
    assert Final(scripts[0], ends[0].sent);
    assert |ends| == 1;
  }

  method Skip(candidates: seq<Candidate>, tried: set<string>) returns (untried: seq<Candidate>)
    ensures untried == Filter(candidates, Untried(tried))
    ensures forall c :: c in untried ==> c in candidates && c.id !in tried
  {
    untried := [];
    for i := 0 to |candidates|
      invariant untried == Filter(candidates[..i], Untried(tried))
    {
      assert candidates[..i + 1][..i] == candidates[..i];
      if candidates[i].id !in tried {
        untried := untried + [candidates[i]];
      }
    }
    assert candidates[..|candidates|] == candidates;
    FilterKeeps(candidates, Untried(tried));
  }

  function Leave(reply: Option<Reply>, error: Option<Error>): Result {
    if reply.Some? then Answer(reply.value, None)
    else if error.Some? then Failed(error.value)
    else Failed(NoCredential)
  }

  /** A response body that gives its request's reservation back when closed, once. */
  class HeldBody {
    const traffic: Traffic
    const request: nat
    const id: string
    var closed: bool

    constructor (traffic: Traffic, request: nat, id: string)
      ensures this.traffic == traffic && this.request == request && this.id == id && !closed
    {
      this.traffic, this.request, this.id, closed := traffic, request, id, false;
    }

    method Close()
      requires traffic.Valid() && id != "" && (!closed ==> traffic.HandOf(request) == Body(id))
      modifies `closed, traffic, traffic.selector
      ensures traffic.Valid() && closed
      ensures !old(closed) ==>
                && traffic.HandOf(request) == Empty
                && CallsBy(traffic.acts, request) == old(CallsBy(traffic.acts, request)) + [Completed(id, ReleasedIt)]
                && traffic.selector.inFlight == Selection.Released(old(traffic.selector.inFlight), id)
      ensures old(closed) ==> traffic.acts == old(traffic.acts) && traffic.selector.inFlight == old(traffic.selector.inFlight)
      ensures old(Request(CallsBy(traffic.acts, request))) ==> Request(CallsBy(traffic.acts, request))
    {
      hide Selector.Valid, CallsOf, HandIn, CallsBy, Request;
      if !closed {
        if Request(CallsBy(traffic.acts, request)) {
          HandIsItsOwn(traffic.acts, request);
          ClosingCompletes(CallsBy(traffic.acts, request), id);
        }
        traffic.selector.Release(id);
        traffic.Book(request, Empty, Completed(id, ReleasedIt));
        closed := true;
      }
    }
  }
}
