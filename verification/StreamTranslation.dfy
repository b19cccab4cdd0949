/**
  The stateful translator itself: one Responses event in, Anthropic events out.
  Every step keeps the output inside the grammar until the stream is finished,
  and changes the keyed views exactly as the event's moves say.
  (internal/anthropic/stream.go, thinking_stream.go)
 */
module StreamTranslation {
  import opened Common
  import opened StreamGrammar
  import opened StreamContent

  datatype Block = Block(index: nat, kind: Kind, callId: string, name: string, emitted: bool, stopped: bool)

  type Blocks = map<string, Block>

  function KindOf(key: string): Kind {
    if IsTextKey(key) then Text else Tool
  }

  /** Blocks, views and output tell the same story. */
  ghost predicate Tracks(blocks: Blocks, next: nat, keyOf: map<nat, string>, views: Views,
      thinking: Option<nat>, out: seq<Out>) {
    && blocks.Keys == views.Keys
    && (forall key :: key in blocks ==> Tracked(blocks[key], key, next, keyOf, views[key], thinking, out))
    && (forall i: nat :: i >= next ==> Content(out, i) == "")
    && (thinking.Some? ==> thinking.value < next)
  }

  ghost predicate Tracked(block: Block, key: string, next: nat, keyOf: map<nat, string>, view: View,
      thinking: Option<nat>, out: seq<Out>) {
    && block.index < next
    && block.index in keyOf && keyOf[block.index] == key
    && block.kind == KindOf(key)
    && block.emitted == (view.text != "")
    && block.stopped == view.closed
    && Content(out, block.index) == view.text
    && thinking != Some(block.index)
  }

  /** The numbers of the text blocks, or of the tool blocks. */
  function Spots(blocks: Blocks, text: bool): set<nat> {
    set key | key in blocks && IsTextKey(key) == text :: blocks[key].index
  }

  /** Different keys have different blocks. */
  predicate Apart(blocks: Blocks) {
    forall a, b | a in blocks && b in blocks && a != b :: blocks[a].index != blocks[b].index
  }

  /** The blocks on the wire are those in the table, text and tools apart. */
  ghost predicate Placed(blocks: Blocks, out: seq<Out>) {
    Begun(out, Text) == Spots(blocks, true) && Begun(out, Tool) == Spots(blocks, false)
  }

  lemma PlacedAlike(before: Blocks, after: Blocks, out: seq<Out>)
    requires Placed(before, out) && after.Keys == before.Keys && forall key :: key in before ==> after[key].index == before[key].index
    ensures Placed(after, out)
  {
    assert Spots(after, true) == Spots(before, true) && Spots(after, false) == Spots(before, false);
  }

  lemma PlacedMore(blocks: Blocks, key: string, block: Block, out: seq<Out>, callId: string, name: string)
    requires Placed(blocks, out) && key !in blocks
    ensures Placed(blocks[key := block], out + [StartOfBlock(block.index, key, callId, name)])
  {
    var o := StartOfBlock(block.index, key, callId, name);
    assert (out + [o])[..|out|] == out;
    var after := blocks[key := block];
    assert Spots(after, true) == Spots(blocks, true) + if IsTextKey(key) then {block.index} else {};
    assert Spots(after, false) == Spots(blocks, false) + if IsTextKey(key) then {} else {block.index};
  }

  lemma PlacedQuietly(blocks: Blocks, out: seq<Out>, o: Out)
    requires Placed(blocks, out) && (!o.BlockStart? || o.kind == Thinking)
    ensures Placed(blocks, out + [o])
  {
    assert (out + [o])[..|out|] == out;
  }

  /** The translator's fields are the scanner's state. */
  ghost predicate InStep(g: Scanner, started: bool, next: nat, blocks: Blocks, keyOf: map<nat, string>,
      thinking: Option<nat>) {
    && g.Ok? && g.phase == Running && g.started == started && g.next == next && g.thinking == thinking
    && (thinking.Some? ==> OpenAs(g, thinking.value, Thinking))
    && (forall key :: key in blocks && !blocks[key].stopped ==> OpenAs(g, blocks[key].index, blocks[key].kind))
    && (forall i :: i in g.open ==>
          || thinking == Some(i)
          || (i in keyOf && keyOf[i] in blocks && blocks[keyOf[i]].index == i && !blocks[keyOf[i]].stopped))
  }

  predicate AnyTool(views: Views) {
    exists key | key in views :: !IsTextKey(key)
  }

  lemma GrownIsAnOrder()
    ensures forall a :: Grown(a, a)
    ensures forall a, b, c :: Grown(a, b) && Grown(b, c) ==> Grown(a, c)
  {
  }

  lemma StoppingGrows(blocks: Blocks, key: string)
    ensures Grown(blocks, blocks)
    ensures key in blocks ==> Grown(blocks, blocks[key := blocks[key].(stopped := true)])
  {
  }

  lemma SpokenAllOne(v: Views, key: string, text: string)
    ensures SpokenAll(v, key, [text]) == Spoken(v, key, text)
  {
  }

  lemma SpokenNothing(v: Views, key: string)
    ensures Spoken(v, key, "") == v
  {
  }

  predicate Over(v: Views, key: string) {
    key in v && v[key].closed
  }

  /** Saying something opens the block if need be and goes on only if it is not over. */
  lemma Saying(v: Views, key: string, text: string)
    ensures key in Opened(v, key) && Opened(v, key)[key].closed == Over(v, key)
    ensures text == "" || Over(v, key) ==> Spoken(v, key, text) == v
    ensures Over(v, key) ==> Opened(v, key) == v && Stopped(v, key) == v
    ensures text != "" ==> Spoken(Opened(v, key), key, text) == Spoken(v, key, text)
  {
  }

  lemma NothingInFront(parts: seq<string>)
    requires parts != []
    ensures NothingIn(parts) <==> NothingIn(parts[..|parts| - 1]) && parts[|parts| - 1] == ""
  {
    var front := parts[..|parts| - 1];
    assert forall k :: 0 <= k < |front| ==> parts[k] == front[k];
  }

  lemma {:induction false} OverStays(v: Views, key: string, parts: seq<string>)
    ensures Over(v, key) || NothingIn(parts) ==> SpokenAll(v, key, parts) == v
    ensures Over(v, key) ==> Settled(v, key, parts) == v
    ensures key !in v && NothingIn(parts) ==> Settled(v, key, parts) == v
    decreases |parts|
  {
    hide Spoken;
    if parts != [] {
      NothingInFront(parts);
      OverStays(v, key, parts[..|parts| - 1]);
      Saying(v, key, parts[|parts| - 1]);
    }
  }

  /** At rest a part is heard only where no block is yet. */
  lemma OneMorePart(before: Views, now: Views, key: string, parts: seq<string>, part: string)
    requires now == SpokenAll(before, key, parts)
    ensures AllClosed(before) && (NothingIn(parts) || key in before) ==> now == before
    ensures AllClosed(now) ==> Over(now, key) == (key in now)
    ensures NothingIn([]) && Spoken(now, key, "") == now
  {
    OverStays(before, key, parts);
  }

  lemma NothingOpenLeft(views: Views)
    ensures AllClosed(ClosedAll(views))
  {
  }

  lemma HeardLeavesSignature(r: Rest, e: Event)
    ensures Heard(r, e) == r.(signature := Heard(r, e).signature)
  {
  }

  lemma PlainQuiet(r: Rest, e: Event)
    ensures e.Created? ==> Quiet(r, e) == r.started
    ensures e.Failure? || e.DoneMarker? || e.Malformed? || e.Ignored? ==> Quiet(r, e)
  {
  }

  lemma HeardNothing(r: Rest, e: Event)
    requires !e.ItemAdded? && !e.ItemDone?
    ensures Heard(r, e) == r
  {
  }

  /** At rest a key is over as soon as it is there, and opening it again changes nothing. */
  lemma OverAtRest(views: Views, key: string)
    ensures AllClosed(views) ==> Over(views, key) == (key in views) && (key in views ==> Opened(views, key) == views)
  {
  }

  lemma SpeakingGrows(blocks: Blocks, key: string)
    requires key in blocks
    ensures Grown(blocks, blocks[key := blocks[key].(emitted := true)])
  {
  }

  /** A name given once is the name given again. */
  lemma NamedAgain(id: string, at: Ref)
    ensures var key := ReasoningKey(FirstNonEmpty([id, ReasoningEventKey(at)])); ReasoningKey(FirstNonEmpty([id, key])) == key
  {
    assert [id, ReasoningEventKey(at)][1..] == [ReasoningEventKey(at)];
    var key := ReasoningKey(FirstNonEmpty([id, ReasoningEventKey(at)]));
    assert [id, key][1..] == [key];
  }

  lemma ToolsBySight(v: Views, key: string)
    ensures AnyTool(Opened(v, key)) == (AnyTool(v) || !IsTextKey(key))
    ensures key in v ==> AnyTool(Stopped(v, key)) == AnyTool(v)
    ensures key in v && !v[key].closed ==> forall text :: AnyTool(Spoken(v, key, text)) == AnyTool(v)
  {
  }

  /** Blocks are only added; a block never changes its number or its kind. */
  predicate Grown(before: Blocks, after: Blocks) {
    forall key | key in before ::
      key in after && after[key].index == before[key].index && (before[key].stopped ==> after[key].stopped)
  }

  lemma ContentSnoc(out: seq<Out>, o: Out)
    ensures Scan(out + [o]) == Step(Scan(out), o)
    ensures forall i: nat :: Content(out + [o], i) == Content(out, i) + Added(o, i)
  {
  }

  /** An event that says no text and no arguments leaves the story as it was. */
  lemma QuietTracks(blocks: Blocks, next: nat, keyOf: map<nat, string>, views: Views, thinking: Option<nat>,
      before: seq<Out>, after: seq<Out>)
    requires Tracks(blocks, next, keyOf, views, thinking, before)
    requires forall i: nat :: Content(after, i) == Content(before, i)
    ensures Tracks(blocks, next, keyOf, views, thinking, after)
  {
  }

  lemma ThinkingApart(blocks: Blocks, next: nat, keyOf: map<nat, string>, views: Views, thinking: Option<nat>, out: seq<Out>)
    requires Tracks(blocks, next, keyOf, views, thinking, out)
    ensures forall key :: key in blocks ==> thinking != Some(blocks[key].index) && blocks[key].index < next
    ensures Tracks(blocks, next, keyOf, views, None, out)
    ensures Tracks(blocks, next + 1, keyOf, views, Some(next), out)
  {
  }

  lemma StartSteps(g: Scanner, next: nat, blocks: Blocks, keyOf: map<nat, string>, thinking: Option<nat>, o: Out)
    requires InStep(g, false, next, blocks, keyOf, thinking) && o.MessageStart?
    ensures InStep(Step(g, o), true, next, blocks, keyOf, thinking)
  {
  }

  lemma ThinkingOpens(g: Scanner, next: nat, blocks: Blocks, keyOf: map<nat, string>, o: Out)
    requires InStep(g, true, next, blocks, keyOf, None) && o.BlockStart? && o.index == next && o.kind == Thinking
    requires forall key :: key in blocks ==> blocks[key].index < next
    ensures InStep(Step(g, o), true, next + 1, blocks, keyOf, Some(next))
  {
  }

  lemma ThinkingStops(g: Scanner, started: bool, next: nat, blocks: Blocks, keyOf: map<nat, string>, i: nat,
      signature: string)
    requires InStep(g, started, next, blocks, keyOf, Some(i))
    requires forall key :: key in blocks ==> blocks[key].index != i
    ensures InStep(Step(g, BlockStop(i)), started, next, blocks, keyOf, None)
    ensures InStep(Step(Step(g, SignatureDelta(i, signature)), BlockStop(i)), started, next, blocks, keyOf, None)
  {
  }

  lemma ThinkingSays(g: Scanner, started: bool, next: nat, blocks: Blocks, keyOf: map<nat, string>, i: nat, text: string)
    requires InStep(g, started, next, blocks, keyOf, Some(i))
    ensures Step(g, ThinkingDelta(i, text)) == g
  {
  }

  function StartOfBlock(index: nat, key: string, callId: string, name: string): Out {
    BlockStart(index, KindOf(key), callId, name)
  }

  function DeltaOf(index: nat, key: string, text: string): Out {
    if IsTextKey(key) then TextDelta(index, text) else ArgsDelta(index, text)
  }

  lemma BlockOpens(g: Scanner, next: nat, blocks: Blocks, keyOf: map<nat, string>, key: string, callId: string, name: string)
    requires InStep(g, true, next, blocks, keyOf, None) && key !in blocks
    requires forall other :: other in blocks ==> blocks[other].index < next
    ensures InStep(Step(g, StartOfBlock(next, key, callId, name)), true, next + 1,
                   blocks[key := Block(next, KindOf(key), callId, name, false, false)], keyOf[next := key], None)
  {
  }

  lemma BlockSpeaks(g: Scanner, started: bool, next: nat, blocks: Blocks, keyOf: map<nat, string>, key: string, text: string)
    requires InStep(g, started, next, blocks, keyOf, None)
    requires key in blocks && !blocks[key].stopped && blocks[key].kind == KindOf(key)
    ensures InStep(Step(g, DeltaOf(blocks[key].index, key, text)), started, next, blocks[key := blocks[key].(emitted := true)], keyOf, None)
  {
  }

  lemma BlockStops(g: Scanner, started: bool, next: nat, blocks: Blocks, keyOf: map<nat, string>,
      thinking: Option<nat>, key: string)
    requires InStep(g, started, next, blocks, keyOf, thinking)
    requires key in blocks && !blocks[key].stopped
    requires forall other :: other in blocks ==>
               thinking != Some(blocks[other].index) && blocks[other].index in keyOf && keyOf[blocks[other].index] == other
    ensures InStep(Step(g, BlockStop(blocks[key].index)), started, next, blocks[key := blocks[key].(stopped := true)], keyOf, thinking)
  {
  }

  lemma OpenedTracks(blocks: Blocks, next: nat, keyOf: map<nat, string>, views: Views, out: seq<Out>,
      key: string, callId: string, name: string)
    requires Tracks(blocks, next, keyOf, views, None, out) && key !in blocks
    ensures Tracks(blocks[key := Block(next, KindOf(key), callId, name, false, false)], next + 1, keyOf[next := key], Opened(views, key), None, out)
  {
  }

  lemma SpokenTracks(blocks: Blocks, next: nat, keyOf: map<nat, string>, views: Views, key: string,
      text: string, before: seq<Out>, after: seq<Out>)
    requires Tracks(blocks, next, keyOf, views, None, before)
    requires key in blocks && !blocks[key].stopped && text != ""
    requires forall i: nat ::
               Content(after, i) == if i == blocks[key].index then Content(before, i) + text else Content(before, i)
    ensures Tracks(blocks[key := blocks[key].(emitted := true)], next, keyOf, Spoken(views, key, text), None, after)
  {
    hide Content, KindOf;
  }

  lemma StoppedTracks(blocks: Blocks, next: nat, keyOf: map<nat, string>, views: Views, thinking: Option<nat>,
      out: seq<Out>, key: string)
    requires Tracks(blocks, next, keyOf, views, thinking, out) && key in blocks
    ensures Tracks(blocks[key := blocks[key].(stopped := true)], next, keyOf, Stopped(views, key), thinking, out)
  {
  }

  lemma AddedFits(g: Scanner, finished: bool, hasToolUse: bool, next: nat, blocks: Blocks,
      keyOf: map<nat, string>, views: Views, out: seq<Out>, key: string, callId: string, name: string)
    requires Tracks(blocks, next, keyOf, views, None, out) && key !in blocks && hasToolUse == AnyTool(views)
    requires !finished ==> InStep(g, true, next, blocks, keyOf, None)
    ensures var grown := blocks[key := Block(next, KindOf(key), callId, name, false, false)];
            && Tracks(grown, next + 1, keyOf[next := key], Opened(views, key), None, out)
            && (hasToolUse || !IsTextKey(key)) == AnyTool(Opened(views, key))
            && (!finished ==> InStep(Step(g, StartOfBlock(next, key, callId, name)), true, next + 1, grown, keyOf[next := key], None))
  {
    hide Tracks, Content, InStep, Step, KindOf, IsTextKey, AnyTool, Opened, StartOfBlock;
    ToolsBySight(views, key);
    ThinkingApart(blocks, next, keyOf, views, None, out);
    OpenedTracks(blocks, next, keyOf, views, out, key, callId, name);
    if !finished {
      BlockOpens(g, next, blocks, keyOf, key, callId, name);
    }
  }

  lemma TrackedFacts(blocks: Blocks, next: nat, keyOf: map<nat, string>, views: Views, thinking: Option<nat>, out: seq<Out>)
    requires Tracks(blocks, next, keyOf, views, thinking, out)
    ensures blocks.Keys == views.Keys
    ensures forall key :: key in blocks ==>
              && thinking != Some(blocks[key].index) && blocks[key].index < next
              && blocks[key].index in keyOf && keyOf[blocks[key].index] == key
    ensures forall key :: key in blocks ==>
              && blocks[key].kind == KindOf(key) && blocks[key].stopped == views[key].closed
              && blocks[key].emitted == (views[key].text != "")
  {
  }

  /** Blocks below `i` are stopped; nothing else changed. */
  ghost predicate Swept(before: Blocks, after: Blocks, told: Views, tells: Views, i: nat) {
    && after.Keys == before.Keys && tells.Keys == told.Keys
    && (forall key :: key in before ==>
          && after[key].index == before[key].index
          && (before[key].stopped ==> after[key].stopped)
          && (after[key].index < i ==> after[key].stopped))
    && (forall key :: key in told ==> tells[key].text == told[key].text)
  }

  lemma NothingSwept(blocks: Blocks, views: Views, out: seq<Out>)
    ensures Swept(blocks, blocks, views, views, 0) && StopsInOrder(out, out, 0)
  {
  }

  lemma SweepNone(before: Blocks, after: Blocks, told: Views, tells: Views, out: seq<Out>, now: seq<Out>, i: nat)
    requires Swept(before, after, told, tells, i) && StopsInOrder(out, now, i)
    requires forall key :: key in after && after[key].index == i ==> after[key].stopped
    ensures Swept(before, after, told, tells, i + 1) && StopsInOrder(out, now, i + 1)
  {
  }

  lemma SweepOne(before: Blocks, after: Blocks, told: Views, tells: Views, out: seq<Out>, now: seq<Out>, i: nat, key: string)
    requires Swept(before, after, told, tells, i) && StopsInOrder(out, now, i)
    requires key in after && after[key].index == i && key in tells
    requires forall other :: other in after && after[other].index == i ==> other == key
    ensures Swept(before, after[key := after[key].(stopped := true)], told, Stopped(tells, key), i + 1)
    ensures StopsInOrder(out, now + [BlockStop(i)], i + 1)
  {
  }

  lemma AllSwept(before: Blocks, after: Blocks, told: Views, tells: Views, next: nat)
    requires Swept(before, after, told, tells, next) && after.Keys == tells.Keys
    requires forall key :: key in after ==> after[key].index < next && after[key].stopped == tells[key].closed
    ensures tells == ClosedAll(told) && Grown(before, after) && forall key :: key in after ==> after[key].stopped
  {
  }

  lemma StopsExtend(before: seq<Out>, after: seq<Out>, bound: nat)
    requires StopsInOrder(before, after, bound)
    ensures before <= after
  {
  }

  /** The events added are stops, with block numbers rising and below `bound`. */
  ghost predicate StopsInOrder(before: seq<Out>, after: seq<Out>, bound: nat) {
    && before <= after
    && (forall k :: |before| <= k < |after| ==> after[k].BlockStop? && after[k].index < bound)
    && forall j, k :: |before| <= j < k < |after| ==> after[j].index < after[k].index
  }

  /** A tool block was started with this call id and name. */
  ghost predicate CallStarted(before: seq<Out>, after: seq<Out>, callId: string, name: string) {
    exists k :: |before| <= k < |after| && after[k].BlockStart? && after[k].kind == Tool && after[k].callId == callId && after[k].name == name
  }

  lemma StartedStays(before: seq<Out>, mid: seq<Out>, after: seq<Out>, callId: string, name: string)
    requires mid <= after
    ensures CallStarted(before, mid, callId, name) ==> CallStarted(before, after, callId, name)
  {
    if k :| |before| <= k < |mid| && mid[k].BlockStart? && mid[k].kind == Tool && mid[k].callId == callId && mid[k].name == name {
      assert after[k] == mid[k];
    }
  }

  lemma CallIs(callId: string, id: string)
    ensures CallOf(callId, id) == if callId != "" then callId else id
  {
  }

  lemma StartedSince(before: seq<Out>, mid: seq<Out>, after: seq<Out>, callId: string, name: string)
    requires before <= mid
    ensures CallStarted(mid, after, callId, name) ==> CallStarted(before, after, callId, name)
  {
  }

  lemma StartedLast(before: seq<Out>, between: seq<Out>, index: nat, key: string, callId: string, name: string)
    requires !IsTextKey(key)
    ensures CallStarted(before, before + between + [StartOfBlock(index, key, callId, name)], callId, name)
  {
    var all := before + between + [StartOfBlock(index, key, callId, name)];
    assert all[|all| - 1] == BlockStart(index, Tool, callId, name);
  }

  /** The call id and the name an event brings for the tool block it may open: without
      a call id the item's id stands in. */
  function CallIn(e: Event): Option<(string, string)> {
    match e
    case Arguments(at, callId, name, _) => Some((if callId != "" then callId else at.itemId, name))
    case ArgumentsDone(at, callId, name, _) => Some((if callId != "" then callId else at.itemId, name))
    case ItemAdded(_, item) => if item.FunctionCall? then Some((if item.callId != "" then item.callId else item.id, item.name)) else None
    case ItemDone(_, item) => if item.FunctionCall? then Some((if item.callId != "" then item.callId else item.id, item.name)) else None
    case _ => None
  }

  function CallKey(e: Event): string {
    match e
    case Arguments(at, callId, _, _) => ToolKey(at.itemId, callId, EventKey(at))
    case ArgumentsDone(at, callId, _, _) => ToolKey(at.itemId, callId, EventKey(at))
    case ItemAdded(at, item) => if item.FunctionCall? then ToolKey(item.id, item.callId, EventKey(at)) else ""
    case ItemDone(at, item) => if item.FunctionCall? then ToolKey(item.id, item.callId, EventKey(at)) else ""
    case _ => ""
  }

  /** How an open thinking block ends: its signature, if there is one, then the stop. */
  function ThinkingEnd(thinking: Option<nat>, signature: string): seq<Out> {
    match thinking
    case None => []
    case Some(i) => (if signature != "" then [SignatureDelta(i, signature)] else []) + [BlockStop(i)]
  }

  lemma ThinkingEndStops(out: seq<Out>, i: nat, signature: string)
    ensures var after := out + ThinkingEnd(Some(i), signature); out < after && after[|after| - 1] == BlockStop(i)
  {
  }

  // ---------------------------------------------------------------------------
  // After the end

  /** What an ended translator goes by. */
  datatype Rest = Rest(enabled: bool, omitted: bool, started: bool, views: Views, completed: set<string>, signature: string)

  predicate AllClosed(views: Views) {
    forall key | key in views :: views[key].closed
  }

  predicate NothingIn(parts: seq<string>) {
    forall k | 0 <= k < |parts| :: parts[k] == ""
  }

  /** Text parts are written unless there are none, or their block is there and so stopped. */
  predicate QuietText(r: Rest, key: string, parts: seq<string>) {
    Said(r.views, key) != "" || NothingIn(parts) || (r.started && key in r.views)
  }

  predicate QuietReasoning(r: Rest, key: string, summary: string, encrypted: string) {
    !r.enabled || key in r.completed || ((r.omitted || summary == "") && encrypted == "" && r.signature == "")
  }

  predicate QuietFinal(r: Rest, i: nat, item: Item) {
    match item
    case Reasoning(id, summary, encrypted) =>
      QuietReasoning(r, ReasoningKey(FirstNonEmpty([id, FinalReasoningKey(i)])), summary, encrypted)
    case Message(id, texts) =>
      var key := MessageKey(id, FinalKey(i));
      (key !in r.views && AnyText(r.views)) || QuietText(r, key, texts)
    case FunctionCall(id, callId, _, _) => ToolKey(id, callId, FinalKey(i)) in r.views
    case OtherItem => true
  }

  /** The events an ended translator writes nothing for. */
  predicate Quiet(r: Rest, e: Event) {
    match e
    case Created(_, _) => r.started
    case OutputText(at, delta) => r.started && (delta == "" || TextKey(at) in r.views)
    case PartAdded(at, isText) => isText ==> r.started && TextKey(at) in r.views
    case PartDone(at, isText, text) => isText ==> QuietText(r, TextKey(at), [text])
    case Arguments(at, callId, _, delta) => r.started && (delta == "" || ToolKey(at.itemId, callId, EventKey(at)) in r.views)
    case ArgumentsDone(at, callId, _, _) => r.started && ToolKey(at.itemId, callId, EventKey(at)) in r.views
    case ItemAdded(at, item) => r.started && (item.FunctionCall? ==> ToolKey(item.id, item.callId, EventKey(at)) in r.views)
    case ItemDone(at, item) =>
      (match item
       case Reasoning(id, summary, encrypted) =>
         QuietReasoning(r, ReasoningKey(FirstNonEmpty([id, ReasoningEventKey(at)])), summary, encrypted)
       case Message(id, texts) => QuietText(r, MessageKey(id, EventKey(at)), texts)
       case FunctionCall(id, callId, _, _) => r.started && ToolKey(id, callId, EventKey(at)) in r.views
       case OtherItem => true)
    case ReasoningPart(_) => r.started && !r.enabled
    case ReasoningText(_, _) => r.started && !r.enabled
    case Completed(_, _, output) => r.started && forall i | 0 <= i < |output| :: QuietFinal(r, i, output[i])
    case _ => true
  }

  /** An item that brings its encrypted reasoning leaves it behind even when nothing is written. */
  function Heard(r: Rest, e: Event): Rest {
    var item := if e.ItemAdded? || e.ItemDone? then e.item else OtherItem;
    if item.Reasoning? && r.enabled && item.encrypted != "" then r.(signature := item.encrypted) else r
  }

  /** Nothing in a sequence of events makes an ended translator write. */
  predicate AllQuiet(r: Rest, es: seq<Event>)
    decreases |es|
  {
    es == [] || (Quiet(r, es[0]) && AllQuiet(Heard(r, es[0]), es[1..]))
  }

  function HeardAll(r: Rest, es: seq<Event>): Rest {
    if es == [] then r else Heard(HeardAll(r, es[..|es| - 1]), es[|es| - 1])
  }

  lemma {:induction false} OneMoreQuiet(r: Rest, es: seq<Event>, e: Event)
    ensures AllQuiet(r, es + [e]) <==> AllQuiet(r, es) && Quiet(HeardAll(r, es), e)
    ensures HeardAll(r, es + [e]) == Heard(HeardAll(r, es), e)
    decreases |es|
  {
    hide Quiet, Heard;
    assert (es + [e])[..|es|] == es;
    if es != [] {
      OneMoreQuiet(Heard(r, es[0]), es[1..], e);
      HeardFrom(r, es);
      assert (es + [e])[1..] == es[1..] + [e];
    } else {
      assert [e][1..] == [];
    }
  }

  lemma {:induction false} HeardFrom(r: Rest, es: seq<Event>)
    requires es != []
    ensures HeardAll(r, es) == HeardAll(Heard(r, es[0]), es[1..])
  {
    hide Heard;
    if |es| > 1 {
      HeardFrom(r, es[..|es| - 1]);
      assert es[1..][..|es| - 2] == es[..|es| - 1][1..];
    }
  }

  class StreamTranslator {
    const enabled: bool
    const omitted: bool
    const requestModel: string
    const clockId: string

    var msgId: string
    var model: string
    var hasToolUse: bool
    var started: bool
    var finished: bool
    var failed: bool
    var blocks: Blocks
    var nextIndex: nat
    var thinking: Option<nat>
    var signature: string
    var stopPending: bool
    var reasoningKey: string
    var completed: set<string>
    var out: seq<Out>

    ghost var g: Scanner
    ghost var keyOf: map<nat, string>
    ghost var views: Views

    constructor (enabled: bool, omitted: bool, requestModel: string, clockId: string)
      ensures Valid() && !started && !finished && views == map[] && out == []
      ensures this.enabled == enabled && this.omitted == omitted
    {
      this.enabled, this.omitted, this.requestModel, this.clockId := enabled, omitted, requestModel, clockId;
      msgId, model, hasToolUse := "", requestModel, false;
      started, finished, failed := false, false, false;
      blocks, nextIndex, thinking := map[], 0, None;
      signature, stopPending, reasoningKey, completed := "", false, "", {};
      out, g, keyOf, views := [], FRESH, map[], map[];
    }

    ghost predicate Valid()
      reads `out, `g, `keyOf, `views, `blocks, `nextIndex, `thinking, `hasToolUse, `started, `finished, `failed
    {
      && g == Scan(out)
      && Tracks(blocks, nextIndex, keyOf, views, thinking, out)
      && (!finished ==> InStep(g, started, nextIndex, blocks, keyOf, thinking))
      && (thinking.Some? ==> enabled && started)
      && hasToolUse == AnyTool(views)
      && (failed ==> finished)
      && Placed(blocks, out)
    }

    /** The stream has ended and nothing is open. */
    ghost predicate AtRest()
      reads `finished, `thinking, `views
    {
      finished && thinking.None? && AllClosed(views)
    }

    ghost function Now(): Rest
      reads `started, `views, `completed, `signature
    {
      Rest(enabled, omitted, started, views, completed, signature)
    }

    /** Nothing was written and all is as it was; only encrypted reasoning may be left behind. */
    twostate predicate Silent(heard: string)
      reads this
    {
      && out == old(out) && thinking == old(thinking) && started == old(started)
      && views == old(views) && completed == old(completed) && signature == heard
    }

    /** What every event that cannot end the stream does: it only adds to the output,
        moves the content as it says, and is silent at rest exactly when it is quiet. */
    twostate predicate Handled(e: Event)
      reads this
    {
      && old(out) <= out && Grown(old(blocks), blocks) && (old(started) ==> started)
      && finished == old(finished) && failed == old(failed)
      && views == Play(old(views), Moves(e))
      && (old(AtRest()) ==> if Quiet(old(Now()), e) then Silent(Heard(old(Now()), e).signature) else old(out) < out)
    }

    method Emit(o: Out)
      requires g == Scan(out)
      modifies `out, `g
      ensures out == old(out) + [o] && g == Scan(out) == Step(old(g), o)
      ensures forall i: nat :: Content(out, i) == if Added(o, i) == "" then Content(old(out), i) else Content(old(out), i) + Added(o, i)
      ensures Placed(blocks, old(out)) && (!o.BlockStart? || o.kind == Thinking) ==> Placed(blocks, out)
    {
      if Placed(blocks, out) && (!o.BlockStart? || o.kind == Thinking) {
        PlacedQuietly(blocks, out, o);
      }
      ContentSnoc(out, o);
      out := out + [o];
      g := Step(g, o);
    }

    /** Writes an event that carries neither text nor arguments. */
    method EmitQuietly(o: Out)
      requires g == Scan(out) && Tracks(blocks, nextIndex, keyOf, views, thinking, out)
      requires !o.TextDelta? && !o.ArgsDelta?
      modifies `out, `g
      ensures out == old(out) + [o] && g == Scan(out) == Step(old(g), o)
      ensures Tracks(blocks, nextIndex, keyOf, views, thinking, out)
      ensures Placed(blocks, old(out)) && (!o.BlockStart? || o.kind == Thinking) ==> Placed(blocks, out)
    {
      hide Placed, Tracks, Content, Scan, Step;
      Emit(o);
      QuietTracks(blocks, nextIndex, keyOf, views, thinking, old(out), out);
    }

    /** message_start, once. */
    method EnsureStart(id: string, m: string)
      requires Valid()
      modifies `out, `g, `started, `msgId, `model
      ensures Valid() && started
      ensures old(started) ==> out == old(out) && msgId == old(msgId) && model == old(model)
      ensures !old(started) ==> out == old(out) + [MessageStart(msgId, model)]
      ensures !old(started) ==> msgId == MessageId(if id == "" then clockId else id)
      ensures !old(started) ==> model == ModelName(m, requestModel, old(model))
    {
      hide Placed, Tracks, Content, Scan, InStep, Step, AnyTool, MessageId, ModelName;
      if started {
        return;
      }
      msgId := MessageId(if id == "" then clockId else id);
      model := ModelName(m, requestModel, model);
      if !finished {
        StartSteps(g, nextIndex, blocks, keyOf, thinking, MessageStart(msgId, model));
      }
      EmitQuietly(MessageStart(msgId, model));
      started := true;
    }

    // -------------------------------------------------------------------------
    // Thinking

    method StopThinking(index: nat)
      requires Valid() && thinking == Some(index)
      modifies `out, `g, `thinking
      ensures Valid() && thinking.None?
      ensures out == old(out) + ThinkingEnd(Some(index), signature)
    {
      hide Placed, Tracks, Content, Scan, InStep, Step, AnyTool;
      ThinkingApart(blocks, nextIndex, keyOf, views, thinking, out);
      if !finished {
        ThinkingStops(g, started, nextIndex, blocks, keyOf, index, signature);
      }
      if signature != "" {
        EmitQuietly(SignatureDelta(index, signature));
      }
      EmitQuietly(BlockStop(index));
      ThinkingApart(blocks, nextIndex, keyOf, views, thinking, out);
      thinking := None;
    }

    /** Ends the thinking block, if one is open. */
    method CloseThinking(clear: bool)
      requires Valid()
      modifies `out, `g, `thinking, `signature, `stopPending, `reasoningKey, `completed
      ensures Valid() && thinking.None?
      ensures out == old(out) + ThinkingEnd(old(thinking), old(signature))
      ensures completed == old(completed) + if old(thinking).Some? && old(reasoningKey) != "" then {old(reasoningKey)} else {}
      ensures signature == if enabled && clear then "" else old(signature)
      ensures stopPending == (old(thinking).None? && old(stopPending))
      ensures reasoningKey == if old(thinking).Some? && clear then "" else old(reasoningKey)
    {
      hide Placed, Tracks, Content, Scan, InStep, AnyTool;
      if !enabled {
        return;
      }
      if thinking.None? {
        if clear {
          signature := "";
        }
        return;
      }
      StopThinking(thinking.value);
      if reasoningKey != "" {
        completed := completed + {reasoningKey};
      }
      stopPending := false;
      if clear {
        signature, reasoningKey := "", "";
      }
    }

    /** Opens a thinking block unless one is open. */
    method OpenThinking()
      requires Valid()
      modifies `out, `g, `started, `msgId, `model, `thinking, `stopPending, `nextIndex
      ensures Valid() && thinking.Some? == enabled && (enabled ==> started)
      ensures old(thinking).Some? ==> thinking == old(thinking) && stopPending == old(stopPending)
      ensures old(thinking).Some? || !enabled ==> out == old(out) && nextIndex == old(nextIndex) && started == old(started)
      ensures old(thinking).None? && enabled ==>
                thinking == Some(old(nextIndex)) && nextIndex == old(nextIndex) + 1 && !stopPending
                && old(out) < out && out[|out| - 1] == BlockStart(old(nextIndex), Thinking, "", "")
    {
      hide Placed, MessageId, ModelName, Tracks, Content, Scan, InStep, Step, AnyTool;
      if !enabled || thinking.Some? {
        return;
      }
      EnsureStart(msgId, model);
      ThinkingApart(blocks, nextIndex, keyOf, views, thinking, out);
      if !finished {
        ThinkingOpens(g, nextIndex, blocks, keyOf, BlockStart(nextIndex, Thinking, "", ""));
      }
      EmitQuietly(BlockStart(nextIndex, Thinking, "", ""));
      ThinkingApart(blocks, nextIndex, keyOf, views, thinking, out);
      thinking := Some(nextIndex);
      nextIndex := nextIndex + 1;
      stopPending := false;
    }

    method SayThinking(text: string)
      requires Valid()
      modifies `out, `g, `started, `msgId, `model, `thinking, `stopPending, `nextIndex
      ensures Valid()
      ensures !enabled || omitted || text == "" ==>
                out == old(out) && thinking == old(thinking) && stopPending == old(stopPending) && started == old(started)
      ensures enabled && !omitted && text != "" ==>
                thinking.Some? && started && old(out) < out && out[|out| - 1] == StreamGrammar.ThinkingDelta(thinking.value, text)
    {
      hide Placed, Tracks, Content, Scan, InStep, Step, AnyTool;
      if !enabled || omitted || text == "" {
        return;
      }
      OpenThinking();
      if !finished {
        ThinkingSays(g, started, nextIndex, blocks, keyOf, thinking.value, text);
      }
      EmitQuietly(StreamGrammar.ThinkingDelta(thinking.value, text));
    }

    // -------------------------------------------------------------------------
    // Text and tool blocks

    method AddBlock(key: string, callId: string, name: string)
      requires Valid() && started && thinking.None? && key !in blocks
      modifies `out, `g, `blocks, `keyOf, `views, `nextIndex, `hasToolUse
      ensures Valid()
      ensures blocks == old(blocks)[key := Block(old(nextIndex), KindOf(key), callId, name, false, false)]
      ensures views == Opened(old(views), key)
      ensures out == old(out) + [StartOfBlock(old(nextIndex), key, callId, name)]
    {
      hide Placed, Tracks, Content, Scan, InStep, Step, KindOf, IsTextKey, AnyTool, Opened, StartOfBlock;
      ghost var before := g;
      EmitStart(key, callId, name);
      AddedFits(before, finished, hasToolUse, nextIndex, blocks, keyOf, views, out, key, callId, name);
      PlacedMore(blocks, key, Block(nextIndex, KindOf(key), callId, name, false, false), old(out), callId, name);
      var block := Block(nextIndex, KindOf(key), callId, name, false, false);
      blocks, keyOf, views, nextIndex, hasToolUse :=
        blocks[key := block], keyOf[nextIndex := key], Opened(views, key), nextIndex + 1, hasToolUse || !IsTextKey(key);
    }

    method EmitStart(key: string, callId: string, name: string)
      requires g == Scan(out) && Tracks(blocks, nextIndex, keyOf, views, thinking, out)
      modifies `out, `g
      ensures out == old(out) + [StartOfBlock(nextIndex, key, callId, name)]
      ensures g == Scan(out) == Step(old(g), StartOfBlock(nextIndex, key, callId, name))
      ensures Tracks(blocks, nextIndex, keyOf, views, thinking, out)
    {
      hide Placed, Tracks, Content, Scan, Step, KindOf, IsTextKey;
      EmitQuietly(StartOfBlock(nextIndex, key, callId, name));
    }

    method EmitDelta(index: nat, key: string, text: string)
      requires g == Scan(out) && text != ""
      modifies `out, `g
      ensures out == old(out) + [DeltaOf(index, key, text)] && g == Scan(out) == Step(old(g), DeltaOf(index, key, text))
      ensures forall i: nat :: Content(out, i) == if i == index then Content(old(out), i) + text else Content(old(out), i)
      ensures Placed(blocks, old(out)) ==> Placed(blocks, out)
    {
      hide Placed, Content, Scan, Step, IsTextKey;
      Emit(DeltaOf(index, key, text));
    }

    /** A text or an arguments delta for an open block. */
    method SayIn(key: string, text: string)
      requires Valid() && thinking.None? && key in blocks && !blocks[key].stopped && text != ""
      modifies `out, `g, `blocks, `views
      ensures Valid()
      ensures blocks == old(blocks)[key := old(blocks)[key].(emitted := true)]
      ensures views == Spoken(old(views), key, text)
      ensures out == old(out) + [DeltaOf(blocks[key].index, key, text)]
    {
      hide Placed, DeltaOf, Tracks, Content, Scan, InStep, Step, KindOf, IsTextKey, AnyTool, Spoken;
      ToolsBySight(views, key);
      TrackedFacts(blocks, nextIndex, keyOf, views, thinking, out);
      if !finished {
        BlockSpeaks(g, started, nextIndex, blocks, keyOf, key, text);
      }
      EmitDelta(blocks[key].index, key, text);
      SpokenTracks(blocks, nextIndex, keyOf, views, key, text, old(out), out);
      PlacedAlike(blocks, blocks[key := blocks[key].(emitted := true)], out);
      blocks := blocks[key := blocks[key].(emitted := true)];
      views := Spoken(views, key, text);
    }

    /** Stops the block with this key if there is one and it is not stopped yet. */
    method StopBlock(key: string)
      requires Valid()
      modifies `out, `g, `blocks, `views
      ensures Valid()
      ensures views == Stopped(old(views), key)
      ensures blocks == if key in old(blocks) then old(blocks)[key := old(blocks)[key].(stopped := true)] else old(blocks)
      ensures out == old(out) + if key in old(blocks) && !old(blocks)[key].stopped then [BlockStop(old(blocks)[key].index)] else []
    {
      hide Placed, Tracks, Content, Scan, InStep, Step, KindOf, IsTextKey, AnyTool;
      ToolsBySight(views, key);
      TrackedFacts(blocks, nextIndex, keyOf, views, thinking, out);
      if key !in blocks || blocks[key].stopped {
        return;
      }
      if !finished {
        BlockStops(g, started, nextIndex, blocks, keyOf, thinking, key);
      }
      EmitQuietly(BlockStop(blocks[key].index));
      StoppedTracks(blocks, nextIndex, keyOf, views, thinking, out, key);
      PlacedAlike(blocks, blocks[key := blocks[key].(stopped := true)], out);
      blocks := blocks[key := blocks[key].(stopped := true)];
      views := Stopped(views, key);
    }

    lemma Facts()
      requires Valid()
      ensures blocks.Keys == views.Keys
      ensures forall key :: key in blocks ==>
                && blocks[key].kind == KindOf(key) && blocks[key].stopped == views[key].closed
                && blocks[key].emitted == (views[key].text != "") && blocks[key].index < nextIndex
      ensures forall key :: key in blocks ==> Content(out, blocks[key].index) == views[key].text
      ensures !finished ==> g.Ok? && g == Scan(out) && g.phase == Running && g.started == started
    {
    }

    lemma Places()
      requires Valid()
      ensures Placed(blocks, out) && Apart(blocks)
    {
    }

    method FinishThinkingBeforeContent()
      requires Valid()
      modifies `out, `g, `thinking, `signature, `stopPending, `reasoningKey, `completed
      ensures Valid() && thinking.None?
      ensures out == old(out) + ThinkingEnd(old(thinking), old(signature))
      ensures old(thinking).None? ==> signature == old(signature) && reasoningKey == old(reasoningKey) && completed == old(completed)
      ensures old(thinking).Some? ==> signature == "" && reasoningKey == "" && old(completed) + {old(reasoningKey)} >= completed
      ensures old(thinking).None? ==> out == old(out)
    {
      hide Tracks, Scan, InStep, AnyTool;
      if thinking.None? {
        return;
      }
      CloseThinking(true);
    }

    method EnsureTextBlock(key: string) returns (at: string)
      requires Valid() && started
      modifies `out, `g, `thinking, `signature, `stopPending, `reasoningKey, `completed, `blocks, `keyOf, `views, `nextIndex, `hasToolUse
      ensures Valid() && thinking.None?
      ensures old(thinking).None? ==> completed == old(completed) && signature == old(signature)
      ensures at == BlockKey(Text, key) && at in blocks && views == Opened(old(views), at) && Grown(old(blocks), blocks)
      ensures out == old(out) + ThinkingEnd(old(thinking), old(signature)) +
                     if at in old(blocks) then [] else [StartOfBlock(old(nextIndex), at, "", "")]
      ensures if at in old(views) then old(thinking).None? ==> Silent(old(signature)) else old(out) < out
    {
      hide Valid, ThinkingEnd, StartOfBlock, BlockKey;
      FinishThinkingBeforeContent();
      Facts();
      at := BlockKey(Text, key);
      if at in blocks {
        return;
      }
      AddBlock(at, "", "");
    }

    method EnsureToolBlock(key: string, callId: string, name: string) returns (at: string)
      requires Valid() && started
      modifies `out, `g, `thinking, `signature, `stopPending, `reasoningKey, `completed, `blocks, `keyOf, `views, `nextIndex, `hasToolUse
      ensures Valid() && thinking.None?
      ensures old(thinking).None? ==> completed == old(completed) && signature == old(signature)
      ensures at == BlockKey(Tool, FirstNonEmpty([key, callId])) && at in blocks && views == Opened(old(views), at) && Grown(old(blocks), blocks)
      ensures out == old(out) + ThinkingEnd(old(thinking), old(signature)) +
                     if at in old(blocks) then []
                     else [StartOfBlock(old(nextIndex), at, if callId != "" then callId else at[5..], if name != "" then name else "tool")]
      ensures if at in old(views) then old(thinking).None? ==> Silent(old(signature)) else old(out) < out
      ensures at !in old(views) && callId != "" ==> CallStarted(old(out), out, callId, if name != "" then name else "tool")
    {
      hide Valid, ThinkingEnd, StartOfBlock, FirstNonEmpty, CallStarted;
      FinishThinkingBeforeContent();
      Facts();
      at := BlockKey(Tool, FirstNonEmpty([key, callId]));
      if at in blocks {
        return;
      }
      KeysAreApart("", FirstNonEmpty([key, callId]));
      StartedLast(old(out), ThinkingEnd(old(thinking), old(signature)), nextIndex, at,
        if callId != "" then callId else at[5..], if name != "" then name else "tool");
      AddBlock(at, if callId != "" then callId else at[5..], if name != "" then name else "tool");
    }

    method SayText(key: string, text: string)
      requires Valid() && started
      modifies `out, `g, `thinking, `signature, `stopPending, `reasoningKey, `completed, `blocks, `keyOf, `views, `nextIndex, `hasToolUse
      ensures Valid()
      ensures views == Spoken(old(views), BlockKey(Text, key), text) && Grown(old(blocks), blocks) && old(out) <= out
      ensures var at := BlockKey(Text, key);
              text != "" && !Over(old(views), at) ==>
                old(out) < out && at in blocks && out[|out| - 1] == DeltaOf(blocks[at].index, at, text)
      ensures old(thinking).None? && (text == "" || Over(old(views), BlockKey(Text, key))) ==> Silent(old(signature))
    {
      hide Valid, StartOfBlock, BlockKey, IsTextKey, DeltaOf, KindOf, Opened, Spoken, Content, Grown;
      GrownIsAnOrder();
      Facts();
      Saying(views, BlockKey(Text, key), text);
      if text == "" {
        return;
      }
      var at := EnsureTextBlock(key);
      Facts();
      if blocks[at].stopped {
        return;
      }
      SpeakingGrows(blocks, at);
      SayIn(at, text);
    }

    method SayArguments(key: string, callId: string, name: string, arguments: string)
      requires Valid() && started
      modifies `out, `g, `thinking, `signature, `stopPending, `reasoningKey, `completed, `blocks, `keyOf, `views, `nextIndex, `hasToolUse
      ensures Valid()
      ensures views == Spoken(old(views), BlockKey(Tool, FirstNonEmpty([key, callId])), arguments) && Grown(old(blocks), blocks) && old(out) <= out
      ensures var at := BlockKey(Tool, FirstNonEmpty([key, callId]));
              && (old(thinking).None? && (arguments == "" || Over(old(views), at)) ==> Silent(old(signature)))
              && (arguments != "" && !Over(old(views), at) ==> old(out) < out)
      ensures BlockKey(Tool, FirstNonEmpty([key, callId])) !in old(views) && callId != "" && arguments != "" ==>
                CallStarted(old(out), out, callId, if name != "" then name else "tool")
    {
      hide CallStarted, Valid, StartOfBlock, BlockKey, FirstNonEmpty, IsTextKey, DeltaOf, KindOf, Opened, Spoken, Content, Grown;
      GrownIsAnOrder();
      Facts();
      Saying(views, BlockKey(Tool, FirstNonEmpty([key, callId])), arguments);
      if arguments == "" {
        return;
      }
      var at := EnsureToolBlock(key, callId, name);
      ghost var mid := out;
      Facts();
      if blocks[at].stopped {
        return;
      }
      SpeakingGrows(blocks, at);
      SayIn(at, arguments);
      StartedStays(old(out), mid, out, callId, if name != "" then name else "tool");
    }

    /** Stops every open block, lowest number first. */
    method StopAllBlocks()
      requires Valid()
      modifies `out, `g, `blocks, `views
      ensures Valid()
      ensures views == ClosedAll(old(views)) && Grown(old(blocks), blocks)
      ensures forall key :: key in blocks ==> blocks[key].stopped
      ensures StopsInOrder(old(out), out, nextIndex)
    {
      hide Valid, Content, Scan, IsTextKey, KindOf, StopsInOrder, Swept;
      Facts();
      var i := 0;
      NothingSwept(blocks, views, out);
      while i < nextIndex
        invariant 0 <= i <= nextIndex
        invariant Valid()
        invariant Swept(old(blocks), blocks, old(views), views, i)
        invariant StopsInOrder(old(out), out, i)
      {
        StopAt(i, old(blocks), old(views), old(out));
        i := i + 1;
      }
      Facts();
      AllSwept(old(blocks), blocks, old(views), views, i);
    }

    method StopAt(i: nat, ghost blocks0: Blocks, ghost views0: Views, ghost out0: seq<Out>)
      requires Valid() && Swept(blocks0, blocks, views0, views, i) && StopsInOrder(out0, out, i)
      modifies `out, `g, `blocks, `views
      ensures Valid() && Swept(blocks0, blocks, views0, views, i + 1) && StopsInOrder(out0, out, i + 1)
    {
      hide Valid, Content, Scan, IsTextKey, KindOf, Swept, StopsInOrder, Stopped;
      Facts();
      if key :| key in blocks && blocks[key].index == i && !blocks[key].stopped {
        OneAtATime(i, key);
        SweepOne(blocks0, blocks, views0, views, out0, out, i, key);
        StopBlock(key);
      } else {
        SweepNone(blocks0, blocks, views0, views, out0, out, i);
      }
    }

    lemma OneAtATime(i: nat, key: string)
      requires Valid() && key in blocks && blocks[key].index == i
      ensures forall other :: other in blocks && blocks[other].index == i ==> other == key
    {
    }

    lemma NothingOpen()
      requires Valid() && !finished && thinking.None?
      requires forall key :: key in blocks ==> blocks[key].stopped
      ensures g == Ok(started, nextIndex, map[], None, Running) && g == Scan(out)
    {
    }

    /** Ends the thinking block and then every other block. */
    method CloseEverything()
      requires Valid()
      modifies `out, `g, `thinking, `signature, `stopPending, `reasoningKey, `completed, `blocks, `views
      ensures Valid() && thinking.None? && Grown(old(blocks), blocks) && forall key :: key in blocks ==> blocks[key].stopped
      ensures views == ClosedAll(old(views)) && AllClosed(views) && old(out) <= out
      ensures completed >= old(completed) && (enabled ==> signature == "")
    {
      hide Valid, Content, ThinkingEnd, ClosedAll, AllClosed, StopsInOrder;
      CloseThinking(true);
      ghost var before := out;
      StopAllBlocks();
      StopsExtend(before, out, nextIndex);
      NothingOpenLeft(old(views));
    }

    /** message_delta and message_stop, once everything is stopped. */
    method Finish(stopReason: string)
      requires Valid()
      modifies this
      ensures Valid() && finished && Grown(old(blocks), blocks)
      ensures old(finished) ==> Silent(old(signature)) && blocks == old(blocks)
      ensures !old(finished) ==> Complete(out) && views == ClosedAll(old(views)) && old(out) < out
      ensures !old(finished) ==>
                |out| >= 2 && out[|out| - 2] == MessageDelta(if stopReason != "" then stopReason else if hasToolUse then "tool_use" else "end_turn")
      ensures completed >= old(completed) && hasToolUse == old(hasToolUse)
      ensures !old(finished) ==> AtRest() && (enabled ==> signature == "")
    {
      hide Valid, Tracks, Content, InStep, Scan, ThinkingEnd, ClosedAll, AllClosed, StopsInOrder, MessageId, ModelName;
      if finished {
        return;
      }
      EnsureStart(msgId, model);
      CloseEverything();
      EndWith(if stopReason != "" then stopReason else if hasToolUse then "tool_use" else "end_turn");
    }

    method EndWith(stopReason: string)
      requires Valid() && started && !finished && thinking.None?
      requires forall key :: key in blocks ==> blocks[key].stopped
      modifies `out, `g, `finished
      ensures Valid() && finished
      ensures out == old(out) + [MessageDelta(stopReason), MessageStop] && Complete(out)
    {
      hide Placed, Tracks, Content, InStep, Scan, AnyTool;
      NothingOpen();
      EmitQuietly(MessageDelta(stopReason));
      EmitQuietly(MessageStop);
      finished := true;
    }

    /** A terminal error; never followed by message_stop. */
    method Fail()
      requires Valid()
      modifies this
      ensures Valid() && finished && Grown(old(blocks), blocks)
      ensures old(finished) ==> Silent(old(signature)) && blocks == old(blocks)
      ensures !old(finished) ==> failed && Complete(out) && views == ClosedAll(old(views)) && old(out) < out && out[|out| - 1] == ErrorEvent
      ensures started == old(started)
      ensures completed >= old(completed)
      ensures !old(finished) ==> AtRest() && (enabled ==> signature == "")
    {
      hide Valid, Tracks, Content, InStep, Scan, ThinkingEnd, ClosedAll, AllClosed, StopsInOrder;
      if finished {
        return;
      }
      CloseEverything();
      EndWithError();
    }

    method EndWithError()
      requires Valid() && !finished && thinking.None?
      requires forall key :: key in blocks ==> blocks[key].stopped
      modifies `out, `g, `finished, `failed
      ensures Valid() && finished && failed
      ensures out == old(out) + [ErrorEvent] && Complete(out)
    {
      hide Placed, Tracks, Content, InStep, Scan, AnyTool;
      NothingOpen();
      EmitQuietly(ErrorEvent);
      finished, failed := true, true;
    }

    // -------------------------------------------------------------------------
    // Reasoning events

    method StartThinkingPart(key: string)
      requires Valid()
      modifies this
      ensures Valid()
      ensures old(out) <= out && Grown(old(blocks), blocks) && (old(started) ==> started)
      ensures finished == old(finished) && failed == old(failed)
      ensures views == old(views) && blocks == old(blocks)
      ensures enabled ==> thinking.Some? && reasoningKey == ReasoningKey(key)
      ensures enabled && old(thinking).Some? && !old(stopPending) ==> thinking == old(thinking) && out == old(out)
      ensures enabled && old(thinking).Some? && old(stopPending) ==> old(reasoningKey) == "" || old(reasoningKey) in completed
      ensures if enabled then old(thinking).None? ==> old(out) < out else Silent(old(signature))
    {
      hide Valid, ThinkingEnd, ReasoningKey;
      if !enabled {
        return;
      }
      if thinking.Some? && stopPending {
        CloseThinking(false);
      }
      reasoningKey := ReasoningKey(key);
      OpenThinking();
    }

    method CaptureSignature(key: string, encrypted: string)
      requires Valid()
      modifies `signature, `reasoningKey
      ensures Valid()
      ensures signature == if enabled && encrypted != "" then encrypted else old(signature)
      ensures reasoningKey == if enabled && encrypted != "" && key != "" then ReasoningKey(key) else old(reasoningKey)
    {
      hide Valid, ReasoningKey;
      if !enabled || encrypted == "" {
        return;
      }
      if key != "" {
        reasoningKey := ReasoningKey(key);
      }
      signature := encrypted;
    }

    /** A whole reasoning item; one already told is not told again. */
    method SayReasoning(id: string, summary: string, encrypted: string, fallback: string)
      requires Valid()
      modifies this
      ensures Valid()
      ensures old(out) <= out && Grown(old(blocks), blocks) && (old(started) ==> started)
      ensures finished == old(finished) && failed == old(failed)
      ensures views == old(views) && blocks == old(blocks)
      ensures old(completed) <= completed
      ensures var key := ReasoningKey(FirstNonEmpty([id, fallback]));
              if !enabled || key in old(completed) || ((omitted || summary == "") && encrypted == "" && old(signature) == "")
              then out == old(out)
              else key in completed && thinking.None? && old(out) < out && out[|out| - 1].BlockStop?
      ensures QuietReasoning(old(Now()), ReasoningKey(FirstNonEmpty([id, fallback])), summary, encrypted) ==> Silent(old(signature))
    {
      hide Valid, ReasoningKey, FirstNonEmpty;
      if !enabled {
        return;
      }
      var key := ReasoningKey(FirstNonEmpty([id, fallback]));
      if key in completed {
        return;
      }
      var said := if omitted then "" else summary;
      var sealed := if encrypted == "" then signature else encrypted;
      if said == "" && sealed == "" {
        return;
      }
      TellReasoning(key, said, sealed);
    }

    method TellReasoning(key: string, said: string, sealed: string)
      requires Valid() && enabled && key != ""
      modifies this
      ensures Valid()
      ensures old(out) <= out && Grown(old(blocks), blocks) && (old(started) ==> started)
      ensures finished == old(finished) && failed == old(failed)
      ensures views == old(views) && blocks == old(blocks)
      ensures old(completed) + {key} == completed && thinking.None? && old(out) < out && out[|out| - 1].BlockStop?
    {
      hide Valid, ThinkingEnd, Grown;
      GrownIsAnOrder();
      reasoningKey := key;
      if sealed != "" {
        signature := sealed;
      }
      OpenThinking();
      SayAndClose(said);
    }

    /** The rest of a reasoning item, once its thinking block is open. */
    method SayAndClose(said: string)
      requires Valid() && enabled && thinking.Some? && reasoningKey != ""
      modifies `out, `g, `started, `msgId, `model, `thinking, `stopPending, `nextIndex, `signature, `reasoningKey, `completed
      ensures Valid() && thinking.None? && (old(started) ==> started)
      ensures completed == old(completed) + {old(reasoningKey)} && old(out) < out && out[|out| - 1].BlockStop?
    {
      hide Valid, ThinkingEnd;
      SayThinking(said);
      ThinkingEndStops(out, thinking.value, signature);
      CloseThinking(true);
    }

    method ReasoningDone(at: Ref, id: string, summary: string, encrypted: string)
      requires Valid()
      modifies this
      ensures Valid()
      ensures old(out) <= out && Grown(old(blocks), blocks) && (old(started) ==> started)
      ensures finished == old(finished) && failed == old(failed)
      ensures views == old(views) && blocks == old(blocks)
      ensures enabled && old(thinking).Some? ==> thinking.None? && ReasoningKey(FirstNonEmpty([id, ReasoningEventKey(at)])) in completed
      ensures old(thinking).None? ==>
                if QuietReasoning(old(Now()), ReasoningKey(FirstNonEmpty([id, ReasoningEventKey(at)])), summary, encrypted)
                then Silent(if enabled && encrypted != "" then encrypted else old(signature)) else old(out) < out
    {
      hide Valid, ReasoningKey, FirstNonEmpty, ReasoningEventKey;
      var key := ReasoningKey(FirstNonEmpty([id, ReasoningEventKey(at)]));
      NamedAgain(id, at);
      reasoningKey := key;
      CaptureSignature(key, encrypted);
      if thinking.None? {
        SayReasoning(id, summary, encrypted, key);
      } else {
        CloseThinking(true);
      }
    }

    // -------------------------------------------------------------------------
    // Text and tool events

    /** A closing event for a message: its parts are said only if no text was. */
    method SettleText(key: string, parts: seq<string>)
      requires Valid()
      modifies this
      ensures Valid()
      ensures old(out) <= out && Grown(old(blocks), blocks) && (old(started) ==> started)
      ensures finished == old(finished) && failed == old(failed)
      ensures views == Settled(old(views), BlockKey(Text, key), parts)
      ensures old(AtRest()) ==> if QuietText(old(Now()), BlockKey(Text, key), parts) then Silent(old(signature)) else old(out) < out
    {
      hide Valid, BlockKey, Spoken, Opened, Grown, KindOf, Content;
      var at := BlockKey(Text, key);
      Facts();
      GrownIsAnOrder();
      OverStays(views, at, parts);
      if at in blocks && blocks[at].emitted {
        StoppingGrows(blocks, at);
        StopBlock(at);
        return;
      }
      SayParts(key, parts);
      Facts();
      StoppingGrows(blocks, at);
      StopBlock(at);
    }

    method SayParts(key: string, parts: seq<string>)
      requires Valid()
      modifies this
      ensures Valid()
      ensures old(out) <= out && Grown(old(blocks), blocks) && (old(started) ==> started)
      ensures finished == old(finished) && failed == old(failed)
      ensures views == SpokenAll(old(views), BlockKey(Text, key), parts)
      ensures old(AtRest()) ==>
                if NothingIn(parts) || (old(started) && BlockKey(Text, key) in old(views)) then Silent(old(signature)) else old(out) < out
    {
      hide Valid, BlockKey, Grown, Opened, Spoken, Over, NothingIn, AllClosed;
      GrownIsAnOrder();
      OneMorePart(views, views, BlockKey(Text, key), [], "");
      for i := 0 to |parts|
        invariant Valid()
        invariant old(out) <= out && Grown(old(blocks), blocks) && (old(started) ==> started)
        invariant finished == old(finished) && failed == old(failed)
        invariant old(AtRest()) ==>
                    if NothingIn(parts[..i]) || (old(started) && BlockKey(Text, key) in old(views)) then Silent(old(signature)) else old(out) < out
        invariant views == SpokenAll(old(views), BlockKey(Text, key), parts[..i])
      {
        assert parts[..i + 1][..i] == parts[..i];
        NothingInFront(parts[..i + 1]);
        OneMorePart(old(views), views, BlockKey(Text, key), parts[..i], parts[i]);
        if parts[i] != "" {
          EnsureStart(msgId, model);
          SayText(key, parts[i]);
        }
      }
      assert parts[..|parts|] == parts;
    }

    method SettleTool(key: string, callId: string, name: string, arguments: string)
      requires Valid() && started && key != ""
      modifies this
      ensures Valid()
      ensures old(out) <= out && Grown(old(blocks), blocks) && (old(started) ==> started)
      ensures finished == old(finished) && failed == old(failed)
      ensures var at := BlockKey(Tool, key); views == Settled(Opened(old(views), at), at, [arguments])
      ensures old(AtRest()) ==> if BlockKey(Tool, key) in old(views) then Silent(old(signature)) else old(out) < out
      ensures BlockKey(Tool, key) !in old(views) && callId != "" ==> CallStarted(old(out), out, callId, if name != "" then name else "tool")
    {
      hide CallStarted, Valid, BlockKey, Spoken, Opened, Grown, KindOf, Content, ThinkingEnd, StartOfBlock, AllClosed, Settled, Over;
      GrownIsAnOrder();
      var at := BlockKey(Tool, key);
      Saying(views, at, arguments);
      OverAtRest(views, at);
      var _ := EnsureToolBlock(key, callId, name);
      ghost var mid := out;
      CloseTool(key, callId, name, arguments);
      StartedStays(old(out), mid, out, callId, if name != "" then name else "tool");
    }

    /** The rest of a tool's closing event, once its block is there. */
    method CloseTool(key: string, callId: string, name: string, arguments: string)
      requires Valid() && started && thinking.None? && key != "" && BlockKey(Tool, key) in views
      modifies this
      ensures Valid()
      ensures old(out) <= out && Grown(old(blocks), blocks) && (old(started) ==> started)
      ensures finished == old(finished) && failed == old(failed)
      ensures views == Settled(old(views), BlockKey(Tool, key), [arguments])
      ensures Over(old(views), BlockKey(Tool, key)) ==> Silent(old(signature))
    {
      hide Valid, BlockKey, Spoken, Opened, Grown, KindOf, Content, SpokenAll;
      GrownIsAnOrder();
      var at := BlockKey(Tool, key);
      Facts();
      SpokenAllOne(views, at, arguments);
      Saying(views, at, arguments);
      OverStays(views, at, [arguments]);
      if !blocks[at].emitted && arguments != "" {
        SayArguments(key, callId, name, arguments);
        Facts();
      } else {
        SpokenNothing(views, at);
      }
      StoppingGrows(blocks, at);
      StopBlock(at);
    }

    /** One item of a final response. A message that nothing announced is passed
        over once any text is out. */
    method SayFinalItem(i: nat, item: Item)
      requires Valid() && started
      modifies this
      ensures Valid()
      ensures old(out) <= out && Grown(old(blocks), blocks) && (old(started) ==> started)
      ensures finished == old(finished) && failed == old(failed)
      ensures views == Play(old(views), FinalMove(i, item))
      ensures item.FunctionCall? && ToolKey(item.id, item.callId, FinalKey(i)) !in old(views) && (item.callId != "" || item.id != "") ==>
                CallStarted(old(out), out, if item.callId != "" then item.callId else item.id, if item.name != "" then item.name else "tool")
      ensures old(AtRest()) ==> if QuietFinal(old(Now()), i, item) then Silent(old(signature)) else old(out) < out
    {
      hide CallStarted, Valid, Grown, BlockKey, FinalKey, Settled, Opened, ItemKey, Content, KindOf, Play;
      GrownIsAnOrder();
      Facts();
      PlayNone(views);
      match item
      case Reasoning(id, summary, encrypted) =>
        SayReasoning(id, summary, encrypted, FinalReasoningKey(i));
      case Message(id, texts) =>
        var key := ItemKey([id, FinalKey(i)]);
        PlayOne(views, Final(BlockKey(Text, key), texts));
        if BlockKey(Text, key) !in blocks && AnyTextEmitted() {
          return;
        }
        SettleText(key, texts);
      case FunctionCall(id, callId, name, arguments) =>
        var call := CallOf(callId, id);
        var key := ItemKey([id, call, FinalKey(i)]);
        ItemKeyNamed([id, call, FinalKey(i)]);
        PlayTwo(views, Open(BlockKey(Tool, key)), Settle(BlockKey(Tool, key), [if arguments == "" then "{}" else arguments]));
        SettleTool(key, call, name, if arguments == "" then "{}" else arguments);
      case OtherItem =>
    }

    predicate AnyTextEmitted()
      requires Valid()
      reads this
      ensures AnyTextEmitted() == AnyText(views)
    {
      assert forall key :: key in blocks ==> Tracked(blocks[key], key, nextIndex, keyOf, views[key], thinking, out);
      exists key | key in blocks :: blocks[key].kind == Text && blocks[key].emitted
    }

    method SayFinalOutput(output: seq<Item>)
      requires Valid() && started
      modifies this
      ensures Valid()
      ensures old(out) <= out && Grown(old(blocks), blocks) && (old(started) ==> started)
      ensures finished == old(finished) && failed == old(failed)
      ensures views == Play(old(views), FinalMoves(output))
      ensures old(AtRest()) ==>
                if forall i | 0 <= i < |output| :: QuietFinal(old(Now()), i, output[i]) then Silent(old(signature)) else old(out) < out
    {
      hide Valid, Grown, FinalMove, Play, QuietFinal, AllClosed;
      GrownIsAnOrder();
      PlayNone(views);
      for i := 0 to |output|
        invariant Valid() && started
        invariant old(out) <= out && Grown(old(blocks), blocks)
        invariant finished == old(finished) && failed == old(failed)
        invariant old(AtRest()) ==>
                    if forall j | 0 <= j < i :: QuietFinal(old(Now()), j, output[j]) then Silent(old(signature)) else old(out) < out
        invariant views == Play(old(views), FinalMoves(output[..i]))
      {
        assert output[..i + 1][..i] == output[..i];
        PlayJoin(old(views), FinalMoves(output[..i]), FinalMove(i, output[i]));
        SayFinalItem(i, output[i]);
      }
      assert output[..|output|] == output;
    }

    /** A text delta for a block that is not over is the last thing written. */
    predicate WroteText(e: Event)
      reads this
    {
      e.OutputText? && TextKey(e.at) in blocks && out != []
      && out[|out| - 1] == DeltaOf(blocks[TextKey(e.at)].index, TextKey(e.at), e.delta)
    }

    method OnText(e: Event)
      requires Valid() && e.OutputText?
      modifies this
      ensures Valid() && Handled(e)
      ensures e.delta != "" && !Over(old(views), TextKey(e.at)) ==> old(out) < out && WroteText(e)
    {
      hide Valid, Grown, BlockKey, Spoken, Opened, EventKey, Play, DeltaOf, Heard, AllClosed;
      HeardNothing(Now(), e);
      OverAtRest(views, TextKey(e.at));
      PlayOne(views, Say(TextKey(e.at), e.delta));
      EnsureStart(msgId, model);
      SayText(EventKey(e.at), e.delta);
    }

    method OnPartAdded(e: Event)
      requires Valid() && e.PartAdded?
      modifies this
      ensures Valid() && Handled(e)
    {
      hide Valid, Grown, BlockKey, Opened, EventKey, Play, ThinkingEnd, StartOfBlock, Heard, AllClosed;
      GrownIsAnOrder();
      HeardNothing(Now(), e);
      OverAtRest(views, TextKey(e.at));
      PlayNone(views);
      if e.isText {
        PlayOne(views, Open(TextKey(e.at)));
        EnsureStart(msgId, model);
        var _ := EnsureTextBlock(EventKey(e.at));
      }
    }

    method OnPartDone(e: Event)
      requires Valid() && e.PartDone?
      modifies this
      ensures Valid() && Handled(e)
    {
      hide Valid, Grown, BlockKey, Settled, EventKey, Play, Heard, QuietText;
      GrownIsAnOrder();
      HeardNothing(Now(), e);
      PlayNone(views);
      if e.isText {
        PlayOne(views, Settle(TextKey(e.at), [e.text]));
        SettleText(EventKey(e.at), [e.text]);
      }
    }

    /** A reasoning event's own effect: a part opens the thinking block under its
        key, a delta is the last thing written, a finished part is noted. */
    predicate TellsReasoning(e: Event)
      reads this
    {
      match e
      case ReasoningPart(at) => enabled ==> thinking.Some? && reasoningKey == ReasoningKey(ReasoningEventKey(at))
      case ReasoningText(_, delta) =>
        enabled && !omitted && delta != "" ==>
          thinking.Some? && out != [] && out[|out| - 1] == StreamGrammar.ThinkingDelta(thinking.value, delta)
      case ReasoningPartDone => stopPending
      case _ => true
    }

    method OnReasoning(e: Event)
      requires Valid() && (e.ReasoningPart? || e.ReasoningText? || e.ReasoningPartDone?)
      modifies this
      ensures Valid() && Handled(e)
      ensures TellsReasoning(e)
    {
      hide Valid, Grown, ReasoningKey, ReasoningEventKey, Heard, Play;
      HeardNothing(Now(), e);
      GrownIsAnOrder();
      PlayNone(views);
      if e.ReasoningPartDone? {
        stopPending := true;
        return;
      }
      EnsureStart(msgId, model);
      if e.ReasoningPart? || thinking.None? {
        StartThinkingPart(ReasoningEventKey(e.at));
      }
      if e.ReasoningText? {
        SayThinking(e.delta);
      }
    }

    /** An event about a tool call that has no block yet starts one under its call id and name. */
    twostate predicate StartsCall(e: Event)
      reads this
    {
      CallIn(e).Some? && CallIn(e).value.0 != "" && CallKey(e) !in old(views) && (e.Arguments? ==> e.delta != "") ==>
        CallStarted(old(out), out, CallIn(e).value.0, if CallIn(e).value.1 != "" then CallIn(e).value.1 else "tool")
    }

    method OnArguments(e: Event)
      requires Valid() && e.Arguments?
      modifies this
      ensures Valid() && Handled(e) && StartsCall(e)
    {
      hide CallStarted, Valid, Grown, BlockKey, Spoken, Opened, ItemKey, CallOf, EventKey, Play, FirstNonEmpty, Heard, AllClosed;
      GrownIsAnOrder();
      HeardNothing(Now(), e);
      EnsureStart(msgId, model);
      ghost var mid := out;
      CallIs(e.callId, e.at.itemId);
      var call := CallOf(e.callId, e.at.itemId);
      var key := ItemKey([e.at.itemId, call, EventKey(e.at)]);
      ItemKeyNamed([e.at.itemId, call, EventKey(e.at)]);
      OverAtRest(views, BlockKey(Tool, key));
      PlayOne(views, Say(BlockKey(Tool, key), e.delta));
      SayArguments(key, call, e.name, e.delta);
      StartedSince(old(out), mid, out, call, if e.name != "" then e.name else "tool");
    }

    method OnArgumentsDone(e: Event)
      requires Valid() && e.ArgumentsDone?
      modifies this
      ensures Valid() && Handled(e) && StartsCall(e)
    {
      hide CallStarted, Valid, Grown, BlockKey, Settled, Opened, ItemKey, CallOf, EventKey, Play, FirstNonEmpty, Heard, AllClosed;
      GrownIsAnOrder();
      HeardNothing(Now(), e);
      EnsureStart(msgId, model);
      ghost var mid := out;
      CallIs(e.callId, e.at.itemId);
      var call := CallOf(e.callId, e.at.itemId);
      var key := ItemKey([e.at.itemId, call, EventKey(e.at)]);
      ItemKeyNamed([e.at.itemId, call, EventKey(e.at)]);
      PlayTwo(views, Open(BlockKey(Tool, key)), Settle(BlockKey(Tool, key), [e.arguments]));
      SettleTool(key, call, e.name, e.arguments);
      StartedSince(old(out), mid, out, call, if e.name != "" then e.name else "tool");
    }

    method OnItemAdded(at: Ref, item: Item)
      requires Valid()
      modifies this
      ensures Valid() && Handled(ItemAdded(at, item)) && StartsCall(ItemAdded(at, item))
    {
      hide CallStarted, Valid, Grown, ReasoningEventKey, ReasoningKey, EventKey, FirstNonEmpty, Play, ToolKey, AllClosed, ModelName, MessageId;
      GrownIsAnOrder();
      PlayNone(views);
      EnsureStart(msgId, model);
      ghost var mid := out;
      match item
      case Reasoning(id, _, encrypted) =>
        reasoningKey := ReasoningKey(FirstNonEmpty([id, ReasoningEventKey(at)]));
        CaptureSignature(reasoningKey, encrypted);
      case FunctionCall(id, callId, name, arguments) =>
        AddTool(id, callId, name, arguments, EventKey(at));
        StartedSince(old(out), mid, out, CallOf(callId, id), if name != "" then name else "tool");
      case _ =>
    }

    method AddTool(id: string, callId: string, name: string, arguments: string, fallback: string)
      requires Valid() && started
      modifies this
      ensures Valid()
      ensures old(out) <= out && Grown(old(blocks), blocks) && (old(started) ==> started)
      ensures finished == old(finished) && failed == old(failed)
      ensures var key := ToolKey(id, callId, fallback); views == Play(old(views), [Open(key), Say(key, arguments)])
      ensures old(AtRest()) ==> if ToolKey(id, callId, fallback) in old(views) then Silent(old(signature)) else old(out) < out
      ensures ToolKey(id, callId, fallback) !in old(views) && CallOf(callId, id) != "" ==>
                CallStarted(old(out), out, CallOf(callId, id), if name != "" then name else "tool")
    {
      hide CallStarted, Valid, Grown, BlockKey, Spoken, Opened, ItemKey, CallOf, EventKey, FirstNonEmpty, StartOfBlock, ThinkingEnd, Play;
      GrownIsAnOrder();
      var call := CallOf(callId, id);
      var key := ItemKey([id, call, fallback]);
      ItemKeyNamed([id, call, fallback]);
      PlayTwo(views, Open(BlockKey(Tool, key)), Say(BlockKey(Tool, key), arguments));
      Facts();
      Saying(views, BlockKey(Tool, key), arguments);
      var block := EnsureToolBlock(key, call, name);
      ghost var mid := out;
      if arguments != "" {
        SayArguments(key, call, name, arguments);
      } else {
        SpokenNothing(views, block);
      }
      StartedStays(old(out), mid, out, call, if name != "" then name else "tool");
    }

    method OnItemDone(at: Ref, item: Item)
      requires Valid()
      modifies this
      ensures Valid() && Handled(ItemDone(at, item)) && StartsCall(ItemDone(at, item))
    {
      hide CallStarted, Valid, Grown, BlockKey, Settled, Opened, ItemKey, CallOf, ReasoningEventKey, EventKey, FirstNonEmpty, Play;
      GrownIsAnOrder();
      PlayNone(views);
      match item
      case Reasoning(id, summary, encrypted) =>
        ReasoningDone(at, id, summary, encrypted);
      case FunctionCall(id, callId, name, arguments) =>
        EnsureStart(msgId, model);
        ghost var mid := out;
        var call := CallOf(callId, id);
        ItemKeyNamed([id, call, EventKey(at)]);
        var key := ItemKey([id, call, EventKey(at)]);
        PlayTwo(views, Open(BlockKey(Tool, key)), Settle(BlockKey(Tool, key), [arguments]));
        CallIs(callId, id);
        SettleTool(key, call, name, arguments);
        StartedSince(old(out), mid, out, call, if name != "" then name else "tool");
      case Message(id, texts) =>
        PlayOne(views, Settle(MessageKey(id, EventKey(at)), texts));
        SettleText(ItemKey([id, EventKey(at)]), texts);
      case OtherItem =>
    }

    method OnCompleted(id: string, incomplete: bool, output: seq<Item>)
      requires Valid()
      modifies this
      ensures Valid() && finished && Grown(old(blocks), blocks) && old(out) <= out
      ensures !old(finished) ==>
                && Complete(out) && views == ClosedAll(Play(old(views), FinalMoves(output)))
                && |out| >= 2
                && out[|out| - 2] == MessageDelta(if hasToolUse then "tool_use" else if incomplete then "max_tokens" else "end_turn")
      ensures old(finished) ==> views == Play(old(views), FinalMoves(output))
      ensures old(AtRest()) ==> if Quiet(old(Now()), Completed(id, incomplete, output)) then Silent(old(signature)) else old(out) < out
      ensures !old(finished) ==> AtRest() && (enabled ==> signature == "")
    {
      hide Heard, Valid, MessageId, ModelName, Grown, ClosedAll, Play, FinalMoves, Complete, QuietFinal, AllClosed;
      GrownIsAnOrder();
      var named := id != "" && msgId == "";
      EnsureStart(if named then id else msgId, if named then requestModel else model);
      SayFinalOutput(output);
      Finish(if hasToolUse then "tool_use" else if incomplete then "max_tokens" else "end_turn");
    }

    predicate Ends(e: Event)
      reads `started
    {
      e.Completed? || e.Failure? || (e.DoneMarker? && started)
    }

    /** A stream start, or an event that says nothing. */
    method OnPlain(e: Event)
      requires Valid() && (e.Created? || e.Malformed? || e.Ignored?)
      modifies this
      ensures Valid() && Handled(e)
    {
      hide Valid, Grown, Play, Quiet, Heard;
      GrownIsAnOrder();
      PlayNone(views);
      PlainQuiet(Now(), e);
      HeardNothing(Now(), e);
      if e.Created? {
        EnsureStart(e.id, if requestModel != "" then requestModel else e.model);
      }
    }

    predicate Closing(e: Event) {
      e.Completed? || e.Failure? || e.DoneMarker?
    }

    /** The events that cannot end the stream. */
    method OnContent(e: Event)
      requires Valid() && !Closing(e)
      modifies this
      ensures Valid() && Handled(e) && TellsReasoning(e) && StartsCall(e)
      ensures e.OutputText? && e.delta != "" && !Over(old(views), TextKey(e.at)) ==> old(out) < out && WroteText(e)
    {
      hide CallKey, CallStarted, Valid, Handled, Over, TextKey, WroteText;
      match e
      case OutputText(_, _) => OnText(e);
      case PartAdded(_, _) => OnPartAdded(e);
      case PartDone(_, _, _) => OnPartDone(e);
      case Arguments(_, _, _, _) => OnArguments(e);
      case ArgumentsDone(_, _, _, _) => OnArgumentsDone(e);
      case ItemAdded(at, item) => OnItemAdded(at, item);
      case ItemDone(at, item) => OnItemDone(at, item);
      case ReasoningPart(_) => OnReasoning(e);
      case ReasoningText(_, _) => OnReasoning(e);
      case ReasoningPartDone => OnReasoning(e);
      case Created(_, _) => OnPlain(e);
      case Malformed => OnPlain(e);
      case Ignored => OnPlain(e);
    }

    /** The events that end the stream, if they find it running. */
    method OnClosing(e: Event)
      requires Valid() && Closing(e)
      modifies this
      ensures Valid() && old(out) <= out && Grown(old(blocks), blocks) && TellsReasoning(e)
      ensures finished == (old(finished) || old(Ends(e)))
      ensures !old(finished) && finished ==> Complete(out) && views == ClosedAll(Play(old(views), Moves(e)))
      ensures old(finished) == finished ==> views == Play(old(views), Moves(e))
      ensures !old(finished) && e.Failure? ==> out[|out| - 1] == ErrorEvent
      ensures !old(finished) && finished ==> AtRest() && (enabled ==> signature == "")
      ensures old(AtRest()) ==> if Quiet(old(Now()), e) then Silent(Heard(old(Now()), e).signature) else old(out) < out
    {
      hide Valid, Grown, ClosedAll, Play, Complete, Quiet, Heard, AllClosed, FinalMoves;
      GrownIsAnOrder();
      PlayNone(views);
      PlainQuiet(Now(), e);
      HeardNothing(Now(), e);
      match e
      case Completed(id, incomplete, output) =>
        OnCompleted(id, incomplete, output);
      case Failure =>
        Fail();
      case DoneMarker =>
        if started && !finished {
          Finish("");
        }
    }

    /** Handles one upstream event. Before the stream has ended the event either
        keeps the output a proper beginning or completes it; either way the keyed
        content moves exactly as the event says. */
    method ProcessData(e: Event) returns (ok: bool)
      requires Valid()
      modifies this
      ensures Valid() && ok == !e.Malformed?
      ensures old(out) <= out && Grown(old(blocks), blocks)
      ensures finished == (old(finished) || old(Ends(e)))
      ensures !old(finished) && finished ==> Complete(out) && views == ClosedAll(Play(old(views), Moves(e)))
      ensures old(finished) == finished ==> views == Play(old(views), Moves(e))
      ensures !old(finished) && e.Failure? ==> out[|out| - 1] == ErrorEvent
      ensures TellsReasoning(e) && StartsCall(e)
      ensures e.OutputText? && e.delta != "" && !Over(old(views), TextKey(e.at)) ==> old(out) < out && WroteText(e)
      ensures old(AtRest()) ==> if Quiet(old(Now()), e) then Silent(Heard(old(Now()), e).signature) else old(out) < out
      ensures !old(finished) && finished ==> AtRest() && (enabled ==> signature == "")
    {
      hide CallStarted, CallKey, Valid, Grown, ClosedAll, Play, Moves, Complete, Quiet, Heard, Over, TextKey, WroteText,
        TellsReasoning, AtRest, Silent;
      ok := !e.Malformed?;
      if Closing(e) {
        OnClosing(e);
      } else {
        OnContent(e);
      }
    }
  }

  datatype PipeResult = Clean | BadEvent | CutShort

  predicate EndsStream(e: Event) {
    e.Completed? || e.Failure?
  }

  /** Feeds events to a fresh translator, as the SSE pipe does, until one is
      malformed. `sealed` is the output at the event that ended the stream and
      `ended` how many events that took. */
  method Pipe(t: StreamTranslator,
      es: seq<Event>) returns (result: PipeResult, read: nat, ghost sealed: seq<Out>, ghost ended: nat, ghost rest: Rest)
    requires t.Valid() && !t.started && !t.finished && t.views == map[] && t.out == []
    modifies t
    ensures t.Valid() && sealed <= t.out && ended <= read <= |es|
    ensures result == BadEvent <==> exists k :: 0 <= k < |es| && es[k].Malformed?
    ensures result == BadEvent ==> read < |es| && es[read].Malformed?
    ensures result != BadEvent ==> read == |es| && (result == Clean <==> t.finished)
    ensures t.finished ==> Complete(sealed) && 0 < ended && (EndsStream(es[ended - 1]) || es[ended - 1].DoneMarker?)
    ensures forall k :: 0 <= k < read && EndsStream(es[k]) ==> t.finished && ended <= k + 1
    ensures !t.finished ==> ended == read && sealed == t.out && Scan(sealed).Ok? && Scan(sealed).phase == Running
    ensures AsTold(Play(map[], AllMoves(es[..ended])), t.blocks, sealed)
    ensures OnlyTold(Play(map[], AllMoves(es[..ended])), t.blocks, sealed)
    // Afterwards exactly the events that are not quiet write, and then the output is no stream.
    ensures t.finished ==> rest.views == ClosedAll(Play(map[], AllMoves(es[..ended]))) && (t.enabled ==> rest.signature == "")
    ensures t.finished ==> (t.out == sealed <==> AllQuiet(rest, es[ended..read])) && (Complete(t.out) <==> AllQuiet(rest, es[ended..read]))
  {
    hide Complete, Play, ClosedAll, Scan, Content, Grown, Moves, AllMoves, AsTold, OnlyTold, Placed, Apart, Quiet, Heard, AllClosed,
      AllQuiet, HeardAll, Over, TextKey, StreamTranslator.Valid, StreamTranslator.WroteText, StreamTranslator.TellsReasoning;
    GrownIsAnOrder();
    NothingTold(t.blocks);
    sealed, ended, read, rest := t.out, 0, 0, t.Now();
    ghost var index := t.blocks;
    t.Facts();
    assert es[..0] == [];
    while read < |es|
      invariant 0 <= read <= |es| && t.Valid() && sealed <= t.out && ended <= read
      invariant forall k :: 0 <= k < read ==> !es[k].Malformed?
      invariant t.finished ==> Complete(sealed) && 0 < ended && (EndsStream(es[ended - 1]) || es[ended - 1].DoneMarker?)
      invariant forall k :: 0 <= k < read && EndsStream(es[k]) ==> t.finished && ended <= k + 1
      invariant !t.finished ==> ended == read && sealed == t.out && t.views == Play(map[], AllMoves(es[..ended]))
      invariant Grown(index, t.blocks)
      invariant AsTold(Play(map[], AllMoves(es[..ended])), index, sealed) && OnlyTold(Play(map[], AllMoves(es[..ended])), index, sealed)
      invariant t.finished ==> rest.views == ClosedAll(Play(map[], AllMoves(es[..ended]))) && (t.enabled ==> rest.signature == "")
      invariant t.finished ==> (t.out == sealed <==> AllQuiet(rest, es[ended..read]))
      invariant t.finished && t.out == sealed ==> t.AtRest() && t.Now() == HeardAll(rest, es[ended..read])
    {
      if es[read].Malformed? {
        break;
      }
      ghost var wasRunning, before := !t.finished, t.out;
      var _ := t.ProcessData(es[read]);
      if wasRunning {
        sealed, ended, index, rest := t.out, read + 1, t.blocks, t.Now();
        t.Facts();
        t.Places();
        OneMoreTold(es, read, t.views, t.blocks, t.out);
        QuietFirst(rest);
        assert es[ended..read + 1] == [];
      } else {
        OneMoreLate(rest, es, ended, read);
      }
      read := read + 1;
    }
    result := if read < |es| then BadEvent else if t.finished then Clean else CutShort;
    t.Facts();
    GrownKeepsIndex(Play(map[], AllMoves(es[..ended])), index, t.blocks, sealed);
    if t.finished && sealed < t.out {
      FinishedIsMaximal(sealed, t.out);
      BrokenIsIncomplete(t.out);
    }
  }

  lemma NothingTold(blocks: Blocks)
    ensures Play(map[], AllMoves([])) == map[] && AsTold(map[], blocks, []) && OnlyTold(map[], blocks, [])
  {
    PlayNone(map[]);
    var told: Views := map[];
    assert (set key | key in told && IsTextKey(key) :: if key in blocks then blocks[key].index else 0) == {};
    assert (set key | key in told && !IsTextKey(key) :: if key in blocks then blocks[key].index else 0) == {};
  }

  lemma OneMoreTold(es: seq<Event>, read: nat, views: Views, blocks: Blocks, out: seq<Out>)
    requires read < |es| && blocks.Keys == views.Keys && Placed(blocks, out) && Apart(blocks)
    requires forall key :: key in blocks ==> Content(out, blocks[key].index) == views[key].text
    ensures var told := Play(map[], AllMoves(es[..read + 1]));
            && told == Play(Play(map[], AllMoves(es[..read])), Moves(es[read]))
            && (views == told || views == ClosedAll(told) ==> AsTold(told, blocks, out) && OnlyTold(told, blocks, out))
  {
    hide Play, Moves, ClosedAll, Content, AsTold, OnlyTold, Placed, Apart;
    assert es[..read + 1][..read] == es[..read];
    PlayJoin(map[], AllMoves(es[..read]), Moves(es[read]));
    var told := Play(map[], AllMoves(es[..read + 1]));
    ClosingKeepsText(told);
    if views == told || views == ClosedAll(told) {
      WireTells(told, views, blocks, out);
      PlacedIsOnlyTold(told, blocks, out);
    }
  }

  lemma OneMoreLate(r: Rest, es: seq<Event>, ended: nat, read: nat)
    requires ended <= read < |es|
    ensures var heard := HeardAll(r, es[ended..read]);
            && (AllQuiet(r, es[ended..read + 1]) <==> AllQuiet(r, es[ended..read]) && Quiet(heard, es[read]))
            && HeardAll(r, es[ended..read + 1]) == heard.(signature := Heard(heard, es[read]).signature)
  {
    hide Quiet, Heard, AllQuiet, HeardAll;
    assert es[ended..read + 1] == es[ended..read] + [es[read]];
    OneMoreQuiet(r, es[ended..read], es[read]);
    HeardLeavesSignature(HeardAll(r, es[ended..read]), es[read]);
  }

  lemma QuietFirst(r: Rest)
    ensures AllQuiet(r, []) && HeardAll(r, []) == r
  {
  }

  lemma BrokenIsIncomplete(out: seq<Out>)
    requires Scan(out).Broken?
    ensures !Complete(out)
  {
  }

  lemma WireTells(told: Views, views: Views, blocks: Blocks, out: seq<Out>)
    requires views == told || views == ClosedAll(told)
    requires blocks.Keys == views.Keys && forall key :: key in blocks ==> Content(out, blocks[key].index) == views[key].text
    ensures AsTold(told, blocks, out)
  {
    hide Content;
  }

  /** The translator does not guard itself: after the event that ended the stream a
      text delta is still written, and the output is no longer a stream. */
  method WriteAfterTheEnd() returns (t: StreamTranslator, ghost sealed: seq<Out>)
    ensures t.Valid() && t.finished
    ensures Complete(sealed) && sealed < t.out && Scan(t.out).Broken?
  {
    hide StreamTranslator.Valid, Complete, Scan, TextKey, DeltaOf, Grown;
    t := new StreamTranslator(false, false, "model", "msg");
    PlayNone(map[]);
    ClosingKeepsText(map[]);
    var _ := t.ProcessData(Completed("resp", false, []));
    sealed := t.out;
    var _ := t.ProcessData(OutputText(Ref("item", "", ""), "late"));
    FinishedIsMaximal(sealed, t.out);
  }

  /** What a client holds: for every key told, a block whose content is the text. */
  ghost predicate AsTold(told: Views, blocks: Blocks, out: seq<Out>) {
    forall key :: key in told ==> key in blocks && Content(out, blocks[key].index) == told[key].text
  }

  /** And no other block: those on the wire are the ones of the keys told, one each. */
  ghost predicate OnlyTold(told: Views, blocks: Blocks, out: seq<Out>) {
    && told.Keys <= blocks.Keys
    && Begun(out, Text) == (set key | key in told && IsTextKey(key) :: if key in blocks then blocks[key].index else 0)
    && Begun(out, Tool) == (set key | key in told && !IsTextKey(key) :: if key in blocks then blocks[key].index else 0)
    && forall a, b :: a in told && b in told && a != b ==> a in blocks && b in blocks && blocks[a].index != blocks[b].index
  }

  lemma PlacedIsOnlyTold(told: Views, blocks: Blocks, out: seq<Out>)
    requires Placed(blocks, out) && Apart(blocks) && told.Keys == blocks.Keys
    ensures OnlyTold(told, blocks, out)
  {
    assert Spots(blocks, true) == set key | key in told && IsTextKey(key) :: if key in blocks then blocks[key].index else 0;
    assert Spots(blocks, false) == set key | key in told && !IsTextKey(key) :: if key in blocks then blocks[key].index else 0;
  }

  /** Exactly once, on the wire: the client's block for an item holds the item's
      full content once, when a closing event came, and else what the deltas told. */
  lemma ToldExactlyOnce(es: seq<Event>, blocks: Blocks, out: seq<Out>, key: string, full: string)
    requires AsTold(Play(map[], AllMoves(es)), blocks, out)
    requires Faithful(AllMoves(es), key, full)
    ensures var due := if ClosedBy(AllMoves(es), key) then full else Told(AllMoves(es), key);
            due != "" ==> key in blocks && Content(out, blocks[key].index) == due
  {
    hide Content, Faithful, Moves;
    ContentExactlyOnce(AllMoves(es), key, full);
  }

  lemma ClosingKeepsText(v: Views)
    ensures ClosedAll(v).Keys == v.Keys && forall key :: key in v ==> ClosedAll(v)[key].text == v[key].text
  {
  }

  lemma GrownKeepsIndex(told: Views, before: Blocks, after: Blocks, out: seq<Out>)
    requires Grown(before, after) && AsTold(told, before, out) && OnlyTold(told, before, out)
    ensures AsTold(told, after, out) && OnlyTold(told, after, out)
  {
    assert forall key :: key in told ==> key in before && key in after && after[key].index == before[key].index;
  }

  lemma ItemKeyNamed(values: seq<string>)
    ensures ItemKey(values) != ""
    ensures forall other :: FirstNonEmpty([ItemKey(values), other]) == ItemKey(values)
  {
  }

  lemma PlayNone(v: Views)
    ensures Play(v, []) == v
  {
  }

  lemma PlayOne(v: Views, a: Move)
    ensures Play(v, [a]) == Moved(v, a)
  {
  }

  lemma PlayTwo(v: Views, a: Move, b: Move)
    ensures Play(v, [a, b]) == Moved(Moved(v, a), b)
  {
    assert [a, b][..1] == [a];
    PlayOne(v, a);
  }

  /** The message goes by the response's id under the client's prefix, and by the model
      the response names, or else the one asked for. */
  lemma NamesOnTheWire(id: string, wanted: string, requested: string, current: string)
    ensures MessageId("resp_" + id) == "msg_" + id
    ensures !("resp_" <= id) ==> MessageId(id) == id
    ensures wanted != "" ==> ModelName(wanted, requested, current) == wanted
    ensures wanted == "" && requested != "" ==> ModelName(wanted, requested, current) == requested
    ensures wanted == "" && requested == "" ==> ModelName(wanted, requested, current) == current
  {
    assert ("resp_" + id)[5..] == id;
  }

  function ModelName(wanted: string, requested: string, current: string): string {
    if wanted != "" then wanted else if requested != "" then requested else current
  }

  function MessageId(id: string): string {
    if "resp_" <= id then "msg_" + id[5..] else id
  }
}
