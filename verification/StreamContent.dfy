/**
  The upstream events a stream is translated from, the keys that tie them to
  blocks, and the text and tool arguments those events stand for: every event
  amounts to a few moves over keyed views, whatever mix of deltas, part-done,
  item-done and final events carries the content.
  (internal/anthropic/stream.go)
 */
module StreamContent {
  import opened Common
  import opened StreamGrammar

  // ---------------------------------------------------------------------------
  // Decoded upstream events

  /** Where an event says it belongs: item, output index, content index; "" when missing. */
  datatype Ref = Ref(itemId: string, outputIndex: string, contentIndex: string)

  datatype Item =
    | Reasoning(id: string, summary: string, encrypted: string)
    | FunctionCall(id: string, callId: string, name: string, arguments: string)
    | Message(id: string, texts: seq<string>)
    | OtherItem

  datatype Event =
    | Created(id: string, model: string)
    | OutputText(at: Ref, delta: string)
    | ReasoningPart(at: Ref)
    | ReasoningText(at: Ref, delta: string)
    | ReasoningPartDone
    | PartAdded(at: Ref, isText: bool)
    | PartDone(at: Ref, isText: bool, text: string)
    | ItemAdded(at: Ref, item: Item)
    | Arguments(at: Ref, callId: string, name: string, delta: string)
    | ArgumentsDone(at: Ref, callId: string, name: string, arguments: string)
    | ItemDone(at: Ref, item: Item)
    | Completed(id: string, incomplete: bool, output: seq<Item>)
    | Failure
    | DoneMarker
    | Malformed
    | Ignored

  // ---------------------------------------------------------------------------
  // Keys

  function FirstNonEmpty(values: seq<string>): string {
    if values == [] then "" else if values[0] != "" then values[0] else FirstNonEmpty(values[1..])
  }

  function ItemKey(values: seq<string>): string {
    if FirstNonEmpty(values) == "" then "default" else FirstNonEmpty(values)
  }

  function EventKey(at: Ref): string {
    ItemKey([at.itemId, at.outputIndex, at.contentIndex])
  }

  function Prefix(kind: Kind): string {
    match kind
    case Text => "text:"
    case Tool => "tool:"
    case Thinking => "thinking:"
  }

  /** A block's key in the translator's table; a key that already has the prefix keeps it. */
  function BlockKey(kind: Kind, key: string): string {
    var named := if key == "" then "default" else key;
    if Prefix(kind) <= named then named else Prefix(kind) + named
  }

  predicate IsTextKey(key: string) {
    Prefix(Text) <= key
  }

  /** A key keeps its prefix and gets no second one. */
  lemma KeyedOnce(kind: Kind, key: string)
    ensures Prefix(kind) <= BlockKey(kind, key)
    ensures BlockKey(kind, BlockKey(kind, key)) == BlockKey(kind, key)
  {
  }

  /** Text and tool blocks never share a key. */
  lemma KeysAreApart(a: string, b: string)
    ensures IsTextKey(BlockKey(Text, a)) && !IsTextKey(BlockKey(Tool, b))
  {
    assert BlockKey(Tool, b)[1] == 'o';
    assert Prefix(Text)[1] == 'e';
  }

  function TextKey(at: Ref): string {
    BlockKey(Text, EventKey(at))
  }

  function MessageKey(id: string, fallback: string): string {
    BlockKey(Text, ItemKey([id, fallback]))
  }

  function CallOf(callId: string, id: string): string {
    if callId != "" then callId else id
  }

  function ToolKey(id: string, callId: string, fallback: string): string {
    BlockKey(Tool, ItemKey([id, CallOf(callId, id), fallback]))
  }

  function FinalKey(i: nat): string {
    "final-" + Decimal(i)
  }

  function FinalReasoningKey(i: nat): string {
    "final-reasoning-" + Decimal(i)
  }

  function ReasoningKey(key: string): (named: string)
    ensures "reasoning:" <= named && ("reasoning:" <= key ==> named == key)
  {
    if key == "" then "reasoning:default" else if "reasoning:" <= key then key else "reasoning:" + key
  }

  function ReasoningEventKey(at: Ref): string {
    ReasoningKey(FirstNonEmpty([at.itemId, at.outputIndex]))
  }

  /** However an event refers to a reasoning item, streamed, finished or final, its id
      makes the key, and different items have different keys. */
  lemma ReasoningKeysAgree(id: string, at: Ref, fallback: string, other: string)
    requires id != "" && !("reasoning:" <= id) && at.itemId == id
    ensures ReasoningEventKey(at) == "reasoning:" + id && ReasoningKey(FirstNonEmpty([id, fallback])) == "reasoning:" + id
    ensures ReasoningKey(FirstNonEmpty(["", ReasoningEventKey(at)])) == "reasoning:" + id
    ensures other != id && other != "" && !("reasoning:" <= other) ==> ReasoningKey(other) != "reasoning:" + id
  {
    assert ["", ReasoningEventKey(at)][1..] == [ReasoningEventKey(at)];
    assert FirstNonEmpty([ReasoningEventKey(at)]) == ReasoningEventKey(at);
    if ReasoningKey(other) == "reasoning:" + id && other != "" && !("reasoning:" <= other) {
      assert ("reasoning:" + other)[10..] == other && ("reasoning:" + id)[10..] == id;
    }
  }

  /** Items of a final response that name nothing still have a key each. */
  lemma UnnamedItemsApart(i: nat, j: nat)
    requires i != j
    ensures MessageKey("", FinalKey(i)) != MessageKey("", FinalKey(j))
    ensures ToolKey("", "", FinalKey(i)) != ToolKey("", "", FinalKey(j))
    ensures ReasoningKey(FirstNonEmpty(["", FinalReasoningKey(i)])) != ReasoningKey(FirstNonEmpty(["", FinalReasoningKey(j)]))
  {
    UnnamedKeys(i);
    UnnamedKeys(j);
    if Decimal(i) == Decimal(j) {
      DecimalTells(i, j);
    }
    assert Last(MessageKey("", FinalKey(i)), 11) == Decimal(i) && Last(MessageKey("", FinalKey(j)), 11) == Decimal(j);
    assert Last(ToolKey("", "", FinalKey(i)), 11) == Decimal(i) && Last(ToolKey("", "", FinalKey(j)), 11) == Decimal(j);
    var a, b := ReasoningKey(FirstNonEmpty(["", FinalReasoningKey(i)])), ReasoningKey(FirstNonEmpty(["", FinalReasoningKey(j)]));
    assert Last(a, 26) == Decimal(i) && Last(b, 26) == Decimal(j);
  }

  function Last(s: string, from: nat): string {
    if from <= |s| then s[from..] else ""
  }

  lemma UnnamedKeys(i: nat)
    ensures MessageKey("", FinalKey(i)) == "text:final-" + Decimal(i)
    ensures ToolKey("", "", FinalKey(i)) == "tool:final-" + Decimal(i)
    ensures ReasoningKey(FirstNonEmpty(["", FinalReasoningKey(i)])) == "reasoning:final-reasoning-" + Decimal(i)
  {
    var key, reasoning := FinalKey(i), FinalReasoningKey(i);
    assert key[0] == 'f' && reasoning[0] == 'f';
    assert ["", key][1..] == [key] && ["", "", key][1..] == ["", key] && ["", reasoning][1..] == [reasoning];
    assert FirstNonEmpty([key]) == key && FirstNonEmpty(["", key]) == key && FirstNonEmpty([reasoning]) == reasoning;
    assert "text:" + key == "text:final-" + Decimal(i) && "tool:" + key == "tool:final-" + Decimal(i);
    assert "reasoning:" + reasoning == "reasoning:final-reasoning-" + Decimal(i);
  }

  // ---------------------------------------------------------------------------
  // Views and moves

  /** What a client has been told of one block: its text so far, and whether it is over. */
  datatype View = View(text: string, closed: bool)

  type Views = map<string, View>

  datatype Move =
    | Open(key: string)
    | Say(key: string, text: string)
    | Settle(key: string, parts: seq<string>)
    | Final(key: string, parts: seq<string>)

  function Said(v: Views, key: string): string {
    if key in v then v[key].text else ""
  }

  predicate AnyText(v: Views) {
    exists key | key in v :: IsTextKey(key) && v[key].text != ""
  }

  function Opened(v: Views, key: string): Views {
    if key in v then v else v[key := View("", false)]
  }

  function Spoken(v: Views, key: string, text: string): Views {
    var w := Opened(v, key);
    if text == "" then v
    else if w[key].closed then w
    else w[key := View(w[key].text + text, false)]
  }

  function SpokenAll(v: Views, key: string, parts: seq<string>): Views {
    if parts == [] then v else Spoken(SpokenAll(v, key, parts[..|parts| - 1]), key, parts[|parts| - 1])
  }

  function Stopped(v: Views, key: string): Views {
    if key in v then v[key := v[key].(closed := true)] else v
  }

  /** A closing event: says the content only where none was said before, then stops the block. */
  function Settled(v: Views, key: string, parts: seq<string>): Views {
    Stopped(if Said(v, key) != "" then v else SpokenAll(v, key, parts), key)
  }

  function Moved(v: Views, m: Move): Views {
    match m
    case Open(key) => Opened(v, key)
    case Say(key, text) => Spoken(v, key, text)
    case Settle(key, parts) => Settled(v, key, parts)
    case Final(key, parts) => if key !in v && AnyText(v) then v else Settled(v, key, parts)
  }

  function Play(v: Views, ms: seq<Move>): Views {
    if ms == [] then v else Moved(Play(v, ms[..|ms| - 1]), ms[|ms| - 1])
  }

  function ClosedAll(v: Views): Views {
    map key | key in v :: v[key].(closed := true)
  }

  function FinalMove(i: nat, item: Item): seq<Move> {
    match item
    case Message(id, texts) => [Final(MessageKey(id, FinalKey(i)), texts)]
    case FunctionCall(id, callId, _, arguments) =>
      var key := ToolKey(id, callId, FinalKey(i));
      [Open(key), Settle(key, [if arguments == "" then "{}" else arguments])]
    case _ => []
  }

  function FinalMoves(output: seq<Item>): seq<Move> {
    if output == [] then []
    else FinalMoves(output[..|output| - 1]) + FinalMove(|output| - 1, output[|output| - 1])
  }

  /** The moves one event stands for. */
  function Moves(e: Event): seq<Move> {
    match e
    case OutputText(at, delta) => [Say(TextKey(at), delta)]
    case PartAdded(at, isText) => if isText then [Open(TextKey(at))] else []
    case PartDone(at, isText, text) => if isText then [Settle(TextKey(at), [text])] else []
    case ItemAdded(at, item) =>
      if item.FunctionCall? then
        var key := ToolKey(item.id, item.callId, EventKey(at));
        [Open(key), Say(key, item.arguments)]
      else []
    case Arguments(at, callId, _, delta) => [Say(ToolKey(at.itemId, callId, EventKey(at)), delta)]
    case ArgumentsDone(at, callId, _, arguments) =>
      var key := ToolKey(at.itemId, callId, EventKey(at));
      [Open(key), Settle(key, [arguments])]
    case ItemDone(at, item) =>
      (match item
       case FunctionCall(id, callId, _, arguments) =>
         var key := ToolKey(id, callId, EventKey(at));
         [Open(key), Settle(key, [arguments])]
       case Message(id, texts) => [Settle(MessageKey(id, EventKey(at)), texts)]
       case _ => [])
    case Completed(_, _, output) => FinalMoves(output)
    case _ => []
  }

  function AllMoves(es: seq<Event>): seq<Move> {
    if es == [] then [] else AllMoves(es[..|es| - 1]) + Moves(es[|es| - 1])
  }

  lemma {:induction false} PlayJoin(v: Views, before: seq<Move>, after: seq<Move>)
    ensures Play(v, before + after) == Play(Play(v, before), after)
    decreases |after|
  {
    if after == [] {
      assert before + after == before;
    } else {
      PlayJoin(v, before, after[..|after| - 1]);
      assert (before + after)[..|before + after| - 1] == before + after[..|after| - 1];
    }
  }

  // ---------------------------------------------------------------------------
  // Exactly once

  function Join(parts: seq<string>): string {
    if parts == [] then "" else Join(parts[..|parts| - 1]) + parts[|parts| - 1]
  }

  /** The deltas an event sequence carries for a key, put together. */
  function Told(ms: seq<Move>, key: string): string {
    if ms == [] then ""
    else
      var m := ms[|ms| - 1];
      Told(ms[..|ms| - 1], key) + if m.Say? && m.key == key then m.text else ""
  }

  predicate Closes(m: Move, key: string) {
    (m.Settle? || m.Final?) && m.key == key
  }

  /** An event of the item's own opened its block: an announcement, a delta or
      a closing event that carried something. */
  predicate Announces(m: Move, key: string) {
    m.key == key
    && match m
       case Open(_) => true
       case Say(_, text) => text != ""
       case Settle(_, parts) => Join(parts) != ""
       case Final(_, _) => false
  }

  predicate Announced(ms: seq<Move>, key: string) {
    exists m | m in ms :: Announces(m, key)
  }

  predicate ClosedBy(ms: seq<Move>, key: string) {
    exists m | m in ms :: Closes(m, key)
  }

  /** The provider's side of the bargain for one item whose full content is
      `full`: by the time a closing event comes the deltas have told all of it
      or none, every closing event repeats all of it, and a final message is
      either announced earlier or the only text there is. */
  ghost predicate Faithful(ms: seq<Move>, key: string, full: string) {
    TellsAllOrNothing(ms, key, full) && forall j :: 0 <= j < |ms| ==> ClosesWell(ms, j, key, full)
  }

  predicate ClosesWell(ms: seq<Move>, j: nat, key: string, full: string)
    requires j < |ms|
  {
    Closes(ms[j], key) ==>
      Join(ms[j].parts) == full && TellsAllOrNothing(ms[..j], key, full) && (ms[j].Final? ==> Expected(ms[..j], key))
  }

  predicate TellsAllOrNothing(ms: seq<Move>, key: string, full: string) {
    Told(ms, key) == "" || Told(ms, key) == full
  }

  /** Whether a final message with this key will be looked at. */
  predicate Expected(ms: seq<Move>, key: string) {
    Announced(ms, key) || !AnyText(Play(map[], ms))
  }

  lemma SpokenSays(v: Views, key: string, text: string)
    requires key in v ==> !v[key].closed
    ensures var w := Spoken(v, key, text);
            && Said(w, key) == Said(v, key) + text
            && (key in w <==> key in v || text != "")
            && (key in w ==> !w[key].closed)
  {
  }

  lemma {:induction false} SpokenAllSays(v: Views, key: string, parts: seq<string>)
    requires key in v ==> !v[key].closed
    ensures var w := SpokenAll(v, key, parts);
            && Said(w, key) == Said(v, key) + Join(parts)
            && (key in w <==> key in v || Join(parts) != "")
            && (key in w ==> !w[key].closed)
  {
    hide Spoken, Said;
    if parts == [] {
      assert Said(v, key) + "" == Said(v, key);
    } else {
      var front, last := parts[..|parts| - 1], parts[|parts| - 1];
      SpokenAllSays(v, key, front);
      var w := SpokenAll(v, key, front);
      SpokenSays(w, key, last);
      assert Said(v, key) + Join(front) + last == Said(v, key) + (Join(front) + last);
    }
  }

  lemma MoveElsewhere(v: Views, m: Move, key: string)
    requires m.key != key
    ensures key in Moved(v, m) <==> key in v
    ensures key in v ==> Moved(v, m)[key] == v[key]
  {
    if m.Settle? || m.Final? {
      SpokenAllElsewhere(v, m.key, m.parts, key);
    }
  }

  lemma {:induction false} SpokenAllElsewhere(v: Views, at: string, parts: seq<string>, key: string)
    requires at != key
    ensures var w := SpokenAll(v, at, parts); (key in w <==> key in v) && (key in v ==> w[key] == v[key])
  {
    if parts != [] {
      SpokenAllElsewhere(v, at, parts[..|parts| - 1], key);
    }
  }

  /** Where an item stands after any moves made in good faith: nothing closed it
      and its text is what the deltas told; or a closing event came, and its text
      is the full content and can no longer grow. */
  ghost predicate Standing(v: Views, ms: seq<Move>, key: string, full: string) {
    && (Announced(ms, key) ==> key in v)
    && if ClosedBy(ms, key) then
         Said(v, key) == full && (full != "" ==> key in v && v[key].closed)
       else
         Said(v, key) == Told(ms, key) && (key in v ==> !v[key].closed)
  }

  lemma StandingAfter(v: Views, ms: seq<Move>, m: Move, key: string, full: string)
    requires Standing(v, ms, key, full)
    requires full == "" ==> Told(ms + [m], key) == ""
    requires Closes(m, key) ==>
               Join(m.parts) == full && TellsAllOrNothing(ms, key, full) && (m.Final? ==> key in v || !AnyText(v))
    ensures Standing(Moved(v, m), ms + [m], key, full)
  {
    var w := Moved(v, m);
    assert (ms + [m])[..|ms|] == ms;
    LastMove(ms, m, key);
    if m.key != key {
      MoveElsewhere(v, m, key);
    } else if Closes(m, key) {
      assert w == Settled(v, key, m.parts);
      if Said(v, key) == "" && !(key in v && v[key].closed) {
        SpokenAllSays(v, key, m.parts);
      } else if Said(v, key) == "" {
        SpokenAllNothing(v, key, m.parts);
      }
    }
  }

  lemma LastMove(ms: seq<Move>, m: Move, key: string)
    ensures Announced(ms + [m], key) <==> Announced(ms, key) || Announces(m, key)
    ensures ClosedBy(ms + [m], key) <==> ClosedBy(ms, key) || Closes(m, key)
  {
  }

  lemma {:induction false} SpokenAllNothing(v: Views, key: string, parts: seq<string>)
    requires Join(parts) == ""
    ensures SpokenAll(v, key, parts) == v
  {
    if parts != [] {
      SpokenAllNothing(v, key, parts[..|parts| - 1]);
    }
  }

  lemma StandingAfterLast(ms: seq<Move>, key: string, full: string)
    requires ms != []
    requires full == "" ==> Told(ms, key) == ""
    requires ClosesWell(ms, |ms| - 1, key, full)
    requires Standing(Play(map[], ms[..|ms| - 1]), ms[..|ms| - 1], key, full)
    ensures Standing(Play(map[], ms), ms, key, full)
  {
    hide Moved, TellsAllOrNothing, Told, AnyText;
    var front, last := ms[..|ms| - 1], ms[|ms| - 1];
    assert ms == front + [last];
    StandingAfter(Play(map[], front), front, last, key, full);
  }

  lemma {:induction false} MovesStand(ms: seq<Move>, key: string, full: string)
    requires full == "" ==> Told(ms, key) == ""
    requires forall j :: 0 <= j < |ms| ==> ClosesWell(ms, j, key, full)
    ensures Standing(Play(map[], ms), ms, key, full)
  {
    if ms != [] {
      hide Standing, Moved, ClosesWell, Announced, ClosedBy, AnyText;
      var front := ms[..|ms| - 1];
      forall j | 0 <= j < |front|
        ensures ClosesWell(front, j, key, full)
      {
        ClosesWellBefore(ms, j, key, full);
      }
      MovesStand(front, key, full);
      StandingAfterLast(ms, key, full);
    }
  }

  lemma ClosesWellBefore(ms: seq<Move>, j: nat, key: string, full: string)
    requires j < |ms| - 1 && ClosesWell(ms, j, key, full)
    ensures ClosesWell(ms[..|ms| - 1], j, key, full)
  {
    hide AnyText, Announced, Told;
    assert ms[..|ms| - 1][..j] == ms[..j];
  }

  /** Exactly once: whichever mix of deltas, part-done, item-done and final
      events carried an item's content, a client is told the whole of it once if
      any of them closed the item, and otherwise just what the deltas told. */
  lemma ContentExactlyOnce(ms: seq<Move>, key: string, full: string)
    requires Faithful(ms, key, full)
    ensures Said(Play(map[], ms), key) == if ClosedBy(ms, key) then full else Told(ms, key)
    ensures Said(ClosedAll(Play(map[], ms)), key) == Said(Play(map[], ms), key)
  {
    hide AnyText;
    MovesStand(ms, key, full);
  }

  /** The one event that may be passed over: a final message nothing announced,
      once other text is out. It is passed over exactly then. */
  lemma UnannouncedFinal(ms: seq<Move>, key: string, parts: seq<string>)
    requires forall m :: m in ms ==> m.key != key
    requires Join(parts) != ""
    ensures Said(Play(map[], ms + [Final(key, parts)]), key) == (if AnyText(Play(map[], ms)) then "" else Join(parts))
  {
    var all := ms + [Final(key, parts)];
    assert all[..|all| - 1] == ms;
    Unmentioned(ms, key);
    SpokenAllSays(Play(map[], ms), key, parts);
  }

  lemma {:induction false} Unmentioned(ms: seq<Move>, key: string)
    requires forall m :: m in ms ==> m.key != key
    ensures key !in Play(map[], ms)
  {
    if ms != [] {
      Unmentioned(ms[..|ms| - 1], key);
      MoveElsewhere(Play(map[], ms[..|ms| - 1]), ms[|ms| - 1], key);
    }
  }
}
