/**
  Exactly-once delivery, seen from the events alone: which upstream events belong to
  one message or one tool call, what a faithful upstream says in them, and that the
  client then holds one block for each, with the full content.
  (internal/anthropic/stream.go)
 */
module StreamItems {
  import opened Common
  import opened StreamGrammar
  import opened StreamContent
  import opened StreamTranslation

  // ---------------------------------------------------------------------------
  // Messages, as events name them

  /** The message a single event is about. */
  function MessageOf(e: Event): Option<string> {
    match e
    case OutputText(at, _) => Some(at.itemId)
    case PartAdded(at, isText) => if isText then Some(at.itemId) else None
    case PartDone(at, isText, _) => if isText then Some(at.itemId) else None
    case ItemDone(at, item) => if item.Message? then Some(if item.id != "" then item.id else at.itemId) else None
    case _ => None
  }

  function MessagesOf(e: Event): set<string> {
    match e
    case Completed(_, _, output) => set item | item in output && item.Message? :: item.id
    case _ => if MessageOf(e).Some? then {MessageOf(e).value} else {}
  }

  function MessagesIn(es: seq<Event>): set<string> {
    if es == [] then {} else MessagesIn(es[..|es| - 1]) + MessagesOf(es[|es| - 1])
  }

  /** Messages go by ids that are there and are not block keys themselves. */
  predicate NamesMessages(e: Event) {
    forall id | id in MessagesOf(e) :: id != "" && !("text:" <= id)
  }

  /** The text of a message that arrived as deltas. */
  function Deltas(es: seq<Event>, id: string): string {
    if es == [] then ""
    else
      var e := es[|es| - 1];
      Deltas(es[..|es| - 1], id) + if e.OutputText? && e.at.itemId == id then e.delta else ""
  }

  /** An event that repeats a message whole: a finished part, a finished item, a final response. */
  ghost predicate ClosesMessage(e: Event, id: string, text: string) {
    match e
    case PartDone(at, isText, whole) => isText && at.itemId == id && text == whole
    case ItemDone(_, item) => item.Message? && MessageOf(e) == Some(id) && text == Join(item.texts)
    case Completed(_, _, output) => exists i :: 0 <= i < |output| && output[i].Message? && output[i].id == id && text == Join(output[i].texts)
    case _ => false
  }

  /** An event of a message's own, before any final response, that makes room for it or says some of it. */
  predicate Mentions(e: Event, id: string) {
    MessageOf(e) == Some(id)
    && match e
       case OutputText(_, delta) => delta != ""
       case PartDone(_, _, text) => text != ""
       case ItemDone(_, item) => item.Message? && Join(item.texts) != ""
       case _ => true
  }

  /** An event that says text of any message. */
  predicate SaysText(e: Event) {
    match e
    case OutputText(_, delta) => delta != ""
    case PartDone(_, isText, text) => isText && text != ""
    case ItemDone(_, item) => item.Message? && Join(item.texts) != ""
    case Completed(_, _, output) => exists i | 0 <= i < |output| :: output[i].Message? && Join(output[i].texts) != ""
    case _ => false
  }

  /** Nothing said text before the i-th item of the j-th event, a final response. */
  ghost predicate NothingBefore(es: seq<Event>, j: nat, i: nat)
    requires j < |es| && es[j].Completed? && i < |es[j].output|
  {
    && (forall k :: 0 <= k < j ==> !SaysText(es[k]))
    && forall k :: 0 <= k < i && es[j].output[k].Message? ==> Join(es[j].output[k].texts) == ""
  }

  /** The upstream's side of the bargain for a message whose full text is `full`:
      its deltas tell all or nothing, overall and before anything repeats it whole;
      whatever repeats it repeats all of it; and a final response does not bring it
      up first once other text is out. */
  ghost predicate HonestMessage(es: seq<Event>, id: string, full: string) {
    && Deltas(es, id) in {"", full}
    && (forall j, text :: 0 <= j < |es| && ClosesMessage(es[j], id, text) ==> text == full && Deltas(es[..j], id) in {"", full})
    && (forall j, i :: 0 <= j < |es| && es[j].Completed? && 0 <= i < |es[j].output| && es[j].output[i].Message? && es[j].output[i].id == id ==>
          (exists k :: 0 <= k < j && Mentions(es[k], id)) || NothingBefore(es, j, i))
  }

  /** All of a message was said: by its deltas, or by an event that repeats it. */
  ghost predicate Said1(es: seq<Event>, id: string, full: string) {
    Deltas(es, id) == full || exists j :: 0 <= j < |es| && ClosesMessage(es[j], id, full)
  }

  // ---------------------------------------------------------------------------
  // Tool calls, as events name them

  function ToolOf(e: Event): Option<string> {
    match e
    case Arguments(at, _, _, _) => Some(at.itemId)
    case ArgumentsDone(at, _, _, _) => Some(at.itemId)
    case ItemAdded(_, item) => if item.FunctionCall? then Some(item.id) else None
    case ItemDone(_, item) => if item.FunctionCall? then Some(item.id) else None
    case _ => None
  }

  function ToolsOf(e: Event): set<string> {
    match e
    case Completed(_, _, output) => set item | item in output && item.FunctionCall? :: item.id
    case _ => if ToolOf(e).Some? then {ToolOf(e).value} else {}
  }

  function ToolsIn(es: seq<Event>): set<string> {
    if es == [] then {} else ToolsIn(es[..|es| - 1]) + ToolsOf(es[|es| - 1])
  }

  predicate NamesTools(e: Event) {
    forall id | id in ToolsOf(e) :: id != "" && !("tool:" <= id)
  }

  /** The arguments of a call that arrived as deltas or with its announcement. */
  function ArgumentDeltas(es: seq<Event>, id: string): string {
    if es == [] then ""
    else
      var e := es[|es| - 1];
      ArgumentDeltas(es[..|es| - 1], id) +
        if e.Arguments? && e.at.itemId == id then e.delta
        else if e.ItemAdded? && e.item.FunctionCall? && e.item.id == id then e.item.arguments
        else ""
  }

  /** An event that repeats a call's arguments whole; a final response says "{}" for none. */
  ghost predicate ClosesTool(e: Event, id: string, arguments: string) {
    match e
    case ArgumentsDone(at, _, _, whole) => at.itemId == id && arguments == whole
    case ItemDone(_, item) => item.FunctionCall? && item.id == id && arguments == item.arguments
    case Completed(_, _, output) =>
      exists i :: 0 <= i < |output| && output[i].FunctionCall? && output[i].id == id
        && arguments == if output[i].arguments == "" then "{}" else output[i].arguments
    case _ => false
  }

  ghost predicate HonestTool(es: seq<Event>, id: string, full: string) {
    && ArgumentDeltas(es, id) in {"", full}
    && (forall j, arguments :: 0 <= j < |es| && ClosesTool(es[j], id, arguments) ==>
          arguments == full && ArgumentDeltas(es[..j], id) in {"", full})
  }

  ghost predicate Called(es: seq<Event>, id: string, full: string) {
    ArgumentDeltas(es, id) == full || exists j :: 0 <= j < |es| && ClosesTool(es[j], id, full)
  }

  // ---------------------------------------------------------------------------
  // Keys

  lemma PlainKey(kind: Kind, id: string)
    requires id != "" && !(Prefix(kind) <= id)
    ensures BlockKey(kind, id) == Prefix(kind) + id
    ensures ItemKey([id]) == id && forall other :: ItemKey([id, other]) == id
    ensures forall other, third :: ItemKey([id, other, third]) == id
  {
  }

  lemma PrefixedApart(kind: Kind, a: string, b: string)
    requires Prefix(kind) + a == Prefix(kind) + b
    ensures a == b
  {
    assert (Prefix(kind) + a)[|Prefix(kind)|..] == a;
    assert (Prefix(kind) + b)[|Prefix(kind)|..] == b;
  }

  lemma SecondKey(a: string)
    requires a != ""
    ensures ItemKey(["", a]) == a
  {
    assert ["", a][1..] == [a];
    assert FirstNonEmpty([a]) == a;
  }

  /** The one move of an event about a message, on the block its id names. */
  lemma MessageMove(e: Event)
    requires NamesMessages(e) && MessageOf(e).Some?
    ensures |Moves(e)| == 1 && Moves(e)[0].key == "text:" + MessageOf(e).value
    ensures match e
            case OutputText(_, delta) => Moves(e)[0] == Say(Moves(e)[0].key, delta)
            case PartAdded(_, _) => Moves(e)[0] == Open(Moves(e)[0].key)
            case PartDone(_, _, text) => Moves(e)[0] == Settle(Moves(e)[0].key, [text])
            case ItemDone(_, item) => item.Message? && Moves(e)[0] == Settle(Moves(e)[0].key, item.texts)
            case _ => true
  {
    var id := MessageOf(e).value;
    assert id in MessagesOf(e);
    PlainKey(Text, id);
    if e.ItemDone? && e.item.id == "" {
      SecondKey(EventKey(e.at));
    }
  }

  /** The moves of an event that is about no message leave text blocks alone. */
  lemma OtherMoves(e: Event)
    requires MessageOf(e).None? && !e.Completed?
    ensures forall m :: m in Moves(e) ==> !IsTextKey(m.key)
  {
    KeysApart();
  }

  lemma KeysApart()
    ensures forall b :: !IsTextKey(BlockKey(Tool, b))
    ensures forall b :: IsTextKey(BlockKey(Text, b))
  {
    forall b ensures !IsTextKey(BlockKey(Tool, b)) && IsTextKey(BlockKey(Text, b)) {
      KeysAreApart(b, b);
    }
  }

  lemma JoinOne(text: string)
    ensures Join([text]) == text
  {
    assert [text][..0] == [];
  }

  // ---------------------------------------------------------------------------
  // Moves in good faith

  ghost predicate Well(ms: seq<Move>, key: string, full: string) {
    forall j :: 0 <= j < |ms| ==> ClosesWell(ms, j, key, full)
  }

  lemma WellMore(ms: seq<Move>, m: Move, key: string, full: string)
    requires Well(ms, key, full)
    requires Closes(m, key) ==> Join(m.parts) == full && TellsAllOrNothing(ms, key, full) && (m.Final? ==> Expected(ms, key))
    ensures Well(ms + [m], key, full)
    ensures Told(ms + [m], key) == Told(ms, key) + if m.Say? && m.key == key then m.text else ""
  {
    hide Expected, TellsAllOrNothing;
    var all := ms + [m];
    assert all[..|ms|] == ms;
    forall j | 0 <= j < |all| ensures ClosesWell(all, j, key, full) {
      if j < |ms| {
        assert ClosesWell(ms, j, key, full);
        assert all[..j] == ms[..j];
      }
    }
  }

  /** Moves on other blocks change nothing for this one. */
  lemma {:induction false} WellElse(ms: seq<Move>, more: seq<Move>, key: string, full: string)
    requires Well(ms, key, full) && forall m :: m in more ==> m.key != key
    ensures Well(ms + more, key, full) && Told(ms + more, key) == Told(ms, key)
    decreases |more|
  {
    hide Well, Told;
    if more == [] {
      assert ms + more == ms;
    } else {
      var front, last := more[..|more| - 1], more[|more| - 1];
      WellElse(ms, front, key, full);
      WellMore(ms + front, last, key, full);
      assert ms + more == ms + front + [last];
    }
  }

  /** A move that puts no text into a text block. */
  predicate Mute(m: Move) {
    IsTextKey(m.key) ==>
      match m
      case Open(_) => true
      case Say(_, text) => text == ""
      case Settle(_, parts) => Join(parts) == ""
      case Final(_, parts) => Join(parts) == ""
  }

  lemma {:induction false} MuteMoves(ms: seq<Move>)
    requires forall m :: m in ms ==> Mute(m)
    ensures !AnyText(Play(map[], ms))
  {
    if ms != [] {
      var front, last := ms[..|ms| - 1], ms[|ms| - 1];
      MuteMoves(front);
      MuteMove(Play(map[], front), last);
    }
  }

  lemma MuteMove(v: Views, m: Move)
    requires Mute(m) && !AnyText(v)
    ensures !AnyText(Moved(v, m))
  {
    forall key | key in Moved(v, m) && IsTextKey(key) ensures Moved(v, m)[key].text == "" {
      if m.key != key {
        MoveElsewhere(v, m, key);
      } else if m.Settle? || m.Final? {
        SpokenAllNothing(v, key, m.parts);
      }
    }
  }

  // ---------------------------------------------------------------------------
  // Messages

  lemma {:induction false} JoinMoves(a: seq<Move>, b: seq<Move>)
    ensures forall m :: m in a + b <==> m in a || m in b
  {
  }

  /** An event that says no text makes only mute moves. */
  lemma MuteEvent(e: Event)
    requires NamesMessages(e) && !SaysText(e)
    ensures forall m :: m in Moves(e) ==> Mute(m)
  {
    if MessageOf(e).Some? {
      MessageMove(e);
      if e.PartDone? {
        JoinOne(e.text);
      }
    } else if e.Completed? {
      MuteFinals(e.output);
    } else {
      OtherMoves(e);
    }
  }

  lemma {:induction false} MuteFinals(output: seq<Item>)
    requires forall k :: 0 <= k < |output| && output[k].Message? ==> Join(output[k].texts) == ""
    ensures forall m :: m in FinalMoves(output) ==> Mute(m)
  {
    if output != [] {
      MuteFinals(output[..|output| - 1]);
      KeysApart();
    }
  }

  lemma {:induction false} MuteSoFar(es: seq<Event>)
    requires forall k :: 0 <= k < |es| ==> NamesMessages(es[k]) && !SaysText(es[k])
    ensures forall m :: m in AllMoves(es) ==> Mute(m)
  {
    hide Mute, SaysText, NamesMessages, Moves;
    if es != [] {
      MuteSoFar(es[..|es| - 1]);
      MuteEvent(es[|es| - 1]);
    }
  }

  lemma {:induction false} MentionedIsAnnounced(es: seq<Event>, id: string)
    requires forall k :: 0 <= k < |es| ==> NamesMessages(es[k])
    requires exists k :: 0 <= k < |es| && Mentions(es[k], id)
    ensures Announced(AllMoves(es), "text:" + id)
  {
    hide NamesMessages, Moves, Announced;
    var k :| 0 <= k < |es| && Mentions(es[k], id);
    var front, last := es[..|es| - 1], es[|es| - 1];
    if k < |front| {
      assert front[k] == es[k];
      MentionedIsAnnounced(front, id);
      AnnouncedStays(AllMoves(front), Moves(last), "text:" + id);
    } else {
      MessageMove(last);
      if last.PartDone? {
        JoinOne(last.text);
      }
      assert Announces(Moves(last)[0], "text:" + id);
      AnnouncedStays(AllMoves(front), Moves(last), "text:" + id);
    }
  }

  lemma AnnouncedStays(a: seq<Move>, b: seq<Move>, key: string)
    ensures Announced(a, key) || Announced(b, key) ==> Announced(a + b, key)
    ensures (exists k :: 0 <= k < |b| && Announces(b[k], key)) ==> Announced(a + b, key)
  {
    if k :| 0 <= k < |b| && Announces(b[k], key) {
      assert (a + b)[|a| + k] == b[k];
    }
  }

  /** What repeats a message does it in good faith: the part of honesty that every prefix keeps. */
  ghost predicate HonestSoFar(es: seq<Event>, id: string, full: string) {
    && (forall j, text :: 0 <= j < |es| && ClosesMessage(es[j], id, text) ==> text == full && Deltas(es[..j], id) in {"", full})
    && (forall j, i :: 0 <= j < |es| && es[j].Completed? && 0 <= i < |es[j].output| && es[j].output[i].Message? && es[j].output[i].id == id ==>
          (exists k :: 0 <= k < j && Mentions(es[k], id)) || NothingBefore(es, j, i))
  }

  lemma HonestBefore(es: seq<Event>, id: string, full: string)
    requires es != [] && HonestSoFar(es, id, full)
    ensures HonestSoFar(es[..|es| - 1], id, full)
  {
    hide ClosesMessage, Mentions, SaysText;
    var front := es[..|es| - 1];
    forall j, text | 0 <= j < |front| && ClosesMessage(front[j], id, text) ensures text == full && Deltas(front[..j], id) in {"", full} {
      assert front[j] == es[j] && front[..j] == es[..j];
    }
    forall j, i | 0 <= j < |front| && front[j].Completed? && 0 <= i < |front[j].output| && front[j].output[i].Message? && front[j].output[i].id == id
      ensures (exists k :: 0 <= k < j && Mentions(front[k], id)) || NothingBefore(front, j, i)
    {
      assert front[j] == es[j];
      if k :| 0 <= k < j && Mentions(es[k], id) {
        assert front[k] == es[k];
      } else {
        assert NothingBefore(es, j, i);
      }
    }
  }

  lemma {:induction false} MessageIsWell(es: seq<Event>, id: string, full: string)
    requires forall k :: 0 <= k < |es| ==> NamesMessages(es[k])
    requires HonestSoFar(es, id, full)
    ensures Well(AllMoves(es), "text:" + id, full) && Told(AllMoves(es), "text:" + id) == Deltas(es, id)
  {
    if es != [] {
      hide HonestSoFar, Well, Told, NamesMessages, Moves, FinalMoves;
      var front, e := es[..|es| - 1], es[|es| - 1];
      HonestBefore(es, id, full);
      MessageIsWell(front, id, full);
      assert AllMoves(es) == AllMoves(front) + Moves(e);
      if MessageOf(e).Some? {
        OneMessageEvent(es, id, full);
      } else if e.Completed? {
        FinalMessages(es, id, full, |e.output|);
        assert e.output[..|e.output|] == e.output;
        FinalsAreMoves(e);
      } else {
        OtherMoves(e);
        TextIsText(id);
        WellElse(AllMoves(front), Moves(e), "text:" + id, full);
      }
    } else {
      assert AllMoves(es) == [];
    }
  }

  lemma FinalsAreMoves(e: Event)
    requires e.Completed?
    ensures Moves(e) == FinalMoves(e.output)
  {
  }

  lemma TextIsText(id: string)
    ensures IsTextKey("text:" + id)
  {
  }

  lemma OneMessageEvent(es: seq<Event>, id: string, full: string)
    requires es != [] && NamesMessages(es[|es| - 1]) && MessageOf(es[|es| - 1]).Some? && HonestSoFar(es, id, full)
    requires var before := AllMoves(es[..|es| - 1]);
             Well(before, "text:" + id, full) && Told(before, "text:" + id) == Deltas(es[..|es| - 1], id)
    ensures var all := AllMoves(es[..|es| - 1]) + Moves(es[|es| - 1]);
            Well(all, "text:" + id, full) && Told(all, "text:" + id) == Deltas(es, id)
  {
    hide Well, Told, NamesMessages, AllMoves;
    var front, e := es[..|es| - 1], es[|es| - 1];
    MessageMove(e);
    var m := Moves(e)[0];
    assert Moves(e) == [m];
    if m.key == "text:" + id {
      PrefixedApart(Text, MessageOf(e).value, id);
    }
    if Closes(m, "text:" + id) {
      if e.PartDone? {
        JoinOne(e.text);
      }
      assert ClosesMessage(e, id, Join(m.parts));
    }
    WellMore(AllMoves(front), m, "text:" + id, full);
  }

  lemma OneMoreFinal(output: seq<Item>, n: nat)
    requires 0 < n <= |output|
    ensures FinalMoves(output[..n]) == FinalMoves(output[..n - 1]) + FinalMove(n - 1, output[n - 1])
  {
    assert output[..n][..n - 1] == output[..n - 1];
  }

  lemma {:induction false} FinalMessages(es: seq<Event>, id: string, full: string, n: nat)
    requires es != [] && es[|es| - 1].Completed? && n <= |es[|es| - 1].output|
    requires forall k :: 0 <= k < |es| ==> NamesMessages(es[k])
    requires HonestSoFar(es, id, full)
    requires var before := AllMoves(es[..|es| - 1]);
             Well(before, "text:" + id, full) && Told(before, "text:" + id) == Deltas(es[..|es| - 1], id)
    ensures var all := AllMoves(es[..|es| - 1]) + FinalMoves(es[|es| - 1].output[..n]);
            Well(all, "text:" + id, full) && Told(all, "text:" + id) == Deltas(es, id)
    decreases n
  {
    hide HonestSoFar, Well, Told, NamesMessages, AllMoves;
    var front, output, key := es[..|es| - 1], es[|es| - 1].output, "text:" + id;
    if n == 0 {
      assert AllMoves(front) + FinalMoves(output[..0]) == AllMoves(front);
      NoDelta(es, id);
    } else {
      FinalMessages(es, id, full, n - 1);
      var before := AllMoves(front) + FinalMoves(output[..n - 1]);
      OneMoreFinal(output, n);
      assert AllMoves(front) + FinalMoves(output[..n]) == before + FinalMove(n - 1, output[n - 1]);
      hide FinalMoves;
      if output[n - 1].Message? {
        OneFinal(es, id, full, n - 1);
      } else {
        KeysApart();
        TextIsText(id);
        WellElse(before, FinalMove(n - 1, output[n - 1]), key, full);
      }
    }
  }

  lemma NoDelta(es: seq<Event>, id: string)
    requires es != [] && !es[|es| - 1].OutputText?
    ensures Deltas(es, id) == Deltas(es[..|es| - 1], id)
  {
  }

  lemma OneFinal(es: seq<Event>, id: string, full: string, i: nat)
    requires es != [] && es[|es| - 1].Completed? && i < |es[|es| - 1].output| && es[|es| - 1].output[i].Message?
    requires forall k :: 0 <= k < |es| ==> NamesMessages(es[k])
    requires HonestSoFar(es, id, full)
    requires var before := AllMoves(es[..|es| - 1]) + FinalMoves(es[|es| - 1].output[..i]);
             Well(before, "text:" + id, full) && Told(before, "text:" + id) == Deltas(es, id)
    ensures var all := AllMoves(es[..|es| - 1]) + FinalMoves(es[|es| - 1].output[..i]) + FinalMove(i, es[|es| - 1].output[i]);
            Well(all, "text:" + id, full) && Told(all, "text:" + id) == Deltas(es, id)
  {
    hide Well, Told, AllMoves, FinalMoves;
    var front, e := es[..|es| - 1], es[|es| - 1];
    var item, before := e.output[i], AllMoves(front) + FinalMoves(e.output[..i]);
    FinalMessageIs(e, i);
    var m := FinalMove(i, item)[0];
    NoDelta(es, id);
    if m.key == "text:" + id {
      PrefixedApart(Text, item.id, id);
      assert ClosesMessage(e, id, Join(item.texts));
      FinalIsExpected(es, id, full, i);
    }
    WellMore(before, m, "text:" + id, full);
  }

  lemma FinalIsExpected(es: seq<Event>, id: string, full: string, i: nat)
    requires es != [] && es[|es| - 1].Completed? && i < |es[|es| - 1].output|
    requires es[|es| - 1].output[i].Message? && es[|es| - 1].output[i].id == id
    requires forall k :: 0 <= k < |es| ==> NamesMessages(es[k])
    requires HonestSoFar(es, id, full)
    ensures Expected(AllMoves(es[..|es| - 1]) + FinalMoves(es[|es| - 1].output[..i]), "text:" + id)
  {
    hide NamesMessages, AllMoves, FinalMoves, Mute, AnyText;
    var front, e := es[..|es| - 1], es[|es| - 1];
    if k :| 0 <= k < |es| - 1 && Mentions(es[k], id) {
      assert front[k] == es[k];
      MentionedIsAnnounced(front, id);
      AnnouncedStays(AllMoves(front), FinalMoves(e.output[..i]), "text:" + id);
    } else {
      assert NothingBefore(es, |es| - 1, i);
      MuteSoFar(front);
      MuteFinals(e.output[..i]);
      JoinMoves(AllMoves(front), FinalMoves(e.output[..i]));
      MuteMoves(AllMoves(front) + FinalMoves(e.output[..i]));
    }
  }

  // ---------------------------------------------------------------------------
  // Tool calls

  /** The moves of an event about a call, on the block its id names. */
  lemma ToolMoves(e: Event)
    requires NamesTools(e) && ToolOf(e).Some?
    ensures var key := "tool:" + ToolOf(e).value;
            match e
            case Arguments(_, _, _, delta) => Moves(e) == [Say(key, delta)]
            case ArgumentsDone(_, _, _, whole) => Moves(e) == [Open(key), Settle(key, [whole])]
            case ItemAdded(_, item) => item.FunctionCall? && Moves(e) == [Open(key), Say(key, item.arguments)]
            case ItemDone(_, item) => item.FunctionCall? && Moves(e) == [Open(key), Settle(key, [item.arguments])]
            case _ => true
  {
    assert ToolOf(e).value in ToolsOf(e);
    PlainKey(Tool, ToolOf(e).value);
  }

  lemma NoToolMoves(e: Event)
    requires ToolOf(e).None? && !e.Completed?
    ensures forall m :: m in Moves(e) ==> IsTextKey(m.key)
  {
    KeysApart();
  }

  lemma ToolIsNoText(id: string)
    ensures !IsTextKey("tool:" + id)
  {
    assert ("tool:" + id)[1] == 'o';
    assert "text:"[1] == 'e';
  }

  ghost predicate CallsSoFar(es: seq<Event>, id: string, full: string) {
    forall j, arguments :: 0 <= j < |es| && ClosesTool(es[j], id, arguments) ==>
      arguments == full && ArgumentDeltas(es[..j], id) in {"", full}
  }

  lemma CallsBefore(es: seq<Event>, id: string, full: string)
    requires es != [] && CallsSoFar(es, id, full)
    ensures CallsSoFar(es[..|es| - 1], id, full)
  {
    hide ClosesTool;
    var front := es[..|es| - 1];
    forall j, arguments | 0 <= j < |front| && ClosesTool(front[j], id, arguments)
      ensures arguments == full && ArgumentDeltas(front[..j], id) in {"", full}
    {
      assert front[j] == es[j] && front[..j] == es[..j];
    }
  }

  /** An opening or a delta, then a delta or a closing event, on the same block. */
  lemma WellTwo(ms: seq<Move>, key: string, m: Move, full: string)
    requires Well(ms, key, full) && m.key == key && (m.Say? || m.Settle?)
    requires m.Settle? ==> Join(m.parts) == full && Told(ms, key) in {"", full}
    ensures Well(ms + [Open(key), m], key, full)
    ensures Told(ms + [Open(key), m], key) == Told(ms, key) + if m.Say? then m.text else ""
  {
    hide Well;
    WellMore(ms, Open(key), key, full);
    WellMore(ms + [Open(key)], m, key, full);
    assert ms + [Open(key), m] == ms + [Open(key)] + [m];
  }

  lemma {:induction false} CallIsWell(es: seq<Event>, id: string, full: string)
    requires forall k :: 0 <= k < |es| ==> NamesTools(es[k])
    requires CallsSoFar(es, id, full)
    ensures Well(AllMoves(es), "tool:" + id, full) && Told(AllMoves(es), "tool:" + id) == ArgumentDeltas(es, id)
  {
    if es != [] {
      hide CallsSoFar, Well, Told, NamesTools, Moves, FinalMoves;
      var front, e := es[..|es| - 1], es[|es| - 1];
      CallsBefore(es, id, full);
      CallIsWell(front, id, full);
      assert AllMoves(es) == AllMoves(front) + Moves(e);
      if ToolOf(e).Some? {
        OneToolEvent(es, id, full);
      } else if e.Completed? {
        FinalCalls(es, id, full, |e.output|);
        assert e.output[..|e.output|] == e.output;
        FinalsAreMoves(e);
      } else {
        NoToolMoves(e);
        ToolIsNoText(id);
        WellElse(AllMoves(front), Moves(e), "tool:" + id, full);
      }
    } else {
      assert AllMoves(es) == [];
    }
  }

  lemma OneToolEvent(es: seq<Event>, id: string, full: string)
    requires es != [] && NamesTools(es[|es| - 1]) && ToolOf(es[|es| - 1]).Some? && CallsSoFar(es, id, full)
    requires var before := AllMoves(es[..|es| - 1]);
             Well(before, "tool:" + id, full) && Told(before, "tool:" + id) == ArgumentDeltas(es[..|es| - 1], id)
    ensures var all := AllMoves(es[..|es| - 1]) + Moves(es[|es| - 1]);
            Well(all, "tool:" + id, full) && Told(all, "tool:" + id) == ArgumentDeltas(es, id)
  {
    hide Well, Told, NamesTools, AllMoves, Moves;
    var before, e := AllMoves(es[..|es| - 1]), es[|es| - 1];
    var key := "tool:" + id;
    ToolMoves(e);
    if ToolOf(e).value != id {
      if "tool:" + ToolOf(e).value == key {
        PrefixedApart(Tool, ToolOf(e).value, id);
      }
      WellElse(before, Moves(e), key, full);
    } else if e.Arguments? {
      WellMore(before, Say(key, e.delta), key, full);
    } else if e.ItemAdded? {
      WellTwo(before, key, Say(key, e.item.arguments), full);
    } else {
      var whole := if e.ArgumentsDone? then e.arguments else e.item.arguments;
      JoinOne(whole);
      assert ClosesTool(e, id, whole);
      WellTwo(before, key, Settle(key, [whole]), full);
    }
  }

  lemma {:induction false} FinalCalls(es: seq<Event>, id: string, full: string, n: nat)
    requires es != [] && es[|es| - 1].Completed? && n <= |es[|es| - 1].output|
    requires NamesTools(es[|es| - 1]) && CallsSoFar(es, id, full)
    requires var before := AllMoves(es[..|es| - 1]);
             Well(before, "tool:" + id, full) && Told(before, "tool:" + id) == ArgumentDeltas(es[..|es| - 1], id)
    ensures var all := AllMoves(es[..|es| - 1]) + FinalMoves(es[|es| - 1].output[..n]);
            Well(all, "tool:" + id, full) && Told(all, "tool:" + id) == ArgumentDeltas(es, id)
    decreases n
  {
    hide CallsSoFar, Well, Told, NamesTools, AllMoves;
    var front, output, key := es[..|es| - 1], es[|es| - 1].output, "tool:" + id;
    if n == 0 {
      assert AllMoves(front) + FinalMoves(output[..0]) == AllMoves(front);
      NoArgumentDelta(es, id);
    } else {
      FinalCalls(es, id, full, n - 1);
      var before := AllMoves(front) + FinalMoves(output[..n - 1]);
      assert output[..n][..n - 1] == output[..n - 1];
      assert AllMoves(front) + FinalMoves(output[..n]) == before + FinalMove(n - 1, output[n - 1]);
      if output[n - 1].FunctionCall? {
        OneFinalCall(es, id, full, n - 1);
      } else {
        KeysApart();
        ToolIsNoText(id);
        WellElse(before, FinalMove(n - 1, output[n - 1]), key, full);
      }
    }
  }

  lemma NoArgumentDelta(es: seq<Event>, id: string)
    requires es != [] && es[|es| - 1].Completed?
    ensures ArgumentDeltas(es, id) == ArgumentDeltas(es[..|es| - 1], id)
  {
  }

  lemma OneFinalCall(es: seq<Event>, id: string, full: string, i: nat)
    requires es != [] && es[|es| - 1].Completed? && i < |es[|es| - 1].output| && es[|es| - 1].output[i].FunctionCall?
    requires NamesTools(es[|es| - 1]) && CallsSoFar(es, id, full)
    requires var before := AllMoves(es[..|es| - 1]) + FinalMoves(es[|es| - 1].output[..i]);
             Well(before, "tool:" + id, full) && Told(before, "tool:" + id) == ArgumentDeltas(es, id)
    ensures var all := AllMoves(es[..|es| - 1]) + FinalMoves(es[|es| - 1].output[..i]) + FinalMove(i, es[|es| - 1].output[i]);
            Well(all, "tool:" + id, full) && Told(all, "tool:" + id) == ArgumentDeltas(es, id)
  {
    hide Well, Told, AllMoves, FinalMoves;
    var e, key := es[|es| - 1], "tool:" + id;
    var item, before := e.output[i], AllMoves(es[..|es| - 1]) + FinalMoves(e.output[..i]);
    FinalCallIs(e, i);
    var whole := if item.arguments == "" then "{}" else item.arguments;
    var named := "tool:" + item.id;
    NoArgumentDelta(es, id);
    if item.id == id {
      JoinOne(whole);
      assert ClosesTool(e, id, whole);
      WellTwo(before, key, Settle(key, [whole]), full);
    } else {
      if named == key {
        PrefixedApart(Tool, item.id, id);
      }
      WellElse(before, FinalMove(i, item), key, full);
    }
  }

  // ---------------------------------------------------------------------------
  // One block each

  /** A key is told only if some move is on it. */
  lemma {:induction false} ToldIsMoved(ms: seq<Move>, key: string)
    requires key in Play(map[], ms)
    ensures exists m :: m in ms && m.key == key
  {
    if forall m :: m in ms ==> m.key != key {
      Unmentioned(ms, key);
    }
  }

  /** Every text key told is a message's, and every other one a call's. */
  lemma {:induction false} MovesAreNamed(es: seq<Event>, m: Move)
    requires m in AllMoves(es)
    ensures IsTextKey(m.key) && (forall k :: 0 <= k < |es| ==> NamesMessages(es[k])) ==>
              exists id :: id in MessagesIn(es) && m.key == "text:" + id
    ensures !IsTextKey(m.key) && (forall k :: 0 <= k < |es| ==> NamesTools(es[k])) ==>
              exists id :: id in ToolsIn(es) && m.key == "tool:" + id
  {
    hide NamesMessages, NamesTools, Moves, MessagesOf, ToolsOf;
    var front, e := es[..|es| - 1], es[|es| - 1];
    if m in AllMoves(front) {
      MovesAreNamed(front, m);
      assert forall k :: 0 <= k < |front| ==> front[k] == es[k];
    } else {
      assert m in Moves(e);
      MoveIsNamed(e, m);
    }
  }

  lemma MoveIsNamed(e: Event, m: Move)
    requires m in Moves(e)
    ensures IsTextKey(m.key) && NamesMessages(e) ==> exists id :: id in MessagesOf(e) && m.key == "text:" + id
    ensures !IsTextKey(m.key) && NamesTools(e) ==> exists id :: id in ToolsOf(e) && m.key == "tool:" + id
  {
    hide Moves, FinalMoves, NamesMessages, NamesTools;
    if e.Completed? {
      FinalsAreMoves(e);
      assert e.output[..|e.output|] == e.output;
      FinalIsNamed(e, |e.output|, m);
    } else {
      if MessageOf(e).None? {
        OtherMoves(e);
      } else if NamesMessages(e) {
        MessageMove(e);
        assert MessageOf(e).value in MessagesOf(e);
      }
      if ToolOf(e).None? {
        NoToolMoves(e);
      } else if NamesTools(e) {
        ToolMoves(e);
        assert ToolOf(e).value in ToolsOf(e);
      }
    }
  }

  lemma {:induction false} FinalIsNamed(e: Event, n: nat, m: Move)
    requires e.Completed? && n <= |e.output| && m in FinalMoves(e.output[..n])
    ensures IsTextKey(m.key) && NamesMessages(e) ==> exists id :: id in MessagesOf(e) && m.key == "text:" + id
    ensures !IsTextKey(m.key) && NamesTools(e) ==> exists id :: id in ToolsOf(e) && m.key == "tool:" + id
    decreases n
  {
    hide NamesMessages, NamesTools, MessagesOf, ToolsOf;
    assert n > 0;
    assert e.output[..n][..n - 1] == e.output[..n - 1];
    if m in FinalMoves(e.output[..n - 1]) {
      FinalIsNamed(e, n - 1, m);
    } else {
      OneFinalIsNamed(e, n - 1, m);
    }
  }

  lemma OneFinalIsNamed(e: Event, i: nat, m: Move)
    requires e.Completed? && i < |e.output| && m in FinalMove(i, e.output[i])
    ensures IsTextKey(m.key) && NamesMessages(e) ==> exists id :: id in MessagesOf(e) && m.key == "text:" + id
    ensures !IsTextKey(m.key) && NamesTools(e) ==> exists id :: id in ToolsOf(e) && m.key == "tool:" + id
  {
    KeysApart();
    var item := e.output[i];
    assert item in e.output;
    if item.Message? && NamesMessages(e) {
      FinalMessageIs(e, i);
    }
    if item.FunctionCall? && NamesTools(e) {
      FinalCallIs(e, i);
    }
  }

  /** Some of these ids have a block each, the blocks are different, and there are no others. */
  ghost predicate OneBlockEach(at: map<string, nat>, ids: set<string>, begun: set<nat>) {
    && at.Keys <= ids
    && (forall a, b :: a in at && b in at && a != b ==> at[a] != at[b])
    && (forall i :: i in begun <==> exists id :: id in at && at[id] == i)
  }

  /** The block of each id that was told under a prefix. */
  ghost function BlocksOf(told: Views, blocks: Blocks, prefix: string, ids: set<string>): map<string, nat>
    requires told.Keys <= blocks.Keys
  {
    map id | id in ids && prefix + id in told :: blocks[prefix + id].index
  }

  lemma TellsNothingElse(told: Views, blocks: Blocks, out: seq<Out>)
    requires OnlyTold(told, blocks, out)
    ensures told.Keys <= blocks.Keys
  {
  }

  /** Where every key told of one kind is an id under that kind's prefix, the blocks are the ids'. */
  lemma BlocksAreOneEach(told: Views, blocks: Blocks, out: seq<Out>, kind: Kind, ids: set<string>)
    requires kind != Thinking && OnlyTold(told, blocks, out)
    requires forall key :: key in told && IsTextKey(key) == (kind == Text) ==> exists id :: id in ids && Prefix(kind) + id == key
    ensures OneBlockEach(BlocksOf(told, blocks, Prefix(kind), ids), ids, Begun(out, kind))
  {
    hide Prefix;
    var at := BlocksOf(told, blocks, Prefix(kind), ids);
    forall id | id in at ensures IsTextKey(Prefix(kind) + id) == (kind == Text) {
      PrefixTells(kind, id);
    }
    forall a, b | a in at && b in at && a != b ensures at[a] != at[b] {
      if Prefix(kind) + a == Prefix(kind) + b {
        PrefixedApart(kind, a, b);
      }
    }
    forall i | i in Begun(out, kind) ensures exists id :: id in at && at[id] == i {
      var key :| key in told && IsTextKey(key) == (kind == Text) && blocks[key].index == i;
      var id :| id in ids && Prefix(kind) + id == key;
      assert id in at;
    }
  }

  lemma PrefixTells(kind: Kind, id: string)
    requires kind != Thinking
    ensures IsTextKey(Prefix(kind) + id) == (kind == Text)
  {
    if kind == Text {
      TextIsText(id);
    } else {
      ToolIsNoText(id);
    }
  }

  lemma MessageBlocks(es: seq<Event>, blocks: Blocks, out: seq<Out>) returns (at: map<string, nat>)
    requires var told := Play(map[], AllMoves(es)); AsTold(told, blocks, out) && OnlyTold(told, blocks, out)
    requires forall k :: 0 <= k < |es| ==> NamesMessages(es[k])
    ensures OneBlockEach(at, MessagesIn(es), Begun(out, Text))
    ensures forall id, full :: HonestMessage(es, id, full) && full != "" && Said1(es, id, full) ==> id in at && Content(out, at[id]) == full
  {
    hide NamesMessages, AllMoves, Play, Content, HonestMessage, Said1, OneBlockEach, AsTold, OnlyTold;
    var told, ids := Play(map[], AllMoves(es)), MessagesIn(es);
    TellsNothingElse(told, blocks, out);
    at := BlocksOf(told, blocks, "text:", ids);
    forall key | key in told && IsTextKey(key) ensures exists id :: id in ids && "text:" + id == key {
      ToldIsMoved(AllMoves(es), key);
      var m :| m in AllMoves(es) && m.key == key;
      MovesAreNamed(es, m);
    }
    BlocksAreOneEach(told, blocks, out, Text, ids);
    forall id, full | HonestMessage(es, id, full) && full != "" && Said1(es, id, full) ensures id in at && Content(out, at[id]) == full {
      MessageContent(es, blocks, out, at, id, full);
    }
  }

  lemma MessageContent(es: seq<Event>, blocks: Blocks, out: seq<Out>, at: map<string, nat>, id: string, full: string)
    requires var told := Play(map[], AllMoves(es)); AsTold(told, blocks, out) && OnlyTold(told, blocks, out)
    requires forall k :: 0 <= k < |es| ==> NamesMessages(es[k])
    requires HonestMessage(es, id, full) && full != "" && Said1(es, id, full)
    requires var told := Play(map[], AllMoves(es));
             at == BlocksOf(told, blocks, "text:", MessagesIn(es))
             && forall key :: key in told && IsTextKey(key) ==> exists other :: other in MessagesIn(es) && "text:" + other == key
    ensures id in at && Content(out, at[id]) == full
  {
    hide NamesMessages, AllMoves, Play, Content, HonestMessage, Said1, OnlyTold;
    var told := Play(map[], AllMoves(es));
    MessageHeard(es, id, full);
    var key := "text:" + id;
    assert key in told && told[key].text == full;
    TextIsText(id);
    var other :| other in MessagesIn(es) && "text:" + other == key;
    PrefixedApart(Text, other, id);
  }

  lemma MessageHeard(es: seq<Event>, id: string, full: string)
    requires forall k :: 0 <= k < |es| ==> NamesMessages(es[k])
    requires HonestMessage(es, id, full) && full != "" && Said1(es, id, full)
    ensures var told := Play(map[], AllMoves(es)); "text:" + id in told && told["text:" + id].text == full
  {
    hide NamesMessages, AllMoves, Play, ClosedBy;
    var key := "text:" + id;
    MessageIsWell(es, id, full);
    assert Faithful(AllMoves(es), key, full);
    ContentExactlyOnce(AllMoves(es), key, full);
    if Deltas(es, id) != full {
      var j :| 0 <= j < |es| && ClosesMessage(es[j], id, full);
      ClosedIsClosed(es, j, id, full);
    }
  }

  lemma {:induction false} ClosedIsClosed(es: seq<Event>, j: nat, id: string, full: string)
    requires j < |es| && NamesMessages(es[j]) && ClosesMessage(es[j], id, full)
    ensures ClosedBy(AllMoves(es), "text:" + id)
  {
    hide NamesMessages, Moves, ClosesMessage;
    var front, last := es[..|es| - 1], es[|es| - 1];
    if j < |front| {
      ClosedIsClosed(front, j, id, full);
      var m :| m in AllMoves(front) && Closes(m, "text:" + id);
      assert m in AllMoves(es);
    } else {
      ClosingMove(last, id, full);
      var m :| m in Moves(last) && Closes(m, "text:" + id);
      assert m in AllMoves(es);
    }
  }

  lemma FinalMessageIs(e: Event, i: nat)
    requires e.Completed? && i < |e.output| && e.output[i].Message? && NamesMessages(e)
    ensures FinalMove(i, e.output[i]) == [Final("text:" + e.output[i].id, e.output[i].texts)]
  {
    assert e.output[i] in e.output && e.output[i].id in MessagesOf(e);
    PlainKey(Text, e.output[i].id);
  }

  lemma FinalCallIs(e: Event, i: nat)
    requires e.Completed? && i < |e.output| && e.output[i].FunctionCall? && NamesTools(e)
    ensures var key := "tool:" + e.output[i].id;
            FinalMove(i, e.output[i]) == [Open(key), Settle(key, [if e.output[i].arguments == "" then "{}" else e.output[i].arguments])]
  {
    assert e.output[i] in e.output && e.output[i].id in ToolsOf(e);
    PlainKey(Tool, e.output[i].id);
  }

  lemma ClosingMove(e: Event, id: string, full: string)
    requires NamesMessages(e) && ClosesMessage(e, id, full)
    ensures exists m :: m in Moves(e) && Closes(m, "text:" + id)
  {
    hide Moves, FinalMoves, FinalMove;
    if e.Completed? {
      var i :| 0 <= i < |e.output| && e.output[i].Message? && e.output[i].id == id && full == Join(e.output[i].texts);
      FinalMessageIs(e, i);
      FinalIsThere(e.output, i, Final("text:" + id, e.output[i].texts));
      FinalsAreMoves(e);
    } else {
      MessageMove(e);
      assert Moves(e)[0] in Moves(e);
    }
  }

  lemma {:induction false} FinalIsThere(output: seq<Item>, i: nat, m: Move)
    requires i < |output| && m in FinalMove(i, output[i])
    ensures m in FinalMoves(output)
  {
    if i < |output| - 1 {
      FinalIsThere(output[..|output| - 1], i, m);
    }
  }

  lemma CallBlocks(es: seq<Event>, blocks: Blocks, out: seq<Out>) returns (at: map<string, nat>)
    requires var told := Play(map[], AllMoves(es)); AsTold(told, blocks, out) && OnlyTold(told, blocks, out)
    requires forall k :: 0 <= k < |es| ==> NamesTools(es[k])
    ensures OneBlockEach(at, ToolsIn(es), Begun(out, Tool))
    ensures forall id, full :: HonestTool(es, id, full) && full != "" && Called(es, id, full) ==> id in at && Content(out, at[id]) == full
  {
    hide NamesTools, AllMoves, Play, Content, HonestTool, Called, OneBlockEach, AsTold, OnlyTold;
    var told, ids := Play(map[], AllMoves(es)), ToolsIn(es);
    TellsNothingElse(told, blocks, out);
    at := BlocksOf(told, blocks, "tool:", ids);
    forall key | key in told && !IsTextKey(key) ensures exists id :: id in ids && "tool:" + id == key {
      ToldIsMoved(AllMoves(es), key);
      var m :| m in AllMoves(es) && m.key == key;
      MovesAreNamed(es, m);
    }
    BlocksAreOneEach(told, blocks, out, Tool, ids);
    forall id, full | HonestTool(es, id, full) && full != "" && Called(es, id, full) ensures id in at && Content(out, at[id]) == full {
      CallContent(es, blocks, out, at, id, full);
    }
  }

  lemma CallContent(es: seq<Event>, blocks: Blocks, out: seq<Out>, at: map<string, nat>, id: string, full: string)
    requires var told := Play(map[], AllMoves(es)); AsTold(told, blocks, out) && OnlyTold(told, blocks, out)
    requires forall k :: 0 <= k < |es| ==> NamesTools(es[k])
    requires HonestTool(es, id, full) && full != "" && Called(es, id, full)
    requires var told := Play(map[], AllMoves(es));
             at == BlocksOf(told, blocks, "tool:", ToolsIn(es))
             && forall key :: key in told && !IsTextKey(key) ==> exists other :: other in ToolsIn(es) && "tool:" + other == key
    ensures id in at && Content(out, at[id]) == full
  {
    hide NamesTools, AllMoves, Play, Content, HonestTool, Called, OnlyTold;
    var told := Play(map[], AllMoves(es));
    CallHeard(es, id, full);
    var key := "tool:" + id;
    assert key in told && told[key].text == full;
    ToolIsNoText(id);
    var other :| other in ToolsIn(es) && "tool:" + other == key;
    PrefixedApart(Tool, other, id);
  }

  lemma CallHeard(es: seq<Event>, id: string, full: string)
    requires forall k :: 0 <= k < |es| ==> NamesTools(es[k])
    requires HonestTool(es, id, full) && full != "" && Called(es, id, full)
    ensures var told := Play(map[], AllMoves(es)); "tool:" + id in told && told["tool:" + id].text == full
  {
    hide NamesTools, AllMoves, Play, ClosedBy;
    var key := "tool:" + id;
    CallIsWell(es, id, full);
    assert Faithful(AllMoves(es), key, full);
    ContentExactlyOnce(AllMoves(es), key, full);
    if ArgumentDeltas(es, id) != full {
      var j :| 0 <= j < |es| && ClosesTool(es[j], id, full);
      CallIsClosed(es, j, id, full);
    }
  }

  lemma {:induction false} CallIsClosed(es: seq<Event>, j: nat, id: string, full: string)
    requires j < |es| && NamesTools(es[j]) && ClosesTool(es[j], id, full)
    ensures ClosedBy(AllMoves(es), "tool:" + id)
  {
    hide NamesTools, Moves, ClosesTool;
    var front, last := es[..|es| - 1], es[|es| - 1];
    if j < |front| {
      CallIsClosed(front, j, id, full);
      var m :| m in AllMoves(front) && Closes(m, "tool:" + id);
      assert m in AllMoves(es);
    } else {
      ClosingCall(last, id, full);
      var m :| m in Moves(last) && Closes(m, "tool:" + id);
      assert m in AllMoves(es);
    }
  }

  lemma ClosingCall(e: Event, id: string, full: string)
    requires NamesTools(e) && ClosesTool(e, id, full)
    ensures exists m :: m in Moves(e) && Closes(m, "tool:" + id)
  {
    hide Moves, FinalMoves, FinalMove;
    if e.Completed? {
      var i :| 0 <= i < |e.output| && e.output[i].FunctionCall? && e.output[i].id == id;
      FinalCallIs(e, i);
      var whole := if e.output[i].arguments == "" then "{}" else e.output[i].arguments;
      assert FinalMove(i, e.output[i])[1] == Settle("tool:" + id, [whole]);
      FinalIsThere(e.output, i, Settle("tool:" + id, [whole]));
      FinalsAreMoves(e);
    } else {
      ToolMoves(e);
      assert Moves(e)[1] in Moves(e);
    }
  }

  // ---------------------------------------------------------------------------
  // The whole translation

  /** Exactly once, from upstream events to the client's blocks. Up to the event that
      ends the stream: if events name their messages, the client holds one text block
      for each of some of them and no other, and a message honestly and wholly said is
      among them with its full text. The same for tool calls and their arguments. */
  method TranslateItems(t: StreamTranslator, es: seq<Event>) returns (result: PipeResult, ghost sealed: seq<Out>, ghost ended: nat,
      ghost texts: map<string, nat>, ghost tools: map<string, nat>)
    requires t.Valid() && !t.started && !t.finished && t.views == map[] && t.out == []
    modifies t
    ensures sealed <= t.out && ended <= |es| && (t.finished ==> Complete(sealed))
    ensures forall k :: 0 <= k < |es| && !(exists j :: 0 <= j <= k && es[j].Malformed?) && EndsStream(es[k]) ==> t.finished && ended <= k + 1
    ensures !t.finished && result != BadEvent ==> ended == |es|
    ensures (forall k :: 0 <= k < ended ==> NamesMessages(es[k])) ==>
              && OneBlockEach(texts, MessagesIn(es[..ended]), Begun(sealed, Text))
              && forall id, full :: HonestMessage(es[..ended], id, full) && full != "" && Said1(es[..ended], id, full) ==>
                   id in texts && Content(sealed, texts[id]) == full
    ensures (forall k :: 0 <= k < ended ==> NamesTools(es[k])) ==>
              && OneBlockEach(tools, ToolsIn(es[..ended]), Begun(sealed, Tool))
              && forall id, full :: HonestTool(es[..ended], id, full) && full != "" && Called(es[..ended], id, full) ==>
                   id in tools && Content(sealed, tools[id]) == full
  {
    hide StreamTranslator.Valid, AsTold, OnlyTold, Play, AllMoves, Complete, Scan, Content, NamesMessages, NamesTools, HonestMessage, Said1,
      HonestTool, Called, OneBlockEach, AllQuiet, ClosedAll;
    var read;
    ghost var rest;
    result, read, sealed, ended, rest := Pipe(t, es);
    texts, tools := map[], map[];
    if forall k :: 0 <= k < ended ==> NamesMessages(es[k]) {
      texts := MessageBlocks(es[..ended], t.blocks, sealed);
    }
    if forall k :: 0 <= k < ended ==> NamesTools(es[k]) {
      tools := CallBlocks(es[..ended], t.blocks, sealed);
    }
  }
}
