/**
  The Anthropic event stream that internal/anthropic/stream.go writes: its
  events, the grammar a client relies on as a scanner over them, and what an
  accepted stream looks like.
 */
module StreamGrammar {
  import opened Common

  datatype Kind = Text | Tool | Thinking

  datatype Out =
    | MessageStart(id: string, model: string)
    | BlockStart(index: nat, kind: Kind, callId: string, name: string)
    | TextDelta(index: nat, text: string)
    | ArgsDelta(index: nat, json: string)
    | ThinkingDelta(index: nat, thinking: string)
    | SignatureDelta(index: nat, signature: string)
    | BlockStop(index: nat)
    | MessageDelta(stopReason: string)
    | MessageStop
    | ErrorEvent

  datatype Phase = Running | Signed | Closing | Done | Errored

  /** A scanner state: which blocks are open, and whether one of them is thinking. */
  datatype Scanner =
    | Broken
    | Ok(started: bool, next: nat, open: map<nat, Kind>, thinking: Option<nat>, phase: Phase)

  const FRESH := Ok(false, 0, map[], None, Running)

  function OpenAs(g: Scanner, index: nat, kind: Kind): bool
    requires g.Ok?
  {
    index in g.open && g.open[index] == kind
  }

  function Step(g: Scanner, o: Out): Scanner {
    if g.Broken? then Broken
    else if o.MessageStop? then if g.phase == Closing then g.(phase := Done) else Broken
    else if o.BlockStop? then
      if o.index !in g.open || (g.phase != Running && !(g.phase == Signed && g.thinking == Some(o.index))) then Broken
      else g.(open := g.open - {o.index}, thinking := if g.thinking == Some(o.index) then None else g.thinking, phase := Running)
    else if g.phase != Running then Broken
    else
      match o
      case MessageStart(_, _) => if g.started then Broken else g.(started := true)
      case BlockStart(i, kind, _, _) =>
        if !g.started || i != g.next || g.thinking.Some? then Broken
        else g.(next := i + 1, open := g.open[i := kind], thinking := if kind == Thinking then Some(i) else None)
      case TextDelta(i, _) => if g.thinking.None? && OpenAs(g, i, Text) then g else Broken
      case ArgsDelta(i, _) => if g.thinking.None? && OpenAs(g, i, Tool) then g else Broken
      case ThinkingDelta(i, _) => if OpenAs(g, i, Thinking) then g else Broken
      case SignatureDelta(i, _) => if OpenAs(g, i, Thinking) then g.(phase := Signed) else Broken
      case MessageDelta(_) => if g.started && g.open == map[] then g.(phase := Closing) else Broken
      case ErrorEvent => if g.open == map[] then g.(phase := Errored) else Broken
  }

  function Scan(out: seq<Out>): Scanner {
    if out == [] then FRESH else Step(Scan(out[..|out| - 1]), out[|out| - 1])
  }

  /** What one event adds to the text or the tool arguments of a block. */
  function Added(o: Out, index: nat): string {
    match o
    case TextDelta(i, text) => if i == index then text else ""
    case ArgsDelta(i, json) => if i == index then json else ""
    case _ => ""
  }

  /** The text or tool arguments emitted for a block. */
  function Content(out: seq<Out>, index: nat): string {
    if out == [] then "" else Content(out[..|out| - 1], index) + Added(out[|out| - 1], index)
  }

  /** The numbers of the blocks started as one kind. */
  function Begun(out: seq<Out>, kind: Kind): set<nat> {
    if out == [] then {}
    else
      var last := out[|out| - 1];
      Begun(out[..|out| - 1], kind) + if last.BlockStart? && last.kind == kind then {last.index} else {}
  }

  // ---------------------------------------------------------------------------
  // What an accepted stream is

  predicate Starts(o: Out, index: nat) {
    o.BlockStart? && o.index == index
  }

  predicate Stops(o: Out, index: nat) {
    o.BlockStop? && o.index == index
  }

  function Count(out: seq<Out>, p: Out -> bool): nat {
    if out == [] then 0 else Count(out[..|out| - 1], p) + if p(out[|out| - 1]) then 1 else 0
  }

  function StartOf(index: nat): Out -> bool {
    o => Starts(o, index)
  }

  function StopOf(index: nat): Out -> bool {
    o => Stops(o, index)
  }

  /** While the scanner accepts, block numbers count up from zero, each block has
      started once, and it has stopped once unless it is still open. */
  lemma {:induction false} BlocksAreBalanced(out: seq<Out>, index: nat)
    requires Scan(out).Ok?
    ensures var g := Scan(out);
            && Count(out, StartOf(index)) == (if index < g.next then 1 else 0)
            && Count(out, StopOf(index)) == (if index < g.next && index !in g.open then 1 else 0)
            && (index in g.open ==> index < g.next)
            && (!g.started ==> g.next == 0)
  {
    if out != [] {
      BlocksAreBalanced(out[..|out| - 1], index);
    }
  }

  lemma {:induction false} StartComesFirst(out: seq<Out>)
    requires Scan(out).Ok?
    ensures var g := Scan(out);
            && (g.started ==> out != [] && out[0].MessageStart? && forall k :: 0 < k < |out| ==> !out[k].MessageStart?)
            && (!g.started ==> (g.phase == Running && out == []) || (g.phase == Errored && out == [ErrorEvent]))
            && (g.phase == Done ==> g.started && |out| >= 2 && out[|out| - 1].MessageStop? && out[|out| - 2].MessageDelta? && g.open == map[])
            && (g.phase == Closing ==> g.started && out[|out| - 1].MessageDelta? && g.open == map[])
            && (g.phase == Errored ==> out != [] && out[|out| - 1].ErrorEvent? && g.open == map[])
            && (g.phase == Running || g.phase == Signed ==> forall k :: 0 <= k < |out| ==> !out[k].ErrorEvent? && !out[k].MessageStop?)
            && (g.phase == Signed ==> g.started)
  {
    if out != [] {
      StartComesFirst(out[..|out| - 1]);
    }
  }

  /** A finished stream: the grammar a client may rely on. */
  ghost predicate Complete(out: seq<Out>) {
    Scan(out).Ok? && (Scan(out).phase == Done || Scan(out).phase == Errored)
  }

  /** A finished stream is a lone error, or begins with its one message_start and
      ends with message_delta and message_stop or with an error; its blocks are
      numbered from zero without gaps, each started once and stopped once. */
  lemma CompleteMeans(out: seq<Out>)
    requires Complete(out)
    ensures out == [ErrorEvent] || (out[0].MessageStart? && forall k :: 0 < k < |out| ==> !out[k].MessageStart?)
    ensures out[|out| - 1].ErrorEvent? || (|out| >= 2 && out[|out| - 2].MessageDelta? && out[|out| - 1].MessageStop?)
    ensures var n := Scan(out).next;
            forall index: nat :: Count(out, StartOf(index)) == Count(out, StopOf(index)) == (if index < n then 1 else 0)
  {
    StartComesFirst(out);
    var n := Scan(out).next;
    forall index: nat
      ensures Count(out, StartOf(index)) == Count(out, StopOf(index)) == (if index < n then 1 else 0)
    {
      BlocksAreBalanced(out, index);
    }
  }

  /** Nothing may follow a finished stream: anything longer leaves the grammar. */
  lemma {:induction false} FinishedIsMaximal(out: seq<Out>, longer: seq<Out>)
    requires Complete(out) && out < longer
    ensures Scan(longer).Broken?
    decreases |longer|
  {
    var front := longer[..|longer| - 1];
    if front != out {
      FinishedIsMaximal(out, front);
    }
  }
}
