/**
  Path overrides written into a JSON body, with the paths of a rule taken in
  whatever order the map yields them; when that order cannot matter, and when it
  does. (internal/requestpatch/patch.go)
 */
module RequestPatch {
  import opened Common

  datatype Json =
    | Null
    | Bool(b: bool)
    | Num(text: string)
    | Str(text: string)
    | Arr(items: seq<Json>)
    | Obj(fields: map<string, Json>)

  type Path = seq<string>

  // ---------------------------------------------------------------------------
  // Segments

  predicate IsAppend(seg: string) {
    seg == "-1" || seg == "[]" || seg == "+"
  }

  predicate IsDigits(s: string) {
    s != "" && forall k :: 0 <= k < |s| ==> '0' <= s[k] <= '9'
  }

  function DigitsValue(s: string): nat
    requires forall k :: 0 <= k < |s| ==> '0' <= s[k] <= '9'
  {
    if s == "" then 0 else 10 * DigitsValue(s[..|s| - 1]) + (s[|s| - 1] as int - '0' as int)
  }

  const MAX_INT: int := 0x7fff_ffff_ffff_ffff

  /** A decimal 64-bit integer with an optional sign. */
  function Atoi(s: string): Option<int> {
    var signed := s != "" && (s[0] == '+' || s[0] == '-');
    var digits := if signed then s[1..] else s;
    if !IsDigits(digits) then None
    else
      var n: int := if signed && s[0] == '-' then 0 - DigitsValue(digits) else DigitsValue(digits);
      if -MAX_INT - 1 <= n <= MAX_INT then Some(n) else None
  }

  predicate IsArraySegment(seg: string) {
    IsAppend(seg) || Atoi(seg).Some?
  }

  function SplitPath(path: string): Path {
    Pieces(path, "")
  }

  function Pieces(path: string, piece: string): Path
    decreases |path|
  {
    var done := if piece == "" then [] else [piece];
    if path == "" then done
    else if path[0] == '.' then done + Pieces(path[1..], "")
    else Pieces(path[1..], piece + [path[0]])
  }

  // ---------------------------------------------------------------------------
  // Writing

  /** The container made where there is none, from the segment that enters it. */
  function NewFor(seg: string): Json {
    if IsArraySegment(seg) then Arr([]) else Obj(map[])
  }

  /** The array with nulls up to and including the index. */
  function Padded(items: seq<Json>, index: nat): (padded: seq<Json>)
    ensures |padded| == if index < |items| then |items| else index + 1
    ensures forall k :: 0 <= k < |padded| ==> padded[k] == if k < |items| then items[k] else Null
    decreases index + 1 - |items|
  {
    if index < |items| then items else Padded(items + [Null], index)
  }

  function TypeOf(value: Json): string {
    if value.Obj? && "type" in value.fields && value.fields["type"].Str? then value.fields["type"].text else ""
  }

  /** A tool of a type already present is not appended again. */
  predicate SkipsAppend(items: seq<Json>, value: Json) {
    TypeOf(value) != "" && exists k :: 0 <= k < |items| && TypeOf(items[k]) == TypeOf(value)
  }

  function ChildIn(fields: map<string, Json>, segs: Path): Json
    requires |segs| > 1
  {
    if segs[0] !in fields || fields[segs[0]] == Null then NewFor(segs[1]) else fields[segs[0]]
  }

  function Put(node: Json, segs: Path, value: Json): Option<Json>
    decreases |segs|
  {
    if segs == [] then None
    else
      match node
      case Obj(fields) =>
        if IsAppend(segs[0]) then None
        else if |segs| == 1 then Some(Obj(fields[segs[0] := value]))
        else
          (match Put(ChildIn(fields, segs), segs[1..], value)
           case None => None
           case Some(child) => Some(Obj(fields[segs[0] := child])))
      case Arr(items) =>
        if IsAppend(segs[0]) then
          if |segs| > 1 then None
          else if SkipsAppend(items, value) then Some(node)
          else Some(Arr(items + [value]))
        else if Atoi(segs[0]).None? || Atoi(segs[0]).value < 0 then None
        else
          var index := Atoi(segs[0]).value;
          var padded := Padded(items, index);
          if |segs| == 1 then Some(Arr(padded[index := value]))
          else if padded[index] == Null && IsArraySegment(segs[1]) then None
          else
            var child := if padded[index] == Null then Obj(map[]) else padded[index];
            if !child.Obj? then None
            else
              (match Put(child, segs[1..], value)
               case None => None
               case Some(after) => Some(Arr(padded[index := after])))
      case _ => None
  }

  /** The value at a path. */
  function At(node: Json, segs: Path): Option<Json>
    decreases |segs|
  {
    if segs == [] then Some(node)
    else
      match node
      case Obj(fields) => if segs[0] in fields then At(fields[segs[0]], segs[1..]) else None
      case Arr(items) =>
        if Atoi(segs[0]).Some? && 0 <= Atoi(segs[0]).value < |items| then At(items[Atoi(segs[0]).value], segs[1..]) else None
      case _ => None
  }

  predicate AppendFree(segs: Path) {
    forall k :: 0 <= k < |segs| ==> !IsAppend(segs[k])
  }

  predicate Works(node: Json, segs: Path) {
    Put(node, segs, Null).Some?
  }

  /** Whether a path can be written does not depend on the value, and writing
      never turns a container into something else. */
  lemma {:induction false} WorksForAny(node: Json, segs: Path, value: Json)
    requires AppendFree(segs)
    ensures Put(node, segs, value).Some? == Works(node, segs)
    ensures Works(node, segs) ==>
              var put := Put(node, segs, value).value;
              put.Obj? == node.Obj? && put.Arr? == node.Arr? && (node.Obj? || node.Arr?)
    decreases |segs|
  {
    if |segs| > 1 {
      hide Atoi, IsArraySegment, IsAppend;
      assert AppendFree(segs[1..]) by {
        forall k | 0 <= k < |segs[1..]| ensures !IsAppend(segs[1..][k]) {
          assert segs[1..][k] == segs[k + 1];
        }
      }
      forall child ensures Put(child, segs[1..], value).Some? == Works(child, segs[1..]) {
        WorksForAny(child, segs[1..], value);
      }
    }
  }

  /** What was written is what is read. */
  lemma {:induction false} ReadsBack(node: Json, segs: Path, value: Json)
    requires AppendFree(segs) && Put(node, segs, value).Some?
    ensures At(Put(node, segs, value).value, segs) == Some(value)
    decreases |segs|
  {
    hide Atoi, IsArraySegment, IsAppend, SkipsAppend;
    if |segs| == 1 {
      assert segs[1..] == [];
    } else {
      AppendFreeTail(segs);
      match node
      case Obj(fields) => ReadsBack(ChildIn(fields, segs), segs[1..], value);
      case Arr(items) =>
        var index := Atoi(segs[0]).value;
        var there := Padded(items, index)[index];
        ReadsBack(if there == Null then Obj(map[]) else there, segs[1..], value);
      case _ =>
    }
  }

  lemma AppendFreeTail(segs: Path)
    requires AppendFree(segs) && segs != []
    ensures AppendFree(segs[1..]) && !IsAppend(segs[0])
  {
  }

  // ---------------------------------------------------------------------------
  // Two paths

  function Then(node: Json, p: Path, v: Json, q: Path, w: Json): Option<Json> {
    match Put(node, p, v)
    case None => None
    case Some(after) => Put(after, q, w)
  }

  /** The node an array path goes into at an index, missing and null alike. */
  function Element(items: seq<Json>, index: nat): Json {
    var there := if index < |items| then items[index] else Null;
    if there == Null then Obj(map[]) else there
  }

  /** The paths part company at this body: at the first container where they do
      not take the same child they take different ones, and until then a missing
      container is made of the same kind for both. In an array, spellings of one
      index are the same child. */
  predicate Apart(node: Json, p: Path, q: Path)
    decreases |p|
  {
    p != [] && q != []
    && match node
       case Obj(fields) =>
         p[0] != q[0]
         || (|p| > 1 && |q| > 1 && ChildIn(fields, p) == ChildIn(fields, q) && Apart(ChildIn(fields, p), p[1..], q[1..]))
       case Arr(items) =>
         Atoi(p[0]) != Atoi(q[0])
         || (|p| > 1 && |q| > 1 && Atoi(p[0]).Some? && Atoi(p[0]).value >= 0
             && Apart(Element(items, Atoi(p[0]).value), p[1..], q[1..]))
       case _ => false
  }

  lemma PutInObj(fields: map<string, Json>, p: Path, v: Json)
    requires |p| > 1 && !IsAppend(p[0])
    ensures Put(Obj(fields), p, v) == match Put(ChildIn(fields, p), p[1..], v)
                                      case None => None
                                      case Some(child) => Some(Obj(fields[p[0] := child]))
  {
  }

  lemma PutInArr(items: seq<Json>, p: Path, v: Json)
    requires |p| > 1 && AppendFree(p) && Works(Arr(items), p)
    ensures Atoi(p[0]).Some? && Atoi(p[0]).value >= 0
    ensures var index := Atoi(p[0]).value;
            && (index >= |items| || items[index] == Null ==> !IsArraySegment(p[1]))
            && Element(items, index).Obj? && Works(Element(items, index), p[1..])
            && Put(Element(items, index), p[1..], v).Some?
            && Put(Arr(items), p, v) == Some(Arr(Padded(items, index)[index := Put(Element(items, index), p[1..], v).value]))
  {
    AppendFreeTail(p);
    hide Atoi, IsArraySegment, IsAppend;
    WorksForAny(Element(items, Atoi(p[0]).value), p[1..], v);
  }

  /** Paths that part company write in either order to the same effect, and both succeed. */
  lemma {:induction false} Commute(node: Json, p: Path, v: Json, q: Path, w: Json)
    requires AppendFree(p) && AppendFree(q) && Works(node, p) && Works(node, q) && Apart(node, p, q)
    ensures Then(node, p, v, q, w) == Then(node, q, w, p, v)
    ensures Then(node, p, v, q, w).Some?
    decreases |p|
  {
    hide Atoi, IsArraySegment, IsAppend, Apart;
    WorksForAny(node, p, v);
    WorksForAny(node, q, w);
    if node.Obj? {
      CommuteInObj(node.fields, p, v, q, w);
    } else {
      CommuteInArr(node.items, p, v, q, w);
    }
  }

  lemma CommuteInObj(fields: map<string, Json>, p: Path, v: Json, q: Path, w: Json)
    requires AppendFree(p) && AppendFree(q) && Works(Obj(fields), p) && Works(Obj(fields), q) && Apart(Obj(fields), p, q)
    ensures Then(Obj(fields), p, v, q, w) == Then(Obj(fields), q, w, p, v)
    ensures Then(Obj(fields), p, v, q, w).Some?
    decreases |p|, 0
  {
    var a := ObjWrite(fields, p, v);
    var b := ObjWrite(fields, q, w);
    if p[0] != q[0] {
      ElsewhereInObj(fields, p, v, a, q, w, b);
    } else {
      var child := ChildIn(fields, p);
      assert |p| > 1 && |q| > 1 && child == ChildIn(fields, q) && Apart(child, p[1..], q[1..]);
      hide Put, Apart, NewFor;
      AppendFreeTail(p);
      AppendFreeTail(q);
      Commute(child, p[1..], v, q[1..], w);
      SameKey(fields, p, v, a, q, w, b);
    }
  }

  /** A path's tail writes `child` under its first key. */
  predicate ObjWritten(fields: map<string, Json>, p: Path, v: Json, child: Json)
    requires p != []
  {
    if |p| == 1 then child == v else Put(ChildIn(fields, p), p[1..], v) == Some(child)
  }

  lemma ObjWrite(fields: map<string, Json>, p: Path, v: Json) returns (child: Json)
    requires AppendFree(p) && Works(Obj(fields), p)
    ensures ObjWritten(fields, p, v, child)
    ensures |p| > 1 ==> child != Null && Works(ChildIn(fields, p), p[1..])
  {
    AppendFreeTail(p);
    hide Atoi, IsArraySegment, IsAppend;
    if |p| == 1 {
      child := v;
    } else {
      WorksForAny(ChildIn(fields, p), p[1..], v);
      child := Put(ChildIn(fields, p), p[1..], v).value;
    }
  }

  /** An object write depends on the object only through its own key. */
  lemma ObjWriteInto(fields: map<string, Json>, p: Path, v: Json, child: Json)
    requires AppendFree(p) && p != [] && ObjWritten(fields, p, v, child)
    ensures Put(Obj(fields), p, v) == Some(Obj(fields[p[0] := child]))
  {
  }

  lemma ElsewhereInObj(fields: map<string, Json>, p: Path, v: Json, a: Json, q: Path, w: Json, b: Json)
    requires AppendFree(p) && AppendFree(q) && p != [] && q != [] && p[0] != q[0]
    requires ObjWritten(fields, p, v, a) && ObjWritten(fields, q, w, b)
    ensures Then(Obj(fields), p, v, q, w) == Then(Obj(fields), q, w, p, v)
    ensures Then(Obj(fields), p, v, q, w).Some?
  {
    hide Put, AppendFree, NewFor;
    ObjWriteInto(fields, p, v, a);
    ObjWriteInto(fields, q, w, b);
    ObjWriteInto(fields[p[0] := a], q, w, b);
    ObjWriteInto(fields[q[0] := b], p, v, a);
    assert fields[p[0] := a][q[0] := b] == fields[q[0] := b][p[0] := a];
  }

  lemma SameKey(fields: map<string, Json>, p: Path, v: Json, a: Json, q: Path, w: Json, b: Json)
    requires AppendFree(p) && AppendFree(q) && |p| > 1 && |q| > 1 && p[0] == q[0]
    requires ObjWritten(fields, p, v, a) && ObjWritten(fields, q, w, b) && a != Null && b != Null
    requires ChildIn(fields, p) == ChildIn(fields, q)
    requires Then(ChildIn(fields, p), p[1..], v, q[1..], w) == Then(ChildIn(fields, p), q[1..], w, p[1..], v)
    requires Then(ChildIn(fields, p), p[1..], v, q[1..], w).Some?
    ensures Then(Obj(fields), p, v, q, w) == Then(Obj(fields), q, w, p, v)
    ensures Then(Obj(fields), p, v, q, w).Some?
  {
    hide Put, AppendFree, NewFor;
    var both := Then(ChildIn(fields, p), p[1..], v, q[1..], w).value;
    ObjWriteInto(fields, p, v, a);
    ObjWriteInto(fields, q, w, b);
    ObjWriteInto(fields[p[0] := a], q, w, both);
    ObjWriteInto(fields[q[0] := b], p, v, both);
    assert fields[p[0] := a][p[0] := both] == fields[p[0] := b][p[0] := both];
  }

  /** A path's tail writes `child` into the element at its index. */
  predicate ArrWritten(items: seq<Json>, p: Path, v: Json, index: nat, child: Json)
    requires p != []
  {
    if |p| == 1 then child == v
    else
      && Put(Element(items, index), p[1..], v) == Some(child)
      && Element(items, index).Obj?
      && (index >= |items| || items[index] == Null ==> !IsArraySegment(p[1]))
  }

  lemma ArrWrite(items: seq<Json>, p: Path, v: Json) returns (index: nat, child: Json)
    requires AppendFree(p) && Works(Arr(items), p)
    ensures Atoi(p[0]) == Some(index) && ArrWritten(items, p, v, index, child)
    ensures |p| > 1 ==> child.Obj? && Works(Element(items, index), p[1..])
  {
    AppendFreeTail(p);
    hide Atoi, IsArraySegment, IsAppend;
    index := Atoi(p[0]).value;
    if |p| == 1 {
      child := v;
    } else {
      PutInArr(items, p, v);
      AppendFreeTail(p);
      WorksForAny(Element(items, index), p[1..], v);
      child := Put(Element(items, index), p[1..], v).value;
    }
  }

  /** An array write depends on the array only through its own element and the length. */
  lemma ArrWriteInto(items: seq<Json>, p: Path, v: Json, index: nat, child: Json)
    requires AppendFree(p) && p != [] && Atoi(p[0]) == Some(index) && ArrWritten(items, p, v, index, child)
    ensures Put(Arr(items), p, v) == Some(Arr(Padded(items, index)[index := child]))
  {
  }

  lemma CommuteInArr(items: seq<Json>, p: Path, v: Json, q: Path, w: Json)
    requires AppendFree(p) && AppendFree(q) && Works(Arr(items), p) && Works(Arr(items), q) && Apart(Arr(items), p, q)
    ensures Then(Arr(items), p, v, q, w) == Then(Arr(items), q, w, p, v)
    ensures Then(Arr(items), p, v, q, w).Some?
    decreases |p|, 0
  {
    var i, a := ArrWrite(items, p, v);
    var j, b := ArrWrite(items, q, w);
    if i != j {
      ElsewhereInArr(items, p, v, i, a, q, w, j, b);
    } else {
      var element := Element(items, i);
      assert |p| > 1 && |q| > 1 && Apart(element, p[1..], q[1..]);
      AppendFreeTail(p);
      AppendFreeTail(q);
      Commute(element, p[1..], v, q[1..], w);
      SameElement(items, p, v, i, a, q, w, b);
    }
  }

  lemma ElsewhereInArr(items: seq<Json>, p: Path, v: Json, i: nat, a: Json, q: Path, w: Json, j: nat, b: Json)
    requires AppendFree(p) && AppendFree(q) && p != [] && q != [] && i != j
    requires Atoi(p[0]) == Some(i) && Atoi(q[0]) == Some(j)
    requires ArrWritten(items, p, v, i, a) && ArrWritten(items, q, w, j, b)
    ensures Then(Arr(items), p, v, q, w) == Then(Arr(items), q, w, p, v)
    ensures Then(Arr(items), p, v, q, w).Some?
  {
    hide Put, Atoi, IsArraySegment, AppendFree;
    var afterP := Padded(items, i)[i := a];
    var afterQ := Padded(items, j)[j := b];
    ArrWriteInto(items, p, v, i, a);
    ArrWriteInto(items, q, w, j, b);
    StillWritten(items, q, w, j, b, i, a);
    StillWritten(items, p, v, i, a, j, b);
    ArrWriteInto(afterP, q, w, j, b);
    ArrWriteInto(afterQ, p, v, i, a);
    PadEitherWay(items, i, a, j, b);
  }

  /** A write at another index leaves what a path writes at its own. */
  lemma StillWritten(items: seq<Json>, p: Path, v: Json, i: nat, a: Json, j: nat, b: Json)
    requires p != [] && i != j && ArrWritten(items, p, v, i, a)
    ensures ArrWritten(Padded(items, j)[j := b], p, v, i, a)
  {
    hide Put, IsArraySegment;
    assert Element(Padded(items, j)[j := b], i) == Element(items, i);
  }

  lemma PadEitherWay(items: seq<Json>, i: nat, a: Json, j: nat, b: Json)
    requires i != j
    ensures Padded(Padded(items, i)[i := a], j)[j := b] == Padded(Padded(items, j)[j := b], i)[i := a]
  {
  }

  lemma SameElement(items: seq<Json>, p: Path, v: Json, i: nat, a: Json, q: Path, w: Json, b: Json)
    requires AppendFree(p) && AppendFree(q) && |p| > 1 && |q| > 1
    requires Atoi(p[0]) == Some(i) && Atoi(q[0]) == Some(i)
    requires ArrWritten(items, p, v, i, a) && ArrWritten(items, q, w, i, b) && a.Obj? && b.Obj?
    requires Then(Element(items, i), p[1..], v, q[1..], w) == Then(Element(items, i), q[1..], w, p[1..], v)
    requires Then(Element(items, i), p[1..], v, q[1..], w).Some?
    ensures Then(Arr(items), p, v, q, w) == Then(Arr(items), q, w, p, v)
    ensures Then(Arr(items), p, v, q, w).Some?
  {
    hide Put, Atoi, IsArraySegment, AppendFree;
    var both := Then(Element(items, i), p[1..], v, q[1..], w).value;
    var afterP := Padded(items, i)[i := a];
    var afterQ := Padded(items, i)[i := b];
    assert Element(afterP, i) == a && Element(afterQ, i) == b;
    ArrWriteInto(items, p, v, i, a);
    ArrWriteInto(items, q, w, i, b);
    ArrWriteInto(afterP, q, w, i, both);
    ArrWriteInto(afterQ, p, v, i, both);
    assert Padded(afterP, i)[i := both] == Padded(afterQ, i)[i := both];
  }

  // ---------------------------------------------------------------------------
  // And only then

  /** Paths that do not part company can be told from their order by what they write. */
  lemma {:induction false} Clash(node: Json, p: Path, q: Path)
    requires AppendFree(p) && AppendFree(q) && Works(node, p) && Works(node, q) && !Apart(node, p, q)
    ensures Then(node, p, Bool(true), q, Bool(false)) != Then(node, q, Bool(false), p, Bool(true))
    decreases |p|
  {
    hide Atoi, IsArraySegment, IsAppend, Apart;
    WorksForAny(node, p, Null);
    if node.Obj? {
      ClashInObj(node.fields, p, q);
    } else {
      ClashInArr(node.items, p, q);
    }
  }

  lemma ClashInObj(fields: map<string, Json>, p: Path, q: Path)
    requires AppendFree(p) && AppendFree(q) && Works(Obj(fields), p) && Works(Obj(fields), q) && !Apart(Obj(fields), p, q)
    ensures Then(Obj(fields), p, Bool(true), q, Bool(false)) != Then(Obj(fields), q, Bool(false), p, Bool(true))
    decreases |p|, 0
  {
    var a := ObjWrite(fields, p, Bool(true));
    var b := ObjWrite(fields, q, Bool(false));
    assert p[0] == q[0];
    if |p| > 1 && |q| > 1 && ChildIn(fields, p) == ChildIn(fields, q) {
      var child := ChildIn(fields, p);
      AppendFreeTail(p);
      AppendFreeTail(q);
      Clash(child, p[1..], q[1..]);
      ClashCarries(fields, p, a, q, b);
    } else if |p| > 1 && |q| > 1 {
      KindsClash(fields, p, a, q, b);
    } else {
      ScalarClash(fields, p, a, q, b);
    }
  }

  lemma ClashCarries(fields: map<string, Json>, p: Path, a: Json, q: Path, b: Json)
    requires AppendFree(p) && AppendFree(q) && |p| > 1 && |q| > 1 && p[0] == q[0] && ChildIn(fields, p) == ChildIn(fields, q)
    requires ObjWritten(fields, p, Bool(true), a) && ObjWritten(fields, q, Bool(false), b) && a != Null && b != Null
    requires Then(ChildIn(fields, p), p[1..], Bool(true), q[1..], Bool(false)) != Then(ChildIn(fields, p), q[1..], Bool(false), p[1..], Bool(true))
    ensures Then(Obj(fields), p, Bool(true), q, Bool(false)) != Then(Obj(fields), q, Bool(false), p, Bool(true))
  {
    ObjWriteInto(fields, p, Bool(true), a);
    ObjWriteInto(fields, q, Bool(false), b);
    AppendFreeTail(p);
    AppendFreeTail(q);
    PutInObj(fields[p[0] := a], q, Bool(false));
    PutInObj(fields[q[0] := b], p, Bool(true));
    hide Put, AppendFree, NewFor;
    var one := Put(a, q[1..], Bool(false));
    var two := Put(b, p[1..], Bool(true));
    if one.Some? && two.Some? {
      assert fields[p[0] := a][q[0] := one.value][p[0]] == one.value;
      assert fields[q[0] := b][p[0] := two.value][p[0]] == two.value;
    }
  }

  /** One path ends where the other goes on, or both end: the last scalar stays or blocks the way. */
  lemma ScalarClash(fields: map<string, Json>, p: Path, a: Json, q: Path, b: Json)
    requires AppendFree(p) && AppendFree(q) && p != [] && q != [] && p[0] == q[0] && (|p| == 1 || |q| == 1)
    requires ObjWritten(fields, p, Bool(true), a) && ObjWritten(fields, q, Bool(false), b)
    ensures Then(Obj(fields), p, Bool(true), q, Bool(false)) != Then(Obj(fields), q, Bool(false), p, Bool(true))
  {
    ObjWriteInto(fields, p, Bool(true), a);
    ObjWriteInto(fields, q, Bool(false), b);
    AppendFreeTail(p);
    AppendFreeTail(q);
    if |p| == 1 {
      ObjWriteInto(fields[q[0] := b], p, Bool(true), Bool(true));
      if |q| == 1 {
        ObjWriteInto(fields[p[0] := a], q, Bool(false), Bool(false));
        assert fields[p[0] := a][q[0] := Bool(false)][p[0]] == Bool(false);
        assert fields[q[0] := b][p[0] := Bool(true)][p[0]] == Bool(true);
      } else {
        PutInObj(fields[p[0] := a], q, Bool(false));
        assert Put(a, q[1..], Bool(false)).None?;
      }
    } else {
      PutInObj(fields[q[0] := b], p, Bool(true));
      assert Put(b, p[1..], Bool(true)).None?;
      ObjWriteInto(fields[p[0] := a], q, Bool(false), Bool(false));
    }
  }

  /** A missing container made an array by one path and an object by the other. */
  lemma KindsClash(fields: map<string, Json>, p: Path, a: Json, q: Path, b: Json)
    requires AppendFree(p) && AppendFree(q) && |p| > 1 && |q| > 1 && p[0] == q[0] && ChildIn(fields, p) != ChildIn(fields, q)
    requires ObjWritten(fields, p, Bool(true), a) && ObjWritten(fields, q, Bool(false), b)
    ensures Then(Obj(fields), p, Bool(true), q, Bool(false)) != Then(Obj(fields), q, Bool(false), p, Bool(true))
  {
    ObjWriteInto(fields, p, Bool(true), a);
    ObjWriteInto(fields, q, Bool(false), b);
    AppendFreeTail(p);
    AppendFreeTail(q);
    PutInObj(fields[p[0] := a], q, Bool(false));
    PutInObj(fields[q[0] := b], p, Bool(true));
    if IsArraySegment(p[1]) {
      MixedKinds(p[1..], Bool(true), a, q[1..], Bool(false), b);
    } else {
      MixedKinds(q[1..], Bool(false), b, p[1..], Bool(true), a);
    }
  }

  /** Into a fresh array one tail works and the other does not; into the object
      the other makes, both do. */
  lemma MixedKinds(p: Path, v: Json, a: Json, q: Path, w: Json, b: Json)
    requires AppendFree(p) && AppendFree(q) && p != [] && q != [] && IsArraySegment(p[0]) && !IsArraySegment(q[0])
    requires Put(Arr([]), p, v) == Some(a) && Put(Obj(map[]), q, w) == Some(b)
    ensures a.Arr? && b.Obj?
    ensures Put(a, q, w).None? && Put(b, p, v).Some?
  {
  }

  lemma ClashInArr(items: seq<Json>, p: Path, q: Path)
    requires AppendFree(p) && AppendFree(q) && Works(Arr(items), p) && Works(Arr(items), q) && !Apart(Arr(items), p, q)
    ensures Then(Arr(items), p, Bool(true), q, Bool(false)) != Then(Arr(items), q, Bool(false), p, Bool(true))
    decreases |p|, 0
  {
    var i, a := ArrWrite(items, p, Bool(true));
    var j, b := ArrWrite(items, q, Bool(false));
    assert i == j;
    if |p| > 1 && |q| > 1 {
      AppendFreeTail(p);
      AppendFreeTail(q);
      Clash(Element(items, i), p[1..], q[1..]);
      ElementClash(items, i, p, a, q, b);
    } else {
      ElementScalarClash(items, i, p, a, q, b);
    }
  }

  lemma ElementClash(items: seq<Json>, i: nat, p: Path, a: Json, q: Path, b: Json)
    requires AppendFree(p) && AppendFree(q) && |p| > 1 && |q| > 1 && Atoi(p[0]) == Some(i) && Atoi(q[0]) == Some(i)
    requires ArrWritten(items, p, Bool(true), i, a) && ArrWritten(items, q, Bool(false), i, b) && a.Obj? && b.Obj?
    requires Then(Element(items, i), p[1..], Bool(true), q[1..], Bool(false)) != Then(Element(items, i), q[1..], Bool(false), p[1..], Bool(true))
    ensures Then(Arr(items), p, Bool(true), q, Bool(false)) != Then(Arr(items), q, Bool(false), p, Bool(true))
  {
    hide Atoi, IsArraySegment, AppendFree;
    var afterP := Padded(items, i)[i := a];
    var afterQ := Padded(items, i)[i := b];
    ArrWriteInto(items, p, Bool(true), i, a);
    ArrWriteInto(items, q, Bool(false), i, b);
    ArrPut(afterP, q, Bool(false), i);
    ArrPut(afterQ, p, Bool(true), i);
    var one := Put(a, q[1..], Bool(false));
    var two := Put(b, p[1..], Bool(true));
    if one.Some? && two.Some? {
      assert afterP[i := one.value][i] != afterQ[i := two.value][i];
    }
  }

  /** Into an object that is there, an array path writes exactly what its tail writes. */
  lemma ArrPut(items: seq<Json>, p: Path, v: Json, i: nat)
    requires AppendFree(p) && |p| > 1 && Atoi(p[0]) == Some(i) && i < |items| && items[i].Obj?
    ensures Put(Arr(items), p, v) == match Put(items[i], p[1..], v)
                                     case None => None
                                     case Some(child) => Some(Arr(items[i := child]))
  {
  }

  lemma ElementScalarClash(items: seq<Json>, i: nat, p: Path, a: Json, q: Path, b: Json)
    requires AppendFree(p) && AppendFree(q) && p != [] && q != [] && Atoi(p[0]) == Some(i) && Atoi(q[0]) == Some(i)
    requires |p| == 1 || |q| == 1
    requires ArrWritten(items, p, Bool(true), i, a) && ArrWritten(items, q, Bool(false), i, b)
    ensures Then(Arr(items), p, Bool(true), q, Bool(false)) != Then(Arr(items), q, Bool(false), p, Bool(true))
  {
    ArrWriteInto(items, p, Bool(true), i, a);
    ArrWriteInto(items, q, Bool(false), i, b);
    AppendFreeTail(p);
    AppendFreeTail(q);
    hide Atoi, IsArraySegment, AppendFree, IsAppend;
    var afterP := Padded(items, i)[i := a];
    var afterQ := Padded(items, i)[i := b];
    if |p| == 1 {
      ArrWriteInto(afterQ, p, Bool(true), i, Bool(true));
      if |q| == 1 {
        ArrWriteInto(afterP, q, Bool(false), i, Bool(false));
        assert Padded(afterP, i)[i := Bool(false)][i] != Padded(afterQ, i)[i := Bool(true)][i];
      } else {
        assert Padded(afterP, i)[i] == Bool(true);
        assert Put(Arr(afterP), q, Bool(false)).None?;
      }
    } else {
      ArrWriteInto(afterP, q, Bool(false), i, Bool(false));
      assert Padded(afterQ, i)[i] == Bool(false);
      assert Put(Arr(afterQ), p, Bool(true)).None?;
    }
  }

  /** The exact condition: two paths that each work can be written in either
      order, whatever the values, if and only if they part company in the body. */
  lemma OrderFreeExactlyWhenApart(node: Json, p: Path, q: Path)
    requires AppendFree(p) && AppendFree(q) && Works(node, p) && Works(node, q)
    ensures Apart(node, p, q) <==> forall v, w :: Then(node, p, v, q, w) == Then(node, q, w, p, v)
  {
    hide Put, Works, AppendFree, Apart, Then;
    if Apart(node, p, q) {
      forall v, w ensures Then(node, p, v, q, w) == Then(node, q, w, p, v) {
        Commute(node, p, v, q, w);
      }
    } else {
      Clash(node, p, q);
    }
  }

  // ---------------------------------------------------------------------------
  // A whole rule

  /** Writing a third path leaves two paths apart, and still working. */
  lemma {:induction false} StillApart(node: Json, p: Path, q: Path, r: Path, u: Json)
    requires AppendFree(p) && AppendFree(q) && AppendFree(r) && Works(node, p) && Works(node, q) && Works(node, r)
    requires Apart(node, p, q) && Apart(node, p, r) && Apart(node, q, r)
    ensures Put(node, r, u).Some? && Apart(Put(node, r, u).value, p, q)
    decreases |p|
  {
    WorksForAny(node, r, u);
    if node.Obj? {
      StillApartInObj(node.fields, p, q, r, u);
    } else {
      StillApartInArr(node.items, p, q, r, u);
    }
  }

  lemma ObjChildWorks(fields: map<string, Json>, p: Path)
    requires |p| > 1 && Works(Obj(fields), p)
    ensures Works(ChildIn(fields, p), p[1..])
  {
  }

  lemma StillApartInObj(fields: map<string, Json>, p: Path, q: Path, r: Path, u: Json)
    requires AppendFree(p) && AppendFree(q) && AppendFree(r) && Works(Obj(fields), p) && Works(Obj(fields), q) && Works(Obj(fields), r)
    requires Apart(Obj(fields), p, q) && Apart(Obj(fields), p, r) && Apart(Obj(fields), q, r)
    ensures Put(Obj(fields), r, u).Some? && Apart(Put(Obj(fields), r, u).value, p, q)
    decreases |p|, 0
  {
    var c := ObjWrite(fields, r, u);
    ObjWriteInto(fields, r, u, c);
    if p[0] == q[0] && p[0] == r[0] {
      AppendFreeTail(p);
      AppendFreeTail(q);
      AppendFreeTail(r);
      ObjChildWorks(fields, p);
      ObjChildWorks(fields, q);
      StillApart(ChildIn(fields, p), p[1..], q[1..], r[1..], u);
    }
  }

  lemma StillApartInArr(items: seq<Json>, p: Path, q: Path, r: Path, u: Json)
    requires AppendFree(p) && AppendFree(q) && AppendFree(r) && Works(Arr(items), p) && Works(Arr(items), q) && Works(Arr(items), r)
    requires Apart(Arr(items), p, q) && Apart(Arr(items), p, r) && Apart(Arr(items), q, r)
    ensures Put(Arr(items), r, u).Some? && Apart(Put(Arr(items), r, u).value, p, q)
    decreases |p|, 0
  {
    var k, c := ArrWrite(items, r, u);
    var i, _ := ArrWrite(items, p, u);
    var j, _ := ArrWrite(items, q, u);
    hide Put, Atoi, IsArraySegment;
    ArrWriteInto(items, r, u, k, c);
    var after := Padded(items, k)[k := c];
    if i == j && i == k {
      AppendFreeTail(p);
      AppendFreeTail(q);
      AppendFreeTail(r);
      StillApart(Element(items, i), p[1..], q[1..], r[1..], u);
      assert Element(after, i) == c;
    } else if i == j {
      assert Element(after, i) == Element(items, i);
    }
  }

  type Rule = map<Path, Json>

  /** What a body must allow for the order of some paths not to matter: each is
      append-free and works alone, and they pairwise part company. */
  ghost predicate OrderFree(node: Json, paths: set<Path>) {
    && (forall p :: p in paths ==> AppendFree(p) && Works(node, p))
    && (forall p, q :: p in paths && q in paths && p != q ==> Apart(node, p, q))
  }

  /** The paths of a rule written in some order. */
  function WriteAll(node: Json, rule: Rule, order: seq<Path>): Option<Json>
    requires forall p :: p in order ==> p in rule
    decreases |order|
  {
    if order == [] then Some(node)
    else
      match Put(node, order[0], rule[order[0]])
      case None => None
      case Some(after) => WriteAll(after, rule, order[1..])
  }

  ghost predicate Orders<T(!new)>(order: seq<T>, paths: set<T>) {
    && (forall j, k :: 0 <= j < k < |order| ==> order[j] != order[k])
    && forall p :: p in order <==> p in paths
  }

  lemma OrderFreeAfter(node: Json, paths: set<Path>, p: Path, v: Json)
    requires OrderFree(node, paths) && p in paths
    ensures Put(node, p, v).Some? && OrderFree(Put(node, p, v).value, paths - {p})
  {
    hide Put, Works, AppendFree, Apart;
    WorksForAny(node, p, v);
    var after := Put(node, p, v).value;
    forall q | q in paths - {p} ensures AppendFree(q) && Works(after, q) {
      Commute(node, p, v, q, Null);
      PutThen(node, p, v, q);
    }
    forall q, r | q in paths - {p} && r in paths - {p} && q != r ensures Apart(after, q, r) {
      ApartIsMutual(node, p, r);
      ApartIsMutual(node, p, q);
      StillApart(node, q, r, p, v);
    }
  }

  lemma {:induction false} ApartIsMutual(node: Json, p: Path, q: Path)
    ensures Apart(node, p, q) == Apart(node, q, p)
    decreases |p|
  {
    hide Atoi, IsArraySegment;
    if |p| > 1 && |q| > 1 {
      forall child ensures Apart(child, p[1..], q[1..]) == Apart(child, q[1..], p[1..]) {
        ApartIsMutual(child, p[1..], q[1..]);
      }
    }
  }

  lemma PutThen(node: Json, p: Path, v: Json, q: Path)
    requires Then(node, p, v, q, Null).Some?
    ensures Put(node, p, v).Some? && Works(Put(node, p, v).value, q)
  {
  }

  function Without(order: seq<Path>, k: nat): seq<Path>
    requires k < |order|
  {
    order[..k] + order[k + 1..]
  }

  lemma WithoutOrders(order: seq<Path>, paths: set<Path>, k: nat)
    requires Orders(order, paths) && k < |order|
    ensures order[k] in paths && Orders(Without(order, k), paths - {order[k]})
  {
  }

  lemma WithoutTail(order: seq<Path>, k: nat)
    requires 0 < k < |order|
    ensures Without(order, k) == [order[0]] + Without(order[1..], k - 1)
  {
  }

  /** Any path of an order can be written first. */
  lemma {:induction false} WriteFirst(node: Json, rule: Rule, order: seq<Path>, paths: set<Path>, k: nat)
    requires OrderFree(node, paths) && paths <= rule.Keys && Orders(order, paths) && k < |order|
    ensures Put(node, order[k], rule[order[k]]).Some?
    ensures Orders(Without(order, k), paths - {order[k]})
    ensures WriteAll(node, rule, order) == WriteAll(Put(node, order[k], rule[order[k]]).value, rule, Without(order, k))
    decreases |order|
  {
    hide Put, Works, AppendFree, Apart, OrderFree;
    var first, p := order[0], order[k];
    WithoutOrders(order, paths, k);
    WithoutOrders(order, paths, 0);
    OrderFreeAfter(node, paths, p, rule[p]);
    OrderFreeAfter(node, paths, first, rule[first]);
    assert Without(order, 0) == order[1..];
    if k > 0 {
      var after := Put(node, first, rule[first]).value;
      WriteFirst(after, rule, order[1..], paths - {first}, k - 1);
      TwoCommute(node, paths, first, rule[first], p, rule[p]);
      WithoutTail(order, k);
    }
  }

  lemma TwoCommute(node: Json, paths: set<Path>, p: Path, v: Json, q: Path, w: Json)
    requires OrderFree(node, paths) && p in paths && q in paths && p != q
    ensures Put(node, p, v).Some? && Put(node, q, w).Some?
    ensures Put(Put(node, p, v).value, q, w) == Put(Put(node, q, w).value, p, v)
  {
    hide Put, Works, AppendFree, Apart;
    WorksForAny(node, p, v);
    WorksForAny(node, q, w);
    Commute(node, p, v, q, w);
  }

  lemma FirstIsOrdered<T(!new)>(order: seq<T>, paths: set<T>)
    requires Orders(order, paths) && order != []
    ensures order[0] in paths
  {
  }

  /** Order independence: every order of the rule's paths writes the same body. */
  lemma {:induction false} AnyOrder(node: Json, rule: Rule, paths: set<Path>, one: seq<Path>, two: seq<Path>)
    requires OrderFree(node, paths) && paths <= rule.Keys && Orders(one, paths) && Orders(two, paths)
    ensures WriteAll(node, rule, one) == WriteAll(node, rule, two)
    ensures WriteAll(node, rule, one).Some?
    decreases |one|
  {
    hide Put, Works, AppendFree, Apart, OrderFree;
    if one == [] {
      if two != [] {
        FirstIsOrdered(two, paths);
        assert false;
      }
    } else {
      var p := one[0];
      assert p in paths;
      var k :| 0 <= k < |two| && two[k] == p;
      WriteFirst(node, rule, one, paths, 0);
      WriteFirst(node, rule, two, paths, k);
      OrderFreeAfter(node, paths, p, rule[p]);
      assert Without(one, 0) == one[1..];
      AnyOrder(Put(node, p, rule[p]).value, rule, paths - {p}, one[1..], Without(two, k));
    }
  }

  /** And each path then reads back its own value. */
  lemma EachReadsBack(node: Json, rule: Rule, order: seq<Path>, p: Path)
    requires OrderFree(node, rule.Keys) && Orders(order, rule.Keys) && p in rule
    ensures WriteAll(node, rule, order).Some? && At(WriteAll(node, rule, order).value, p) == Some(rule[p])
  {
    hide Put, Works, Apart, OrderFree, At;
    var k :| 0 <= k < |order| && order[k] == p;
    var rest := Without(order, k);
    WithoutOrders(order, rule.Keys, k);
    var last := rest + [p];
    assert forall j :: 0 <= j < |rest| ==> rest[j] in rule.Keys - {p} by {
      assert forall j :: 0 <= j < |rest| ==> rest[j] in rest;
    }
    AnyOrder(node, rule, rule.Keys, order, last);
    WriteLast(node, rule, rest, p);
    var before := WriteAll(node, rule, rest).value;
    assert AppendFree(p) by {
      OrderFreeMeans(node, rule.Keys, p);
    }
    ReadsBack(before, p, rule[p]);
  }

  lemma OrderFreeMeans(node: Json, paths: set<Path>, p: Path)
    requires OrderFree(node, paths) && p in paths
    ensures AppendFree(p) && Works(node, p)
  {
  }

  lemma {:induction false} WriteLast(node: Json, rule: Rule, rest: seq<Path>, p: Path)
    requires p in rule && forall q :: q in rest ==> q in rule
    requires WriteAll(node, rule, rest + [p]).Some?
    ensures WriteAll(node, rule, rest).Some?
    ensures WriteAll(node, rule, rest + [p]) == Put(WriteAll(node, rule, rest).value, p, rule[p])
    decreases |rest|
  {
    hide Put;
    if rest == [] {
      assert [] + [p] == [p] && [p][1..] == [];
    } else {
      assert (rest + [p])[1..] == rest[1..] + [p];
      WriteLast(Put(node, rest[0], rule[rest[0]]).value, rule, rest[1..], p);
    }
  }

  // ---------------------------------------------------------------------------
  // Reading the condition off the paths

  /** The paths differ before either ends; up to there they want the same kinds
      of container; and where they differ they are not two spellings of one index. */
  predicate Diverge(p: Path, q: Path) {
    p != [] && q != []
    && if p[0] == q[0] then |p| > 1 && |q| > 1 && IsArraySegment(p[1]) == IsArraySegment(q[1]) && Diverge(p[1..], q[1..])
       else Atoi(p[0]).None? || Atoi(p[0]) != Atoi(q[0])
  }

  lemma {:induction false} DivergingPathsPart(node: Json, p: Path, q: Path)
    requires AppendFree(p) && AppendFree(q) && Works(node, p) && Works(node, q) && Diverge(p, q)
    ensures Apart(node, p, q)
    decreases |p|
  {
    WorksForAny(node, p, Null);
    hide Atoi, IsArraySegment;
    if node.Arr? {
      var i, _ := ArrWrite(node.items, p, Null);
      var j, _ := ArrWrite(node.items, q, Null);
      if p[0] == q[0] {
        AppendFreeTail(p);
        AppendFreeTail(q);
        DivergingPathsPart(Element(node.items, i), p[1..], q[1..]);
      }
    } else if p[0] == q[0] {
      AppendFreeTail(p);
      AppendFreeTail(q);
      DivergingPathsPart(ChildIn(node.fields, p), p[1..], q[1..]);
    }
  }

  /** Without the last clause it fails: "a.1" and "a.01" are not prefixes of each
      other, want the same containers and each work, but name the same element. */
  lemma SpellingsOfOneIndex()
    ensures var p, q := ["a", "1"], ["a", "01"];
            && AppendFree(p) && AppendFree(q) && !(p <= q) && !(q <= p)
            && Works(Obj(map[]), p) && Works(Obj(map[]), q) && IsArraySegment(p[1]) == IsArraySegment(q[1])
            && Then(Obj(map[]), p, Bool(true), q, Bool(false)) != Then(Obj(map[]), q, Bool(false), p, Bool(true))
  {
    var p, q := ["a", "1"], ["a", "01"];
    assert "1"[..0] == "" && "01"[..1] == "0" && "0"[..0] == "";
    assert DigitsValue("1") == 1 && DigitsValue("0") == 0 && DigitsValue("01") == 1;
    assert Atoi("1") == Some(1) && Atoi("01") == Some(1);
    assert p[1..] == ["1"] && q[1..] == ["01"];
    assert ChildIn(map[], p) == Arr([]) == ChildIn(map[], q);
    assert !Apart(Arr([]), ["1"], ["01"]);
    assert !Apart(Obj(map[]), p, q);
    Clash(Obj(map[]), p, q);
  }

  // ---------------------------------------------------------------------------
  // Applying rules

  /** A configured rule: which models it is for, and raw values by dotted path
      (None when the raw value is not JSON). */
  datatype RuleSpec = RuleSpec(models: seq<string>, sets: map<string, Option<Json>>)

  predicate Matches(rule: RuleSpec, model: string) {
    rule.models == [] || exists m | m in rule.models :: m == "" || m == "*" || m == "default" || m == model
  }

  /** A rule without models, or with one of three wildcards among them, is for every
      model; any other is for just the models it names. */
  lemma MatchesMeans(rule: RuleSpec, model: string)
    ensures var wild := rule.models == [] || "" in rule.models || "*" in rule.models || "default" in rule.models;
            Matches(rule, model) <==> wild || model in rule.models
  {
  }

  ghost predicate Decodes(sets: map<string, Option<Json>>) {
    && (forall path :: path in sets ==> path != "" && sets[path].Some? && SplitPath(path) != [])
    && forall a, b :: a in sets && b in sets && a != b ==> SplitPath(a) != SplitPath(b)
  }

  ghost function RuleOf(sets: map<string, Option<Json>>): Rule
    requires Decodes(sets)
  {
    map path | path in sets :: SplitPath(path) := sets[path].value
  }

  lemma {:induction false} OrderExists<T(!new)>(paths: set<T>)
    ensures exists order :: Orders(order, paths)
    decreases |paths|
  {
    if paths == {} {
      assert Orders([], paths);
    } else {
      var p :| p in paths;
      OrderExists(paths - {p});
      var rest :| Orders(rest, paths - {p});
      assert forall j :: 0 <= j < |rest| ==> rest[j] in rest;
      assert Orders([p] + rest, paths);
    }
  }

  /** The effect of an order-free rule. */
  ghost function Effect(node: Json, rule: Rule): Option<Json> {
    OrderExists(rule.Keys);
    var order :| Orders(order, rule.Keys);
    WriteAll(node, rule, order)
  }

  /** Part of a rule is written: what is left is still order-free, and what is
      written is what some order of it writes. */
  ghost predicate Underway(doc: Json, sets: map<string, Option<Json>>, todo: set<string>, order: seq<Path>, node: Json)
    requires Decodes(sets)
  {
    && todo <= sets.Keys
    && OrderFree(node, Left(sets, todo))
    && Orders(order, RuleOf(sets).Keys - Left(sets, todo))
    && WriteAll(doc, RuleOf(sets), order) == Some(node)
  }

  lemma UnderwayFirst(doc: Json, sets: map<string, Option<Json>>)
    requires Decodes(sets) && OrderFree(doc, RuleOf(sets).Keys)
    ensures Underway(doc, sets, sets.Keys, [], doc)
  {
    hide SplitPath, OrderFree;
    assert Left(sets, sets.Keys) == RuleOf(sets).Keys;
  }

  lemma UnderwayNext(doc: Json, sets: map<string, Option<Json>>, todo: set<string>, order: seq<Path>,
      node: Json, path: string)
    requires Decodes(sets) && Underway(doc, sets, todo, order, node) && path in todo
    ensures path != "" && sets[path].Some? && SplitPath(path) != []
    ensures Put(node, SplitPath(path), sets[path].value).Some?
    ensures Underway(doc, sets, todo - {path}, order + [SplitPath(path)], Put(node, SplitPath(path), sets[path].value).value)
  {
    hide Put, SplitPath, OrderFree, Orders, WriteAll, RuleOf, Left;
    var p := SplitPath(path);
    LeftLess(sets, todo, path);
    OrderFreeAfter(node, Left(sets, todo), p, sets[path].value);
    OneMorePath(doc, RuleOf(sets), order, Left(sets, todo), p, node);
  }

  lemma UnderwayLast(doc: Json, sets: map<string, Option<Json>>, order: seq<Path>, node: Json)
    requires Decodes(sets) && Underway(doc, sets, {}, order, node) && OrderFree(doc, RuleOf(sets).Keys)
    ensures Some(node) == Effect(doc, RuleOf(sets))
    ensures forall path :: path in sets ==> At(node, SplitPath(path)) == sets[path]
  {
    hide Put, SplitPath, OrderFree, At, WriteAll;
    var rule := RuleOf(sets);
    assert rule.Keys - Left(sets, {}) == rule.Keys;
    AnyOrderIsEffect(doc, rule, order);
    forall path | path in sets ensures At(node, SplitPath(path)) == sets[path] {
      assert SplitPath(path) in rule && rule[SplitPath(path)] == sets[path].value;
      EachReadsBack(doc, rule, order, SplitPath(path));
    }
  }

  /** A rule's raw paths written in some order, bad ones refused. */
  function WriteKeys(node: Json, sets: map<string, Option<Json>>, order: seq<string>): Option<Json>
    requires forall path :: path in order ==> path in sets
    decreases |order|
  {
    if order == [] then Some(node)
    else
      var path := order[0];
      if path == "" || sets[path].None? || SplitPath(path) == [] then None
      else
        match Put(node, SplitPath(path), sets[path].value)
        case None => None
        case Some(after) => WriteKeys(after, sets, order[1..])
  }

  lemma {:induction false} WriteKeysJoin(node: Json, sets: map<string, Option<Json>>, first: seq<string>, rest: seq<string>)
    requires forall path :: path in first + rest ==> path in sets
    ensures forall path :: path in first || path in rest ==> path in sets
    ensures WriteKeys(node, sets, first + rest) ==
              match WriteKeys(node, sets, first) case None => None case Some(after) => WriteKeys(after, sets, rest)
    decreases |first|
  {
    hide Put, SplitPath;
    assert forall path :: path in first ==> path in first + rest;
    assert forall path :: path in rest ==> path in first + rest;
    if first == [] {
      assert first + rest == rest;
    } else {
      assert (first + rest)[1..] == first[1..] + rest;
      assert forall path :: path in first[1..] + rest ==> path in first + rest;
      var path := first[0];
      if path != "" && sets[path].Some? && SplitPath(path) != [] {
        var after := Put(node, SplitPath(path), sets[path].value);
        if after.Some? {
          WriteKeysJoin(after.value, sets, first[1..], rest);
        }
      }
    }
  }

  /** The map yields its paths in some order, and the result is what that order writes. */
  ghost predicate RuleYields(node: Json, sets: map<string, Option<Json>>, r: Option<Json>) {
    exists order :: Orders(order, sets.Keys) && r == WriteKeys(node, sets, order)
  }

  lemma YieldsSoFar(node: Json, sets: map<string, Option<Json>>, done: seq<string>, todo: set<string>, r: Option<Json>)
    requires todo <= sets.Keys && Orders(done, sets.Keys - todo)
    requires r == WriteKeys(node, sets, done) && (r.None? || todo == {})
    ensures RuleYields(node, sets, r)
  {
    hide WriteKeys;
    OrderExists(todo);
    var rest :| Orders(rest, todo);
    var order := done + rest;
    assert forall j :: 0 <= j < |done| ==> done[j] in done;
    assert forall j :: 0 <= j < |rest| ==> rest[j] in rest;
    assert Orders(order, sets.Keys);
    WriteKeysJoin(node, sets, done, rest);
    if todo == {} {
      if rest != [] {
        FirstIsOrdered(rest, todo);
        assert false;
      }
      assert order == done;
    }
  }

  lemma OneMoreKey(node: Json, sets: map<string, Option<Json>>, done: seq<string>, todo: set<string>, path: string, now: Json)
    requires todo <= sets.Keys && path in todo && Orders(done, sets.Keys - todo) && WriteKeys(node, sets, done) == Some(now)
    ensures Orders(done + [path], sets.Keys - (todo - {path}))
    ensures WriteKeys(node, sets, done + [path]) == WriteKeys(now, sets, [path])
  {
    hide WriteKeys;
    assert forall j :: 0 <= j < |done| ==> done[j] in done;
    WriteKeysJoin(node, sets, done, [path]);
  }

  /** Applies one rule, its paths in any order the map gives. */
  method ApplyRule(doc: Json, sets: map<string, Option<Json>>) returns (r: Option<Json>)
    ensures Decodes(sets) && OrderFree(doc, RuleOf(sets).Keys) ==>
              && r == Effect(doc, RuleOf(sets)) && r.Some?
              && forall path :: path in sets ==> At(r.value, SplitPath(path)) == sets[path]
    ensures RuleYields(doc, sets, r)
    ensures (exists path :: path in sets && (path == "" || sets[path].None? || SplitPath(path) == [])) ==> r.None?
  {
    hide Put, OrderFree, RuleOf, Decodes, Underway, SplitPath, At, Effect, Orders, RuleYields;
    var node := doc;
    var todo := sets.Keys;
    ghost var good := Decodes(sets) && OrderFree(doc, RuleOf(sets).Keys);
    ghost var order: seq<Path>, done: seq<string> := [], [];
    NothingDone(sets.Keys);
    if good {
      UnderwayFirst(doc, sets);
    }
    while todo != {}
      invariant todo <= sets.Keys
      invariant forall path :: path in sets && path !in todo ==> path != "" && sets[path].Some? && SplitPath(path) != []
      invariant Orders(done, sets.Keys - todo) && (forall path :: path in done ==> path in sets)
      invariant WriteKeys(doc, sets, done) == Some(node)
      invariant good ==> Underway(doc, sets, todo, order, node)
      decreases |todo|
    {
      var path :| path in todo;
      if good {
        UnderwayNext(doc, sets, todo, order, node, path);
      }
      OneMoreKey(doc, sets, done, todo, path, node);
      done := done + [path];
      if path == "" || sets[path].None? || SplitPath(path) == [] {
        YieldsSoFar(doc, sets, done, todo - {path}, None);
        return None;
      }
      order := order + [SplitPath(path)];
      var after := Put(node, SplitPath(path), sets[path].value);
      if after.None? {
        YieldsSoFar(doc, sets, done, todo - {path}, None);
        return None;
      }
      node := after.value;
      todo := todo - {path};
    }
    r := Some(node);
    YieldsSoFar(doc, sets, done, todo, r);
    if good {
      UnderwayLast(doc, sets, order, node);
    }
  }

  lemma NothingDone(paths: set<string>)
    ensures Orders([], paths - paths)
  {
  }

  ghost function Left(sets: map<string, Option<Json>>, todo: set<string>): set<Path> {
    set path | path in todo :: SplitPath(path)
  }

  lemma LeftLess(sets: map<string, Option<Json>>, todo: set<string>, path: string)
    requires Decodes(sets) && todo <= sets.Keys && path in todo
    ensures SplitPath(path) in Left(sets, todo)
    ensures Left(sets, todo - {path}) == Left(sets, todo) - {SplitPath(path)}
    ensures Left(sets, todo) <= RuleOf(sets).Keys && RuleOf(sets)[SplitPath(path)] == sets[path].value
  {
  }

  lemma AnyOrderIsEffect(doc: Json, rule: Rule, order: seq<Path>)
    requires OrderFree(doc, rule.Keys) && Orders(order, rule.Keys)
    ensures WriteAll(doc, rule, order) == Effect(doc, rule)
  {
    OrderExists(rule.Keys);
    forall other | Orders(other, rule.Keys) ensures WriteAll(doc, rule, order) == WriteAll(doc, rule, other) {
      AnyOrder(doc, rule, rule.Keys, order, other);
    }
  }

  lemma OneMorePath(doc: Json, rule: Rule, order: seq<Path>, rest: set<Path>, p: Path, node: Json)
    requires rest <= rule.Keys && p in rest && Orders(order, rule.Keys - rest) && WriteAll(doc, rule, order) == Some(node)
    ensures Orders(order + [p], rule.Keys - (rest - {p}))
    ensures WriteAll(doc, rule, order + [p]) == Put(node, p, rule[p])
  {
    assert forall j :: 0 <= j < |order| ==> order[j] in order;
    Appended(doc, rule, order, p);
  }

  lemma {:induction false} Appended(node: Json, rule: Rule, order: seq<Path>, p: Path)
    requires p in rule && forall q :: q in order ==> q in rule
    requires WriteAll(node, rule, order).Some?
    ensures WriteAll(node, rule, order + [p]) == Put(WriteAll(node, rule, order).value, p, rule[p])
    decreases |order|
  {
    hide Put;
    if order == [] {
      assert [] + [p] == [p] && [p][1..] == [];
    } else {
      assert (order + [p])[1..] == order[1..] + [p];
      Appended(Put(node, order[0], rule[order[0]]).value, rule, order[1..], p);
    }
  }

  datatype PatchResult = Patched(body: Json) | Rejected

  /** Every matching rule, in turn, is order-free for the body it meets. */
  ghost predicate AllOrderFree(body: Json, rules: seq<RuleSpec>, model: string)
    decreases |rules|
  {
    rules == []
    || if !Matches(rules[0], model) then AllOrderFree(body, rules[1..], model)
       else
         && Decodes(rules[0].sets) && OrderFree(body, RuleOf(rules[0].sets).Keys)
         && Effect(body, RuleOf(rules[0].sets)).Some?
         && AllOrderFree(Effect(body, RuleOf(rules[0].sets)).value, rules[1..], model)
  }

  ghost function AllEffects(body: Json, rules: seq<RuleSpec>, model: string): Json
    requires AllOrderFree(body, rules, model)
    decreases |rules|
  {
    if rules == [] then body
    else if !Matches(rules[0], model) then AllEffects(body, rules[1..], model)
    else AllEffects(Effect(body, RuleOf(rules[0].sets)).value, rules[1..], model)
  }

  /** What the matching rules can make of a body: each in turn, its paths in some order. */
  ghost predicate MayYield(node: Json, rules: seq<RuleSpec>, model: string, r: PatchResult)
    decreases |rules|
  {
    if rules == [] then r == Patched(node)
    else if !Matches(rules[0], model) then MayYield(node, rules[1..], model, r)
    else
      || (RuleYields(node, rules[0].sets, None) && r == Rejected)
      || exists after :: RuleYields(node, rules[0].sets, Some(after)) && MayYield(after, rules[1..], model, r)
  }

  lemma NoMoreRules(model: string)
    ensures forall node: Json, r :: MayYield(node, [], model, r) <==> r == Patched(node)
    ensures forall node: Json :: AllOrderFree(node, [], model) && AllEffects(node, [], model) == node
  {
  }

  /** Where the body stands after the first i rules. */
  ghost predicate SoFar(body: Json, rules: seq<RuleSpec>, model: string, i: nat, node: Json)
    requires i <= |rules|
  {
    && ((forall rule :: rule in rules ==> !Matches(rule, model)) ==> node == body)
    && (forall end :: MayYield(node, rules[i..], model, end) ==> MayYield(body, rules, model, end))
    && (AllOrderFree(body, rules, model) ==>
          AllOrderFree(node, rules[i..], model) && AllEffects(node, rules[i..], model) == AllEffects(body, rules, model))
  }

  lemma NoRulesYet(body: Json, rules: seq<RuleSpec>, model: string)
    ensures SoFar(body, rules, model, 0, body)
  {
    assert rules[0..] == rules;
  }

  lemma SoFarMeans(body: Json, rules: seq<RuleSpec>, model: string, i: nat, node: Json)
    requires i <= |rules| && SoFar(body, rules, model, i, node)
    ensures (forall rule :: rule in rules ==> !Matches(rule, model)) ==> node == body
    ensures forall end :: MayYield(node, rules[i..], model, end) ==> MayYield(body, rules, model, end)
    ensures AllOrderFree(body, rules, model) ==>
              AllOrderFree(node, rules[i..], model) && AllEffects(node, rules[i..], model) == AllEffects(body, rules, model)
  {
  }

  /** A rule that does not match changes nothing; one that does makes of the body what
      some order of its paths makes of it, or fails the request. */
  lemma OneRuleOn(body: Json, rules: seq<RuleSpec>, model: string, i: nat, node: Json, after: Option<Json>)
    requires i < |rules| && SoFar(body, rules, model, i, node)
    requires var sets := rules[i].sets;
             Matches(rules[i], model) ==>
               RuleYields(node, sets, after)
               && (Decodes(sets) && OrderFree(node, RuleOf(sets).Keys) ==> after == Effect(node, RuleOf(sets)) && after.Some?)
    ensures !Matches(rules[i], model) ==> SoFar(body, rules, model, i + 1, node)
    ensures Matches(rules[i], model) && after.Some? ==> SoFar(body, rules, model, i + 1, after.value)
    ensures Matches(rules[i], model) && after.None? ==>
              MayYield(body, rules, model, Rejected) && !AllOrderFree(body, rules, model)
  {
    hide Matches, OrderFree, Decodes, Effect, RuleOf, RuleYields, MayYield, AllOrderFree, AllEffects;
    assert rules[i..][1..] == rules[i + 1..] && rules[i..][0] == rules[i];
    assert rules[i] in rules;
    RuleAtATime(node, rules[i..], model);
  }

  /** What the first rule may do to the body decides what all of them may. */
  lemma RuleAtATime(node: Json, rules: seq<RuleSpec>, model: string)
    requires rules != []
    ensures !Matches(rules[0], model) ==>
              && (forall end :: MayYield(node, rules[1..], model, end) ==> MayYield(node, rules, model, end))
              && (AllOrderFree(node, rules, model) ==>
                    AllOrderFree(node, rules[1..], model) && AllEffects(node, rules[1..], model) == AllEffects(node, rules, model))
    ensures Matches(rules[0], model) ==>
              && (RuleYields(node, rules[0].sets, None) ==> MayYield(node, rules, model, Rejected))
              && (forall after, end :: RuleYields(node, rules[0].sets, Some(after)) && MayYield(after, rules[1..], model, end) ==>
                    MayYield(node, rules, model, end))
              && (AllOrderFree(node, rules, model) ==>
                    && Decodes(rules[0].sets) && OrderFree(node, RuleOf(rules[0].sets).Keys)
                    && Effect(node, RuleOf(rules[0].sets)).Some?
                    && AllOrderFree(Effect(node, RuleOf(rules[0].sets)).value, rules[1..], model)
                    && AllEffects(Effect(node, RuleOf(rules[0].sets)).value, rules[1..], model) == AllEffects(node, rules, model))
  {
    hide Matches, OrderFree, Decodes, Effect, RuleOf, RuleYields;
  }

  /** One round of the loop: the rule if it matches, or the body as it is. */
  method ApplyIfMatching(ghost body: Json, rules: seq<RuleSpec>, model: string, i: nat, node: Json) returns (after: Option<Json>)
    requires i < |rules| && SoFar(body, rules, model, i, node)
    ensures after.Some? ==> SoFar(body, rules, model, i + 1, after.value)
    ensures after.None? ==>
              && MayYield(body, rules, model, Rejected) && !AllOrderFree(body, rules, model)
              && exists rule :: rule in rules && Matches(rule, model)
  {
    hide Matches, OrderFree, Decodes, Effect, RuleOf, RuleYields, MayYield, AllOrderFree, AllEffects, SoFar, SplitPath, At;
    if !Matches(rules[i], model) {
      OneRuleOn(body, rules, model, i, node, None);
      return Some(node);
    }
    after := ApplyRule(node, rules[i].sets);
    OneRuleOn(body, rules, model, i, node, after);
    assert rules[i] in rules;
  }

  /** Applies the matching rules in order to a decoded body. */
  method Apply(body: Json, rules: seq<RuleSpec>, model: string) returns (r: PatchResult)
    ensures rules != [] && !body.Obj? ==> r == Rejected
    ensures rules == [] || (body.Obj? && forall rule :: rule in rules ==> !Matches(rule, model)) ==> r == Patched(body)
    ensures rules != [] && body.Obj? ==> MayYield(body, rules, model, r)
    ensures (rules == [] || body.Obj?) && AllOrderFree(body, rules, model) ==> r == Patched(AllEffects(body, rules, model))
  {
    if rules == [] {
      return Patched(body);
    }
    if !body.Obj? {
      return Rejected;
    }
    hide Matches, OrderFree, Decodes, Effect, RuleOf, RuleYields, MayYield, AllOrderFree, AllEffects, SoFar;
    var node := body;
    NoMoreRules(model);
    NoRulesYet(body, rules, model);
    for i := 0 to |rules|
      invariant SoFar(body, rules, model, i, node)
    {
      var after := ApplyIfMatching(body, rules, model, i, node);
      if after.None? {
        return Rejected;
      }
      node := after.value;
    }
    SoFarMeans(body, rules, model, |rules|, node);
    assert rules[|rules|..] == [];
    r := Patched(node);
  }
}
