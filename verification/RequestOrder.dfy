/**
  When the order of a whole patch rule cannot matter: exactly when its paths part
  company two by two. (internal/requestpatch/patch.go)
 */
module RequestOrder {
  import opened Common
  import opened RequestPatch

  // ---------------------------------------------------------------------------
  // What writing one path does to another

  /** The body once a path has been written with a scalar. */
  function Marked(node: Json, r: Path): Json
    requires AppendFree(r) && Works(node, r)
  {
    WorksForAny(node, r, Bool(true));
    Put(node, r, Bool(true)).value
  }

  /** The first step takes both paths to the same child. */
  predicate SameSpot(node: Json, p: Path, r: Path)
    requires p != [] && r != []
  {
    match node
    case Obj(_) => p[0] == r[0]
    case Arr(_) => Atoi(p[0]) == Atoi(r[0])
    case _ => false
  }

  /** The child a path goes on into. */
  function Child(node: Json, p: Path): Json
    requires |p| > 1
  {
    match node
    case Obj(fields) => ChildIn(fields, p)
    case Arr(items) => if Atoi(p[0]).Some? && Atoi(p[0]).value >= 0 then Element(items, Atoi(p[0]).value) else Null
    case _ => Null
  }

  /** Two paths that can each be written. */
  predicate Both(node: Json, p: Path, r: Path) {
    AppendFree(p) && AppendFree(r) && Works(node, p) && Works(node, r)
  }

  lemma BothMeans(node: Json, p: Path, r: Path)
    requires Both(node, p, r)
    ensures p != [] && r != [] && (node.Obj? || node.Arr?)
    ensures Marked(node, r).Obj? == node.Obj? && Marked(node, r).Arr? == node.Arr?
  {
    WorksForAny(node, r, Bool(true));
  }

  lemma ChildWorks(node: Json, p: Path)
    requires AppendFree(p) && Works(node, p) && |p| > 1
    ensures AppendFree(p[1..]) && Works(Child(node, p), p[1..])
  {
    hide Atoi, IsArraySegment, IsAppend;
    AppendFreeTail(p);
    WorksForAny(node, p, Null);
    if node.Obj? {
      var _ := ObjWrite(node.fields, p, Null);
    } else {
      var _, _ := ArrWrite(node.items, p, Null);
    }
  }

  lemma Elsewhere(node: Json, p: Path, r: Path)
    requires Both(node, p, r) && p != [] && r != [] && !SameSpot(node, p, r)
    ensures Works(Marked(node, r), p) && (|p| > 1 ==> Child(Marked(node, r), p) == Child(node, p))
  {
    hide Atoi, IsArraySegment, IsAppend, Put;
    BothMeans(node, p, r);
    if node.Obj? {
      var a := ObjWrite(node.fields, p, Null);
      var b := ObjWrite(node.fields, r, Bool(true));
      ObjWriteInto(node.fields, r, Bool(true), b);
      ObjWriteInto(node.fields[r[0] := b], p, Null, a);
    } else {
      var i, a := ArrWrite(node.items, p, Null);
      var j, b := ArrWrite(node.items, r, Bool(true));
      ArrWriteInto(node.items, r, Bool(true), j, b);
      StillWritten(node.items, p, Null, i, a, j, b);
      ArrWriteInto(Padded(node.items, j)[j := b], p, Null, i, a);
    }
  }

  lemma Ends(node: Json, p: Path, r: Path)
    requires Both(node, p, r) && |p| == 1
    ensures Works(Marked(node, r), p)
  {
    hide Atoi, IsArraySegment, IsAppend;
    BothMeans(node, p, r);
    AppendFreeTail(p);
    if node.Arr? {
      var i, a := ArrWrite(node.items, p, Null);
      ArrWriteInto(Marked(node, r).items, p, Null, i, Null);
    } else {
      ObjWriteInto(Marked(node, r).fields, p, Null, Null);
    }
  }

  lemma Covered(node: Json, p: Path, r: Path)
    requires Both(node, p, r) && |p| > 1 && |r| == 1 && SameSpot(node, p, r)
    ensures !Works(Marked(node, r), p)
  {
    hide Atoi, IsArraySegment;
    BothMeans(node, p, r);
    AppendFreeTail(p);
    AppendFreeTail(r);
    if node.Obj? {
      ObjWriteInto(node.fields, r, Bool(true), Bool(true));
      PutInObj(node.fields[r[0] := Bool(true)], p, Null);
    } else {
      var i, a := ArrWrite(node.items, p, Null);
      ArrWriteInto(node.items, r, Bool(true), i, Bool(true));
    }
  }

  lemma Inside(node: Json, p: Path, r: Path)
    requires Both(node, p, r) && |p| > 1 && |r| > 1 && SameSpot(node, p, r) && Child(node, p) == Child(node, r)
    ensures Both(Child(node, p), p[1..], r[1..])
    ensures Child(Marked(node, r), p) == Marked(Child(node, p), r[1..])
    ensures Works(Marked(node, r), p) <==> Works(Marked(Child(node, p), r[1..]), p[1..])
  {
    hide Atoi, IsArraySegment, IsAppend;
    BothMeans(node, p, r);
    ChildWorks(node, p);
    ChildWorks(node, r);
    BothMeans(Child(node, p), p[1..], r[1..]);
    AppendFreeTail(p);
    if node.Obj? {
      var b := ObjWrite(node.fields, r, Bool(true));
      ObjWriteInto(node.fields, r, Bool(true), b);
      PutInObj(node.fields[r[0] := b], p, Null);
    } else {
      var i, b := ArrWrite(node.items, r, Bool(true));
      ArrWriteInto(node.items, r, Bool(true), i, b);
      ArrPut(Padded(node.items, i)[i := b], p, Null, i);
    }
  }

  /** A missing container that the two paths would make of different kinds. */
  lemma Kinds(node: Json, p: Path, r: Path)
    requires Both(node, p, r) && |p| > 1 && |r| > 1 && SameSpot(node, p, r) && Child(node, p) != Child(node, r)
    ensures IsArraySegment(p[1]) != IsArraySegment(r[1])
    ensures Works(Marked(node, r), p) <==> IsArraySegment(p[1])
  {
    BothMeans(node, p, r);
    ChildWorks(node, p);
    ChildWorks(node, r);
    AppendFreeTail(p);
    hide Atoi, IsAppend;
    if node.Obj? {
      var a := ObjWrite(node.fields, p, Bool(true));
      var b := ObjWrite(node.fields, r, Bool(true));
      ObjWriteInto(node.fields, r, Bool(true), b);
      PutInObj(node.fields[r[0] := b], p, Null);
      if IsArraySegment(p[1]) {
        MixedKinds(p[1..], Bool(true), a, r[1..], Bool(true), b);
        WorksForAny(b, p[1..], Bool(true));
      } else {
        MixedKinds(r[1..], Bool(true), b, p[1..], Bool(true), a);
        WorksForAny(b, p[1..], Bool(true));
      }
    }
  }

  // ---------------------------------------------------------------------------
  // Every rule has an order that works

  /** Two segments that name one child of whatever container they want. */
  predicate SameStep(a: string, b: string) {
    IsArraySegment(a) == IsArraySegment(b) && if IsArraySegment(a) then Atoi(a) == Atoi(b) else a == b
  }

  /** p had better be written before r: it goes on where r ends, or wants an object
      where r would make an array. */
  predicate Comes(p: Path, r: Path) {
    p != []
    && (r == []
        || if SameStep(p[0], r[0]) then Comes(p[1..], r[1..]) else !IsArraySegment(p[0]) && IsArraySegment(r[0]))
  }

  lemma {:induction false} ComesOn(p: Path, q: Path, r: Path)
    requires Comes(p, q) && Comes(q, r)
    ensures Comes(p, r)
  {
    hide IsArraySegment, Atoi;
    if r != [] && q != [] && SameStep(p[0], q[0]) && SameStep(q[0], r[0]) {
      ComesOn(p[1..], q[1..], r[1..]);
    }
  }

  lemma {:induction false} NeverBeforeItself(p: Path)
    ensures !Comes(p, p)
  {
    hide IsArraySegment, Atoi;
    if p != [] {
      NeverBeforeItself(p[1..]);
    }
  }

  lemma StepOfSpot(node: Json, p: Path, r: Path)
    requires Both(node, p, r) && p != [] && r != [] && SameSpot(node, p, r)
    ensures SameStep(p[0], r[0])
  {
    AppendFreeTail(p);
    AppendFreeTail(r);
    hide IsAppend, Atoi;
    BothMeans(node, p, r);
    if node.Arr? {
      var _, _ := ArrWrite(node.items, p, Null);
      var _, _ := ArrWrite(node.items, r, Null);
    }
  }

  /** A path blocks only paths that had better come first. */
  lemma {:induction false} BlocksOnlyEarlier(node: Json, p: Path, r: Path)
    requires Both(node, p, r) && !Works(Marked(node, r), p)
    ensures Comes(p, r)
    decreases |p|
  {
    hide Atoi, IsArraySegment, AppendFree, Works, Marked, Child, SameStep;
    BothMeans(node, p, r);
    if !SameSpot(node, p, r) {
      Elsewhere(node, p, r);
    } else if |p| == 1 {
      Ends(node, p, r);
    } else {
      StepOfSpot(node, p, r);
      if |r| > 1 && Child(node, p) == Child(node, r) {
        Inside(node, p, r);
        BlocksOnlyEarlier(Child(node, p), p[1..], r[1..]);
      } else if |r| > 1 {
        Kinds(node, p, r);
        StepsDiffer(p[1], r[1]);
      }
    }
  }

  lemma StepsDiffer(a: string, b: string)
    requires IsArraySegment(a) != IsArraySegment(b)
    ensures !SameStep(a, b)
  {
  }

  /** Some path has none that had better come before it. */
  lemma {:induction false} FirstToCome(paths: set<Path>) returns (first: Path)
    requires paths != {}
    ensures first in paths && forall p :: p in paths ==> !Comes(p, first)
    decreases |paths|
  {
    hide Comes;
    var any :| any in paths;
    NeverBeforeItself(any);
    if earlier :| earlier in paths && Comes(earlier, any) {
      first := FirstToCome(paths - {any});
      if Comes(any, first) {
        ComesOn(earlier, any, first);
        assert false;
      }
    } else {
      first := any;
    }
  }

  ghost predicate AllWork(node: Json, paths: set<Path>) {
    forall p :: p in paths ==> AppendFree(p) && Works(node, p)
  }

  lemma BothOf(node: Json, paths: set<Path>, p: Path, r: Path)
    requires AllWork(node, paths) && p in paths && r in paths
    ensures Both(node, p, r) && p != [] && r != []
  {
    BothMeans(node, p, r);
  }

  /** The rule that writes the same scalar everywhere. */
  function Scalars(paths: set<Path>): Rule {
    map p | p in paths :: Bool(true)
  }

  /** Paths that can each be written can all be written, in some order. */
  lemma {:induction false} SomeOrderWorks(node: Json, paths: set<Path>, rule: Rule) returns (order: seq<Path>)
    requires AllWork(node, paths) && paths <= rule.Keys && forall p :: p in rule ==> rule[p] == Bool(true)
    ensures Orders(order, paths) && WriteAll(node, rule, order).Some?
    decreases |paths|
  {
    if paths == {} {
      return [];
    }
    hide Comes, Works, AppendFree;
    var first := FirstToCome(paths);
    BothOf(node, paths, first, first);
    forall p | p in paths - {first} ensures AppendFree(p) && Works(Marked(node, first), p) {
      BothOf(node, paths, p, first);
      if !Works(Marked(node, first), p) {
        BlocksOnlyEarlier(node, p, first);
      }
    }
    WorksForAny(node, first, Bool(true));
    var rest := SomeOrderWorks(Marked(node, first), paths - {first}, rule);
    order := [first] + rest;
    FirstThen(node, rule, first, rest, paths);
  }

  lemma FirstThen(node: Json, rule: Rule, first: Path, rest: seq<Path>, paths: set<Path>)
    requires first in paths && Orders(rest, paths - {first}) && paths <= rule.Keys && Put(node, first, rule[first]).Some?
    ensures Orders([first] + rest, paths)
    ensures WriteAll(node, rule, [first] + rest) == WriteAll(Put(node, first, rule[first]).value, rule, rest)
  {
    hide Put;
    assert ([first] + rest)[1..] == rest;
    forall p ensures p in [first] + rest <==> p in paths {
      assert p in rest <==> p in paths - {first};
    }
    forall j, k | 0 <= j < k < |[first] + rest| ensures ([first] + rest)[j] != ([first] + rest)[k] {
      assert rest[k - 1] in rest;
    }
  }

  // ---------------------------------------------------------------------------
  // Paths that do not part company

  /** Both paths lead to the same place, step by step. */
  predicate Twin(node: Json, p: Path, q: Path)
    decreases |p|
  {
    && p != [] && q != [] && SameSpot(node, p, q)
    && ((|p| == 1 && |q| == 1)
        || (|p| > 1 && |q| > 1 && Child(node, p) == Child(node, q) && Twin(Child(node, p), p[1..], q[1..])))
  }

  /** Either path can still be written after the other. */
  predicate Peaceful(node: Json, p: Path, q: Path)
    requires Both(node, p, q)
  {
    Works(Marked(node, p), q) && Works(Marked(node, q), p)
  }

  lemma ApartMeans(node: Json, p: Path, q: Path)
    requires Both(node, p, q) && p != [] && q != []
    ensures Apart(node, p, q) <==>
              !SameSpot(node, p, q) || (|p| > 1 && |q| > 1 && Child(node, p) == Child(node, q) && Apart(Child(node, p), p[1..], q[1..]))
  {
    hide Atoi, IsArraySegment, IsAppend;
    BothMeans(node, p, q);
    if node.Arr? {
      var _, _ := ArrWrite(node.items, p, Null);
      var _, _ := ArrWrite(node.items, q, Null);
    }
  }

  lemma {:induction false} PeacefulClashIsTwin(node: Json, p: Path, q: Path)
    requires Both(node, p, q) && Peaceful(node, p, q) && !Apart(node, p, q)
    ensures Twin(node, p, q)
    decreases |p|
  {
    hide Atoi, IsArraySegment, AppendFree, Works, Marked, Child, Apart;
    BothMeans(node, p, q);
    ApartMeans(node, p, q);
    SpotIsMutual(node, p, q);
    if |p| > 1 && |q| > 1 && Child(node, p) == Child(node, q) {
      Inside(node, p, q);
      Inside(node, q, p);
      PeacefulClashIsTwin(Child(node, p), p[1..], q[1..]);
    } else if |p| > 1 && |q| > 1 {
      Kinds(node, p, q);
      Kinds(node, q, p);
    } else if |p| > 1 {
      Covered(node, p, q);
    } else if |q| > 1 {
      Covered(node, q, p);
    }
  }

  lemma SpotIsMutual(node: Json, p: Path, q: Path)
    requires p != [] && q != []
    ensures SameSpot(node, p, q) == SameSpot(node, q, p)
  {
  }

  lemma {:induction false} TwinsClash(node: Json, p: Path, q: Path)
    requires Both(node, p, q) && Twin(node, p, q)
    ensures !Apart(node, p, q)
    decreases |p|
  {
    hide Atoi, IsArraySegment, AppendFree, Works, Child, Apart;
    ApartMeans(node, p, q);
    if |p| > 1 {
      Inside(node, p, q);
      TwinsClash(Child(node, p), p[1..], q[1..]);
    }
  }

  /** Twins stay twins when a path at peace with them is written. */
  lemma {:induction false} TwinsStay(node: Json, p: Path, q: Path, r: Path)
    requires Both(node, p, q) && Both(node, p, r) && Both(node, q, r) && Twin(node, p, q)
    requires Peaceful(node, p, r) && Peaceful(node, q, r)
    ensures Twin(Marked(node, r), p, q)
    decreases |p|
  {
    hide Atoi, IsArraySegment, AppendFree, Works, Marked, Child;
    BothMeans(node, p, r);
    SpotStays(node, p, q, r);
    if |p| > 1 {
      SpotIsMutual(node, p, r);
      SpotIsMutual(node, q, r);
      if !SameSpot(node, p, r) {
        Elsewhere(node, p, r);
        Elsewhere(node, q, r);
      } else if |r| == 1 {
        Covered(node, p, r);
      } else if Child(node, p) != Child(node, r) {
        Kinds(node, p, r);
        Kinds(node, r, p);
      } else {
        Inside(node, p, r);
        Inside(node, r, p);
        Inside(node, q, r);
        Inside(node, r, q);
        Inside(node, p, q);
        TwinsStay(Child(node, p), p[1..], q[1..], r[1..]);
      }
    }
  }

  lemma SpotStays(node: Json, p: Path, q: Path, r: Path)
    requires Both(node, p, r) && Both(node, q, r) && p != [] && q != [] && SameSpot(node, p, q)
    ensures SameSpot(Marked(node, r), p, q)
    ensures r != [] && SameSpot(node, p, r) == SameSpot(node, q, r)
  {
    hide Atoi, IsArraySegment, AppendFree, Works, Marked;
    BothMeans(node, p, r);
  }

  // ---------------------------------------------------------------------------
  // The exact condition for a rule

  /** Paths that can each be written but do not all part company can be given values
      for which two orders come out differently. */
  lemma {:induction false} TwoOrdersDiffer(node: Json, paths: set<Path>, p: Path, q: Path)
      returns (rule: Rule, one: seq<Path>, two: seq<Path>)
    requires AllWork(node, paths) && p in paths && q in paths && p != q && !Apart(node, p, q)
    ensures rule.Keys == paths && Orders(one, paths) && Orders(two, paths)
    ensures WriteAll(node, rule, one) != WriteAll(node, rule, two)
    decreases |paths|
  {
    hide Works, AppendFree, Apart, Twin, Put;
    if a, b :| a in paths && b in paths && a != b && AppendFree(b) && Works(node, b) && !Works(Marked(node, b), a) {
      rule, one, two := Blocked(node, paths, a, b);
    } else if r :| r in paths && r != p && r != q {
      BothOf(node, paths, p, q);
      BothOf(node, paths, p, r);
      BothOf(node, paths, q, r);
      PeacefulClashIsTwin(node, p, q);
      TwinsStay(node, p, q, r);
      TwinsClash(Marked(node, r), p, q);
      forall s | s in paths - {r} ensures AppendFree(s) && Works(Marked(node, r), s) {
        BothOf(node, paths, s, r);
      }
      var less, first, second := TwoOrdersDiffer(Marked(node, r), paths - {r}, p, q);
      rule, one, two := AndFirst(node, paths, r, less, first, second);
    } else {
      rule, one, two := map[p := Bool(true), q := Bool(false)], [p, q], [q, p];
      BothOf(node, paths, p, q);
      Clash(node, p, q);
      WriteTwo(node, rule, p, q);
      WriteTwo(node, rule, q, p);
    }
  }

  lemma WriteTwo(node: Json, rule: Rule, p: Path, q: Path)
    requires p in rule && q in rule
    ensures WriteAll(node, rule, [p, q]) == Then(node, p, rule[p], q, rule[q])
  {
    hide Put;
    assert [p, q][1..] == [q] && [q][1..] == [];
    var after := Put(node, p, rule[p]);
    if after.Some? {
      assert WriteAll(after.value, rule, [q]) == Put(after.value, q, rule[q]);
    }
  }

  /** One path blocks another: written first it spoils the rule, which works in some order. */
  lemma Blocked(node: Json, paths: set<Path>, a: Path, b: Path) returns (rule: Rule, one: seq<Path>, two: seq<Path>)
    requires AllWork(node, paths) && a in paths && b in paths && a != b && !Works(Marked(node, b), a)
    ensures rule.Keys == paths && Orders(one, paths) && Orders(two, paths)
    ensures WriteAll(node, rule, one) != WriteAll(node, rule, two)
  {
    hide Works, AppendFree, Put;
    rule := Scalars(paths);
    one := SomeOrderWorks(node, paths, rule);
    OrderExists(paths - {b} - {a});
    var rest :| Orders(rest, paths - {b} - {a});
    BothOf(node, paths, a, b);
    WorksForAny(node, b, Bool(true));
    two := [b] + ([a] + rest);
    PutFails(Marked(node, b), a);
    FirstOrders(rest, paths - {b}, a);
    FirstOrders([a] + rest, paths, b);
    FirstThen(node, rule, b, [a] + rest, paths);
  }

  lemma PutFails(node: Json, a: Path)
    requires AppendFree(a) && !Works(node, a)
    ensures Put(node, a, Bool(true)).None?
  {
    WorksForAny(node, a, Bool(true));
  }

  lemma FirstOrders(rest: seq<Path>, paths: set<Path>, first: Path)
    requires first in paths && Orders(rest, paths - {first})
    ensures Orders([first] + rest, paths)
  {
    forall p ensures p in [first] + rest <==> p in paths {
      assert p in rest <==> p in paths - {first};
    }
    forall j, k | 0 <= j < k < |[first] + rest| ensures ([first] + rest)[j] != ([first] + rest)[k] {
      assert rest[k - 1] in rest;
    }
  }

  /** Two orders that differ still do after a path written first. */
  lemma AndFirst(node: Json, paths: set<Path>, r: Path, less: Rule, first: seq<Path>, second: seq<Path>)
      returns (rule: Rule, one: seq<Path>, two: seq<Path>)
    requires r in paths && less.Keys == paths - {r} && Orders(first, paths - {r}) && Orders(second, paths - {r})
    requires AppendFree(r) && Works(node, r) && WriteAll(Marked(node, r), less, first) != WriteAll(Marked(node, r), less, second)
    ensures rule.Keys == paths && Orders(one, paths) && Orders(two, paths)
    ensures WriteAll(node, rule, one) != WriteAll(node, rule, two)
  {
    hide Works, AppendFree, Put;
    rule, one, two := less[r := Bool(true)], [r] + first, [r] + second;
    WorksForAny(node, r, Bool(true));
    FirstThen(node, rule, r, first, paths);
    FirstThen(node, rule, r, second, paths);
    SameRuleSameWrites(Marked(node, r), less, rule, first);
    SameRuleSameWrites(Marked(node, r), less, rule, second);
  }

  lemma {:induction false} SameRuleSameWrites(node: Json, a: Rule, b: Rule, order: seq<Path>)
    requires forall p :: p in order ==> p in a && p in b && a[p] == b[p]
    ensures WriteAll(node, a, order) == WriteAll(node, b, order)
    decreases |order|
  {
    hide Put;
    if order != [] && Put(node, order[0], a[order[0]]).Some? {
      SameRuleSameWrites(Put(node, order[0], a[order[0]]).value, a, b, order[1..]);
    }
  }

  /** The order in which paths that can each be written are taken never matters,
      whatever their values, if and only if they part company two by two. */
  lemma RuleOrderFreeExactly(node: Json, paths: set<Path>)
    requires AllWork(node, paths)
    ensures OrderFree(node, paths) <==>
              forall rule: Rule, one, two :: rule.Keys == paths && Orders(one, paths) && Orders(two, paths) ==>
                WriteAll(node, rule, one) == WriteAll(node, rule, two)
  {
    hide Works, AppendFree, Apart, Put, WriteAll;
    if OrderFree(node, paths) {
      forall rule: Rule, one, two | rule.Keys == paths && Orders(one, paths) && Orders(two, paths)
        ensures WriteAll(node, rule, one) == WriteAll(node, rule, two)
      {
        AnyOrder(node, rule, paths, one, two);
      }
    } else {
      var p, q :| p in paths && q in paths && p != q && !Apart(node, p, q);
      var rule, one, two := TwoOrdersDiffer(node, paths, p, q);
    }
  }

  /** Every order of a rule writes the body, and to the same effect, whatever the
      values, if and only if each path can be written and they part company. */
  lemma EveryOrderWorksExactly(node: Json, paths: set<Path>)
    requires forall p :: p in paths ==> AppendFree(p)
    ensures OrderFree(node, paths) <==>
              forall rule: Rule, one, two :: rule.Keys == paths && Orders(one, paths) && Orders(two, paths) ==>
                WriteAll(node, rule, one) == WriteAll(node, rule, two) && WriteAll(node, rule, one).Some?
  {
    hide Works, AppendFree, Apart, Put, WriteAll;
    if OrderFree(node, paths) {
      forall rule: Rule, one, two | rule.Keys == paths && Orders(one, paths) && Orders(two, paths)
        ensures WriteAll(node, rule, one) == WriteAll(node, rule, two) && WriteAll(node, rule, one).Some?
      {
        AnyOrder(node, rule, paths, one, two);
      }
    } else if AllWork(node, paths) {
      RuleOrderFreeExactly(node, paths);
    } else {
      var p :| p in paths && !Works(node, p);
      OrderExists(paths - {p});
      var rest :| Orders(rest, paths - {p});
      FirstOrders(rest, paths, p);
      PutFails(node, p);
      SpoiledAtOnce(node, Scalars(paths), p, rest);
      assert WriteAll(node, Scalars(paths), [p] + rest).None?;
    }
  }

  lemma SpoiledAtOnce(node: Json, rule: Rule, p: Path, rest: seq<Path>)
    requires p in rule && (forall q :: q in rest ==> q in rule) && Put(node, p, rule[p]).None?
    ensures WriteAll(node, rule, [p] + rest).None?
  {
    hide Put;
  }
}
