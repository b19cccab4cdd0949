/** A stable sort by a strict "comes before" test, as the standard library's. */
module Sorting {

  function InsertStable<T>(before: (T, T) -> bool, x: T, s: seq<T>): seq<T> {
    if s == [] || !before(s[0], x) then [x] + s else [s[0]] + InsertStable(before, x, s[1..])
  }

  function StableSort<T>(before: (T, T) -> bool, s: seq<T>): seq<T> {
    if s == [] then [] else InsertStable(before, s[0], StableSort(before, s[1..]))
  }

  ghost predicate WeakOrder<T(!new)>(before: (T, T) -> bool) {
    && (forall x, y :: before(x, y) ==> !before(y, x))
    && (forall x, y, z :: before(x, z) ==> before(x, y) || before(y, z))
  }

  ghost predicate Sorted<T>(before: (T, T) -> bool, s: seq<T>) {
    forall i, j :: 0 <= i < j < |s| ==> !before(s[j], s[i])
  }

  lemma {:induction false} InsertKeepsAll<T>(before: (T, T) -> bool, x: T, s: seq<T>)
    ensures multiset(InsertStable(before, x, s)) == multiset(s) + multiset{x}
  {
    if s != [] && before(s[0], x) {
      InsertKeepsAll(before, x, s[1..]);
      assert s == [s[0]] + s[1..];
    }
  }

  lemma {:induction false} SortKeepsAll<T>(before: (T, T) -> bool, s: seq<T>)
    ensures multiset(StableSort(before, s)) == multiset(s)
    ensures |StableSort(before, s)| == |s|
  {
    if s != [] {
      SortKeepsAll(before, s[1..]);
      InsertKeepsAll(before, s[0], StableSort(before, s[1..]));
      assert s == [s[0]] + s[1..];
    }
    assert |multiset(StableSort(before, s))| == |multiset(s)|;
  }

  lemma {:induction false} InsertKeepsSorted<T(!new)>(before: (T, T) -> bool, x: T, s: seq<T>)
    requires WeakOrder(before) && Sorted(before, s)
    ensures Sorted(before, InsertStable(before, x, s))
  {
    if s != [] && before(s[0], x) {
      InsertKeepsSorted(before, x, s[1..]);
      InsertKeepsAll(before, x, s[1..]);
      var rest := InsertStable(before, x, s[1..]);
      forall j | 0 <= j < |rest| ensures !before(rest[j], s[0]) {
        assert rest[j] in multiset(rest);
        assert rest[j] == x || rest[j] in s[1..];
      }
    }
  }

  lemma {:induction false} SortSorts<T(!new)>(before: (T, T) -> bool, s: seq<T>)
    requires WeakOrder(before)
    ensures Sorted(before, StableSort(before, s))
  {
    if s != [] {
      SortSorts(before, s[1..]);
      InsertKeepsSorted(before, s[0], StableSort(before, s[1..]));
    }
  }

  predicate Tied<T>(before: (T, T) -> bool, x: T, y: T) {
    !before(x, y) && !before(y, x)
  }

  /** The elements that rank with y, in order. */
  function Ties<T>(before: (T, T) -> bool, y: T, s: seq<T>): seq<T> {
    if s == [] then [] else (if Tied(before, s[0], y) then [s[0]] else []) + Ties(before, y, s[1..])
  }

  lemma TiesHead<T>(before: (T, T) -> bool, y: T, head: T, tail: seq<T>)
    ensures Ties(before, y, [head] + tail) == (if Tied(before, head, y) then [head] else []) + Ties(before, y, tail)
  {
    assert ([head] + tail)[1..] == tail;
  }

  lemma EarlierIsNoTie<T(!new)>(before: (T, T) -> bool, earlier: T, x: T, y: T)
    requires WeakOrder(before) && before(earlier, x) && Tied(before, x, y)
    ensures !Tied(before, earlier, y)
  {
  }

  lemma {:induction false} InsertKeepsTies<T(!new)>(before: (T, T) -> bool, y: T, x: T, s: seq<T>)
    requires WeakOrder(before)
    ensures Ties(before, y, InsertStable(before, x, s)) == (if Tied(before, x, y) then [x] else []) + Ties(before, y, s)
  {
    hide WeakOrder, Ties, Tied;
    if s != [] && before(s[0], x) {
      InsertKeepsTies(before, y, x, s[1..]);
      assert s == [s[0]] + s[1..];
      TiesHead(before, y, s[0], s[1..]);
      TiesHead(before, y, s[0], InsertStable(before, x, s[1..]));
      if Tied(before, x, y) {
        EarlierIsNoTie(before, s[0], x, y);
      }
    } else {
      TiesHead(before, y, x, s);
    }
  }

  /** Stability: elements of equal rank keep the order they came in. */
  lemma {:induction false} SortIsStable<T(!new)>(before: (T, T) -> bool, y: T, s: seq<T>)
    requires WeakOrder(before)
    ensures Ties(before, y, StableSort(before, s)) == Ties(before, y, s)
  {
    if s != [] {
      SortIsStable(before, y, s[1..]);
      InsertKeepsTies(before, y, s[0], StableSort(before, s[1..]));
    }
  }

  /** The byte order of strings. */
  predicate StringBefore(a: string, b: string) {
    if b == "" then false
    else if a == "" then true
    else a[0] < b[0] || (a[0] == b[0] && StringBefore(a[1..], b[1..]))
  }

  lemma {:induction false} StringOrder(a: string, b: string, c: string)
    ensures StringBefore(a, b) ==> !StringBefore(b, a)
    ensures StringBefore(a, c) ==> StringBefore(a, b) || StringBefore(b, c)
    ensures !StringBefore(a, b) && !StringBefore(b, a) ==> a == b
    decreases |a| + |b| + |c|
  {
    if a != "" && b != "" {
      StringOrder(a[1..], b[1..], if c == "" then c else c[1..]);
      if a[0] == b[0] && a[1..] == b[1..] {
        assert a == [a[0]] + a[1..] && b == [b[0]] + b[1..];
      }
    }
  }

  predicate SmallerAt(a: string, b: string, k: nat) {
    k < |a| && k < |b| && a[..k] == b[..k] && a[k] < b[k]
  }

  /** The order of strings is the dictionary's. */
  lemma {:induction false} StringBeforeMeans(a: string, b: string)
    ensures StringBefore(a, b) <==> (|a| < |b| && b[..|a|] == a) || exists k: nat :: SmallerAt(a, b, k)
  {
    if a != "" && b != "" {
      StringBeforeMeans(a[1..], b[1..]);
      assert a == [a[0]] + a[1..] && b == [b[0]] + b[1..];
      if a[0] == b[0] {
        if k: nat :| SmallerAt(a[1..], b[1..], k) {
          assert a[..k + 1] == [a[0]] + a[1..][..k] && b[..k + 1] == [b[0]] + b[1..][..k];
          assert SmallerAt(a, b, k + 1);
        }
        if k: nat :| SmallerAt(a, b, k) {
          assert a[1..][..k - 1] == a[..k][1..] && b[1..][..k - 1] == b[..k][1..];
          assert SmallerAt(a[1..], b[1..], k - 1);
        }
        if |a| < |b| && b[..|a|] == a {
          assert b[1..][..|a| - 1] == b[..|a|][1..];
        }
        if |a| < |b| && b[1..][..|a| - 1] == a[1..] {
          assert b[..|a|] == [b[0]] + b[1..][..|a| - 1];
        }
      } else {
        assert a[0] < b[0] ==> SmallerAt(a, b, 0);
      }
    }
  }
}
