/**
  What a patch path says and what a write does to the rest of the body: how dotted
  text becomes segments, which segments are indexes, what is made where nothing was,
  and that nothing else changes. (internal/requestpatch/patch.go)
 */
module RequestPaths {
  import opened Common
  import opened RequestPatch

  // ---------------------------------------------------------------------------
  // Segments of a path

  predicate NoDot(s: string) {
    forall k :: 0 <= k < |s| ==> s[k] != '.'
  }

  lemma {:induction false} PiecesOfPlain(path: string, piece: string)
    requires NoDot(path)
    ensures Pieces(path, piece) == if piece + path == "" then [] else [piece + path]
    decreases |path|
  {
    if path == "" {
      assert piece + path == piece;
    } else {
      PiecesOfPlain(path[1..], piece + [path[0]]);
      assert piece + [path[0]] + path[1..] == piece + path;
    }
  }

  lemma {:induction false} PiecesJoin(a: string, b: string, piece: string)
    ensures Pieces(a + "." + b, piece) == Pieces(a, piece) + Pieces(b, "")
    decreases |a|
  {
    var all := a + "." + b;
    if a == "" {
      assert all[0] == '.' && all[1..] == b;
    } else {
      assert all[0] == a[0] && all[1..] == a[1..] + "." + b;
      if a[0] == '.' {
        PiecesJoin(a[1..], b, "");
        var done := if piece == "" then [] else [piece];
        assert done + (Pieces(a[1..], "") + Pieces(b, "")) == done + Pieces(a[1..], "") + Pieces(b, "");
      } else {
        PiecesJoin(a[1..], b, piece + [a[0]]);
      }
    }
  }

  /** A path splits at its dots: text without a dot is one segment, an empty stretch
      is none, and a dot joins the segments before it and those after it. */
  lemma PathSplits(a: string, b: string)
    ensures NoDot(a) ==> SplitPath(a) == if a == "" then [] else [a]
    ensures SplitPath(a + "." + b) == SplitPath(a) + SplitPath(b)
  {
    if NoDot(a) {
      PiecesOfPlain(a, "");
      assert "" + a == a;
    }
    PiecesJoin(a, b, "");
  }

  function Dotted(segs: Path): string {
    if segs == [] then "" else if |segs| == 1 then segs[0] else segs[0] + "." + Dotted(segs[1..])
  }

  /** Writing segments with dots between them and splitting gives them back. */
  lemma {:induction false} SplitsBack(segs: Path)
    requires forall k :: 0 <= k < |segs| ==> segs[k] != "" && NoDot(segs[k])
    ensures SplitPath(Dotted(segs)) == segs
  {
    hide SplitPath;
    PathSplits("", "");
    if segs != [] {
      PathSplits(segs[0], Dotted(segs[1..]));
      SplitsBack(segs[1..]);
      assert segs == [segs[0]] + segs[1..];
    }
  }

  // ---------------------------------------------------------------------------
  // Indexes

  lemma {:induction false} DecimalReads(n: nat)
    ensures IsDigits(Decimal(n)) && DigitsValue(Decimal(n)) == n
  {
    var text := Decimal(n);
    var last := text[|text| - 1];
    assert last as int - '0' as int == n % 10;
    if n < 10 {
      assert text[..0] == "";
    } else {
      DecimalReads(n / 10);
      assert text[..|text| - 1] == Decimal(n / 10);
    }
  }

  lemma DigitFirst(n: nat)
    ensures Decimal(n) != "" && '0' <= Decimal(n)[0] <= '9'
  {
    DecimalReads(n);
  }

  /** An index is read in decimal, with a sign or without; a negative one is a number
      but no place in an array; anything else is no index. */
  lemma IndexReads(n: nat)
    requires n <= MAX_INT
    ensures Atoi(Decimal(n)) == Some(n) && Atoi("+" + Decimal(n)) == Some(n)
    ensures Atoi("-" + Decimal(n)).Some? && Atoi("-" + Decimal(n)).value == 0 - n
  {
    DecimalReads(n);
    DigitFirst(n);
    assert ("+" + Decimal(n))[1..] == Decimal(n) && ("-" + Decimal(n))[1..] == Decimal(n);
  }

  lemma NoIndex(s: string, k: nat)
    requires 0 < k < |s| && !('0' <= s[k] <= '9')
    ensures Atoi(s).None?
  {
    assert s[1..][k - 1] == s[k];
  }

  // ---------------------------------------------------------------------------
  // What a write makes

  /** The three ways to say "at the end": the value is appended, unless it is a tool
      of a type the array already has. */
  lemma AppendAppends(items: seq<Json>, seg: string, value: Json)
    requires seg == "-1" || seg == "[]" || seg == "+"
    ensures var known := exists k :: 0 <= k < |items| && TypeOf(value) != "" && TypeOf(items[k]) == TypeOf(value);
            Put(Arr(items), [seg], value) == Some(if known then Arr(items) else Arr(items + [value]))
    ensures forall fields, rest :: Put(Obj(fields), [seg] + rest, value).None?
  {
    forall fields, rest ensures Put(Obj(fields), [seg] + rest, value).None? {
      assert ([seg] + rest)[0] == seg;
    }
  }

  /** Below a key that is not there, or holds null, a number makes an array, filled up with nulls,
      and a name makes an object. */
  lemma MissingIsMade(fields: map<string, Json>, key: string, seg: string, value: Json)
    requires (key !in fields || fields[key] == Null) && !IsAppend(key) && !IsAppend(seg)
    ensures Atoi(seg).None? ==> Put(Obj(fields), [key, seg], value) == Some(Obj(fields[key := Obj(map[seg := value])]))
    ensures Atoi(seg).Some? && Atoi(seg).value >= 0 ==>
              var made := Put(Obj(fields), [key, seg], value);
              && made.Some? && made.value.Obj? && made.value.fields.Keys == fields.Keys + {key}
              && made.value.fields[key].Arr? && |made.value.fields[key].items| == Atoi(seg).value + 1
              && made.value.fields[key].items[Atoi(seg).value] == value
              && (forall k :: 0 <= k < Atoi(seg).value ==> made.value.fields[key].items[k] == Null)
    ensures Atoi(seg).Some? && Atoi(seg).value < 0 ==> Put(Obj(fields), [key, seg], value).None?
  {
    assert [key, seg][1..] == [seg];
    hide Atoi, IsAppend;
  }

  // ---------------------------------------------------------------------------
  // What a write leaves

  /** Whatever is at a path that parts company with the one written stays there. */
  lemma {:induction false} LeavesElsewhere(node: Json, p: Path, v: Json, q: Path)
    requires AppendFree(p) && Put(node, p, v).Some? && At(node, q).Some? && Apart(node, p, q)
    ensures At(Put(node, p, v).value, q) == At(node, q)
    decreases |p|
  {
    hide Atoi, IsArraySegment, IsAppend, SkipsAppend;
    AppendFreeTail(p);
    match node
    case Obj(fields) =>
      if p[0] == q[0] {
        LeavesElsewhere(ChildIn(fields, p), p[1..], v, q[1..]);
      }
    case Arr(items) =>
      if Atoi(p[0]) == Atoi(q[0]) {
        LeavesElsewhere(Element(items, Atoi(p[0]).value), p[1..], v, q[1..]);
      }
    case _ =>
  }
}
