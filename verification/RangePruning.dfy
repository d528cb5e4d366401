/** Range queries: which entries of a page can hold keys of a range. */
module RangePruning {
  import opened Keys
  import opened KeyMath
  import opened RemoteMemory
  import opened Lookup
  import opened Machine

  /** Where the keys below a path lie as seen from one end of a range: all on the range's side of it, around it, or all
      on the other side. */
  datatype Side = INSIDE | BORDER | OUTSIDE

  /** The place of path `p` against the lower end with path `q`. */
  ghost function Left(p: Bytes, q: Bytes): Side {
    if Ext(p, q) then BORDER else if exists i: nat :: DiffersAt(q, p, i) then INSIDE else OUTSIDE
  }

  /** The place of path `p` against the upper end with path `q`. */
  ghost function Right(p: Bytes, q: Bytes): Side {
    if Ext(p, q) then BORDER else if exists i: nat :: DiffersAt(p, q, i) then INSIDE else OUTSIDE
  }

  ghost predicate InRange(from: Key, to: Key, k: Key) {
    AtMost(from, k) && AtMost(k, to)
  }

  /** Some key below path `p` lies between `from` and `to`. */
  ghost predicate Meets(p: Bytes, from: Key, to: Key) {
    exists k: Key :: Ext(p, Path(k)) && InRange(from, to, k)
  }

  /** Two paths of which neither extends the other differ somewhere. */
  lemma FirstSplit(p: Bytes, q: Bytes) returns (i: nat)
    requires |p| <= |q| && !Ext(p, q)
    ensures DiffersAt(p, q, i) || DiffersAt(q, p, i)
  {
    assert p != q[..|p|];
    i := FirstDiff(p, q[..|p|]);
    assert q[..|p|][..i] == q[..i];
  }

  /** A key below a path that comes before the path of `q` is less than `q`. */
  lemma KeyBefore(p: Bytes, k: Key, q: Key, i: nat)
    requires Ext(p, Path(k)) && DiffersAt(p, Path(q), i)
    ensures Less(k, q)
  {
    assert p[i] == Path(k)[i] && i > 0;
    assert k[..i - 1] == q[..i - 1] by {
      forall l | 0 <= l < i - 1 ensures k[l] == q[l] {
        assert p[..i][l + 1] == Path(q)[..i][l + 1] && p[l + 1] == Path(k)[l + 1] == k[l] && Path(q)[l + 1] == q[l];
      }
    }
    assert DiffersAt(k, q, i - 1);
  }

  lemma KeyAfter(p: Bytes, k: Key, q: Key, i: nat)
    requires Ext(p, Path(k)) && DiffersAt(Path(q), p, i)
    ensures Less(q, k)
  {
    assert p[i] == Path(k)[i] && i > 0;
    assert k[..i - 1] == q[..i - 1] by {
      forall l | 0 <= l < i - 1 ensures k[l] == q[l] {
        assert p[..i][l + 1] == Path(q)[..i][l + 1] && p[l + 1] == Path(k)[l + 1] == k[l] && Path(q)[l + 1] == q[l];
      }
    }
    assert DiffersAt(q, k, i - 1);
  }

  /** The sides decide exactly whether the keys below a path meet the range. */
  lemma MeetsIff(p: Bytes, from: Key, to: Key)
    requires AtMost(from, to) && 1 <= |p| <= PATH_LEN && p[0] == 0
    ensures Meets(p, from, to) <==> Left(p, Path(from)) != OUTSIDE && Right(p, Path(to)) != OUTSIDE
  {
    if Meets(p, from, to) {
      var k: Key :| Ext(p, Path(k)) && InRange(from, to, k);
      NotOutside(p, from, to, k);
    }
    if Left(p, Path(from)) != OUTSIDE && Right(p, Path(to)) != OUTSIDE {
      var k := Witness(p, from, to);
    }
  }

  lemma NotOutside(p: Bytes, from: Key, to: Key, k: Key)
    requires |p| <= PATH_LEN && Ext(p, Path(k)) && InRange(from, to, k)
    ensures Left(p, Path(from)) != OUTSIDE && Right(p, Path(to)) != OUTSIDE
  {
    if !Ext(p, Path(from)) {
      var i := FirstSplit(p, Path(from));
      if DiffersAt(p, Path(from), i) { KeyBefore(p, k, from, i); Asymmetric(k, from); }
    }
    if !Ext(p, Path(to)) {
      var i := FirstSplit(p, Path(to));
      if DiffersAt(Path(to), p, i) { KeyAfter(p, k, to, i); Asymmetric(to, k); }
    }
  }

  lemma Witness(p: Bytes, from: Key, to: Key) returns (k: Key)
    requires AtMost(from, to) && 1 <= |p| <= PATH_LEN && p[0] == 0
    requires Left(p, Path(from)) != OUTSIDE && Right(p, Path(to)) != OUTSIDE
    ensures Ext(p, Path(k)) && InRange(from, to, k)
  {
    if Ext(p, Path(from)) {
      k := from;
      if !Ext(p, Path(to)) { var i: nat :| DiffersAt(p, Path(to), i); KeyBefore(p, k, to, i); }
    } else if Ext(p, Path(to)) {
      k := to;
      var i: nat :| DiffersAt(Path(from), p, i);
      KeyAfter(p, k, from, i);
    } else {
      k := p[1..] + seq(PATH_LEN - |p|, _ => 0);
      var i: nat :| DiffersAt(Path(from), p, i);
      KeyAfter(p, k, from, i);
      var j: nat :| DiffersAt(p, Path(to), j);
      KeyBefore(p, k, to, j);
    }
  }

  // how the sides change from a path to a longer one

  /** One byte more, as the code compares it: only a border can change. */
  function Sided(s: Side, b: Byte, bound: Byte, left: bool): Side {
    if !s.BORDER? || b == bound then s else if (b > bound) == left then INSIDE else OUTSIDE
  }

  lemma LeftByte(p: Bytes, b: Byte, q: Bytes)
    requires |p| < |q| && Left(p, q) != OUTSIDE
    ensures Left(p + [b], q) == Sided(Left(p, q), b, q[|p|], true)
  {
    var w := p + [b];
    if Ext(p, q) {
      assert w[..|p|] == p == q[..|p|];
      if b > q[|p|] { assert DiffersAt(q, w, |p|); }
      if b < q[|p|] { assert DiffersAt(w, q, |p|); OneWay(w, q, |p|); }
    } else {
      var i: nat :| DiffersAt(q, p, i);
      assert w[..i] == p[..i] && DiffersAt(q, w, i);
    }
  }

  lemma RightByte(p: Bytes, b: Byte, q: Bytes)
    requires |p| < |q| && Right(p, q) != OUTSIDE
    ensures Right(p + [b], q) == Sided(Right(p, q), b, q[|p|], false)
  {
    var w := p + [b];
    if Ext(p, q) {
      assert w[..|p|] == p == q[..|p|];
      if b < q[|p|] { assert DiffersAt(w, q, |p|); }
      if b > q[|p|] { assert DiffersAt(q, w, |p|); OneWay(q, w, |p|); }
    } else {
      var i: nat :| DiffersAt(p, q, i);
      assert w[..i] == p[..i] && DiffersAt(w, q, i);
    }
  }

  /** Two paths differ in one direction only. */
  lemma OneWay(a: Bytes, b: Bytes, i: nat)
    requires DiffersAt(a, b, i)
    ensures forall j: nat :: !DiffersAt(b, a, j)
  {
    forall j: nat ensures !DiffersAt(b, a, j) {
      if j < i { assert b[..i][j] == a[..i][j]; } else if i < j <= |a| && j <= |b| { SameBelow(a, b, i, j); }
    }
  }

  lemma SameBelow(a: Bytes, b: Bytes, i: nat, j: nat)
    requires i < j <= |a| && j <= |b|
    ensures a[..j] == b[..j] ==> a[i] == b[i]
  {
    assert a[..j][i] == a[i] && b[..j][i] == b[i];
  }

  // one page

  /** What a scan knows of an end: the side of path `p`, and a bound that starts with `p`; at a border the bound is the
      end of the range itself. */
  ghost predicate LeftOK(l: Side, p: Bytes, from: Key, bound: Key) {
    l != OUTSIDE && Left(p, Path(from)) == l && Ext(p, Path(bound)) && (l.BORDER? ==> bound == from)
  }

  ghost predicate RightOK(r: Side, p: Bytes, to: Key, bound: Key) {
    r != OUTSIDE && Right(p, Path(to)) == r && Ext(p, Path(bound)) && (r.BORDER? ==> bound == to)
  }

  /** The side of a page with full prefix `f`, when the side at the start of its header is known. */
  lemma HeaderLeft(h: Header, f: Bytes, from: Key)
    requires HeaderOK(h, f) && |f| <= KEY_LEN && Left(f[..h.depth], Path(from)) != OUTSIDE
    ensures var j := FirstMismatch(h, from); var l := Left(f[..h.depth], Path(from));
      Left(f, Path(from)) == if j == |h.partial| then l else Sided(l, h.partial[j], Path(from)[h.depth + j], true)
  {
    var j, q, p := FirstMismatch(h, from), Path(from), f[..h.depth];
    if Ext(p, q) {
      HeaderSame(h, f, from, j);
      if j < |h.partial| {
        var i := h.depth + j;
        assert f[..i] == q[..i];
        if f[i] > q[i] { assert DiffersAt(q, f, i); } else { assert DiffersAt(f, q, i); OneWay(f, q, i); }
      }
    } else {
      var i: nat :| DiffersAt(q, p, i);
      assert f[..i] == p[..i] && DiffersAt(q, f, i);
    }
  }

  lemma HeaderRight(h: Header, f: Bytes, to: Key)
    requires HeaderOK(h, f) && |f| <= KEY_LEN && Right(f[..h.depth], Path(to)) != OUTSIDE
    ensures var j := FirstMismatch(h, to); var r := Right(f[..h.depth], Path(to));
      Right(f, Path(to)) == if j == |h.partial| then r else Sided(r, h.partial[j], Path(to)[h.depth + j], false)
  {
    var j, q, p := FirstMismatch(h, to), Path(to), f[..h.depth];
    if Ext(p, q) {
      HeaderSame(h, f, to, j);
      if j < |h.partial| {
        var i := h.depth + j;
        assert f[..i] == q[..i];
        if f[i] < q[i] { assert DiffersAt(f, q, i); } else { assert DiffersAt(q, f, i); OneWay(q, f, i); }
      }
    } else {
      var i: nat :| DiffersAt(p, q, i);
      assert f[..i] == p[..i] && DiffersAt(f, q, i);
    }
  }

  lemma HeaderSame(h: Header, f: Bytes, k: Key, j: nat)
    requires HeaderOK(h, f) && |f| <= KEY_LEN && Ext(f[..h.depth], Path(k)) && j == FirstMismatch(h, k)
    ensures forall i :: 0 <= i < h.depth + j ==> f[i] == Path(k)[i]
    ensures j < |h.partial| ==> h.partial[j] != Path(k)[h.depth + j]
  {
    forall i | 0 <= i < h.depth + j ensures f[i] == Path(k)[i] {
      if i < h.depth { assert f[..h.depth][i] == f[i]; } else { assert Agrees(h, k, i - h.depth); }
    }
  }

  /** Nothing below a page that lies outside is in the range. */
  lemma OutsideBelow(f: Bytes, b: Byte, from: Key, to: Key)
    requires |f| <= KEY_LEN && (Left(f, Path(from)) == OUTSIDE || Right(f, Path(to)) == OUTSIDE)
    ensures !Meets(f + [b], from, to)
  {
    if Meets(f + [b], from, to) {
      var k: Key :| Ext(f + [b], Path(k)) && InRange(from, to, k);
      PrefixOf(f, b, k);
      NotOutside(f, from, to, k);
    }
  }

  lemma PrefixOf(f: Bytes, b: Byte, k: Key)
    requires Ext(f + [b], Path(k))
    ensures Ext(f, Path(k)) && |f| <= KEY_LEN && Path(k)[|f|] == b
  {
    forall i | 0 <= i < |f| ensures f[i] == Path(k)[i] { assert (f + [b])[i] == f[i]; }
    assert (f + [b])[|f|] == b;
  }

  /** remake_prefix: the first `d - 1` bytes of the key, byte `b`, and zeros. */
  function Remake(k: Key, d: nat, b: Byte): (r: Key)
    requires 1 <= d <= KEY_LEN
  {
    k[..d - 1] + [b] + seq(KEY_LEN - d, _ => 0)
  }

  lemma RemakeExtends(k: Key, p: Bytes, b: Byte)
    requires 1 <= |p| <= KEY_LEN && Ext(p, Path(k))
    ensures Ext(p + [b], Path(Remake(k, |p|, b)))
  {
    var r := Remake(k, |p|, b);
    forall i | 0 <= i < |p| + 1 ensures (p + [b])[i] == Path(r)[i] {
      if 0 < i < |p| { assert r[i - 1] == k[i - 1]; }
    }
  }

  /** A bound that carries the true path of record byte `b` of the page. */
  method NextBound(k: Key, h: Header, b: Byte, ghost f: Bytes) returns (r: Key)
    requires HeaderOK(h, f) && 1 <= |f| <= KEY_LEN && Ext(f[..h.depth], Path(k))
    ensures Ext(f + [b], Path(r))
  {
    r := k;
    var i := 0;
    while i < |h.partial|
      invariant 0 <= i <= |h.partial| && Ext(f[..h.depth + i], Path(r))
    {
      RemakeExtends(r, f[..h.depth + i], h.partial[i]);
      assert f[..h.depth + i] + [h.partial[i]] == f[..h.depth + i + 1];
      r := Remake(r, h.depth + i, h.partial[i]);
      i := i + 1;
    }
    assert f[..h.depth + i] == f;
    RemakeExtends(r, f, b);
    r := Remake(r, h.depth + |h.partial|, b);
  }
}
