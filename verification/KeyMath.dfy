/** Keys of any length as big-endian numbers. */
module KeyMath {
  import opened Keys

  /** 256 to the power of `n`. */
  function Pow(n: nat): (p: nat)
    ensures p >= 1
  {
    if n == 0 then 1 else 256 * Pow(n - 1)
  }

  /** The number whose base-256 digits are the bytes of `a`, the most significant first. */
  function ToNat(a: Bytes): (n: nat) {
    if a == [] then 0 else 256 * ToNat(a[..|a| - 1]) + a[|a| - 1]
  }

  /** Lexicographic order of keys of the same length. */
  predicate Less(a: Bytes, b: Bytes) {
    |a| == |b| && exists i :: 0 <= i < |a| && DiffersAt(a, b, i)
  }

  predicate DiffersAt(a: Bytes, b: Bytes, i: nat) {
    i < |a| && i < |b| && a[..i] == b[..i] && a[i] < b[i]
  }

  lemma {:induction false} Bounded(a: Bytes)
    ensures ToNat(a) < Pow(|a|)
  {
    if a != [] { Bounded(a[..|a| - 1]); }
  }

  lemma {:induction false} Injective(a: Bytes, b: Bytes)
    requires |a| == |b| && ToNat(a) == ToNat(b)
    ensures a == b
    decreases |a|
  {
    if a != [] {
      Injective(a[..|a| - 1], b[..|b| - 1]);
      assert a == a[..|a| - 1] + [a[|a| - 1]] && b == b[..|b| - 1] + [b[|b| - 1]];
    }
  }

  /** Lexicographic order is numeric order. */
  lemma {:induction false} LessIsNumeric(a: Bytes, b: Bytes)
    requires |a| == |b|
    ensures Less(a, b) <==> ToNat(a) < ToNat(b)
    decreases |a|
  {
    if a != [] {
      var n := |a| - 1;
      LessIsNumeric(a[..n], b[..n]);
      LessLast(a, b);
      if ToNat(a[..n]) == ToNat(b[..n]) { Injective(a[..n], b[..n]); }
    }
  }

  lemma LessLast(a: Bytes, b: Bytes)
    requires |a| == |b| > 0
    ensures var n := |a| - 1; Less(a, b) <==> Less(a[..n], b[..n]) || (a[..n] == b[..n] && a[n] < b[n])
  {
    var n := |a| - 1;
    if Less(a, b) {
      var i: nat :| i < |a| && DiffersAt(a, b, i);
      if i < n {
        assert a[..n][..i] == a[..i] && b[..n][..i] == b[..i];
        assert DiffersAt(a[..n], b[..n], i);
      } else {
        assert a[..n] == b[..n];
      }
    }
    if Less(a[..n], b[..n]) {
      var i: nat :| i < n && DiffersAt(a[..n], b[..n], i);
      assert a[..n][..i] == a[..i] && b[..n][..i] == b[..i];
      assert DiffersAt(a, b, i);
    }
    if a[..n] == b[..n] && a[n] < b[n] { assert DiffersAt(a, b, n); }
  }

  /** Replacing one digit. */
  lemma {:induction false} Replace(a: Bytes, j: nat, v: Byte)
    requires j < |a|
    ensures ToNat(a[j := v]) == ToNat(a) + (v - a[j]) * Pow(|a| - 1 - j)
    decreases |a|
  {
    var n := |a| - 1;
    if j < n {
      Replace(a[..n], j, v);
      assert a[j := v][..n] == a[..n][j := v];
      var d, p := v - a[j], Pow(n - 1 - j);
      assert Pow(n - j) == 256 * p;
      assert 256 * (d * p) == d * (256 * p);
    } else {
      assert a[j := v][..n] == a[..n];
    }
  }

  lemma Multiple(d: int, p: nat)
    ensures d >= 1 ==> d * p >= p
    ensures d <= -1 ==> d * p <= 0 - p
  {}

  lemma WrapMod(x: int, r: nat, c: int, p: nat)
    requires r < p && x == r + c * p
    ensures x % p == r
  {
    var q := x / p;
    assert x == q * p + x % p;
    assert (c - q) * p == x % p - r;
    Multiple(c - q, p);
  }

  /** operator+ : adds one byte, modulo 256^n. */
  method Plus(a: Bytes, b0: Byte) returns (r: Bytes)
    ensures |r| == |a| && ToNat(r) == (ToNat(a) + b0) % Pow(|a|)
  {
    r := a;
    var b: int, i := b0, 0;
    while i < |a|
      invariant 0 <= i <= |a| == |r| && 0 <= b < 256
      invariant ToNat(a) + b0 == ToNat(r) + b * Pow(i)
    {
      var j := |a| - 1 - i;
      if r[j] + b < 256 {
        Replace(r, j, r[j] + b);
        r := r[j := r[j] + b];
        b := 0;
        break;
      }
      var tmp := r[j] + b;
      Replace(r, j, tmp % 256);
      Carry(tmp - 256 - r[j], b, Pow(i));
      r, b := r[j := tmp % 256], tmp / 256;
      i := i + 1;
    }
    Bounded(r);
    WrapMod(ToNat(a) + b0, ToNat(r), if b == 0 then 0 else b, Pow(|a|));
  }

  lemma Carry(d: int, b: int, p: nat)
    requires d == b - 256
    ensures d * p + 256 * p == b * p
  {}

  lemma Negate(b: int, p: int)
    ensures (0 - b) * p == 0 - b * p && (256 - b) * p == 256 * p - b * p
  {}

  lemma DivMod(x: int, p: nat)
    requires p > 0
    ensures x == (x / p) * p + x % p
  {}

  /** One byte of the subtraction: the digit that is left and the borrow. */
  method Borrow(d: Byte, b: int) returns (v: Byte, carry: int)
    requires d < b < 256
    ensures carry == 1 && v == d + 256 - b
  {
    carry := 0;
    var tmp: int := d;
    while tmp < b
      invariant tmp == d + 256 * carry && 0 <= carry <= 1
      decreases b - tmp
    {
      tmp, carry := tmp + 256, carry + 1;
    }
    v := d + carry * 256 - b;
  }

  /** operator- : subtracts one byte, modulo 256^n. */
  method Minus(a: Bytes, b0: Byte) returns (r: Bytes)
    ensures |r| == |a| && ToNat(r) == (ToNat(a) - b0) % Pow(|a|)
  {
    r := a;
    var b: int, i := b0, 0;
    while i < |a|
      invariant 0 <= i <= |a| == |r| && 0 <= b < 256
      invariant ToNat(a) - b0 == ToNat(r) - b * Pow(i)
    {
      var j := |a| - 1 - i;
      Negate(b, Pow(i));
      if r[j] >= b {
        Replace(r, j, r[j] - b);
        r := r[j := r[j] - b];
        b := 0;
        break;
      }
      var v, carry := Borrow(r[j], b);
      Replace(r, j, v);
      r, b := r[j := v], carry;
      i := i + 1;
    }
    Bounded(r);
    Negate(b, Pow(|a|));
    WrapMod(ToNat(a) - b0, ToNat(r), if b == 0 then 0 else 0 - b, Pow(|a|));
  }

  /** One byte of add_one: the digit goes up, or the carry moves on. */
  lemma DigitUp(r: Bytes, i: nat, p: nat)
    requires i < |r| && p == Pow(i)
    ensures var j := |r| - 1 - i;
      if r[j] < 255 then ToNat(r[j := r[j] + 1]) == ToNat(r) + p else ToNat(r[j := 0]) + Pow(i + 1) == ToNat(r) + p
  {
    var j := |r| - 1 - i;
    Replace(r, j, if r[j] < 255 then r[j] + 1 else 0);
  }

  /** add_one, in place. */
  method AddOne(a: array<Byte>)
    modifies a
    ensures ToNat(a[..]) == (ToNat(old(a[..])) + 1) % Pow(a.Length)
  {
    ghost var was := a[..];
    var i, done := 0, false;
    while i < a.Length && !done
      decreases a.Length - i, !done
      invariant 0 <= i <= a.Length && ToNat(was) + 1 == ToNat(a[..]) + (if done then 0 else Pow(i))
    {
      var j := a.Length - 1 - i;
      ghost var r := a[..];
      DigitUp(r, i, Pow(i));
      if a[j] as int + 1 < 256 {
        a[j] := a[j] + 1;
        assert a[..] == r[j := r[j] + 1];
        done := true;
      } else {
        a[j] := 0;
        assert a[..] == r[j := 0];
        i := i + 1;
      }
    }
    Bounded(a[..]);
    WrapMod(ToNat(was) + 1, ToNat(a[..]), if done then 0 else 1, Pow(a.Length));
  }

  /** Subtraction undoes addition and the other way round, whatever wraps around. */
  lemma Undone(a: Bytes, r: Bytes, s: Bytes, b: int)
    requires |a| == |r| == |s| && ToNat(r) == (ToNat(a) + b) % Pow(|a|) && ToNat(s) == (ToNat(r) - b) % Pow(|a|)
    ensures s == a
  {
    var p := Pow(|a|);
    Bounded(a);
    var q := (ToNat(a) + b) / p;
    DivMod(ToNat(a) + b, p);
    Negate(q, p);
    WrapMod(ToNat(r) - b, ToNat(a), 0 - q, p);
    Injective(s, a);
  }

  /** What add_one computes is what adding 1 computes. */
  lemma AddOneIsPlus(a: Bytes, r: Bytes, s: Bytes)
    requires |r| == |s| == |a| && ToNat(r) == (ToNat(a) + 1) % Pow(|a|) && ToNat(s) == (ToNat(a) + 1) % Pow(|a|)
    ensures r == s
  {
    Injective(r, s);
  }

  // the keys below a prefix

  /** The first `d` bytes of the key, followed by zeros. */
  function Leftmost(k: Bytes, d: nat): (r: Bytes)
    requires d <= |k|
    ensures |r| == |k|
  {
    k[..d] + seq(|k| - d, _ => 0)
  }

  /** The first `d` bytes of the key, followed by bytes of 255. */
  function Rightmost(k: Bytes, d: nat): (r: Bytes)
    requires d <= |k|
    ensures |r| == |k|
  {
    k[..d] + seq(|k| - d, _ => 255)
  }

  predicate AtMost(a: Bytes, b: Bytes) {
    a == b || Less(a, b)
  }

  /** The keys that share the first `d` bytes with `k` are exactly those from leftmost to rightmost. */
  lemma PrefixInterval(k: Bytes, j: Bytes, d: nat)
    requires |j| == |k| && d <= |k|
    ensures j[..d] == k[..d] <==> AtMost(Leftmost(k, d), j) && AtMost(j, Rightmost(k, d))
  {
    var l, r := Leftmost(k, d), Rightmost(k, d);
    if j[..d] == k[..d] {
      if l != j { var i := FirstDiff(l, j); assert DiffersAt(l, j, i); }
      if j != r { var i := FirstDiff(j, r); assert DiffersAt(j, r, i); }
    } else {
      var i := FirstDiff(j[..d], k[..d]);
      assert j[..i] == j[..d][..i] == k[..d][..i] == k[..i];
      assert l[..i] == k[..i] == r[..i] && l[i] == k[i] == r[i];
      NotBetween(l, j, r, i);
    }
  }

  /** The first position at which two keys differ. */
  lemma {:induction false} FirstDiff(a: Bytes, b: Bytes) returns (i: nat)
    requires |a| == |b| && a != b
    ensures i < |a| && a[..i] == b[..i] && a[i] != b[i]
    decreases |a|
  {
    var n := |a| - 1;
    if a[..n] == b[..n] {
      i := n;
      assert a == a[..n] + [a[n]] && b == b[..n] + [b[n]];
    } else {
      i := FirstDiff(a[..n], b[..n]);
      assert a[..n][..i] == a[..i] && b[..n][..i] == b[..i];
    }
  }

  lemma NotBetween(l: Bytes, j: Bytes, r: Bytes, i: nat)
    requires |l| == |j| == |r| && i < |j| && l[..i] == j[..i] == r[..i] && l[i] == r[i] != j[i]
    ensures !(AtMost(l, j) && AtMost(j, r))
  {
    if j[i] < l[i] {
      assert DiffersAt(j, l, i);
      Asymmetric(j, l);
    } else {
      assert DiffersAt(r, j, i);
      Asymmetric(r, j);
    }
  }

  lemma Asymmetric(a: Bytes, b: Bytes)
    requires Less(a, b)
    ensures !AtMost(b, a)
  {
    LessIsNumeric(a, b);
    LessIsNumeric(b, a);
  }

  // conversion to and from integers

  /** key2int: shifts the bytes in from the right, in 64 bits. */
  method Key2Int(k: Bytes) returns (x: nat)
    ensures x == ToNat(k) % Pow(8)
  {
    x := 0;
    var i := 0;
    while i < |k|
      invariant 0 <= i <= |k| && x == ToNat(k[..i]) % Pow(8)
    {
      assert k[..i + 1][..i] == k[..i];
      ShiftMod(ToNat(k[..i]), k[i], Pow(8));
      x := (x * 256 + k[i]) % Pow(8);
      i := i + 1;
    }
    assert k[..i] == k;
  }

  lemma ShiftMod(n: nat, b: nat, p: nat)
    requires p > 0
    ensures ((n % p) * 256 + b) % p == (256 * n + b) % p
  {
    var q, r := n / p, n % p;
    var y := r * 256 + b;
    assert n == q * p + r;
    assert 256 * n + b == y + (256 * q) * p;
    assert y == (y / p) * p + y % p;
    assert 256 * n + b == y % p + (256 * q + y / p) * p;
    WrapMod(256 * n + b, y % p, 256 * q + y / p, p);
  }

  /** int2key: byte `i` is the integer shifted right by 8 bits for each byte behind it, masked. */
  method Int2Key(x: nat, n: nat) returns (k: Bytes)
    ensures |k| == n && ToNat(k) == x % Pow(n)
  {
    k := [];
    while |k| < n
      invariant |k| <= n && ToNat(k) == (x / Pow(n - |k|)) % Pow(|k|)
      decreases n - |k|
    {
      var p := Pow(n - |k| - 1);
      ShiftIn(x, p, |k|);
      var b: Byte := (x / p) % 256;
      assert (k + [b])[..|k|] == k;
      k := k + [b];
    }
  }

  lemma ShiftIn(x: nat, p: nat, m: nat)
    requires p > 0
    ensures 256 * ((x / (256 * p)) % Pow(m)) + (x / p) % 256 == (x / p) % Pow(m + 1)
  {
    var y := x / p;
    DivTwice(x, p);
    var q := y / 256;
    assert y == 256 * q + y % 256;
    var c, r := q / Pow(m), q % Pow(m);
    assert q == c * Pow(m) + r;
    assert Pow(m + 1) == 256 * Pow(m);
    assert 256 * (c * Pow(m)) == c * (256 * Pow(m));
    assert y == 256 * r + y % 256 + c * Pow(m + 1);
    WrapMod(y, 256 * r + y % 256, c, Pow(m + 1));
  }

  lemma DivTwice(x: nat, p: nat)
    requires p > 0
    ensures x / (256 * p) == (x / p) / 256
  {
    var y, r := x / p, x % p;
    DivMod(x, p);
    var q, s := y / 256, y % 256;
    Distribute(q, s, p);
    Smaller(s, p);
    DivIs(x, 256 * p, q, s * p + r);
  }

  lemma Distribute(q: int, s: int, p: int)
    ensures (256 * q + s) * p == q * (256 * p) + s * p
  {}

  lemma Smaller(s: nat, p: nat)
    requires s <= 255
    ensures 0 <= s * p <= 255 * p
  {}

  lemma DivIs(x: nat, p: nat, q: nat, r: nat)
    requires r < p && x == q * p + r
    ensures x / p == q
  {
    WrapMod(x, r, q, p);
    assert x == (x / p) * p + x % p;
    Cancel(x / p, q, p);
  }

  lemma Cancel(a: int, b: int, p: nat)
    requires p > 0 && a * p == b * p
    ensures a == b
  {
    Multiple(a - b, p);
    assert (a - b) * p == 0;
  }

  /** At eight bytes the two conversions are inverse to each other. */
  lemma EightBytes(k: Bytes, j: Bytes, x: nat)
    requires |k| == |j| == 8 && x < Pow(8)
    ensures ToNat(j) == x % Pow(8) ==> ToNat(j) % Pow(8) == x
    ensures ToNat(j) == (ToNat(k) % Pow(8)) % Pow(8) ==> j == k
  {
    Bounded(k);
    WrapMod(x, x, 0, Pow(8));
    WrapMod(ToNat(k), ToNat(k), 0, Pow(8));
    if ToNat(j) == ToNat(k) { Injective(j, k); }
  }
}
