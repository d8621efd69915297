/** Bit strings, most significant bit first, and the shifts and masks of byte-wise code. */
module BitStrings {

  type Byte = x: int | 0 <= x < 256

  function Pow2(n: nat): (p: nat)
    ensures p > 0
  {
    if n == 0 then 1 else 2 * Pow2(n - 1)
  }

  function Shr(v: nat, k: nat): nat
    decreases k
  {
    if k == 0 then v else Shr(v / 2, k - 1)
  }

  function Shl(v: nat, k: nat): nat
    decreases k
  {
    if k == 0 then v else Shl(2 * v, k - 1)
  }

  /** The low n bits of v. */
  function Bits(v: nat, n: nat): (b: seq<bool>)
    ensures |b| == n
  {
    if n == 0 then [] else Bits(v / 2, n - 1) + [v % 2 == 1]
  }

  function Value(b: seq<bool>): nat {
    if b == [] then 0 else 2 * Value(b[..|b| - 1]) + if b[|b| - 1] then 1 else 0
  }

  function Zeros(n: nat): (b: seq<bool>)
    ensures |b| == n && forall i :: 0 <= i < n ==> !b[i]
  {
    seq(n, _ => false)
  }

  function Ones(n: nat): (b: seq<bool>)
    ensures |b| == n && forall i :: 0 <= i < n ==> b[i]
  {
    seq(n, _ => true)
  }

  /** The bits of a byte string. */
  function Flat(s: seq<Byte>): (b: seq<bool>)
    ensures |b| == 8 * |s|
  {
    if s == [] then [] else Flat(s[..|s| - 1]) + Bits(s[|s| - 1], 8)
  }

  /** Bitwise or of two bytes. */
  function Or(x: Byte, y: Byte): (z: Byte)
    ensures Bits(z, 8) == OrBits(Bits(x, 8), Bits(y, 8))
  {
    var b := OrBits(Bits(x, 8), Bits(y, 8));
    ValueInRange(b);
    BitsOfValue(b);
    Value(b)
  }

  function OrBits(a: seq<bool>, b: seq<bool>): (c: seq<bool>)
    requires |a| == |b|
    ensures |c| == |a| && forall i :: 0 <= i < |a| ==> c[i] == (a[i] || b[i])
  {
    seq(|a|, i requires 0 <= i < |a| && |a| == |b| => a[i] || b[i])
  }

  lemma {:induction false} BitsOfValue(b: seq<bool>)
    ensures Bits(Value(b), |b|) == b
  {
    if b != [] {
      var c := b[..|b| - 1];
      BitsOfValue(c);
      assert b == c + [b[|b| - 1]];
    }
  }

  lemma {:induction false} ValueInRange(b: seq<bool>)
    ensures Value(b) < Pow2(|b|)
    ensures |b| == 8 ==> Value(b) < 256
  {
    if b != [] { ValueInRange(b[..|b| - 1]); }
    if |b| == 8 { assert Pow2(8) == 256; }
  }

  lemma {:induction false} ValueOfBits(v: nat, n: nat)
    requires v < Pow2(n)
    ensures Value(Bits(v, n)) == v
  {
    if n > 0 {
      ValueOfBits(v / 2, n - 1);
      assert Bits(v, n)[..n - 1] == Bits(v / 2, n - 1);
    }
  }

  /** Cutting the low b bits off. */
  lemma {:induction false} BitsSplit(v: nat, a: nat, b: nat)
    ensures Bits(v, a + b) == Bits(Shr(v, b), a) + Bits(v, b)
  {
    if b > 0 {
      BitsSplit(v / 2, a, b - 1);
      assert Bits(v, a + b) == Bits(v / 2, a + b - 1) + [v % 2 == 1];
    }
  }

  lemma {:induction false} BitsShl(v: nat, n: nat, k: nat)
    ensures Bits(Shl(v, k), n + k) == Bits(v, n) + Zeros(k)
    decreases k
  {
    if k > 0 {
      BitsShl(2 * v, n + 1, k - 1);
      assert Bits(2 * v, n + 1) == Bits(v, n) + [false];
      assert Zeros(k) == [false] + Zeros(k - 1);
    } else {
      assert Zeros(0) == [];
    }
  }

  /** Masking to a byte keeps the low eight bits. */
  lemma ByteMasked(v: nat, n: nat)
    requires n <= 8
    ensures Bits(v % 256, n) == Bits(v, n)
  {
    var q := v / 256;
    assert Pow2(8) == 256;
    Pow2Sum(n, 8 - n);
    MulAssoc(Pow2(n), Pow2(8 - n), q);
    hide Pow2;
    AddHigh(v % 256, n, Pow2(8 - n) * q);
  }

  lemma MulAssoc(a: nat, b: nat, c: nat)
    ensures a * (b * c) == a * b * c
  {
  }

  lemma {:induction false} Pow2Sum(a: nat, b: nat)
    ensures Pow2(a) * Pow2(b) == Pow2(a + b)
  {
    if a > 0 {
      Pow2Sum(a - 1, b);
      Twice(Pow2(a - 1), Pow2(b));
    }
  }

  lemma Twice(x: nat, y: nat)
    ensures (2 * x) * y == 2 * (x * y)
  {
  }

  /** Multiples of 2^n do not show in the low n bits. */
  lemma {:induction false} AddHigh(v: nat, n: nat, k: nat)
    ensures Bits(v + Pow2(n) * k, n) == Bits(v, n)
    decreases n
  {
    if n > 0 {
      var x := Pow2(n - 1) * k;
      assert Pow2(n) * k == 2 * x;
      assert (v + 2 * x) / 2 == v / 2 + x;
      AddHigh(v / 2, n - 1, k);
    }
  }

  /** A value below 2^n has nothing above its low n bits. */
  lemma {:induction false} ShrOfSmall(v: nat, n: nat)
    requires v < Pow2(n)
    ensures Shr(v, n) == 0
  {
    if n > 0 { ShrOfSmall(v / 2, n - 1); }
  }

  lemma {:induction false} BitsOfZero(n: nat)
    ensures Bits(0, n) == Zeros(n)
  {
    if n > 0 { BitsOfZero(n - 1); }
  }

  lemma {:induction false} ShrShr(v: nat, a: nat, b: nat)
    ensures Shr(Shr(v, a), b) == Shr(v, a + b)
  {
    if a > 0 { ShrShr(v / 2, a - 1, b); }
  }

  lemma {:induction false} BitsOfOnes(n: nat)
    ensures Bits(Pow2(n) - 1, n) == Ones(n)
  {
    if n > 0 {
      BitsOfOnes(n - 1);
      assert (Pow2(n) - 1) / 2 == Pow2(n - 1) - 1;
    }
  }

  lemma {:induction false} ShrOfOnes(n: nat, k: nat)
    requires k <= n
    ensures Shr(Pow2(n) - 1, k) == Pow2(n - k) - 1
  {
    if k > 0 {
      ShrOfOnes(n - 1, k - 1);
      assert (Pow2(n) - 1) / 2 == Pow2(n - 1) - 1;
    }
  }

  /** Two fields of a byte that do not overlap are put together by an or. */
  lemma OrFields(x: Byte, y: Byte, p: seq<bool>, c: seq<bool>)
    requires |p| + |c| == 8 && Bits(x, 8) == p + Zeros(|c|) && Bits(y, 8) == Zeros(|p|) + c
    ensures Bits(Or(x, y), 8) == p + c
  {
    var z := Bits(Or(x, y), 8);
    forall i | 0 <= i < 8 ensures z[i] == (p + c)[i] {
      assert z[i] == (Bits(x, 8)[i] || Bits(y, 8)[i]);
    }
  }

  lemma FlatAppend(a: seq<Byte>, x: Byte)
    ensures Flat(a + [x]) == Flat(a) + Bits(x, 8)
  {
    assert (a + [x])[..|a|] == a;
  }

  lemma {:induction false} FlatConcat(a: seq<Byte>, b: seq<Byte>)
    ensures Flat(a + b) == Flat(a) + Flat(b)
  {
    if b == [] {
      assert a + b == a;
    } else {
      FlatConcat(a, b[..|b| - 1]);
      assert (a + b)[..|a + b| - 1] == a + b[..|b| - 1];
    }
  }

  lemma LastOfFlat(a: seq<Byte>)
    requires a != []
    ensures var n := |a| - 1; |Flat(a)| == 8 * |a| && Flat(a)[..8 * n] == Flat(a[..n]) && Value(Flat(a)[8 * n..]) == a[n]
  {
    var n := |a| - 1;
    assert Flat(a)[8 * n..] == Bits(a[n], 8);
    assert Pow2(8) == 256;
    ValueOfBits(a[n], 8);
  }

  lemma {:induction false} FlatInjective(a: seq<Byte>, b: seq<Byte>)
    requires Flat(a) == Flat(b)
    ensures a == b
  {
    if a != [] {
      var n := |a| - 1;
      assert |b| == |a|;
      LastOfFlat(a);
      LastOfFlat(b);
      hide Flat, Bits, Pow2;
      FlatInjective(a[..n], b[..n]);
      assert a == a[..n] + [a[n]] && b == b[..n] + [b[n]];
    }
  }
}
