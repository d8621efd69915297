/** Protobuf variable-length integers: the unrolled readers against the plain loop, the writers they invert,
    and length prefixes put in front of a payload in place. */
module PbVarint {
  type Byte = x: int | 0 <= x < 256

  const TWO32: nat := 0x1_0000_0000
  const TWO64: nat := 0x1_0000_0000_0000_0000

  // ------------------------------------------------------------- what a varint is

  function Pow128(k: nat): (r: nat)
    ensures r > 0
  {
    if k == 0 then 1 else 128 * Pow128(k - 1)
  }

  /** The value of the low seven bits of the first `k` bytes, least significant first. */
  function Acc(buf: seq<Byte>, p: nat, k: nat): nat
    requires p + k <= |buf|
  {
    if k == 0 then 0 else Acc(buf, p, k - 1) + buf[p + k - 1] % 128 * Pow128(k - 1)
  }

  /** The number of bytes of the varint at `p` whose first `k` bytes all go on; 0 if it does not end within ten bytes
      or within the buffer. */
  function Stop(buf: seq<Byte>, p: nat, k: nat): (n: nat)
    ensures n > 0 ==> k < n <= 10 && p + n <= |buf|
    decreases 10 - k
  {
    if k >= 10 || p + k >= |buf| then 0
    else if buf[p + k] < 128 then k + 1
    else Stop(buf, p, k + 1)
  }

  lemma Powers()
    ensures Pow128(0) == 1 && Pow128(1) == 0x80 && Pow128(2) == 0x4000 && Pow128(3) == 0x20_0000
    ensures Pow128(4) == 0x1000_0000 && Pow128(5) == 0x8_0000_0000 && Pow128(6) == 0x400_0000_0000
    ensures Pow128(7) == 0x2_0000_0000_0000 && Pow128(8) == 0x100_0000_0000_0000 && Pow128(9) == 0x8000_0000_0000_0000
  {
  }

  lemma {:induction false} AccBound(buf: seq<Byte>, p: nat, k: nat)
    requires p + k <= |buf|
    ensures Acc(buf, p, k) < Pow128(k)
  {
    if k > 0 {
      AccBound(buf, p, k - 1);
      Digit(buf[p + k - 1] % 128, Pow128(k - 1));
    }
  }

  lemma Digit(d: nat, m: nat)
    requires d < 128
    ensures d * m + m <= 128 * m
  {
    assert (127 - d) * m >= 0;
  }

  // ------------------------------------------------------------------- the readers

  class Slice {
    const buf: seq<Byte>
    var p: nat

    ghost predicate Valid()
      reads this
    {
      p <= |buf|
    }

    constructor (data: seq<Byte>, pos: nat)
      requires pos <= |data|
      ensures Valid() && buf == data && p == pos
    {
      buf, p := data, pos;
    }

    /** One byte at a time, ten at most. */
    method ReadVarintSlow() returns (ret: nat, value: nat)
      requires Valid()
      modifies this
      ensures Valid() && ret == Stop(buf, old(p), 0) && p == old(p) + ret
      ensures ret > 0 ==> value == Acc(buf, old(p), ret) % TWO64
    {
      Powers();
      hide Pow128;
      var start, n, i := p, 0, 0;
      value := 0;
      while p < |buf| && i < 10
        invariant 0 <= i <= 10 && p == start + i <= |buf| && start == old(p) && 0 <= n
        invariant Stop(buf, start, 0) == Stop(buf, start, i) && n == Acc(buf, start, i) % TWO64
      {
        var b := buf[p];
        p := p + 1;
        Shifted(buf, start, i);
        n := (n + b % 128 * Pow128(i)) % TWO64;
        i := i + 1;
        if b < 128 {
          value := n;
          return i, value;
        }
      }
      p := start;
      ret := 0;
    }

    /** Ten bytes without a loop, in three parts, for a buffer known to hold the end of the varint or ten bytes. */
    method ReadVarint64Fallback() returns (ret: nat, value: nat)
      requires Valid() && Ends(buf, p)
      modifies this
      ensures Valid() && ret == Stop(buf, old(p), 0) && p == old(p) + ret
      ensures ret > 0 ==> value == Acc(buf, old(p), ret) % TWO64
    {
      AtStart(buf, p);
      hide Pow128, Acc, Stop, Ends, GoesOn;
      var n2, n3 := 0, 0;
      var n1, used, done := Gather4(buf, p, 0);
      ret := used;
      if !done {
        n2, used, done := Gather4(buf, p, 4);
        Combine(buf, p, used);
        ret := 4 + used;
        if !done {
          n3, used, done := Gather2(buf, p, 8);
          Combine8(buf, p, used);
          ret := 8 + used;
          if !done { return 0, 0; }
        }
      }
      var n := n1 + n2 * 0x1000_0000 + n3 * 0x100_0000_0000_0000;
      assert n == Acc(buf, p, ret);
      value := n % TWO64;
      p := p + ret;
    }

    /** Four bytes and part of a fifth make the value; the rest is only skipped. */
    method ReadVarint32Fallback() returns (ret: nat, value: nat)
      requires Valid() && Ends(buf, p)
      modifies this
      ensures Valid() && ret == Stop(buf, old(p), 0) && p == old(p) + ret
      ensures ret > 0 ==> value == Acc(buf, old(p), ret) % TWO32
    {
      Powers();
      AtStart(buf, p);
      hide Pow128, Acc, Stop, Ends, GoesOn;
      var n, used, done := Gather4(buf, p, 0);
      ret := used;
      if !done {
        More(buf, p, 4);
        Fifth(buf, p);
        n := (n + buf[p + 4] * 0x1000_0000) % TWO32;
        ret := 5;
        if buf[p + 4] >= 0x80 {
          ret := Skip5(buf, p);
          if ret == 0 { return 0, 0; }
          HighBytes(buf, p, ret);
        }
      }
      AccBound(buf, p, ret);
      if ret <= 4 { Small(buf, p, ret); }
      value := n;
      p := p + ret;
    }

    method ReadVarint64() returns (ret: nat, value: nat)
      requires Valid()
      modifies this
      ensures Valid() && ret == Stop(buf, old(p), 0) && p == old(p) + ret
      ensures ret > 0 ==> value == Acc(buf, old(p), ret) % TWO64
    {
      AtEnd(buf, p);
      if p < |buf| && buf[p] < 0x80 { OneByte(buf, p); }
      hide Acc, Stop, Pow128;
      if p >= |buf| { return 0, 0; }
      if buf[p] < 0x80 {
        p := p + 1;
        return 1, buf[p - 1];
      }
      if |buf| - p >= 10 || buf[|buf| - 1] < 0x80 {
        ret, value := ReadVarint64Fallback();
      } else {
        ret, value := ReadVarintSlow();
      }
    }

    method ReadVarint32() returns (ret: nat, value: nat)
      requires Valid()
      modifies this
      ensures Valid() && ret == Stop(buf, old(p), 0) && p == old(p) + ret
      ensures ret > 0 ==> value == Acc(buf, old(p), ret) % TWO32
    {
      ghost var start := p;
      AtEnd(buf, p);
      if p < |buf| && buf[p] < 0x80 { OneByte(buf, p); }
      hide Acc, Stop, Pow128;
      if p >= |buf| { return 0, 0; }
      if buf[p] < 0x80 {
        p := p + 1;
        return 1, buf[p - 1];
      }
      if |buf| - p >= 10 || buf[|buf| - 1] < 0x80 {
        ret, value := ReadVarint32Fallback();
      } else {
        var v;
        ret, v := ReadVarintSlow();
        if ret > 0 { ModMod(Acc(buf, start, ret)); }
        value := v % TWO32;
      }
    }

    /** A length and that many bytes; the cursor does not move when they are not all there. */
    method ReadBytes() returns (ret: nat, payload: seq<Byte>)
      requires Valid()
      modifies this
      ensures Valid()
      ensures var n := Stop(buf, old(p), 0);
              var fits := n > 0 && Acc(buf, old(p), n) % TWO64 <= |buf| - old(p) - n;
              && (fits ==> ret == n + Acc(buf, old(p), n) % TWO64 && p == old(p) + ret && payload == buf[old(p) + n..old(p) + ret])
              && (!fits ==> ret == 0 && p == old(p))
    {
      hide Stop, Acc;
      var start := p;
      var n, len := ReadVarint64();
      if n == 0 || |buf| - p < len {
        p := start;
        return 0, [];
      }
      payload := buf[p..p + len];
      p := p + len;
      ret := p - start;
    }
  }

  /** Reading on is safe: ten bytes are there, or the last byte ends the varint. */
  ghost predicate Ends(buf: seq<Byte>, p: nat) {
    p < |buf| && (|buf| - p >= 10 || buf[|buf| - 1] < 128)
  }

  /** The first `k` bytes all go on. */
  ghost predicate GoesOn(buf: seq<Byte>, p: nat, k: nat) {
    p + k <= |buf| && Stop(buf, p, 0) == Stop(buf, p, k) && (k > 0 ==> buf[p + k - 1] >= 128)
  }

  /** The next byte: it is there, it ends the varint or goes on, and it adds its low bits. */
  lemma More(buf: seq<Byte>, p: nat, k: nat)
    requires Ends(buf, p) && GoesOn(buf, p, k)
    ensures k >= 10 ==> Stop(buf, p, 0) == 0
    ensures k < 10 ==> p + k < |buf| && Acc(buf, p, k + 1) == Acc(buf, p, k) + buf[p + k] % 128 * Pow128(k)
    ensures k < 10 && buf[p + k] < 128 ==> Stop(buf, p, 0) == k + 1 && buf[p + k] % 128 == buf[p + k]
    ensures k < 10 && buf[p + k] >= 128 ==> GoesOn(buf, p, k + 1) && buf[p + k] % 128 == buf[p + k] - 128
  {
  }

  lemma AtStart(buf: seq<Byte>, p: nat)
    requires Ends(buf, p)
    ensures p < |buf| && GoesOn(buf, p, 0)
  {
  }

  lemma PowersTo3()
    ensures Pow128(0) == 1 && Pow128(1) == 0x80 && Pow128(2) == 0x4000 && Pow128(3) == 0x20_0000
  {
  }

  /** The next byte is there, and ends the varint or goes on. */
  lemma Next(buf: seq<Byte>, p: nat, k: nat)
    requires Ends(buf, p) && GoesOn(buf, p, k) && k < 10
    ensures p + k < |buf|
    ensures if buf[p + k] < 128 then Stop(buf, p, 0) == k + 1 else GoesOn(buf, p, k + 1)
  {
    hide Acc;
    More(buf, p, k);
  }

  lemma Adds(buf: seq<Byte>, s: nat, j: nat, c: nat)
    requires s + j < |buf| && c == Pow128(j)
    ensures Acc(buf, s, j + 1) == Acc(buf, s, j) + (if buf[s + j] < 128 then buf[s + j] as int else buf[s + j] - 128) * c
  {
    hide Pow128;
    Low(buf, s, j);
    var b: int := buf[s + j];
    assert b % 128 == if b < 128 then b else b - 128;
  }

  lemma Low(buf: seq<Byte>, s: nat, j: nat)
    requires s + j < |buf|
    ensures Acc(buf, s, 0) == 0 && Acc(buf, s, j + 1) == Acc(buf, s, j) + buf[s + j] % 128 * Pow128(j)
  {
  }

  /** Four bytes from the k-th on, or fewer if the varint ends. */
  method Gather4(buf: seq<Byte>, p: nat, k: nat) returns (n: nat, used: nat, done: bool)
    requires Ends(buf, p) && GoesOn(buf, p, k) && k + 4 <= 10
    ensures 1 <= used <= 4 && p + k + used <= |buf| && n == Acc(buf, p + k, used)
    ensures done ==> Stop(buf, p, 0) == k + used
    ensures !done ==> used == 4 && GoesOn(buf, p, k + 4)
  {
    hide Pow128, Acc, Stop, Ends, GoesOn;
    PowersTo3();
    AccZero(buf, p + k);
    var s: nat, b: int := p + k, 0;
    Next(buf, p, k + 0);
    Adds(buf, s, 0, 0x1);
    b := buf[s + 0];
    n := b;
    if b < 0x80 { return n, 1, true; }
    n := n - 0x80;
    Next(buf, p, k + 1);
    Adds(buf, s, 1, 0x80);
    b := buf[s + 1];
    n := n + b * 0x80;
    if b < 0x80 { return n, 2, true; }
    n := n - 0x4000;
    Next(buf, p, k + 2);
    Adds(buf, s, 2, 0x4000);
    b := buf[s + 2];
    n := n + b * 0x4000;
    if b < 0x80 { return n, 3, true; }
    n := n - 0x200000;
    Next(buf, p, k + 3);
    Adds(buf, s, 3, 0x200000);
    b := buf[s + 3];
    n := n + b * 0x200000;
    if b < 0x80 { return n, 4, true; }
    n := n - 0x10000000;
    return n, 4, false;
  }

  method Gather2(buf: seq<Byte>, p: nat, k: nat) returns (n: nat, used: nat, done: bool)
    requires Ends(buf, p) && GoesOn(buf, p, k) && k == 8
    ensures 1 <= used <= 2 && p + k + used <= |buf| && (done ==> n == Acc(buf, p + k, used))
    ensures Stop(buf, p, 0) == if done then k + used else 0
  {
    Powers();
    hide Pow128, Acc, Stop, Ends, GoesOn;
    var s: nat, b: int := p + k, 0;
    More(buf, p, 8);
    Low(buf, s, 0);
    n := buf[s];
    if n < 0x80 { return n, 1, true; }
    n := n - 0x80;
    More(buf, p, 9);
    Low(buf, s, 1);
    b := buf[s + 1];
    n := n + b * 0x80;
    done := b < 0x80;
    if !done { More(buf, p, 10); }
    used := 2;
  }

  method Skip5(buf: seq<Byte>, p: nat) returns (ret: nat)
    requires Ends(buf, p) && GoesOn(buf, p, 5)
    ensures ret == Stop(buf, p, 0) && (ret > 0 ==> ret > 5)
  {
    hide Pow128, Acc, Stop, Ends, GoesOn;
    More(buf, p, 5);
    if buf[p + 5] < 0x80 { return 6; }
    More(buf, p, 6);
    if buf[p + 6] < 0x80 { return 7; }
    More(buf, p, 7);
    if buf[p + 7] < 0x80 { return 8; }
    More(buf, p, 8);
    if buf[p + 8] < 0x80 { return 9; }
    More(buf, p, 9);
    if buf[p + 9] < 0x80 { return 10; }
    More(buf, p, 10);
    ret := 0;
  }

  lemma {:induction false} AccSplit(buf: seq<Byte>, p: nat, k: nat, j: nat)
    requires p + k + j <= |buf|
    ensures Acc(buf, p, k + j) == Acc(buf, p, k) + Acc(buf, p + k, j) * Pow128(k)
  {
    if j > 0 {
      AccSplit(buf, p, k, j - 1);
      var d := buf[p + k + j - 1] % 128;
      PowSum(k, j - 1);
      Distribute(Acc(buf, p + k, j - 1), d, Pow128(j - 1), Pow128(k));
    }
  }

  lemma Combine(buf: seq<Byte>, p: nat, j: nat)
    requires p + 4 + j <= |buf|
    ensures Acc(buf, p, 4 + j) == Acc(buf, p, 4) + Acc(buf, p + 4, j) * 0x1000_0000
  {
    Powers();
    AccSplit(buf, p, 4, j);
  }

  lemma Combine8(buf: seq<Byte>, p: nat, j: nat)
    requires p + 8 + j <= |buf|
    ensures Acc(buf, p, 8 + j) == Acc(buf, p, 8) + Acc(buf, p + 8, j) * 0x100_0000_0000_0000
  {
    Powers();
    AccSplit(buf, p, 8, j);
  }

  lemma {:induction false} PowSum(a: nat, b: nat)
    ensures Pow128(a + b) == Pow128(b) * Pow128(a)
  {
    if b > 0 {
      PowSum(a, b - 1);
      assert Pow128(b) * Pow128(a) == 128 * (Pow128(b - 1) * Pow128(a));
    }
  }

  lemma Distribute(x: nat, d: nat, m: nat, y: nat)
    ensures (x + d * m) * y == x * y + d * (m * y)
  {
  }

  lemma Fifth(buf: seq<Byte>, p: nat)
    requires p + 5 <= |buf|
    ensures Acc(buf, p, 5) % TWO32 == (Acc(buf, p, 4) + (buf[p + 4] as int) * 0x1000_0000) % TWO32
  {
    Powers();
    hide Pow128;
    Low(buf, p, 4);
    var b: int := buf[p + 4];
    assert b == b % 128 + 128 * (b / 128);
  }

  /** From the sixth on, bytes do not show in the low 32 bits. */
  lemma HighBytes(buf: seq<Byte>, p: nat, k: nat)
    requires 5 <= k && p + k <= |buf|
    ensures Acc(buf, p, k) % TWO32 == Acc(buf, p, 5) % TWO32
  {
    Powers();
    AccSplit(buf, p, 5, k - 5);
    hide Pow128, Acc;
    AddMultiple(Acc(buf, p, 5), 8 * Acc(buf, p + 5, k - 5));
  }

  lemma AddMultiple(a: nat, k: nat)
    ensures (a + 0x1_0000_0000 * k) % TWO32 == a % TWO32
  {
  }

  lemma Small(buf: seq<Byte>, p: nat, k: nat)
    requires k <= 4 && p + k <= |buf|
    ensures Acc(buf, p, k) % TWO32 == Acc(buf, p, k)
  {
    AccBound(buf, p, k);
    Powers();
  }

  lemma AtEnd(buf: seq<Byte>, p: nat)
    ensures p >= |buf| ==> Stop(buf, p, 0) == 0
  {
  }

  lemma ModMod(x: nat)
    ensures x % TWO64 % TWO32 == x % TWO32
  {
    var k := x / TWO64;
    assert x == x % TWO64 + TWO32 * (TWO32 * k);
    AddMultiple(x % TWO64, TWO32 * k);
  }

  lemma OneByte(buf: seq<Byte>, p: nat)
    requires p < |buf| && buf[p] < 128
    ensures Stop(buf, p, 0) == 1 && Acc(buf, p, 1) == buf[p]
  {
    assert Acc(buf, p, 0) == 0;
  }

  lemma Shifted(buf: seq<Byte>, p: nat, i: nat)
    requires p + i < |buf|
    ensures (Acc(buf, p, i) % TWO64 + buf[p + i] % 128 * Pow128(i)) % TWO64 == Acc(buf, p, i + 1) % TWO64
  {
    hide Pow128;
    var a, x := Acc(buf, p, i), buf[p + i] % 128 * Pow128(i);
    assert Acc(buf, p, i + 1) == a + x;
    ModAdd(a, x);
  }

  lemma ModAdd(a: nat, x: int)
    requires a + x >= 0
    ensures (a % TWO64 + x) % TWO64 == (a + x) % TWO64
  {
  }

  // ------------------------------------------------------------------- the writers

  function Encoded(n: nat): (r: seq<Byte>)
    ensures r != []
  {
    if n < 128 then [n] else [n % 128 + 128] + Encoded(n / 128)
  }

  /** What is out and what is left make the whole encoding. */
  ghost predicate Writing(out: seq<Byte>, n: nat, whole: nat) { out + Encoded(n) == Encoded(whole) }

  lemma Wrote(out: seq<Byte>, n: nat, whole: nat)
    requires Writing(out, n, whole)
    ensures n / 128 == 0 ==> out + [n % 128] == Encoded(whole)
    ensures n / 128 > 0 ==> Writing(out + [n % 128 + 0x80], n / 128, whole)
  {
    if n / 128 > 0 { assert out + ([n % 128 + 128] + Encoded(n / 128)) == out + [n % 128 + 128] + Encoded(n / 128); }
  }

  lemma {:induction false} AccFront(buf: seq<Byte>, p: nat, k: nat)
    requires p + k + 1 <= |buf|
    ensures Acc(buf, p, k + 1) == buf[p] % 128 + 128 * Acc(buf, p + 1, k)
  {
    assert Acc(buf, p, 1) == buf[p] % 128 by { assert Acc(buf, p, 0) == 0; }
    AccSplit(buf, p, 1, k);
    assert Pow128(1) == 128 by { Powers(); }
  }

  /** The reader's loop, started at any byte, sees the encoding written there. */
  lemma {:induction false} ReadEncoded(buf: seq<Byte>, p: nat, k: nat, n: nat)
    requires k < 10 && n < Pow128(10 - k) && p + k + |Encoded(n)| <= |buf| && buf[p + k..p + k + |Encoded(n)|] == Encoded(n)
    ensures Stop(buf, p, k) == k + |Encoded(n)| && Acc(buf, p + k, |Encoded(n)|) == n
    decreases n
  {
    EncodedStep(n);
    hide Acc, Pow128, Stop, Encoded;
    var e, m := Encoded(n), |Encoded(n)|;
    assert buf[p + k] == e[0] by { assert buf[p + k..p + k + m][0] == e[0]; }
    StopStep(buf, p, k);
    AccZero(buf, p + k + 1);
    if n < 128 {
      AccFront(buf, p + k, 0);
    } else {
      assert e[1..] == Encoded(n / 128);
      assert buf[p + k + 1..p + k + 1 + (m - 1)] == buf[p + k..p + k + m][1..];
      Bigger(n, 10 - k);
      ReadEncoded(buf, p, k + 1, n / 128);
      FrontValue(buf, p + k, m, n);
    }
  }

  lemma EncodedStep(n: nat)
    ensures Encoded(n) == if n < 128 then [n] else [n % 128 + 128] + Encoded(n / 128)
  {
  }

  lemma StopStep(buf: seq<Byte>, p: nat, k: nat)
    requires k < 10 && p + k < |buf|
    ensures Stop(buf, p, k) == if buf[p + k] < 128 then k + 1 else Stop(buf, p, k + 1)
  {
  }

  lemma FrontValue(buf: seq<Byte>, s: nat, m: nat, n: nat)
    requires 0 < m && s + m <= |buf| && buf[s] == n % 128 + 128 && Acc(buf, s + 1, m - 1) == n / 128
    ensures Acc(buf, s, m) == n
  {
    AccFront(buf, s, m - 1);
    hide Acc;
    var q, r := n / 128, n % 128;
    assert n == r + 128 * q && (r + 128) % 128 == r;
  }

  lemma AccZero(buf: seq<Byte>, p: nat)
    ensures p <= |buf| ==> Acc(buf, p, 0) == 0
  {
  }

  lemma Bigger(n: nat, j: nat)
    requires 128 <= n < Pow128(j)
    ensures j > 1 && n / 128 < Pow128(j - 1)
  {
    assert j > 0;
    if j == 1 { Powers(); }
  }

  /** Reading inverts writing, wherever the encoding stands. */
  lemma RoundTrip(before: seq<Byte>, n: nat, after: seq<Byte>)
    requires n < TWO64
    ensures var buf := before + Encoded(n) + after;
            Stop(buf, |before|, 0) == |Encoded(n)| && Acc(buf, |before|, |Encoded(n)|) == n
  {
    var buf := before + Encoded(n) + after;
    TenBytes();
    hide Pow128, Encoded, Stop, Acc;
    Middle(before, Encoded(n), after);
    ReadEncoded(buf, |before|, 0, n);
  }

  lemma Middle(a: seq<Byte>, b: seq<Byte>, c: seq<Byte>)
    ensures (a + b + c)[|a|..|a| + |b|] == b
  {
  }

  lemma TenBytes()
    ensures Pow128(10) >= TWO64
  {
    Powers();
    assert Pow128(10) == 128 * Pow128(9);
  }

  /** One line of the writers: seven bits are taken off; if any are left the byte goes out with its top bit set. */
  method PutByte(out: seq<Byte>, n: nat, ghost whole: nat) returns (out': seq<Byte>, n': nat, x: nat, last: bool)
    requires Writing(out, n, whole)
    ensures x == n % 128 && n' == n / 128
    ensures last ==> out' == out && out + [x] == Encoded(whole)
    ensures !last ==> Writing(out', n', whole)
  {
    Wrote(out, n, whole);
    x, n', out' := n % 128, n / 128, out;
    last := n' == 0;
    if !last { out' := out + [x + 0x80]; }
  }

  /** Up to five bytes, without a loop. */
  method Write32(value: nat) returns (out: seq<Byte>)
    requires value < TWO32
    ensures out == Encoded(value)
  {
    hide Encoded, Writing;
    out := [];
    var n, x, last := value, 0, false;
    Unwritten(value);
    label done: {
      out, n, x, last := PutByte(out, n, value);
      if last { break done; }
      out, n, x, last := PutByte(out, n, value);
      if last { break done; }
      out, n, x, last := PutByte(out, n, value);
      if last { break done; }
      out, n, x, last := PutByte(out, n, value);
      if last { break done; }
      Wrote(out, n, value);
      x := n;
    }
    out := out + [x];
  }

  lemma Unwritten(n: nat)
    ensures Writing([], n, n)
  {
  }

  /** Up to ten bytes, without a loop. */
  method Write64(value: nat) returns (out: seq<Byte>)
    requires value < TWO64
    ensures out == Encoded(value)
  {
    hide Encoded, Writing;
    out := [];
    var n, x, last := value, 0, false;
    Unwritten(value);
    label done: {
      out, n, x, last := PutByte(out, n, value);
      if last { break done; }
      out, n, x, last := PutByte(out, n, value);
      if last { break done; }
      out, n, x, last := PutByte(out, n, value);
      if last { break done; }
      out, n, x, last := PutByte(out, n, value);
      if last { break done; }
      out, n, x, last := PutByte(out, n, value);
      if last { break done; }
      out, n, x, last := PutByte(out, n, value);
      if last { break done; }
      out, n, x, last := PutByte(out, n, value);
      if last { break done; }
      out, n, x, last := PutByte(out, n, value);
      if last { break done; }
      out, n, x, last := PutByte(out, n, value);
      if last { break done; }
      Wrote(out, n, value);
      x := n % 128;
    }
    out := out + [x];
  }

  // --------------------------------------------------------------- length prefixes

  class Buffer {
    var data: seq<Byte>

    constructor (d: seq<Byte>)
      ensures data == d
    {
      data := d;
    }

    /** Room for `n` more bytes, of whatever value; may fail for want of memory. */
    method Grow(n: nat, memory: bool) returns (ok: bool)
      modifies this
      ensures ok == memory
      ensures ok ==> |data| == |old(data)| + n && data[..|old(data)|] == old(data)
      ensures !ok ==> data == old(data)
    {
      if !memory { return false; }
      data := data + seq(n, _ => 0);
      return true;
    }

    /** Puts the length of what follows `len` in front of it, over `reserved` bytes kept free there; the payload
        moves up when the length needs more. */
    method AddLength(len: nat, reserved: nat, memory: bool) returns (ret: nat)
      requires reserved <= len && |data| < TWO64 && (len <= |data| ==> reserved <= |Encoded(|data| - len)|)
      modifies this
      ensures ret > 0 ==> len <= |old(data)| && data == old(data)[..len - reserved] + Encoded(|old(data)| - len) + old(data)[len..]
      ensures ret > 0 ==> ret == |data| - (len - reserved)
      ensures ret == 0 ==> data == old(data)
      ensures ret == 0 <==> |old(data)| < len || (!memory && |Encoded(|old(data)| - len)| > reserved)
    {
      hide Encoded;
      var bl := |data|;
      if bl < len { return 0; }
      var buff := Write64(bl - len);
      var ml, s, rl := |buff|, len - reserved, 0;
      if ml > reserved {
        rl := ml - reserved;
        var ok := Grow(rl, memory);
        if !ok { return 0; }
        data := Moved(data, s + ml, s + reserved, bl - len);
      }
      data := data[..s] + buff + data[s + ml..];
      ret := ml + (bl - len);
    }
  }

  /** memmove: `n` bytes from one place to another. */
  function Moved(d: seq<Byte>, to: nat, from: nat, n: nat): (r: seq<Byte>)
    requires to + n <= |d| && from + n <= |d|
    ensures |r| == |d|
  {
    d[..to] + d[from..from + n] + d[to + n..]
  }

  /** A payload with its length put in front of it is read back whole, and the cursor stops behind it. */
  lemma PayloadRoundTrip(before: seq<Byte>, payload: seq<Byte>, after: seq<Byte>)
    requires |payload| < TWO64
    ensures var buf := before + Encoded(|payload|) + (payload + after);
            var n := Stop(buf, |before|, 0);
            && n > 0 && Acc(buf, |before|, n) % TWO64 == |payload| && |payload| <= |buf| - |before| - n
            && buf[|before| + n..|before| + n + |payload|] == payload
  {
    hide Encoded, Stop, Acc;
    RoundTrip(before, |payload|, payload + after);
  }
}
