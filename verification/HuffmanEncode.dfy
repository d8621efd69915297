/** Huffman coding of strings (section 5.2 of RFC 7541): what an encoding is, the bit-packing
    encoder, and unique decodability. */
module HuffmanEncode {
  import opened BitStrings
  import opened HuffmanTable

  /** The codes of a string, one after the other. */
  function Stream(s: seq<Byte>): seq<bool> {
    if s == [] then [] else Stream(s[..|s| - 1]) + CodeBits(s[|s| - 1])
  }

  /** The bits needed to fill the last byte. */
  function PadLen(n: nat): nat { (8 - n % 8) % 8 }

  /** The encoding of a string as bits: its codes, then ones up to the next byte boundary. */
  function Padded(s: seq<Byte>): seq<bool> { Stream(s) + Ones(PadLen(|Stream(s)|)) }

  /** `bytes` is the encoding of `s`. */
  predicate Encodes(bytes: seq<Byte>, s: seq<Byte>) { Flat(bytes) == Padded(s) }

  lemma EncodingIsUnique(a: seq<Byte>, b: seq<Byte>, s: seq<Byte>)
    requires Encodes(a, s) && Encodes(b, s)
    ensures a == b
  {
    FlatInjective(a, b);
  }

  // -------------------------------------------------------------------- lengths

  method HuffmanLen(s: seq<Byte>) returns (len: nat)
    ensures len == (|Stream(s)| + 7) / 8
    ensures forall bytes :: Encodes(bytes, s) ==> |bytes| == len
  {
    var n, i := 0, 0;
    while i < |s|
      invariant 0 <= i <= |s| && n == |Stream(s[..i])|
    {
      assert s[..i + 1][..i] == s[..i];
      n := n + Len(s[i]);
      i := i + 1;
    }
    assert s[..i] == s;
    len := (n + 7) / 8;
  }

  // -------------------------------------------------------------------- packing

  /** The packer has emitted `out` and holds the top bits of `n`; `rem` bits of it are free. */
  ghost predicate Packed(out: seq<Byte>, n: Byte, rem: nat, done: seq<bool>) {
    && 1 <= rem <= 8
    && Bits(n, 8)[8 - rem..] == Zeros(rem)
    && Flat(out) + Bits(n, 8)[..8 - rem] == done
  }

  /** The rest of the code fits with room to spare: it is shifted up into the free bits. */
  lemma PackLast(out: seq<Byte>, n: Byte, rem: nat, done: seq<bool>, code: nat, nbits: nat)
    requires Packed(out, n, rem, done) && 0 < nbits < rem && (rem == 8 || code < Pow2(nbits))
    ensures Packed(out, Or(n, Shl(code, rem - nbits) % 256), rem - nbits, done + Bits(code, nbits))
  {
    hide Bits, Shr, Shl, Pow2, Flat, Zeros, Or;
    var k := rem - nbits;
    var t := Shl(code, k) % 256;
    ByteMasked(Shl(code, k), 8);
    BitsShl(code, 8 - k, k);
    HighZeros(code, 8 - rem, nbits, rem);
    var p, c := Bits(n, 8)[..8 - rem], Bits(code, nbits) + Zeros(k);
    OrFields(n, t, p, c);
    Refit(out, Or(n, t), p, Bits(code, nbits), Zeros(k), done);
  }

  lemma Refit(out: seq<Byte>, m: Byte, p: seq<bool>, c: seq<bool>, z: seq<bool>, done: seq<bool>)
    requires Bits(m, 8) == p + (c + z) && |p| + |c| + |z| == 8 && |z| > 0 && z == Zeros(|z|) && Flat(out) + p == done
    ensures Packed(out, m, |z|, done + c)
  {
    hide Bits, Flat, Zeros;
    assert Bits(m, 8)[..8 - |z|] == p + c && Bits(m, 8)[8 - |z|..] == z;
    assert Flat(out) + (p + c) == done + c;
  }

  /** The code fills the byte, which is emitted. */
  lemma PackFull(out: seq<Byte>, n: Byte, rem: nat, done: seq<bool>, code: nat, nbits: nat)
    requires Packed(out, n, rem, done) && rem <= nbits && (rem == 8 || code < Pow2(nbits))
    ensures Packed(out + [Or(n, Shr(code, nbits - rem) % 256)], 0, 8, done + Bits(code, nbits)[..rem])
    ensures Bits(code, nbits)[rem..] == Bits(code, nbits - rem)
  {
    hide Bits, Shr, Shl, Pow2, Flat, Zeros, Or;
    var u := Shr(code, nbits - rem);
    var t := u % 256;
    ByteMasked(u, 8);
    BitsSplit(code, rem, nbits - rem);
    ShrShr(code, nbits - rem, rem);
    HighZerosOf(u, code, 8 - rem, nbits, rem);
    var p, c := Bits(n, 8)[..8 - rem], Bits(u, rem);
    OrFields(n, t, p, c);
    FlatAppend(out, Or(n, t));
    Emitted(out + [Or(n, t)], Flat(out), p, c, done);
  }

  lemma Emitted(out: seq<Byte>, before: seq<bool>, p: seq<bool>, c: seq<bool>, done: seq<bool>)
    requires Flat(out) == before + (p + c) && before + p == done
    ensures Packed(out, 0, 8, done + c)
  {
    hide Bits, Flat, Zeros;
    BitsOfZero(8);
    assert Bits(0, 8)[0..] == Zeros(8);
    assert before + (p + c) == done + c;
    assert Flat(out) + Bits(0, 8)[..0] == Flat(out);
  }

  /** Above its low bits, a code that has not been cut yet shows only zeros. */
  lemma HighZeros(code: nat, a: nat, nbits: nat, rem: nat)
    requires a == 8 - rem && rem <= 8 && (rem == 8 || code < Pow2(nbits))
    ensures Bits(code, a + nbits) == Zeros(a) + Bits(code, nbits)
  {
    BitsSplit(code, a, nbits);
    if rem < 8 {
      ShrOfSmall(code, nbits);
      BitsOfZero(a);
    } else {
      assert Bits(Shr(code, nbits), 0) == Zeros(0);
    }
  }

  lemma HighZerosOf(u: nat, code: nat, a: nat, nbits: nat, rem: nat)
    requires a == 8 - rem && rem <= 8 && (rem == 8 || code < Pow2(nbits)) && Shr(u, rem) == Shr(code, nbits)
    ensures Bits(u, 8) == Zeros(a) + Bits(u, rem)
  {
    BitsSplit(u, a, rem);
    if rem < 8 {
      ShrOfSmall(code, nbits);
      BitsOfZero(a);
    } else {
      assert Bits(Shr(u, rem), 0) == Zeros(0);
    }
  }

  lemma Powers(rem: nat)
    requires rem <= 8
    ensures Pow2(30) == 0x40000000 && Pow2(rem) <= 256
  {
    assert Pow2(15) == 0x8000;
    Pow2Sum(15, 15);
    PowerOf8(rem);
  }

  lemma PowerOf8(rem: nat)
    requires rem <= 8
    ensures Pow2(rem) <= 256
  {
    assert Pow2(8) == 256;
    if rem < 8 { assert rem == 0 || rem == 1 || rem == 2 || rem == 3 || rem == 4 || rem == 5 || rem == 6 || rem == 7; }
  }

  lemma PaddingByte(rem: nat)
    requires 1 <= rem < 8
    ensures Shr(0x3fffffff, 30 - rem) < 256
    ensures Bits(Shr(0x3fffffff, 30 - rem), 8) == Zeros(8 - rem) + Ones(rem)
  {
    Powers(rem);
    hide Bits, Shr, Pow2, Zeros, Ones;
    ShrOfOnes(30, 30 - rem);
    var t := Shr(0x3fffffff, 30 - rem);
    BitsOfOnes(rem);
    BitsSplit(t, 8 - rem, rem);
    ShrOfSmall(t, rem);
    BitsOfZero(8 - rem);
  }

  lemma PadLenOf(n: nat, rem: nat)
    requires 1 <= rem < 8
    ensures PadLen(8 * n + 8 - rem) == rem
  {
  }

  /** Ones fill the last byte up. */
  lemma PackPadding(out: seq<Byte>, n: Byte, rem: nat, done: seq<bool>)
    requires Packed(out, n, rem, done) && rem < 8
    ensures Shr(0x3fffffff, 30 - rem) < 256
    ensures Flat(out + [Or(n, Shr(0x3fffffff, 30 - rem))]) == done + Ones(rem) && PadLen(|done|) == rem
  {
    hide Bits, Shr, Flat, Zeros, Ones, Or, PadLen;
    PaddingByte(rem);
    PadLenOf(|out|, rem);
    assert |done| == 8 * |out| + 8 - rem;
    var t := Shr(0x3fffffff, 30 - rem);
    var p := Bits(n, 8)[..8 - rem];
    assert Bits(n, 8) == p + Zeros(rem);
    OrFields(n, t, p, Ones(rem));
    FlatAppend(out, Or(n, t));
    assert Flat(out) + (p + Ones(rem)) == done + Ones(rem);
  }

  /** Packs one code, cutting it at byte boundaries. */
  method PutCode(out: seq<Byte>, n: Byte, rembits: nat, code: nat, len: nat, ghost done: seq<bool>)
    returns (out': seq<Byte>, n': Byte, rembits': nat)
    requires Packed(out, n, rembits, done) && 0 < len && code < Pow2(len)
    ensures Packed(out', n', rembits', done + Bits(code, len))
  {
    hide *;
    PackedRange(out, n, rembits, done);
    out', n', rembits' := out, n, rembits;
    var nbits := len;
    ghost var put := done;
    while true
      invariant 0 < nbits <= len && Packed(out', n', rembits', put) && 1 <= rembits' <= 8
      invariant put + Bits(code, nbits) == done + Bits(code, len)
      invariant rembits' == 8 || (nbits == len && code < Pow2(nbits))
      decreases nbits
    {
      if rembits' > nbits {
        PackLast(out', n', rembits', put, code, nbits);
        n' := Or(n', Shl(code, rembits' - nbits) % 256);
        rembits' := rembits' - nbits;
        break;
      }
      PackFull(out', n', rembits', put, code, nbits);
      CutAt(put, Bits(code, nbits), rembits');
      put := put + Bits(code, nbits)[..rembits'];
      n' := Or(n', Shr(code, nbits - rembits') % 256);
      out' := out' + [n'];
      n' := 0;
      nbits := nbits - rembits';
      rembits' := 8;
      if nbits == 0 {
        NoBits(code, put);
        break;
      }
    }
  }

  lemma CutAt(put: seq<bool>, b: seq<bool>, k: nat)
    requires k <= |b|
    ensures put + b[..k] + b[k..] == put + b
  {
    assert b == b[..k] + b[k..];
  }

  lemma NoBits(code: nat, put: seq<bool>)
    ensures put + Bits(code, 0) == put
  {
  }

  method HuffmanEncode(s: seq<Byte>) returns (out: seq<Byte>)
    ensures Encodes(out, s)
  {
    var rembits, n := 8, 0;
    out := [];
    PackedStart();
    var i := 0;
    hide Packed, Code, Len, Pow2, Bits, Shr;
    while i < |s|
      invariant 0 <= i <= |s| && Packed(out, n, rembits, Stream(s[..i]))
    {
      assert s[..i + 1][..i] == s[..i];
      CodeFits(s[i]);
      out, n, rembits := PutCode(out, n, rembits, Code(s[i]), Len(s[i]), Stream(s[..i]));
      i := i + 1;
    }
    assert s[..i] == s;
    PackedRange(out, n, rembits, Stream(s));
    if rembits < 8 {
      PackPadding(out, n, rembits, Stream(s));
      out := out + [Or(n, Shr(0x3fffffff, 30 - rembits))];
    } else {
      PackedWhole(out, n, Stream(s));
    }
  }

  lemma PackedStart()
    ensures Packed([], 0, 8, Stream([]))
  {
    BitsOfZero(8);
    assert Bits(0, 8)[0..] == Zeros(8);
  }

  lemma PackedRange(out: seq<Byte>, n: Byte, rem: nat, done: seq<bool>)
    requires Packed(out, n, rem, done)
    ensures 1 <= rem <= 8
  {
  }

  lemma PackedWhole(out: seq<Byte>, n: Byte, done: seq<bool>)
    requires Packed(out, n, 8, done)
    ensures Flat(out) == done + Ones(PadLen(|done|))
  {
    assert Flat(out) + Bits(n, 8)[..0] == Flat(out);
    assert Ones(0) == [];
  }

  lemma CodeFits(s: Byte)
    ensures 5 <= Len(s) <= 30 && Code(s) < Pow2(Len(s))
  {
    hide Code, Len, First, Bound, Shorter, SymbolAt, Rank, Pow2;
    TableIsCanonical(s);
    LengthsContinue(Len(s));
  }
}
