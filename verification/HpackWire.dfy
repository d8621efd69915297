/** The header representations of RFC 7541 on the wire: prefix integers (section 5.1), string
    literals (section 5.2) and the three kinds of field representation (section 6). */
module HpackWire {
  import opened BitStrings
  import opened HuffmanTable
  import opened HuffmanEncode
  import opened HuffmanDecode

  type Str = seq<Byte>

  datatype Option<T> = None | Some(value: T)

  // ------------------------------------------------------------- prefix integers

  function TailInt(i: nat): Str {
    if i < 128 then [i] else [i % 128 + 128] + TailInt(i / 128)
  }

  /** An integer behind `flag`, in the low `bits` bits of the first byte if it fits below the all-ones pattern. */
  function PrefixInt(flag: nat, i: nat, bits: nat): (b: Str)
    requires flag <= 1 && bits in {4, 6, 7}
    ensures b != [] && flag * Pow2(bits) <= b[0] < flag * Pow2(bits) + Pow2(bits)
  {
    Prefixes();
    var max := Pow2(bits) - 1;
    if i < max then [i + flag * Pow2(bits)] else [max + flag * Pow2(bits)] + TailInt(i - max)
  }

  lemma Prefixes()
    ensures Pow2(4) == 16 && Pow2(6) == 64 && Pow2(7) == 128
  {
  }

  method WriteVarint(flag: nat, i: nat, bits: nat) returns (b: Str)
    requires flag <= 1 && bits in {4, 6, 7}
    ensures b == PrefixInt(flag, i, bits)
  {
    Prefixes();
    hide Pow2;
    var max := Pow2(bits) - 1;
    if i < max {
      b := [i + flag * Pow2(bits)];
    } else {
      b := [max + flag * Pow2(bits)];
      var rest := i - max;
      while rest >= 128
        invariant 0 <= rest && b + TailInt(rest) == PrefixInt(flag, i, bits)
      {
        b := b + [rest % 128 + 128];
        rest := rest / 128;
      }
      b := b + [rest];
    }
  }

  function ReadTail(b: Str): (r: Option<(nat, Str)>)
    ensures r.Some? ==> |r.value.1| < |b|
  {
    if b == [] then None
    else if b[0] < 128 then Some((b[0], b[1..]))
    else
      match ReadTail(b[1..])
      case None => None
      case Some(t) => Some((b[0] - 128 + 128 * t.0, t.1))
  }

  /** The integer in the low bits of the first byte and what follows it. */
  function ReadInt(b: Str, bits: nat): (r: Option<(nat, Str)>)
    requires bits in {4, 6, 7}
    ensures r.Some? ==> |r.value.1| < |b|
  {
    if b == [] then None
    else
      var v, max := b[0] % Pow2(bits), Pow2(bits) - 1;
      if v < max then Some((v, b[1..]))
      else
        match ReadTail(b[1..])
        case None => None
        case Some(t) => Some((max + t.0, t.1))
  }

  lemma {:induction false} ReadTailInt(i: nat, rest: Str)
    ensures ReadTail(TailInt(i) + rest) == Some((i, rest))
  {
    if i < 128 {
      assert ([i] + rest)[1..] == rest;
    } else {
      var q, r := i / 128, i % 128;
      assert i == r + 128 * q;
      ReadTailInt(q, rest);
      var b := TailInt(i) + rest;
      assert b[0] == r + 128 && b[1..] == TailInt(q) + rest;
      hide TailInt;
    }
  }

  lemma ReadPrefixInt(flag: nat, i: nat, bits: nat, rest: Str)
    requires flag <= 1 && bits in {4, 6, 7}
    ensures ReadInt(PrefixInt(flag, i, bits) + rest, bits) == Some((i, rest))
  {
    hide Pow2, TailInt, ReadTail;
    var b := PrefixInt(flag, i, bits) + rest;
    LowPart(flag, if i < Pow2(bits) - 1 then i else Pow2(bits) - 1, bits);
    if i < Pow2(bits) - 1 {
      assert b[1..] == rest;
    } else {
      ReadTailInt(i - (Pow2(bits) - 1), rest);
      assert b[1..] == TailInt(i - (Pow2(bits) - 1)) + rest;
    }
  }

  lemma LowPart(flag: nat, v: nat, bits: nat)
    requires flag <= 1 && bits in {4, 6, 7} && v < Pow2(bits)
    ensures (v + flag * Pow2(bits)) % Pow2(bits) == v
  {
    Prefixes();
    hide Pow2;
    if bits == 4 {
      assert (v + 16 * flag) % 16 == v;
    } else if bits == 6 {
      assert (v + 64 * flag) % 64 == v;
    } else {
      assert (v + 128 * flag) % 128 == v;
    }
  }

  // ------------------------------------------------------------- string literals

  function Bytes(b: seq<bool>): Str
    requires |b| % 8 == 0
  {
    if b == [] then [] else ValueInRange(b[|b| - 8..]); Bytes(b[..|b| - 8]) + [Value(b[|b| - 8..])]
  }

  lemma {:induction false} FlatBytes(b: seq<bool>)
    requires |b| % 8 == 0
    ensures Flat(Bytes(b)) == b
  {
    hide Value, Bits;
    if b != [] {
      FlatBytes(b[..|b| - 8]);
      BitsOfValue(b[|b| - 8..]);
      ValueInRange(b[|b| - 8..]);
      FlatAppend(Bytes(b[..|b| - 8]), Value(b[|b| - 8..]));
      assert b[..|b| - 8] + b[|b| - 8..] == b;
    }
  }

  lemma PaddedIsWhole(n: nat)
    ensures (n + PadLen(n)) % 8 == 0
  {
  }

  function Encoding(s: Str): (b: Str)
    ensures Encodes(b, s)
  {
    PaddedIsWhole(|Stream(s)|);
    FlatBytes(Padded(s));
    Bytes(Padded(s))
  }

  /** Two strings with the same encoding agree, symbol by symbol. */
  lemma {:induction false} SameSymbols(bytes: Str, s: Str, t: Str, n: nat)
    requires Encodes(bytes, s) && Encodes(bytes, t) && n <= |s| && n <= |t|
    ensures s[..n] == t[..n]
  {
    hide Stream, CodeBits, Flat, Ones;
    if n > 0 {
      SameSymbols(bytes, s, t, n - 1);
      assert t[..n - 1] <= t;
      StreamPrefix(s[..n - 1], s);
      StreamPrefix(t[..n - 1], t);
      PrefixesCompare(Stream(s[..n - 1]), CodeBits(s[n - 1]), CodeBits(t[n - 1]), Flat(bytes));
      if CodeBits(s[n - 1]) <= CodeBits(t[n - 1]) {
        PrefixFree(s[n - 1], t[n - 1]);
      } else {
        PrefixFree(t[n - 1], s[n - 1]);
      }
    }
  }

  /** No code hides in the padding, so neither string is longer. */
  lemma NotLonger(bytes: Str, s: Str, t: Str)
    requires Encodes(bytes, s) && Encodes(bytes, t) && s <= t
    ensures s == t
  {
    hide Stream, Flat;
    if |s| < |t| {
      var c, k := t[|s|], PadLen(|Stream(s)|);
      StreamPrefix(s, t);
      assert Stream(s) + CodeBits(c) <= Stream(s) + Ones(k);
      OnesOnly(Stream(s), CodeBits(c), Ones(k));
      NotAllOnes(c);
    }
  }

  lemma OnesOnly(a: seq<bool>, c: seq<bool>, ones: seq<bool>)
    requires a + c <= a + ones && ones == Ones(|ones|)
    ensures c == Ones(|c|)
  {
    assert forall i :: 0 <= i < |c| ==> c[i] == (a + c)[|a| + i] == (a + ones)[|a| + i];
  }

  lemma DecodingIsUnique(bytes: Str, s: Str, t: Str)
    requires Encodes(bytes, s) && Encodes(bytes, t)
    ensures s == t
  {
    hide Encodes;
    if |s| <= |t| {
      SameSymbols(bytes, s, t, |s|);
      assert s[..|s|] == s;
      NotLonger(bytes, s, t);
    } else {
      SameSymbols(bytes, s, t, |t|);
      assert t[..|t|] == t;
      NotLonger(bytes, t, s);
    }
  }

  /** A string literal: Huffman-coded when that is shorter. */
  function Literal(s: Str): (b: Str)
    ensures b != []
  {
    var h := Encoding(s);
    if |h| < |s| then PrefixInt(1, |h|, 7) + h else PrefixInt(0, |s|, 7) + s
  }

  method WriteLiteral(s: Str) returns (b: Str)
    ensures b == Literal(s)
  {
    var len := HuffmanLen(s);
    assert |Encoding(s)| == len;
    hide Encodes, PrefixInt;
    if len < |s| {
      var p := WriteVarint(1, len, 7);
      var h := HuffmanEncode.HuffmanEncode(s);
      EncodingIsUnique(h, Encoding(s), s);
      b := p + h;
    } else {
      var p := WriteVarint(0, |s|, 7);
      b := p + s;
    }
  }

  ghost function Huffman(b: Str): (r: Option<Str>)
    ensures r.Some? ==> Encodes(b, r.value)
    ensures r.None? ==> forall s :: !Encodes(b, s)
  {
    if s :| Encodes(b, s) then Some(s) else None
  }

  ghost function ReadLiteral(b: Str): (r: Option<(Str, Str)>)
    ensures r.Some? ==> |r.value.1| < |b|
  {
    match ReadInt(b, 7)
    case None => None
    case Some(t) =>
      if t.0 > |t.1| then None
      else if b[0] < 128 then Some((t.1[..t.0], t.1[t.0..]))
      else match Huffman(t.1[..t.0])
           case None => None
           case Some(s) => Some((s, t.1[t.0..]))
  }

  lemma ReadWritten(s: Str, rest: Str)
    ensures ReadLiteral(Literal(s) + rest) == Some((s, rest))
  {
    hide Encodes, Encoding, ReadInt;
    Prefixes();
    var h := Encoding(s);
    var flag, body := if |h| < |s| then 1 else 0, if |h| < |s| then h else s;
    ReadPrefixInt(flag, |body|, 7, body + rest);
    assert Literal(s) + rest == PrefixInt(flag, |body|, 7) + (body + rest);
    assert (body + rest)[..|body|] == body && (body + rest)[|body|..] == rest;
    if |h| < |s| { DecodingIsUnique(h, s, Huffman(h).value); }
  }

  // -------------------------------------------------------------- representations

  /** A field as an index, or as a literal whose name is indexed or spelled out. */
  datatype Rep = Indexed(id: nat) | Named(nameId: nat, text: Str, add: bool) | Spelled(name: Str, text: Str, add: bool)

  ghost predicate Sound(r: Rep) { r.Named? ==> r.nameId > 0 }

  function Wire(r: Rep): (b: Str)
    ensures b != []
  {
    match r
    case Indexed(id) => PrefixInt(1, id, 7)
    case Named(nameId, text, add) => (if add then PrefixInt(1, nameId, 6) else PrefixInt(0, nameId, 4)) + Literal(text)
    case Spelled(name, text, add) => [if add then 0x40 else 0] + Literal(name) + Literal(text)
  }

  ghost function ReadNamed(b: Str, bits: nat, add: bool): (r: Option<(Rep, Str)>)
    requires bits in {4, 6, 7}
    ensures r.Some? ==> |r.value.1| < |b|
  {
    match ReadInt(b, bits)
    case None => None
    case Some(t) =>
      if t.0 == 0 then
        match ReadLiteral(t.1)
        case None => None
        case Some(name) =>
          match ReadLiteral(name.1)
          case None => None
          case Some(text) => Some((Spelled(name.0, text.0, add), text.1))
      else
        match ReadLiteral(t.1)
        case None => None
        case Some(text) => Some((Named(t.0, text.0, add), text.1))
  }

  /** The next representation: section 6.1, 6.2.1, 6.2.2 or 6.2.3. A size update (6.3) does not occur under a fixed limit. */
  ghost function ReadRep(b: Str): (r: Option<(Rep, Str)>)
    ensures r.Some? ==> |r.value.1| < |b|
  {
    if b == [] then None
    else if b[0] >= 128 then
      match ReadInt(b, 7)
      case None => None
      case Some(t) => Some((Indexed(t.0), t.1))
    else if b[0] >= 64 then ReadNamed(b, 6, true)
    else if b[0] >= 32 then None
    else ReadNamed(b, 4, false)
  }

  lemma ReadWire(r: Rep, rest: Str)
    requires Sound(r)
    ensures ReadRep(Wire(r) + rest) == Some((r, rest))
  {
    hide ReadRep, Wire, PrefixInt, ReadInt, Pow2;
    match r
    case Indexed(id) =>
      Prefixes();
      ReadPrefixInt(1, id, 7, rest);
      ReadIndexed(id, rest);
    case Named(nameId, text, add) => ReadNamedWire(nameId, text, add, rest);
    case Spelled(name, text, add) => ReadSpelledWire(name, text, add, rest);
  }

  lemma ReadIndexed(id: nat, rest: Str)
    requires ReadInt(PrefixInt(1, id, 7) + rest, 7) == Some((id, rest))
    ensures ReadRep(Wire(Indexed(id)) + rest) == Some((Indexed(id), rest))
  {
    hide PrefixInt, ReadInt, ReadNamed, Pow2;
    Prefixes();
    assert (PrefixInt(1, id, 7) + rest)[0] == PrefixInt(1, id, 7)[0];
  }

  lemma ReadNamedWire(nameId: nat, text: Str, add: bool, rest: Str)
    requires nameId > 0
    ensures ReadRep(Wire(Named(nameId, text, add)) + rest) == Some((Named(nameId, text, add), rest))
  {
    hide PrefixInt, ReadInt, Literal, ReadLiteral, Pow2;
    Prefixes();
    ReadWritten(text, rest);
    var flag, bits := if add then 1 else 0, if add then 6 else 4;
    var p, tail := PrefixInt(flag, nameId, bits), Literal(text) + rest;
    ReadPrefixInt(flag, nameId, bits, tail);
    assert Wire(Named(nameId, text, add)) + rest == p + tail;
    assert (p + tail)[0] == p[0];
  }

  lemma ReadSpelledWire(name: Str, text: Str, add: bool, rest: Str)
    ensures ReadRep(Wire(Spelled(name, text, add)) + rest) == Some((Spelled(name, text, add), rest))
  {
    hide PrefixInt, ReadInt, Literal, ReadLiteral, Pow2;
    Prefixes();
    var tail := Literal(text) + rest;
    ReadWritten(name, tail);
    ReadWritten(text, rest);
    var flag, bits := if add then 1 else 0, if add then 6 else 4;
    ZeroInt(flag, bits);
    ReadPrefixInt(flag, 0, bits, Literal(name) + tail);
    var p := PrefixInt(flag, 0, bits);
    assert Wire(Spelled(name, text, add)) + rest == p + (Literal(name) + tail);
    assert (p + (Literal(name) + tail))[0] == p[0];
  }

  lemma ZeroInt(flag: nat, bits: nat)
    requires flag <= 1 && bits in {4, 6}
    ensures PrefixInt(flag, 0, bits) == [flag * Pow2(bits)]
  {
    Prefixes();
    hide Pow2;
  }
}
