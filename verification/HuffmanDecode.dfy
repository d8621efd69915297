/** Huffman decoding through the byte-wide trie: exactly the encodings are accepted, and each
    decodes to the string it encodes. */
module HuffmanDecode {
  import opened BitStrings
  import opened HuffmanTable
  import opened HuffmanEncode
  import opened HuffmanTrie
  import opened HuffmanTree

  // ------------------------------------------------------------ streams of codes

  lemma {:induction false} StreamConcat(a: seq<Byte>, b: seq<Byte>)
    ensures Stream(a + b) == Stream(a) + Stream(b)
  {
    assert Stream([]) == [];
    hide Stream, CodeBits;
    if b == [] {
      assert a + b == a;
    } else {
      var d, c := b[..|b| - 1], b[|b| - 1];
      assert b == d + [c];
      assert a + b == (a + d) + [c];
      StreamConcat(a, d);
      StreamAppend(d, c);
      StreamAppend(a + d, c);
      Associative(Stream(a), Stream(d), CodeBits(c));
    }
  }

  lemma StreamAppend(a: seq<Byte>, c: Byte)
    ensures Stream(a + [c]) == Stream(a) + CodeBits(c)
  {
    assert (a + [c])[..|a|] == a;
  }

  lemma Associative(a: seq<bool>, b: seq<bool>, c: seq<bool>)
    ensures a + b + c == a + (b + c)
  {
  }

  lemma StreamPrefix(out: seq<Byte>, s: seq<Byte>)
    requires out <= s && |out| < |s|
    ensures Stream(out) + CodeBits(s[|out|]) <= Stream(s)
  {
    hide Stream, CodeBits;
    var c := s[|out|];
    assert s == (out + [c]) + s[|out| + 1..];
    StreamConcat(out + [c], s[|out| + 1..]);
    StreamAppend(out, c);
  }

  ghost predicate Comparable(a: seq<bool>, b: seq<bool>) { a <= b || b <= a }

  lemma PrefixesCompare(base: seq<bool>, a: seq<bool>, b: seq<bool>, whole: seq<bool>)
    requires base + a <= whole && base + b <= whole
    ensures Comparable(a, b)
  {
    assert forall i :: 0 <= i < |a| ==> a[i] == whole[|base| + i];
    assert forall i :: 0 <= i < |b| ==> b[i] == whole[|base| + i];
  }

  /** More bits follow than padding allows: another symbol does, and its code agrees with them. */
  lemma NextSymbol(out: seq<Byte>, s: seq<Byte>, k: nat, y: seq<bool>)
    requires out <= s && Stream(out) + y <= Stream(s) + Ones(k) && |y| > k
    ensures |out| < |s| && Comparable(CodeBits(s[|out|]), y)
  {
    hide Stream, CodeBits;
    assert |out| == |s| ==> out == s;
    StreamPrefix(out, s);
    PrefixesCompare(Stream(out), CodeBits(s[|out|]), y, Stream(s) + Ones(k));
  }

  // ------------------------------------------------------------- reading the trie

  /** The trie holds the whole code. */
  ghost predicate Full(root: Node, pool: seq<Node>, at: Places, filed: set<Byte>) {
    TrieOk(root, pool, at, filed, filed, filed) && (forall b: Byte :: b in filed)
  }

  lemma InRange(root: Node, pool: seq<Node>, at: Places, filed: set<Byte>, p: seq<Byte>)
    requires Full(root, pool, at, filed) && p in at
    ensures -1 <= at[p] < |pool|
  {
    IdsInRange(root, pool, at, filed, filed);
  }

  lemma {:induction false} AllOnTheWay(root: Node, pool: seq<Node>, at: Places, p: seq<Byte>, k: nat)
    requires Rooted(root, pool, at) && p in at && k <= |p|
    ensures p[..k] in at
    decreases |p|
  {
    if k == |p| {
      assert p[..k] == p;
    } else {
      assert HangsOn(root, pool, at, p);
      var q := p[..|p| - 1];
      AllOnTheWay(root, pool, at, q, k);
      assert q[..k] == p[..k];
    }
  }

  lemma {:induction false} PathPrefix(t: Byte, k: nat, n: nat)
    requires k <= n && 8 * n <= Len(t)
    ensures Path(t, n)[..k] == Path(t, k)
  {
    hide Len, ByteAt;
    if k < n { PathPrefix(t, k, n - 1); }
  }

  lemma SamePath(p: seq<Byte>, t: Byte)
    requires Flat(p) <= CodeBits(t)
    ensures 8 * |p| <= Len(t) && p == Path(t, |p|)
  {
    hide Code, Len, Bits, Flat, Path;
    PathBits(t, |p|);
    FlatInjective(p, Path(t, |p|));
  }

  /** An inner node lies strictly inside a code, so no code ends at it or above it. */
  lemma CodeGoesOn(root: Node, pool: seq<Node>, at: Places, filed: set<Byte>, p: seq<Byte>, c: Byte)
    requires Full(root, pool, at, filed) && p in at
    ensures CodeBits(c) <= Flat(p) ==> false
  {
    hide CodeBits, Flat, Linked, AllFiled, Rooted, Placed;
    if CodeBits(c) <= Flat(p) {
      LengthOf(c);
      if p != [] {
        var t :| t in filed && OnPath(p, t);
        Transitive(CodeBits(c), Flat(p), CodeBits(t));
        PrefixFree(c, t);
      }
    }
  }

  lemma Transitive(a: seq<bool>, b: seq<bool>, c: seq<bool>)
    requires a <= b <= c
    ensures a <= c
  {
  }

  ghost predicate LeadsTo(pool: seq<Node>, at: Places, p: seq<Byte>, i: Byte, kid: int, c: Byte) {
    && 0 <= kid < |pool|
    && (CodeBits(c) <= Flat(p) + Bits(i, 8) ==> 0 < pool[kid].codelen == Len(c) - 8 * |p| && pool[kid].sym == c)
    && (!(CodeBits(c) <= Flat(p) + Bits(i, 8)) ==> pool[kid].codelen < 0)
  }

  /** Where the bits read so far agree with a code, the trie follows that code. */
  lemma ChildTells(root: Node, pool: seq<Node>, at: Places, filed: set<Byte>, p: seq<Byte>, i: Byte, c: Byte)
    requires Full(root, pool, at, filed) && p in at && at[p] < |pool| && Comparable(CodeBits(c), Flat(p) + Bits(i, 8))
    ensures LeadsTo(pool, at, p, i, KidsOf(root, pool, at[p])[i], c)
  {
    hide CodeBits, Bits, Flat, Trie, Rooted;
    CodeGoesOn(root, pool, at, filed, p, c);
    StrictlyInside(CodeBits(c), Flat(p), Bits(i, 8));
    SamePath(p, c);
    if CodeBits(c) <= Flat(p) + Bits(i, 8) {
      EndsHere(root, pool, at, filed, p, i, c);
    } else {
      GoesDeeper(root, pool, at, filed, p, i, c);
    }
  }

  lemma StrictlyInside(c: seq<bool>, p: seq<bool>, b: seq<bool>)
    requires Comparable(c, p + b)
    ensures c <= p || (p <= c && |p| < |c|)
  {
    if |c| <= |p| { assert c <= p; } else { assert p == c[..|p|]; }
  }

  lemma EndsHere(root: Node, pool: seq<Node>, at: Places, filed: set<Byte>, p: seq<Byte>, i: Byte, c: Byte)
    requires Full(root, pool, at, filed) && p in at && at[p] < |pool|
    requires 8 * |p| < Len(c) && p == Path(c, |p|) && Flat(p) <= CodeBits(c) <= Flat(p) + Bits(i, 8)
    ensures LeadsTo(pool, at, p, i, KidsOf(root, pool, at[p])[i], c)
  {
    hide CodeBits, Bits, Flat, Placed, Rooted, Needed, Path;
    assert |p| == Depth(c);
    var x := Bits(i, 8);
    RestIs(c, Flat(p), x);
    assert Filed(root, pool, at, c);
    var kid := KidsOf(root, pool, at[p])[i];
    assert LeafOf(pool, kid, c);
    assert ChildOk(root, pool, at, filed, p, i);
    assert |CodeBits(c)| == |Flat(p) + x[..pool[kid].codelen]|;
  }

  lemma RestIs(c: Byte, p: seq<bool>, x: seq<bool>)
    requires Len(c) > 0 && p <= CodeBits(c) <= p + x && |p| == 8 * Depth(c)
    ensures Rest(c) <= x
  {
    hide CodeBits, Len, Depth;
    assert forall j :: 0 <= j < |Rest(c)| ==> Rest(c)[j] == (p + x)[|p| + j];
  }

  lemma GoesDeeper(root: Node, pool: seq<Node>, at: Places, filed: set<Byte>, p: seq<Byte>, i: Byte, c: Byte)
    requires Full(root, pool, at, filed) && p in at && at[p] < |pool|
    requires Flat(p) + Bits(i, 8) <= CodeBits(c) && !(CodeBits(c) <= Flat(p) + Bits(i, 8))
    ensures LeadsTo(pool, at, p, i, KidsOf(root, pool, at[p])[i], c)
  {
    hide CodeBits, Bits, Flat, Linked, Needed, Path, KidsOf;
    var q := p + [i];
    FlatAppend(p, i);
    SamePath(q, c);
    assert Filed(root, pool, at, c);
    PathPrefix(c, |q|, Depth(c));
    AllOnTheWay(root, pool, at, Path(c, Depth(c)), |q|);
    assert HangsOn(root, pool, at, q);
    assert q[..|q| - 1] == p;
  }

  /** Fewer than eight ones, filled up with zeros, always lead somewhere. */
  lemma OnesLead(root: Node, pool: seq<Node>, at: Places, filed: set<Byte>, k: nat, i: Byte)
    requires Full(root, pool, at, filed) && 1 <= k <= 7 && Bits(i, 8) == Ones(k) + Zeros(8 - k)
    ensures 0 <= KidsOf(root, pool, -1)[i] < |pool|
  {
    hide CodeBits, Bits, Flat, TrieOk, Code, Len;
    var c := OnesSymbol(k);
    OnesSymbolFits(k);
    assert Flat([]) == [];
    assert [] + Bits(i, 8) == Bits(i, 8);
    assert [] in at && at[[]] == -1 by { RootPlaced(root, pool, at, filed); }
    ChildTells(root, pool, at, filed, [], i, c);
  }

  lemma RootPlaced(root: Node, pool: seq<Node>, at: Places, filed: set<Byte>)
    requires Full(root, pool, at, filed)
    ensures [] in at && at[[]] == -1
  {
  }

  function OnesSymbol(k: nat): Byte {
    if k <= 1 then 61 else if k == 2 then 69 else if k == 3 then 85 else if k == 4 then 119
    else if k == 5 then 38 else if k == 6 then 88 else 33
  }

  lemma Symbol61()
    ensures CodeBits(61) == [true, false, false, false, false, false]
  {
    assert Code(61) == 32 && Len(61) == 6;
    hide Code, Len;
    assert CodeBits(61) == Bits(32, 6);
  }

  lemma Symbol69()
    ensures CodeBits(69) == [true, true, false, false, false, false, false]
  {
    assert Code(69) == 96 && Len(69) == 7;
    hide Code, Len;
    assert CodeBits(69) == Bits(96, 7);
  }

  lemma Symbol85()
    ensures CodeBits(85) == [true, true, true, false, false, false, false]
  {
    assert Code(85) == 112 && Len(85) == 7;
    hide Code, Len;
    assert CodeBits(85) == Bits(112, 7);
  }

  lemma Symbol119()
    ensures CodeBits(119) == [true, true, true, true, false, false, false]
  {
    assert Code(119) == 120 && Len(119) == 7;
    hide Code, Len;
    assert CodeBits(119) == Bits(120, 7);
  }

  lemma Symbol38()
    ensures CodeBits(38) == [true, true, true, true, true, false, false, false]
  {
    assert Code(38) == 248 && Len(38) == 8;
    hide Code, Len;
    assert CodeBits(38) == Bits(248, 8);
  }

  lemma Symbol88()
    ensures CodeBits(88) == [true, true, true, true, true, true, false, false]
  {
    assert Code(88) == 252 && Len(88) == 8;
    hide Code, Len;
    assert CodeBits(88) == Bits(252, 8);
  }

  lemma Symbol33()
    ensures CodeBits(33) == [true, true, true, true, true, true, true, false, false, false]
  {
    assert Code(33) == 1016 && Len(33) == 10;
    hide Code, Len;
    assert CodeBits(33) == Bits(1016, 10);
  }

  lemma OnesSymbolFits(k: nat)
    requires 1 <= k <= 7
    ensures Comparable(CodeBits(OnesSymbol(k)), Ones(k) + Zeros(8 - k))
  {
    hide CodeBits;
    match k {
      case 1 => Symbol61();
      case 2 => Symbol69();
      case 3 => Symbol85();
      case 4 => Symbol119();
      case 5 => Symbol38();
      case 6 => Symbol88();
      case _ => Symbol33();
    }
  }

  // ----------------------------------------------------------- the decoder's state

  /** `seen` is the codes of `out`, the whole bytes that led to node `n`, and the low `cbits` bits of `cur`. */
  ghost predicate Reading(at: Places, n: int, seen: seq<bool>, out: seq<Byte>, p: seq<Byte>, cur: nat, cbits: nat, sbits: nat) {
    && p in at && n == at[p]
    && seen == Stream(out) + (Flat(p) + Bits(cur, cbits))
    && sbits == 8 * |p| + cbits
  }

  /** Whatever `dat` encodes begins with `out`. */
  ghost predicate Forced(dat: seq<Byte>, out: seq<Byte>) {
    forall s :: Encodes(dat, s) ==> out <= s
  }

  ghost predicate NotAnEncoding(dat: seq<Byte>) {
    forall s :: !Encodes(dat, s)
  }

  /** If `dat` encodes anything, it encodes `out` and what is left over is its padding. */
  ghost predicate Settled(dat: seq<Byte>, out: seq<Byte>, cur: nat, cbits: nat, sbits: nat) {
    forall s :: Encodes(dat, s) ==> out == s && sbits <= 7 && Bits(cur, cbits) == Ones(cbits)
  }

  lemma Begin(root: Node, pool: seq<Node>, at: Places, filed: set<Byte>, dat: seq<Byte>)
    requires Full(root, pool, at, filed)
    ensures Reading(at, -1, Flat(dat[..0]), [], [], 0, 0, 0) && Forced(dat, [])
  {
    RootPlaced(root, pool, at, filed);
  }

  /** One more byte shifted in; what leaves the 32-bit word is no longer needed. */
  lemma ShiftIn(cur: nat, cbits: nat, b: Byte)
    requires cbits < 8
    ensures Bits(Shl(cur, 8) % 0x1_0000_0000 + b, cbits + 8) == Bits(cur, cbits) + Bits(b, 8)
  {
    var m := cur % 0x100_0000;
    ShlByte(cur);
    var v := 256 * m + b;
    assert Shl(cur, 8) % 0x1_0000_0000 + b == v;
    hide Shl;
    BitsSplit(v, cbits, 8);
    ShrByte(v);
    assert v / 256 == m;
    ByteMasked(v, 8);
    assert v % 256 == b;
    hide Bits, Shr;
    LowMasked(cur, cbits);
  }

  lemma ShlByte(cur: nat)
    ensures Shl(cur, 8) == 256 * cur
  {
    assert Shl(cur, 8) == Shl(2 * (2 * (2 * (2 * cur))), 4);
  }

  lemma LowMasked(v: nat, n: nat)
    requires n < 8
    ensures Bits(v % 0x100_0000, n) == Bits(v, n)
  {
    var m, x := v % 0x100_0000, 65536 * (v / 0x100_0000);
    hide Bits;
    assert v == 256 * x + m;
    assert v % 256 == m % 256;
    ByteMasked(v, n);
    ByteMasked(m, n);
  }

  lemma NextByteRead(at: Places, n: int, dat: seq<Byte>, i: nat, out: seq<Byte>, p: seq<Byte>, cur: nat, cbits: nat, sbits: nat)
    requires i < |dat| && Reading(at, n, Flat(dat[..i]), out, p, cur, cbits, sbits) && cbits < 8
    ensures Reading(at, n, Flat(dat[..i + 1]), out, p, Shl(cur, 8) % 0x1_0000_0000 + dat[i], cbits + 8, sbits + 8)
  {
    hide Bits, Flat, Stream, Shl;
    ShiftIn(cur, cbits, dat[i]);
    FlatAppend(dat[..i], dat[i]);
    assert dat[..i + 1] == dat[..i] + [dat[i]];
    assert Flat(p) + (Bits(cur, cbits) + Bits(dat[i], 8)) == Flat(p) + Bits(cur, cbits) + Bits(dat[i], 8);
  }

  // ------------------------------------------------------------- one step down

  ghost predicate ReadsOn(pool: seq<Node>, at: Places, seen: seq<bool>, out: seq<Byte>, p: seq<Byte>, i: Byte, kid: int, cur: nat, cbits: nat, sbits: nat) {
    && 0 <= kid < |pool| && 8 <= cbits
    && (pool[kid].codelen >= 0 ==>
          1 <= pool[kid].codelen <= cbits
          && Reading(at, -1, seen, out + [pool[kid].sym], [], cur, cbits - pool[kid].codelen, cbits - pool[kid].codelen))
    && (pool[kid].codelen < 0 ==> Reading(at, kid, seen, out, p + [i], cur, cbits - 8, sbits))
  }

  lemma Top(cur: nat, cbits: nat)
    requires cbits >= 8
    ensures Bits(Shr(cur, cbits - 8) % 256, 8) == Bits(cur, cbits)[..8]
    ensures Bits(cur, cbits)[8..] == Bits(cur, cbits - 8)
  {
    hide Bits, Shr;
    BitsSplit(cur, 8, cbits - 8);
    ByteMasked(Shr(cur, cbits - 8), 8);
  }

  /** Taking a child keeps account of every bit. */
  lemma Down(root: Node, pool: seq<Node>, at: Places, filed: set<Byte>, seen: seq<bool>,
             out: seq<Byte>, p: seq<Byte>, n: int, i: Byte, cur: nat, cbits: nat, sbits: nat)
    requires Full(root, pool, at, filed) && Reading(at, n, seen, out, p, cur, cbits, sbits) && cbits >= 8
    requires i == Shr(cur, cbits - 8) % 256
    ensures -1 <= n < |pool|
    ensures var kid := KidsOf(root, pool, n)[i]; kid >= 0 ==> ReadsOn(pool, at, seen, out, p, i, kid, cur, cbits, sbits)
  {
    hide Bits, Flat, Stream, Shr, CodeBits, Rooted, AllFiled, Needed, Placed;
    InRange(root, pool, at, filed, p);
    RootPlaced(root, pool, at, filed);
    Top(cur, cbits);
    var kid := KidsOf(root, pool, n)[i];
    assert ChildOk(root, pool, at, filed, p, i);
    if kid >= 0 {
      var cl := pool[kid].codelen;
      if cl >= 0 {
        Emit(seen, out, pool[kid].sym, p, cur, cbits, cl);
      } else {
        FlatAppend(p, i);
        assert Bits(cur, cbits) == Bits(i, 8) + Bits(cur, cbits - 8);
        assert Flat(p) + Bits(cur, cbits) == Flat(p + [i]) + Bits(cur, cbits - 8);
      }
    }
  }

  lemma Emit(seen: seq<bool>, out: seq<Byte>, c: Byte, p: seq<Byte>, cur: nat, cbits: nat, cl: nat)
    requires seen == Stream(out) + (Flat(p) + Bits(cur, cbits)) && cl <= cbits && CodeBits(c) == Flat(p) + Bits(cur, cbits)[..cl]
    ensures seen == Stream(out + [c]) + (Flat([]) + Bits(cur, cbits - cl))
  {
    assert Flat([]) == [];
    hide Bits, Stream, CodeBits, Flat;
    BitsSplit(cur, cl, cbits - cl);
    StreamAppend(out, c);
    Regroup(Stream(out), Flat(p), Bits(cur, cbits), cl, Bits(cur, cbits - cl), Flat([]));
  }

  lemma Regroup(s: seq<bool>, p: seq<bool>, x: seq<bool>, n: nat, b: seq<bool>, e: seq<bool>)
    requires n + |b| == |x| && x[n..] == b && e == []
    ensures s + (p + x) == (s + (p + x[..n])) + (e + b)
  {
  }

  /** Where the bits run against the trie nothing is encoded; where a leaf is reached its symbol comes next. */
  lemma Follow(root: Node, pool: seq<Node>, at: Places, filed: set<Byte>, dat: seq<Byte>, k: nat,
               out: seq<Byte>, p: seq<Byte>, n: int, i: Byte, cur: nat, cbits: nat, sbits: nat)
    requires Full(root, pool, at, filed) && k <= |dat| && Reading(at, n, Flat(dat[..k]), out, p, cur, cbits, sbits) && cbits >= 8
    requires i == Shr(cur, cbits - 8) % 256 && n < |pool| && Forced(dat, out)
    ensures var kid := KidsOf(root, pool, n)[i];
            && (kid < 0 ==> NotAnEncoding(dat))
            && (0 <= kid < |pool| && pool[kid].codelen >= 0 ==> Forced(dat, out + [pool[kid].sym]))
  {
    hide *;
    forall s | Encodes(dat, s)
      ensures var kid := KidsOf(root, pool, n)[i];
              0 <= kid < |pool| && (pool[kid].codelen >= 0 ==> out + [pool[kid].sym] <= s)
    {
      assert out <= s by { Use(dat, out, s); }
      FollowOne(root, pool, at, filed, dat, k, out, p, n, i, cur, cbits, sbits, s);
    }
    Wrap(dat, out, KidsOf(root, pool, n)[i], pool);
  }

  lemma Use(dat: seq<Byte>, out: seq<Byte>, s: seq<Byte>)
    requires Forced(dat, out) && Encodes(dat, s)
    ensures out <= s
  {
  }

  lemma Wrap(dat: seq<Byte>, out: seq<Byte>, kid: int, pool: seq<Node>)
    requires forall s :: Encodes(dat, s) ==> 0 <= kid < |pool| && (pool[kid].codelen >= 0 ==> out + [pool[kid].sym] <= s)
    ensures kid < 0 ==> NotAnEncoding(dat)
    ensures 0 <= kid < |pool| && pool[kid].codelen >= 0 ==> Forced(dat, out + [pool[kid].sym])
  {
  }

  lemma FollowOne(root: Node, pool: seq<Node>, at: Places, filed: set<Byte>, dat: seq<Byte>, k: nat,
                  out: seq<Byte>, p: seq<Byte>, n: int, i: Byte, cur: nat, cbits: nat, sbits: nat, s: seq<Byte>)
    requires Full(root, pool, at, filed) && k <= |dat| && Reading(at, n, Flat(dat[..k]), out, p, cur, cbits, sbits) && cbits >= 8
    requires i == Shr(cur, cbits - 8) % 256 && n < |pool| && Encodes(dat, s) && out <= s
    ensures var kid := KidsOf(root, pool, n)[i];
            0 <= kid < |pool| && (pool[kid].codelen >= 0 ==> out + [pool[kid].sym] <= s)
  {
    hide Bits, Flat, Stream, Shr, CodeBits, Full, KidsOf, Ones;
    Top(cur, cbits);
    var y := Flat(p) + Bits(i, 8);
    var pad := PadLen(|Stream(s)|);
    FlatConcat(dat[..k], dat[k..]);
    assert dat == dat[..k] + dat[k..];
    Ahead(Stream(out), Flat(p), Bits(cur, cbits), Bits(i, 8), Flat(dat[k..]), Stream(s) + Ones(pad));
    NextSymbol(out, s, pad, y);
    ChildTells(root, pool, at, filed, p, i, s[|out|]);
  }

  lemma Ahead(base: seq<bool>, p: seq<bool>, bits: seq<bool>, x: seq<bool>, more: seq<bool>, whole: seq<bool>)
    requires base + (p + bits) + more == whole && x <= bits
    ensures base + (p + x) <= whole
  {
    assert bits == x + bits[|x|..];
    assert whole == base + (p + x) + (bits[|x|..] + more);
  }

  // ---------------------------------------------------------------- the last bits

  lemma Last(cur: nat, cbits: nat)
    requires cbits <= 8
    ensures Bits(Shl(cur, 8 - cbits) % 256, 8) == Bits(cur, cbits) + Zeros(8 - cbits)
  {
    hide Bits, Shl;
    ByteMasked(Shl(cur, 8 - cbits), 8);
    BitsShl(cur, cbits, 8 - cbits);
  }

  lemma DownLast(root: Node, pool: seq<Node>, at: Places, filed: set<Byte>, seen: seq<bool>,
                 out: seq<Byte>, p: seq<Byte>, n: int, i: Byte, cur: nat, cbits: nat, sbits: nat)
    requires Full(root, pool, at, filed) && Reading(at, n, seen, out, p, cur, cbits, sbits) && cbits <= 8
    requires i == Shl(cur, 8 - cbits) % 256
    ensures -1 <= n < |pool|
    ensures var kid := KidsOf(root, pool, n)[i];
            && (kid >= 0 ==> kid < |pool|)
            && (kid >= 0 && 0 <= pool[kid].codelen <= cbits ==>
                  && 1 <= pool[kid].codelen
                  && Reading(at, -1, seen, out + [pool[kid].sym], [], cur, cbits - pool[kid].codelen, cbits - pool[kid].codelen))
  {
    hide Bits, Flat, Stream, Shl, CodeBits, Rooted, AllFiled, Needed, Placed;
    InRange(root, pool, at, filed, p);
    RootPlaced(root, pool, at, filed);
    Last(cur, cbits);
    var kid := KidsOf(root, pool, n)[i];
    assert ChildOk(root, pool, at, filed, p, i);
    if kid >= 0 {
      var cl := pool[kid].codelen;
      if 0 <= cl <= cbits {
        assert Bits(i, 8)[..cl] == Bits(cur, cbits)[..cl];
        Emit(seen, out, pool[kid].sym, p, cur, cbits, cl);
      }
    }
  }

  ghost predicate Stops(pool: seq<Node>, kid: int, cbits: nat) {
    0 <= kid < |pool| && (pool[kid].codelen < 0 || pool[kid].codelen > cbits)
  }

  lemma FollowLast(root: Node, pool: seq<Node>, at: Places, filed: set<Byte>, dat: seq<Byte>,
                   out: seq<Byte>, p: seq<Byte>, n: int, i: Byte, cur: nat, cbits: nat, sbits: nat)
    requires Full(root, pool, at, filed) && Reading(at, n, Flat(dat), out, p, cur, cbits, sbits) && 1 <= cbits <= 7
    requires i == Shl(cur, 8 - cbits) % 256 && n < |pool| && Forced(dat, out)
    ensures var kid := KidsOf(root, pool, n)[i];
            && (kid < 0 ==> NotAnEncoding(dat))
            && (Stops(pool, kid, cbits) ==> Settled(dat, out, cur, cbits, sbits))
            && (0 <= kid < |pool| && !Stops(pool, kid, cbits) ==> Forced(dat, out + [pool[kid].sym]))
  {
    hide *;
    forall s | Encodes(dat, s)
      ensures LastOk(pool, KidsOf(root, pool, n)[i], out, cur, cbits, sbits, s)
    {
      assert out <= s by { Use(dat, out, s); }
      if |out| < |s| {
        LastSymbol(root, pool, at, filed, dat, out, p, n, i, cur, cbits, sbits, s);
      } else {
        assert out == s;
        LastPadding(root, pool, at, filed, dat, out, p, n, i, cur, cbits, sbits);
      }
    }
    WrapLast(dat, out, KidsOf(root, pool, n)[i], pool, cur, cbits, sbits);
  }

  ghost predicate LastOk(pool: seq<Node>, kid: int, out: seq<Byte>, cur: nat, cbits: nat, sbits: nat, s: seq<Byte>) {
    && 0 <= kid < |pool|
    && if Stops(pool, kid, cbits)
       then out == s && sbits <= 7 && Bits(cur, cbits) == Ones(cbits)
       else out + [pool[kid].sym] <= s
  }

  lemma WrapLast(dat: seq<Byte>, out: seq<Byte>, kid: int, pool: seq<Node>, cur: nat, cbits: nat, sbits: nat)
    requires forall s :: Encodes(dat, s) ==> LastOk(pool, kid, out, cur, cbits, sbits, s)
    ensures kid < 0 ==> NotAnEncoding(dat)
    ensures Stops(pool, kid, cbits) ==> Settled(dat, out, cur, cbits, sbits)
    ensures 0 <= kid < |pool| && !Stops(pool, kid, cbits) ==> Forced(dat, out + [pool[kid].sym])
  {
  }

  lemma LastSymbol(root: Node, pool: seq<Node>, at: Places, filed: set<Byte>, dat: seq<Byte>,
                   out: seq<Byte>, p: seq<Byte>, n: int, i: Byte, cur: nat, cbits: nat, sbits: nat, s: seq<Byte>)
    requires Full(root, pool, at, filed) && Reading(at, n, Flat(dat), out, p, cur, cbits, sbits) && 1 <= cbits <= 7
    requires i == Shl(cur, 8 - cbits) % 256 && n < |pool| && Encodes(dat, s) && out <= s && |out| < |s|
    ensures LastOk(pool, KidsOf(root, pool, n)[i], out, cur, cbits, sbits, s)
  {
    hide Bits, Flat, Stream, Shl, CodeBits, Full, KidsOf, Ones, Len;
    Last(cur, cbits);
    var c := s[|out|];
    CodeLength(c);
    StreamPrefix(out, s);
    CodeFitsIn(Stream(out), CodeBits(c), Flat(p), Bits(cur, cbits), Zeros(8 - cbits), Stream(s), Ones(PadLen(|Stream(s)|)));
    ChildTells(root, pool, at, filed, p, i, c);
  }

  lemma CodeLength(c: Byte)
    ensures |CodeBits(c)| == Len(c)
  {
  }

  /** The next code lies within the bits that are left. */
  lemma CodeFitsIn(base: seq<bool>, c: seq<bool>, p: seq<bool>, bits: seq<bool>, fill: seq<bool>, st: seq<bool>, pad: seq<bool>)
    requires base + c <= st && base + (p + bits) == st + pad
    ensures |c| <= |p| + |bits| && c <= p + (bits + fill)
  {
    PrefixesCompare(base, c, p + bits, st + pad);
    assert c <= p + bits;
    assert p + (bits + fill) == p + bits + fill;
  }

  /** Nothing but padding is left. */
  lemma OnlyPadding(dat: seq<Byte>, out: seq<Byte>, p: seq<Byte>, bits: seq<bool>)
    requires Flat(dat) == Stream(out) + (Flat(p) + bits) && Encodes(dat, out)
    ensures p == [] && |bits| <= 7 && bits == Ones(|bits|)
  {
    hide Bits, Flat, Stream;
    var pad := PadLen(|Stream(out)|);
    var y := Flat(p) + bits;
    assert y == (Stream(out) + y)[|Stream(out)|..];
    assert Ones(pad) == (Stream(out) + Ones(pad))[|Stream(out)|..];
    assert y == Ones(pad);
    assert Flat(p) + bits == bits;
  }

  lemma LastPadding(root: Node, pool: seq<Node>, at: Places, filed: set<Byte>, dat: seq<Byte>,
                    out: seq<Byte>, p: seq<Byte>, n: int, i: Byte, cur: nat, cbits: nat, sbits: nat)
    requires Full(root, pool, at, filed) && Reading(at, n, Flat(dat), out, p, cur, cbits, sbits) && 1 <= cbits <= 7
    requires i == Shl(cur, 8 - cbits) % 256 && n < |pool| && Encodes(dat, out)
    ensures LastOk(pool, KidsOf(root, pool, n)[i], out, cur, cbits, sbits, out)
  {
    hide Bits, Flat, Stream, Shl, Code, Len, KidsOf, Ones, Rooted, AllFiled, Needed, Placed;
    Last(cur, cbits);
    RootPlaced(root, pool, at, filed);
    OnlyPadding(dat, out, p, Bits(cur, cbits));
    OnesLead(root, pool, at, filed, cbits, i);
    var kid := KidsOf(root, pool, n)[i];
    assert ChildOk(root, pool, at, filed, p, i);
    if 0 <= pool[kid].codelen <= cbits {
      NoOnesCode(pool[kid].sym, p, Bits(i, 8), cbits, pool[kid].codelen);
    }
  }

  lemma NoOnesCode(c: Byte, p: seq<Byte>, x: seq<bool>, k: nat, cl: nat)
    requires p == [] && Ones(k) <= x && cl <= k
    ensures CodeBits(c) != Flat(p) + x[..cl]
  {
    hide Code, Len, Bits;
    assert Flat([]) == [];
    if CodeBits(c) == Flat(p) + x[..cl] {
      assert CodeBits(c) == Ones(Len(c));
      NotAllOnes(c);
    }
  }

  lemma NothingLeft(root: Node, pool: seq<Node>, at: Places, filed: set<Byte>, dat: seq<Byte>,
                    out: seq<Byte>, p: seq<Byte>, n: int, cur: nat, sbits: nat)
    requires Full(root, pool, at, filed) && Reading(at, n, Flat(dat), out, p, cur, 0, sbits) && Forced(dat, out)
    ensures Settled(dat, out, cur, 0, sbits)
  {
    hide Bits, Flat, Stream, Full, CodeBits, Encodes, Ones;
    forall s | Encodes(dat, s) ensures out == s && sbits <= 7 && Bits(cur, 0) == Ones(0) {
      assert out <= s;
      NothingLeftOne(root, pool, at, filed, dat, out, p, n, cur, sbits, s);
    }
  }

  lemma NothingLeftOne(root: Node, pool: seq<Node>, at: Places, filed: set<Byte>, dat: seq<Byte>,
                       out: seq<Byte>, p: seq<Byte>, n: int, cur: nat, sbits: nat, s: seq<Byte>)
    requires Full(root, pool, at, filed) && Reading(at, n, Flat(dat), out, p, cur, 0, sbits) && Encodes(dat, s) && out <= s
    ensures out == s && sbits <= 7 && Bits(cur, 0) == Ones(0)
  {
    hide Flat, Stream, Full, CodeBits;
    assert Bits(cur, 0) == [] && Ones(0) == [];
    if |out| < |s| {
      StreamPrefix(out, s);
      CodeFitsIn(Stream(out), CodeBits(s[|out|]), Flat(p), [], [], Stream(s), Ones(PadLen(|Stream(s)|)));
      assert Flat(p) + ([] + []) == Flat(p);
      CodeGoesOn(root, pool, at, filed, p, s[|out|]);
    }
    assert out == s;
    OnlyPadding(dat, out, p, []);
  }

  /** The mask test asks whether the remaining bits are all ones. */
  lemma MaskTest(cur: nat, cbits: nat)
    ensures cur % Pow2(cbits) == Pow2(cbits) - 1 <==> Bits(cur, cbits) == Ones(cbits)
  {
    hide *;
    LowBits(cur, cbits);
    SmallBits(cur % Pow2(cbits), Pow2(cbits) - 1, cbits);
    BitsOfOnes(cbits);
  }

  lemma LowBits(cur: nat, n: nat)
    ensures Bits(cur, n) == Bits(cur % Pow2(n), n)
  {
    hide *;
    var m := Pow2(n);
    var r, q := cur % m, cur / m;
    assert cur == r + m * q;
    AddHigh(r, n, q);
  }

  lemma SmallBits(x: nat, y: nat, n: nat)
    requires x < Pow2(n) && y < Pow2(n)
    ensures Bits(x, n) == Bits(y, n) <==> x == y
  {
    hide *;
    ValueOfBits(x, n);
    ValueOfBits(y, n);
  }

  lemma Accepted(at: Places, dat: seq<Byte>, out: seq<Byte>, p: seq<Byte>, n: int, cur: nat, cbits: nat, sbits: nat)
    requires Reading(at, n, Flat(dat), out, p, cur, cbits, sbits) && sbits <= 7 && Bits(cur, cbits) == Ones(cbits)
    ensures Encodes(dat, out)
  {
    assert Flat([]) == [];
    hide Bits, Flat, Stream;
    assert p == [];
    assert Flat([]) + Ones(cbits) == Ones(cbits);
    var n := |Stream(out)|;
    assert n + cbits == 8 * |dat|;
    PadIs(n, cbits, |dat|);
  }

  lemma PadIs(n: nat, k: nat, m: nat)
    requires n + k == 8 * m && k <= 7
    ensures k == PadLen(n)
  {
  }

  lemma Rejected(dat: seq<Byte>, out: seq<Byte>, cur: nat, cbits: nat, sbits: nat, ok: bool)
    requires Settled(dat, out, cur, cbits, sbits) && (ok <==> sbits <= 7 && Bits(cur, cbits) == Ones(cbits))
    ensures forall s :: Encodes(dat, s) ==> ok && out == s
  {
  }

  lemma Refused(dat: seq<Byte>, ok: bool, out: seq<Byte>)
    requires NotAnEncoding(dat)
    ensures forall s :: Encodes(dat, s) ==> ok && out == s
  {
  }

  // ------------------------------------------------------------------ the decoder

  method Decode(tree: Tree, dat: seq<Byte>) returns (ok: bool, out: seq<Byte>)
    requires tree.Valid() && forall b: Byte :: b in tree.filed
    ensures ok ==> Encodes(dat, out)
    ensures forall s :: Encodes(dat, s) ==> ok && out == s
  {
    hide TrieOk, Encodes;
    ok, out := DecodeIn(tree.root, tree.pool, tree.at, tree.filed, dat);
  }

  method DecodeIn(root: Node, pool: seq<Node>, ghost at: Places, ghost filed: set<Byte>, dat: seq<Byte>)
    returns (ok: bool, out: seq<Byte>)
    requires Full(root, pool, at, filed)
    ensures ok ==> Encodes(dat, out)
    ensures forall s :: Encodes(dat, s) ==> ok && out == s
  {
    hide *;
    var cur, cbits, sbits, n, i := 0, 0, 0, -1, 0;
    ghost var p: seq<Byte> := [];
    out := [];
    Begin(root, pool, at, filed, dat);
    while i < |dat|
      invariant 0 <= i <= |dat| && 0 <= cur && 0 <= cbits < 8 && 0 <= sbits
      invariant Reading(at, n, Flat(dat[..i]), out, p, cur, cbits, sbits) && Forced(dat, out)
    {
      NextByteRead(at, n, dat, i, out, p, cur, cbits, sbits);
      cur := Shl(cur, 8) % 0x1_0000_0000 + dat[i];
      cbits := cbits + 8;
      sbits := sbits + 8;
      while cbits >= 8
        invariant 0 <= cbits && 0 <= sbits
        invariant Reading(at, n, Flat(dat[..i + 1]), out, p, cur, cbits, sbits) && Forced(dat, out)
        decreases cbits
      {
        var idx: Byte := Shr(cur, cbits - 8) % 256;
        Down(root, pool, at, filed, Flat(dat[..i + 1]), out, p, n, idx, cur, cbits, sbits);
        Follow(root, pool, at, filed, dat, i + 1, out, p, n, idx, cur, cbits, sbits);
        var nid := KidsOf(root, pool, n)[idx];
        if nid < 0 {
          Refused(dat, false, out);
          return false, out;
        }
        KeepReading(pool, at, Flat(dat[..i + 1]), out, p, idx, nid, cur, cbits, sbits);
        if pool[nid].codelen >= 0 {
          out := out + [pool[nid].sym];
          cbits := cbits - pool[nid].codelen;
          n := -1;
          sbits := cbits;
          p := [];
        } else {
          n := nid;
          cbits := cbits - 8;
          p := p + [idx];
        }
      }
      i := i + 1;
    }
    assert dat[..i] == dat;
    ok, out := DecodeLast(root, pool, at, filed, dat, out, p, n, cur, cbits, sbits);
  }

  lemma KeepReading(pool: seq<Node>, at: Places, seen: seq<bool>, out: seq<Byte>, p: seq<Byte>, i: Byte, kid: int, cur: nat, cbits: nat, sbits: nat)
    requires ReadsOn(pool, at, seen, out, p, i, kid, cur, cbits, sbits) && cbits >= 8
    ensures 0 <= kid < |pool|
    ensures pool[kid].codelen >= 0 ==>
              1 <= pool[kid].codelen <= cbits
              && Reading(at, -1, seen, out + [pool[kid].sym], [], cur, cbits - pool[kid].codelen, cbits - pool[kid].codelen)
    ensures pool[kid].codelen < 0 ==> Reading(at, kid, seen, out, p + [i], cur, cbits - 8, sbits)
  {
  }

  /** The bits after the last whole byte: symbols that still fit, then padding. */
  method DecodeLast(root: Node, pool: seq<Node>, ghost at: Places, ghost filed: set<Byte>, ghost dat: seq<Byte>,
                    sofar: seq<Byte>, ghost path: seq<Byte>, node: int, cur: nat, bits: nat, span: nat)
    returns (ok: bool, out: seq<Byte>)
    requires Full(root, pool, at, filed) && Reading(at, node, Flat(dat), sofar, path, cur, bits, span) && Forced(dat, sofar)
    requires bits < 8
    ensures ok ==> Encodes(dat, out)
    ensures forall s :: Encodes(dat, s) ==> ok && out == s
  {
    hide *;
    var n, cbits, sbits := node, bits, span;
    ghost var p := path;
    out := sofar;
    while cbits > 0
      invariant 0 <= cbits < 8 && 0 <= sbits
      invariant Reading(at, n, Flat(dat), out, p, cur, cbits, sbits) && Forced(dat, out)
    {
      var idx: Byte := Shl(cur, 8 - cbits) % 256;
      DownLast(root, pool, at, filed, Flat(dat), out, p, n, idx, cur, cbits, sbits);
      FollowLast(root, pool, at, filed, dat, out, p, n, idx, cur, cbits, sbits);
      var nid := KidsOf(root, pool, n)[idx];
      if nid < 0 {
        Refused(dat, false, out);
        return false, out;
      }
      StopTest(pool, nid, cbits);
      if pool[nid].codelen < 0 || pool[nid].codelen > cbits {
        assert Settled(dat, out, cur, cbits, sbits);
        break;
      }
      out := out + [pool[nid].sym];
      cbits := cbits - pool[nid].codelen;
      n := -1;
      sbits := cbits;
      p := [];
    }
    if cbits == 0 { NothingLeft(root, pool, at, filed, dat, out, p, n, cur, sbits); }
    MaskTest(cur, cbits);
    ok := sbits <= 7 && cur % Pow2(cbits) == Pow2(cbits) - 1;
    Rejected(dat, out, cur, cbits, sbits, ok);
    if ok { Accepted(at, dat, out, p, n, cur, cbits, sbits); }
  }

  lemma StopTest(pool: seq<Node>, kid: int, cbits: nat)
    requires 0 <= kid < |pool|
    ensures Stops(pool, kid, cbits) <==> pool[kid].codelen < 0 || pool[kid].codelen > cbits
  {
  }

  /** Decoding undoes encoding. */
  method RoundTrip(tree: Tree, s: seq<Byte>) returns (bytes: seq<Byte>, out: seq<Byte>)
    requires tree.Valid() && forall b: Byte :: b in tree.filed
    ensures out == s
  {
    bytes := HuffmanEncode.HuffmanEncode(s);
    var ok;
    ok, out := Decode(tree, bytes);
  }
}
