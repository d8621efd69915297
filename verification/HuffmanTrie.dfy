/** The byte-wide decoding trie: built in a pool of nodes, one symbol after the other, and
    proved to represent the code table. */
module HuffmanTrie {
  import opened BitStrings
  import opened HuffmanTable

  type Kids = k: seq<int> | |k| == 256 witness seq(256, _ => -1)

  /** A leaf keeps its symbol and how many bits of the last byte belong to its code; an inner
      node has a negative code length. Children are pool indices, -1 for none. */
  datatype Node = Node(sym: Byte, codelen: int, children: Kids)

  const NO_KIDS: Kids := seq(256, _ => -1)

  // ------------------------------------------------------- codes cut into bytes

  /** The k-th whole byte of a code. */
  function ByteAt(t: Byte, k: nat): Byte
    requires 8 * (k + 1) <= Len(t)
  {
    Shr(Code(t), Len(t) - 8 * (k + 1)) % 256
  }

  /** The first k whole bytes of a code. */
  function Path(t: Byte, k: nat): (p: seq<Byte>)
    requires 8 * k <= Len(t)
    ensures |p| == k
  {
    if k == 0 then [] else Path(t, k - 1) + [ByteAt(t, k - 1)]
  }

  /** The number of whole bytes before the byte that completes the code. */
  function Depth(t: Byte): (d: nat)
    ensures Len(t) > 0 ==> 8 * d < Len(t) <= 8 * d + 8
  {
    if Len(t) == 0 then 0 else (Len(t) - 1) / 8
  }

  function Rest(t: Byte): seq<bool>
    requires Len(t) > 0
  {
    CodeBits(t)[8 * Depth(t)..]
  }

  lemma {:induction false} PathBits(t: Byte, k: nat)
    requires 8 * k <= Len(t)
    ensures Flat(Path(t, k)) == CodeBits(t)[..8 * k]
  {
    hide Code, Len, Bits, Shr, Flat;
    if k == 0 {
      assert Flat([]) == CodeBits(t)[..0];
    } else {
      PathBits(t, k - 1);
      var r := Len(t) - 8 * k;
      var u := Shr(Code(t), r);
      BitsSplit(Code(t), 8 * k, r);
      BitsSplit(u, 8 * (k - 1), 8);
      ByteMasked(u, 8);
      FlatAppend(Path(t, k - 1), ByteAt(t, k - 1));
      ByteCut(CodeBits(t), 8 * (k - 1), Bits(Shr(u, 8), 8 * (k - 1)), Bits(u, 8), Bits(Code(t), r));
    }
  }

  lemma ByteCut(b: seq<bool>, n: nat, x: seq<bool>, y: seq<bool>, z: seq<bool>)
    requires b == x + y + z && |x| == n
    ensures b[..n] == x && b[..n + |y|] == x + y
  {
  }

  // ------------------------------------------------------------- the invariant

  function KidsOf(root: Node, pool: seq<Node>, id: int): Kids
    requires id < |pool|
  {
    if id < 0 then root.children else pool[id].children
  }

  type Places = map<seq<Byte>, int>

  /** The child of the node at path `p` for byte `i` is missing, a leaf whose code ends within
      that byte, or the node one byte further down. */
  ghost predicate ChildOk(root: Node, pool: seq<Node>, at: Places, leaves: set<Byte>, p: seq<Byte>, i: Byte)
    requires p in at && at[p] < |pool|
  {
    var c := KidsOf(root, pool, at[p])[i];
    c < 0 || LinkOk(pool, at, leaves, p, i, c)
  }

  ghost predicate LinkOk(pool: seq<Node>, at: Places, leaves: set<Byte>, p: seq<Byte>, i: Byte, c: int) {
    && 0 <= c < |pool|
    && (if pool[c].codelen >= 0
        then pool[c].sym in leaves && 1 <= pool[c].codelen <= 8
             && CodeBits(pool[c].sym) == Flat(p) + Bits(i, 8)[..pool[c].codelen]
        else p + [i] in at && at[p + [i]] == c)
  }

  /** The code of `t` is filed: its path is there and every byte that completes it leads to it. */
  ghost predicate Filed(root: Node, pool: seq<Node>, at: Places, t: Byte) {
    && Len(t) > 0 && Path(t, Depth(t)) in at && at[Path(t, Depth(t))] < |pool|
    && (forall i: Byte :: Rest(t) <= Bits(i, 8) ==> LeafOf(pool, KidsOf(root, pool, at[Path(t, Depth(t))])[i], t))
  }

  ghost predicate LeafOf(pool: seq<Node>, c: int, t: Byte) {
    0 <= c < |pool| && pool[c].sym == t && pool[c].codelen >= 0
  }

  ghost predicate Placed(pool: seq<Node>, at: Places) {
    && [] in at && at[[]] == -1
    && (forall p :: p in at && p != [] ==> 0 <= at[p] < |pool| && pool[at[p]].codelen < 0)
    && (forall p, q :: p in at && q in at && at[p] == at[q] ==> p == q)
  }

  /** Every inner node lies on the path of one of the symbols. */
  ghost predicate Needed(at: Places, syms: set<Byte>) {
    forall p :: p in at && p != [] ==> exists t :: t in syms && OnPath(p, t)
  }

  ghost predicate OnPath(p: seq<Byte>, t: Byte) { 8 * |p| < Len(t) && Flat(p) <= CodeBits(t) }

  ghost predicate Linked(root: Node, pool: seq<Node>, at: Places, leaves: set<Byte>) {
    forall p, i: Byte :: p in at && at[p] < |pool| ==> ChildOk(root, pool, at, leaves, p, i)
  }

  ghost predicate AllFiled(root: Node, pool: seq<Node>, at: Places, filed: set<Byte>) {
    forall t :: t in filed ==> Filed(root, pool, at, t)
  }

  /** Every inner node but the root is the child of the node one byte up. */
  ghost predicate Rooted(root: Node, pool: seq<Node>, at: Places) {
    forall q :: q in at && q != [] ==> HangsOn(root, pool, at, q)
  }

  ghost predicate HangsOn(root: Node, pool: seq<Node>, at: Places, q: seq<Byte>)
    requires q in at && q != []
  {
    var p := q[..|q| - 1];
    p in at && at[p] < |pool| && KidsOf(root, pool, at[p])[q[|q| - 1]] == at[q]
  }

  /** The trie represents the codes of `filed`; leaves are of `leaves`, inner nodes lie on paths of `needed`. */
  ghost predicate Trie(root: Node, pool: seq<Node>, at: Places, filed: set<Byte>, leaves: set<Byte>, needed: set<Byte>) {
    && Placed(pool, at) && Linked(root, pool, at, leaves) && AllFiled(root, pool, at, filed) && Needed(at, needed)
  }

  ghost predicate TrieOk(root: Node, pool: seq<Node>, at: Places, filed: set<Byte>, leaves: set<Byte>, needed: set<Byte>) {
    Trie(root, pool, at, filed, leaves, needed) && Rooted(root, pool, at)
  }

  // ------------------------------------------------------------- changing a child

  function RootWith(root: Node, id: int, i: Byte, c: int): Node {
    if id < 0 then root.(children := root.children[i := c]) else root
  }

  function PoolWith(pool: seq<Node>, id: int, i: Byte, c: int): (r: seq<Node>)
    requires id < |pool|
    ensures |r| == |pool| && forall k :: 0 <= k < |pool| ==> r[k].sym == pool[k].sym && r[k].codelen == pool[k].codelen
  {
    if id < 0 then pool else pool[id := pool[id].(children := pool[id].children[i := c])]
  }

  lemma KidChanged(root: Node, pool: seq<Node>, id: int, i: Byte, c: int, id': int, j: Byte)
    requires -1 <= id < |pool| && -1 <= id' < |pool|
    ensures KidsOf(RootWith(root, id, i, c), PoolWith(pool, id, i, c), id')[j]
            == if id' == id && j == i then c else KidsOf(root, pool, id')[j]
  {
  }

  /** Filling in a missing child keeps the trie, and everything filed stays filed. */
  lemma SetKid(root: Node, pool: seq<Node>, at: Places, filed: set<Byte>, leaves: set<Byte>, needed: set<Byte>,
               p: seq<Byte>, i: Byte, c: int)
    requires Trie(root, pool, at, filed, leaves, needed) && p in at && at[p] < |pool|
    requires KidsOf(root, pool, at[p])[i] < 0 && LinkOk(pool, at, leaves, p, i, c)
    ensures Trie(RootWith(root, at[p], i, c), PoolWith(pool, at[p], i, c), at, filed, leaves, needed)
  {
    var root', pool' := RootWith(root, at[p], i, c), PoolWith(pool, at[p], i, c);
    hide CodeBits, Flat, Bits, Path, Rest, Depth, Needed, OnPath, RootWith, PoolWith;
    assert Placed(pool', at);
    forall q, j: Byte | q in at && at[q] < |pool'| ensures ChildOk(root', pool', at, leaves, q, j) {
      assert ChildOk(root, pool, at, leaves, q, j);
      KidChanged(root, pool, at[p], i, c, at[q], j);
    }
    forall t | t in filed ensures Filed(root', pool', at, t) {
      StaysFiled(root, pool, at, t, at[p], i, c);
    }
  }

  lemma StaysFiled(root: Node, pool: seq<Node>, at: Places, t: Byte, id: int, i: Byte, c: int)
    requires Placed(pool, at) && Filed(root, pool, at, t) && -1 <= id < |pool| && KidsOf(root, pool, id)[i] < 0
    ensures Filed(RootWith(root, id, i, c), PoolWith(pool, id, i, c), at, t)
  {
    hide CodeBits, Flat, Bits, Path, Rest, RootWith, PoolWith, Len, ByteAt;
    var root', pool' := RootWith(root, id, i, c), PoolWith(pool, id, i, c);
    var e := at[Path(t, Depth(t))];
    forall j: Byte | Rest(t) <= Bits(j, 8) ensures LeafOf(pool', KidsOf(root', pool', e)[j], t) {
      assert LeafOf(pool, KidsOf(root, pool, e)[j], t);
      KidChanged(root, pool, id, i, c, e, j);
    }
  }

  lemma StaysRooted(root: Node, pool: seq<Node>, at: Places, id: int, i: Byte, c: int)
    requires Placed(pool, at) && Rooted(root, pool, at) && -1 <= id < |pool| && KidsOf(root, pool, id)[i] < 0
    ensures Rooted(RootWith(root, id, i, c), PoolWith(pool, id, i, c), at)
  {
    hide RootWith, PoolWith;
    forall q | q in at && q != [] ensures HangsOn(RootWith(root, id, i, c), PoolWith(pool, id, i, c), at, q) {
      assert HangsOn(root, pool, at, q);
      KidChanged(root, pool, id, i, c, at[q[..|q| - 1]], q[|q| - 1]);
    }
  }

  // ------------------------------------------------------------ taking new nodes

  /** A node just taken from the pool, linked nowhere. */
  lemma AppendLeaf(root: Node, pool: seq<Node>, at: Places, filed: set<Byte>, leaves: set<Byte>, needed: set<Byte>, n: Node)
    requires TrieOk(root, pool, at, filed, leaves, needed)
    ensures TrieOk(root, pool + [n], at, filed, leaves, needed)
  {
    hide CodeBits, Flat, Bits, Path, Rest, Depth, Needed, OnPath, ByteAt, Len;
    var pool' := pool + [n];
    forall q, j: Byte | q in at && at[q] < |pool'| ensures ChildOk(root, pool', at, leaves, q, j) {
      assert ChildOk(root, pool, at, leaves, q, j);
    }
    forall t | t in filed ensures Filed(root, pool', at, t) {
      AppendKeepsFiled(root, pool, at, at, t, n);
    }
    forall q | q in at && q != [] ensures HangsOn(root, pool', at, q) {
      assert HangsOn(root, pool, at, q);
    }
  }

  lemma AppendKeepsFiled(root: Node, pool: seq<Node>, at: Places, at': Places, t: Byte, n: Node)
    requires Filed(root, pool, at, t) && forall q :: q in at ==> q in at' && at'[q] == at[q]
    ensures Filed(root, pool + [n], at', t)
  {
    hide CodeBits, Flat, Bits, Path, Rest, Depth, ByteAt, Len;
    var e := at[Path(t, Depth(t))];
    forall j: Byte | Rest(t) <= Bits(j, 8) ensures LeafOf(pool + [n], KidsOf(root, pool + [n], e)[j], t) {
      assert LeafOf(pool, KidsOf(root, pool, e)[j], t);
    }
  }

  /** A new inner node below `p`, before it is linked. */
  lemma AppendInner(root: Node, pool: seq<Node>, at: Places, filed: set<Byte>, leaves: set<Byte>, needed: set<Byte>,
                    q: seq<Byte>, w: Byte, n: Node)
    requires Trie(root, pool, at, filed, leaves, needed) && q !in at && q != []
    requires w in needed && OnPath(q, w) && n.codelen < 0 && n.children == NO_KIDS
    ensures Trie(root, pool + [n], at[q := |pool|], filed, leaves, needed)
  {
    hide CodeBits, Flat, Bits, Path, Rest, Depth, OnPath, ByteAt, Len;
    var pool', at' := pool + [n], at[q := |pool|];
    forall r, j: Byte | r in at' && at'[r] < |pool'| ensures ChildOk(root, pool', at', leaves, r, j) {
      if r != q { assert ChildOk(root, pool, at, leaves, r, j); }
    }
    forall t | t in filed ensures Filed(root, pool', at', t) {
      AppendKeepsFiled(root, pool, at, at', t, n);
    }
    assert Placed(pool', at');
    assert Needed(at', needed) by {
      forall r | r in at' && r != [] ensures exists t :: t in needed && OnPath(r, t) {
        if r != q { assert r in at; }
      }
    }
  }

  lemma PlacedIsLinked(root: Node, pool: seq<Node>, at: Places, p: seq<Byte>, i: Byte)
    requires Placed(pool, at) && Rooted(root, pool, at)
    ensures p + [i] in at ==> p in at && at[p] < |pool| && KidsOf(root, pool, at[p])[i] == at[p + [i]] >= 0
  {
    var q := p + [i];
    if q in at {
      assert q[..|q| - 1] == p && q[|q| - 1] == i && q != [];
      assert HangsOn(root, pool, at, q);
    }
  }

  /** Takes a new inner node for byte `i` below `p` and links it. */
  lemma LinkInner(root: Node, pool: seq<Node>, at: Places, filed: set<Byte>, leaves: set<Byte>, needed: set<Byte>,
                  p: seq<Byte>, i: Byte, w: Byte, n: Node)
    requires TrieOk(root, pool, at, filed, leaves, needed) && p in at && at[p] < |pool|
    requires KidsOf(root, pool, at[p])[i] < 0
    requires w in needed && OnPath(p + [i], w) && n.codelen < 0 && n.children == NO_KIDS
    ensures p + [i] !in at
    ensures TrieOk(RootWith(root, at[p], i, |pool|), PoolWith(pool + [n], at[p], i, |pool|), at[p + [i] := |pool|],
                   filed, leaves, needed)
  {
    hide CodeBits, Flat, Bits, Path, Rest, Depth, OnPath, ByteAt, Len, RootWith, PoolWith, Needed, AllFiled, Linked;
    var q := p + [i];
    assert q[..|q| - 1] == p;
    PlacedIsLinked(root, pool, at, p, i);
    AppendInner(root, pool, at, filed, leaves, needed, q, w, n);
    var pool', at' := pool + [n], at[q := |pool|];
    SetKid(root, pool', at', filed, leaves, needed, p, i, |pool|);
    forall r | r in at' && r != [] ensures HangsOn(RootWith(root, at[p], i, |pool|), PoolWith(pool', at[p], i, |pool|), at', r) {
      if r != q {
        assert HangsOn(root, pool, at, r);
        KidChanged(root, pool', at[p], i, |pool|, at[r[..|r| - 1]], r[|r| - 1]);
      } else {
        KidChanged(root, pool', at[p], i, |pool|, at[p], i);
      }
    }
  }

  // -------------------------------------------------------------- adding a symbol

  /** On the way down, the next byte of a new code leads to no leaf: codes are prefix-free. */
  lemma DescendsToInner(root: Node, pool: seq<Node>, at: Places, filed: set<Byte>, needed: set<Byte>, t: Byte, k: nat)
    requires TrieOk(root, pool, at, filed, filed, needed) && t !in filed && Len(t) > 0 && k < Depth(t)
    requires Path(t, k) in at && at[Path(t, k)] < |pool| && KidsOf(root, pool, at[Path(t, k)])[ByteAt(t, k)] >= 0
    ensures Path(t, k + 1) in at && at[Path(t, k + 1)] == KidsOf(root, pool, at[Path(t, k)])[ByteAt(t, k)]
  {
    hide CodeBits, Flat, Bits, Rest, Len, ByteAt, Placed, Rooted, AllFiled, Needed;
    var p, i := Path(t, k), ByteAt(t, k);
    var c := KidsOf(root, pool, at[p])[i];
    assert ChildOk(root, pool, at, filed, p, i);
    assert Path(t, k + 1) == p + [i];
    if pool[c].codelen >= 0 {
      PathBits(t, k + 1);
      FlatAppend(p, i);
      PrefixOfPrefix(CodeBits(pool[c].sym), Flat(p), Bits(i, 8), pool[c].codelen, CodeBits(t));
      PrefixFree(pool[c].sym, t);
    }
  }

  lemma PrefixOfPrefix(a: seq<bool>, p: seq<bool>, b: seq<bool>, n: nat, c: seq<bool>)
    requires n <= |b| && a == p + b[..n] && p + b <= c
    ensures a <= c
  {
    assert c[..|p| + n] == (p + b)[..|p| + n];
    assert (p + b)[..|p| + n] == p + b[..n];
  }

  /** The place where a new code ends is still free: anything there would extend the code or
      be extended by it. */
  lemma EndIsFree(root: Node, pool: seq<Node>, at: Places, filed: set<Byte>, leaves: set<Byte>, t: Byte, i: Byte)
    requires Trie(root, pool, at, filed, leaves, filed + {t}) && t !in filed && leaves <= filed + {t} && Len(t) > 0
    requires Path(t, Depth(t)) in at && at[Path(t, Depth(t))] < |pool| && Rest(t) <= Bits(i, 8)
    ensures var c := KidsOf(root, pool, at[Path(t, Depth(t))])[i];
            c >= 0 ==> c < |pool| && pool[c].sym == t && t in leaves && pool[c].codelen >= 0
  {
    hide CodeBits, Flat, Bits, Len, ByteAt, Placed, AllFiled, Path;
    var d := Depth(t);
    var p := Path(t, d);
    var c := KidsOf(root, pool, at[p])[i];
    assert ChildOk(root, pool, at, leaves, p, i);
    PathBits(t, d);
    CodeEnd(t, Flat(p));
    if c >= 0 {
      if pool[c].codelen >= 0 {
        Comparable(CodeBits(t), CodeBits(pool[c].sym), Flat(p), Rest(t), Bits(i, 8), pool[c].codelen);
        if CodeBits(t) <= CodeBits(pool[c].sym) { PrefixFree(t, pool[c].sym); } else { PrefixFree(pool[c].sym, t); }
      } else {
        assert p + [i] in at;
        var w :| w in filed + {t} && OnPath(p + [i], w);
        FlatAppend(p, i);
        Extends(CodeBits(t), Flat(p), Rest(t), Bits(i, 8), CodeBits(w));
        PrefixFree(t, w);
      }
    }
  }

  lemma CodeEnd(t: Byte, b: seq<bool>)
    requires Len(t) > 0 && b == CodeBits(t)[..8 * Depth(t)]
    ensures CodeBits(t) == b + Rest(t) && 1 <= |Rest(t)| <= 8
  {
    hide CodeBits, Len;
  }

  lemma Comparable(a: seq<bool>, b: seq<bool>, p: seq<bool>, r: seq<bool>, x: seq<bool>, n: nat)
    requires a == p + r && r <= x && n <= |x| && b == p + x[..n]
    ensures a <= b || b <= a
  {
    if |r| <= n { assert b[..|a|] == p + x[..|r|]; } else { assert a[..|b|] == p + r[..n]; }
  }

  lemma Extends(a: seq<bool>, p: seq<bool>, r: seq<bool>, x: seq<bool>, c: seq<bool>)
    requires a == p + r && r <= x && p + x <= c
    ensures a <= c
  {
    assert c[..|a|] == (p + x)[..|a|];
    assert (p + x)[..|a|] == p + x[..|r|];
  }

  /** Writing the leaf of a new code into one of the children that complete it. */
  lemma FillOne(root: Node, pool: seq<Node>, at: Places, filed: set<Byte>, t: Byte, i: Byte, id: int)
    requires TrieOk(root, pool, at, filed, filed + {t}, filed + {t}) && t !in filed && Len(t) > 0
    requires Path(t, Depth(t)) in at && at[Path(t, Depth(t))] < |pool| && Rest(t) <= Bits(i, 8)
    requires 0 <= id < |pool| && pool[id].sym == t && pool[id].codelen == |Rest(t)|
    requires KidsOf(root, pool, at[Path(t, Depth(t))])[i] < 0
    ensures var e := at[Path(t, Depth(t))];
            TrieOk(RootWith(root, e, i, id), PoolWith(pool, e, i, id), at, filed, filed + {t}, filed + {t})
  {
    hide CodeBits, Flat, Bits, Len, ByteAt, AllFiled, Path, RootWith, PoolWith, Needed, Linked, Rest, Depth;
    var p := Path(t, Depth(t));
    PathBits(t, Depth(t));
    CodeEnd(t, Flat(p));
    assert Bits(i, 8)[..|Rest(t)|] == Rest(t);
    SetKid(root, pool, at, filed, filed + {t}, filed + {t}, p, i, id);
    StaysRooted(root, pool, at, at[p], i, id);
  }

  // ---------------------------------------------------- the children that end a code

  lemma {:induction false} ValueConcat(a: seq<bool>, b: seq<bool>)
    ensures Value(a + b) == Value(a) * Pow2(|b|) + Value(b)
  {
    if b == [] {
      assert a + b == a;
    } else {
      var c := b[..|b| - 1];
      ValueConcat(a, c);
      assert (a + b)[..|a + b| - 1] == a + c;
      assert Value(a) * Pow2(|b|) == 2 * (Value(a) * Pow2(|c|));
    }
  }

  lemma {:induction false} ValueOfZeros(n: nat)
    ensures Value(Zeros(n)) == 0
  {
    if n > 0 {
      ValueOfZeros(n - 1);
      assert Zeros(n)[..n - 1] == Zeros(n - 1);
    }
  }

  lemma InBlock(x: nat, y: nat, z: nat, m: nat)
    requires y < m
    ensures z * m <= x * m + y < z * m + m <==> x == z
  {
    if x < z { MulMono(x, z, m); } else if x > z { MulMono(z, x, m); }
  }

  lemma MulMono(a: nat, b: nat, m: nat)
    requires a < b
    ensures a * m + m <= b * m
  {
    var d := b - a - 1;
    assert b * m == a * m + m + d * m;
    assert d * m >= 0;
  }

  /** The bytes that begin with the last bits of a code form one block. */
  lemma EndBlock(code: nat, cl: nat, i: Byte)
    requires 1 <= cl <= 8
    ensures var start := Shl(code, 8 - cl) % 256;
            && start + Pow2(8 - cl) <= 256
            && (start <= i < start + Pow2(8 - cl) <==> Bits(code, cl) <= Bits(i, 8))
  {
    hide Bits, Shl, Value, Pow2, Zeros;
    var r := 8 - cl;
    StartValue(code, cl);
    BlockMember(Bits(code, cl), i);
    BlockFits(Value(Bits(code, cl)), cl, r, Bits(code, cl));
  }

  lemma StartValue(code: nat, cl: nat)
    requires 1 <= cl <= 8
    ensures Shl(code, 8 - cl) % 256 == Value(Bits(code, cl)) * Pow2(8 - cl)
  {
    hide Bits, Shl, Value, Pow2, Zeros;
    var r := 8 - cl;
    ByteMasked(Shl(code, r), 8);
    BitsShl(code, cl, r);
    ByteValue(Shl(code, r) % 256);
    ValueConcat(Bits(code, cl), Zeros(r));
    ValueOfZeros(r);
  }

  lemma BlockMember(a: seq<bool>, i: Byte)
    requires |a| <= 8
    ensures var m := Pow2(8 - |a|);
            Value(a) * m <= i < Value(a) * m + m <==> a <= Bits(i, 8)
  {
    hide Bits, Value, Pow2;
    var x, y := Bits(i, 8)[..|a|], Bits(i, 8)[|a|..];
    assert Bits(i, 8) == x + y;
    ByteValue(i);
    ValueConcat(x, y);
    ValueInRange(y);
    InBlock(Value(x), Value(y), Value(a), Pow2(8 - |a|));
    BitsOfValue(x);
    BitsOfValue(a);
    assert a <= Bits(i, 8) <==> x == a;
  }

  lemma ByteValue(i: Byte)
    ensures Value(Bits(i, 8)) == i
  {
    assert Pow2(8) == 256;
    ValueOfBits(i, 8);
  }

  lemma BlockFits(v: nat, cl: nat, r: nat, a: seq<bool>)
    requires v == Value(a) && |a| == cl && cl + r == 8
    ensures v * Pow2(r) + Pow2(r) <= 256
  {
    ValueInRange(a);
    Pow2Sum(cl, r);
    assert Pow2(8) == 256;
    hide Pow2, Value;
    MulMono(v, Pow2(cl), Pow2(r));
  }

  // ---------------------------------------------------------- the size of the pool

  /** The paths of inner nodes, numbered: the root, two nodes after one byte, two after two
      and ten after three. */
  function InnerIndex(p: seq<Byte>): int {
    if |p| == 0 then 0
    else if |p| == 1 then (p[0] as int) - 253
    else if |p| == 2 then (p[1] as int) - 251
    else (p[2] as int) - 241
  }

  ghost predicate IsInner(p: seq<Byte>) {
    || p == [] || p == [254] || p == [255] || p == [255, 254] || p == [255, 255]
    || (|p| == 3 && p[0] == 255 && p[1] == 255 && p[2] >= 246)
  }

  lemma ShrByte(u: nat)
    ensures Shr(u, 8) == u / 256
  {
    assert Shr(u, 8) == u / 2 / 2 / 2 / 2 / 2 / 2 / 2 / 2;
    assert u / 2 / 2 == u / 4;
    assert u / 4 / 2 / 2 == u / 16;
    assert u / 16 / 2 / 2 == u / 64;
    assert u / 64 / 2 / 2 == u / 256;
  }

  /** Where the inner nodes can be: codes longer than one, two or three bytes begin with ones. */
  lemma OnPathIsInner(p: seq<Byte>, t: Byte)
    requires OnPath(p, t)
    ensures IsInner(p)
  {
    hide Code, Len, ByteAt, Path;
    PathOf(p, t);
    LengthOf(t);
    PathBytes(t, |p|);
    if |p| >= 1 { FirstByte(t, |p|); }
    if |p| >= 2 { SecondByte(t, |p|); }
    if |p| >= 3 { ThirdByte(t); }
  }

  lemma LengthOf(t: Byte)
    ensures 5 <= Len(t) <= 30 && Code(t) < Pow2(Len(t)) && Code(t) >= First(Len(t))
  {
    hide Code, Len, First, Bound, Shorter, SymbolAt, Rank, Pow2;
    TableIsCanonical(t);
    LengthsContinue(Len(t));
  }

  lemma FirstByte(t: Byte, k: nat)
    requires 1 <= k && 8 * k < Len(t)
    ensures 254 <= ByteAt(t, 0)
    ensures k >= 2 ==> ByteAt(t, 0) == 255
  {
    hide Code, Len, First, Bound, Pow2, Shr;
    LengthOf(t);
    KnownBounds();
    LongerIsAbove(8, Len(t), Code(t));
    Cut(Code(t), Len(t), 8);
    if k >= 2 {
      var u := Shr(Code(t), Len(t) - 16);
      LongerIsAbove(16, Len(t), Code(t));
      ShrShr(Code(t), Len(t) - 16, 8);
      ShrByte(u);
    }
  }

  lemma SecondByte(t: Byte, k: nat)
    requires 2 <= k && 8 * k < Len(t)
    ensures 254 <= ByteAt(t, 1)
    ensures k >= 3 ==> ByteAt(t, 1) == 255
  {
    hide Code, Len, First, Bound, Pow2, Shr;
    LengthOf(t);
    KnownBounds();
    LongerIsAbove(16, Len(t), Code(t));
    Cut(Code(t), Len(t), 16);
    if k >= 3 {
      var u := Shr(Code(t), Len(t) - 24);
      LongerIsAbove(24, Len(t), Code(t));
      Cut(Code(t), Len(t), 24);
      ShrShr(Code(t), Len(t) - 24, 8);
      ShrByte(u);
    }
  }

  lemma ThirdByte(t: Byte)
    requires 24 < Len(t)
    ensures 246 <= ByteAt(t, 2)
  {
    hide Code, Len, First, Bound, Pow2, Shr;
    LengthOf(t);
    KnownBounds();
    LongerIsAbove(24, Len(t), Code(t));
    Cut(Code(t), Len(t), 24);
  }

  lemma KnownBounds()
    ensures Bound(8) == 254 && Bound(16) == 65534 && Bound(24) == 16777206
  {
  }

  lemma Cut(v: nat, n: nat, k: nat)
    requires v < Pow2(n) && k in {8, 16, 24}
    ensures k <= n ==> Shr(v, n - k) < if k == 8 then 0x100 else if k == 16 then 0x10000 else 0x100_0000
  {
    if k <= n { ShrBelow(v, k, n - k); }
    assert Pow2(8) == 0x100;
    Pow2Sum(8, 8);
    Pow2Sum(8, 16);
  }

  lemma PathBytes(t: Byte, k: nat)
    requires 8 * k < Len(t) && k <= 3
    ensures k >= 1 ==> Path(t, k)[0] == ByteAt(t, 0)
    ensures k >= 2 ==> Path(t, k)[1] == ByteAt(t, 1)
    ensures k >= 3 ==> Path(t, k)[2] == ByteAt(t, 2)
  {
    hide ByteAt, Len;
  }

  lemma PathOf(p: seq<Byte>, t: Byte)
    requires OnPath(p, t)
    ensures p == Path(t, |p|)
  {
    hide CodeBits, Flat, Len, Path;
    PathBits(t, |p|);
    assert Flat(p) == CodeBits(t)[..8 * |p|];
    FlatInjective(p, Path(t, |p|));
  }

  lemma InnerCount(pool: seq<Node>, at: Places, needed: set<Byte>)
    requires Placed(pool, at) && Needed(at, needed)
    ensures |at| <= 15
  {
    hide OnPath;
    forall p | p in at ensures IsInner(p) {
      if p != [] {
        var t :| t in needed && OnPath(p, t);
        OnPathIsInner(p, t);
      }
    }
    assert |at.Keys| == |at|;
    Numbered(at.Keys, 15);
  }

  lemma SameInner(p: seq<Byte>, q: seq<Byte>)
    requires IsInner(p) && IsInner(q) && InnerIndex(p) == InnerIndex(q)
    ensures p == q
  {
  }

  lemma {:induction false} Numbered(s: set<seq<Byte>>, n: nat)
    requires forall p :: p in s ==> IsInner(p) && 0 <= InnerIndex(p) < n
    ensures |s| <= n
  {
    if n == 0 {
      assert s == {};
    } else if p :| p in s && InnerIndex(p) == n - 1 {
      forall q | q in s - {p} ensures InnerIndex(q) < n - 1 {
        if InnerIndex(q) == n - 1 { SameInner(p, q); }
      }
      Numbered(s - {p}, n - 1);
    } else {
      Numbered(s, n - 1);
    }
  }
}
