/** Building the decoding trie in its node pool. The pool is sized for the code: with one leaf
    per byte value and one inner node per byte prefix, it is used up exactly and never moves. */
module HuffmanTree {
  import opened BitStrings
  import opened HuffmanTable
  import opened HuffmanTrie

  const POOL_SIZE: nat := 270

  /** No child refers to the node. */
  ghost predicate Unlinked(root: Node, pool: seq<Node>, at: Places, id: int) {
    forall q :: q in at && at[q] < |pool| ==> at[q] != id && id !in KidsOf(root, pool, at[q])
  }

  lemma Retag(root: Node, pool: seq<Node>, at: Places, filed: set<Byte>, needed: set<Byte>, id: int, n: Node)
    requires TrieOk(root, pool, at, filed, filed, needed) && 0 <= id < |pool| && Unlinked(root, pool, at, id)
    ensures TrieOk(root, pool[id := n], at, filed, filed, needed)
  {
    hide CodeBits, Flat, Bits, Path, Rest, Depth, Needed, OnPath, ByteAt, Len;
    var pool' := pool[id := n];
    forall q, j: Byte | q in at && at[q] < |pool'| ensures ChildOk(root, pool', at, filed, q, j) {
      assert ChildOk(root, pool, at, filed, q, j);
      assert KidsOf(root, pool, at[q])[j] in KidsOf(root, pool, at[q]);
    }
    forall t | t in filed ensures Filed(root, pool', at, t) {
      RetagFiled(root, pool, at, t, id, n);
    }
    forall q | q in at && q != [] ensures HangsOn(root, pool', at, q) {
      assert HangsOn(root, pool, at, q);
    }
  }

  lemma RetagFiled(root: Node, pool: seq<Node>, at: Places, t: Byte, id: int, n: Node)
    requires Filed(root, pool, at, t) && 0 <= id < |pool| && Unlinked(root, pool, at, id)
    ensures Filed(root, pool[id := n], at, t)
  {
    hide CodeBits, Flat, Bits, Path, Rest, Depth, ByteAt, Len;
    var e := at[Path(t, Depth(t))];
    forall j: Byte | Rest(t) <= Bits(j, 8) ensures LeafOf(pool[id := n], KidsOf(root, pool[id := n], e)[j], t) {
      assert LeafOf(pool, KidsOf(root, pool, e)[j], t);
      assert KidsOf(root, pool, e)[j] in KidsOf(root, pool, e);
    }
  }

  lemma FreshIsUnlinked(root: Node, pool: seq<Node>, at: Places, filed: set<Byte>, needed: set<Byte>, n: Node)
    requires TrieOk(root, pool, at, filed, filed, needed)
    ensures Unlinked(root, pool + [n], at, |pool|)
  {
    hide CodeBits, Flat, Bits, Path, Rest, Depth, Needed, OnPath, ByteAt, Len, AllFiled, Rooted;
    forall q | q in at && at[q] < |pool + [n]| ensures at[q] != |pool| && |pool| !in KidsOf(root, pool + [n], at[q]) {
      assert q != [] ==> 0 <= at[q] < |pool|;
      var kids := KidsOf(root, pool, at[q]);
      assert KidsOf(root, pool + [n], at[q]) == kids;
      forall j | 0 <= j < 256 ensures kids[j] < |pool| { assert ChildOk(root, pool, at, filed, q, j); }
    }
  }

  lemma MoreNeeded(root: Node, pool: seq<Node>, at: Places, filed: set<Byte>, leaves: set<Byte>, needed: set<Byte>, t: Byte)
    requires TrieOk(root, pool, at, filed, leaves, needed)
    ensures TrieOk(root, pool, at, filed, leaves, needed + {t})
    ensures TrieOk(root, pool, at, filed, leaves + {t}, needed + {t})
  {
    hide CodeBits, Flat, Bits, Path, Rest, Depth, OnPath, ByteAt, Len, Filed, HangsOn, Placed;
    forall q, j: Byte | q in at && at[q] < |pool| ensures ChildOk(root, pool, at, leaves + {t}, q, j) {
      assert ChildOk(root, pool, at, leaves, q, j);
    }
  }

  lemma StaysUnlinked(root: Node, pool: seq<Node>, at: Places, id: int, p: seq<Byte>, i: Byte, n: Node)
    requires Unlinked(root, pool, at, id) && p in at && -1 <= at[p] < |pool| && 0 <= id < |pool| && n.children == NO_KIDS
    requires forall q :: q in at ==> -1 <= at[q] < |pool|
    ensures Unlinked(RootWith(root, at[p], i, |pool|), PoolWith(pool + [n], at[p], i, |pool|), at[p + [i] := |pool|], id)
  {
    var pool', at' := pool + [n], at[p + [i] := |pool|];
    forall q | q in at' && at'[q] < |pool'|
      ensures at'[q] != id && id !in KidsOf(RootWith(root, at[p], i, |pool|), PoolWith(pool', at[p], i, |pool|), at'[q])
    {
      if q != p + [i] || q in at { assert q in at || q == p + [i]; }
      forall j: Byte
        ensures KidsOf(RootWith(root, at[p], i, |pool|), PoolWith(pool', at[p], i, |pool|), at'[q])[j] != id
      {
        KidChanged(root, pool', at[p], i, |pool|, at'[q], j);
        if q != p + [i] { assert KidsOf(root, pool, at[q])[j] in KidsOf(root, pool, at[q]); }
      }
    }
  }

  class Tree {
    var size: nat
    var root: Node
    var pool: seq<Node> // the nodes taken so far
    ghost var at: Places
    ghost var filed: set<Byte>

    ghost predicate Valid()
      reads this
    {
      size == POOL_SIZE && TrieOk(root, pool, at, filed, filed, filed) && |pool| == |filed| + |at| - 1
    }

    constructor ()
      ensures Valid() && filed == {} && pool == []
    {
      size := POOL_SIZE;
      root := Node(0, -1, NO_KIDS);
      pool := [];
      at := map[[] := -1];
      filed := {};
    }

    /** Takes the next node of the pool, growing the pool when it is used up. */
    method Alloc() returns (id: int, moved: bool)
      modifies `size, `pool
      ensures id == |old(pool)| && pool == old(pool) + [Node(0, -1, NO_KIDS)]
      ensures moved <==> old(|pool|) >= old(size)
      ensures size == old(size) + if moved then 64 else 0
    {
      moved := |pool| >= size;
      if moved { size := size + 64; }
      id := |pool|;
      pool := pool + [Node(0, -1, NO_KIDS)];
    }

    method SetChild(id: int, i: Byte, c: int)
      requires -1 <= id < |pool|
      modifies `root, `pool
      ensures root == RootWith(old(root), id, i, c) && pool == PoolWith(old(pool), id, i, c)
    {
      if id < 0 {
        root := root.(children := root.children[i := c]);
      } else {
        pool := pool[id := pool[id].(children := pool[id].children[i := c])];
      }
    }

    /** A symbol is being added; its leaf is taken but not linked. */
    ghost predicate Adding(t: Byte, id: int)
      reads this
    {
      size == POOL_SIZE && Partial(root, pool, at, filed, t, id)
    }

    method TakeLeaf(t: Byte, codelen: nat) returns (id: int)
      requires Valid() && t !in filed
      modifies `size, `pool
      ensures Adding(t, id)
    {
      hide TrieOk, Partial;
      TakeNew(root, pool, at, filed, t, codelen);
      ghost var pool0 := pool;
      var moved: bool;
      id, moved := Alloc();
      assert !moved;
      pool := pool[id := Node(t, codelen, NO_KIDS)];
      assert pool == pool0 + [Node(t, codelen, NO_KIDS)];
    }

    /** Walks down the whole bytes of the code, adding the inner nodes that are missing. */
    method Descend(t: Byte, id: int) returns (curr: int, codelen: nat)
      requires Adding(t, id)
      modifies `size, `root, `pool, `at
      ensures Adding(t, id) && Len(t) > 0
      ensures Path(t, Depth(t)) in at && curr == at[Path(t, Depth(t))] && codelen == |Rest(t)|
    {
      LengthOf(t);
      var code := Code(t);
      codelen := Len(t);
      curr := -1;
      ghost var k := 0;
      StartAt(root, pool, at, filed, t, id);
      hide Code, Len, Partial, Path, Shr, ByteAt, At, Depth, Rest;
      while codelen > 8
        invariant Adding(t, id) && 0 < codelen && codelen == Len(t) - 8 * k && code == Code(t)
        invariant 0 <= id < |old(pool)| <= |pool| && pool[id].codelen == old(pool)[id].codelen
        invariant At(pool, at, t, k, curr)
        decreases codelen
      {
        codelen := codelen - 8;
        NextByte(t, k, codelen);
        var i: Byte := Shr(code, codelen) % 256;
        curr := Step(t, id, k, i, curr);
        k := k + 1;
      }
      Arrived(pool, at, t, k, codelen, curr);
    }

    /** One byte down, through an inner node that is there or through a new one. */
    method Step(t: Byte, id: int, ghost k: nat, i: Byte, curr: int) returns (next: int)
      requires Adding(t, id) && At(pool, at, t, k, curr) && 8 * (k + 1) < Len(t) && i == ByteAt(t, k)
      modifies `size, `root, `pool, `at
      ensures Adding(t, id) && 0 <= id < |pool| && |pool| >= |old(pool)| && pool[id].codelen == old(pool)[id].codelen
      ensures At(pool, at, t, k + 1, next)
    {
      hide Partial, Path, Len, ByteAt, RootWith, KidsOf, Depth;
      StepFacts(root, pool, at, filed, t, id, k, curr);
      next := KidsOf(root, pool, curr)[i];
      if next < 0 {
        ghost var p := Path(t, k);
        StepNew(root, pool, at, filed, t, id, k, Node(0, -1, NO_KIDS));
        var moved: bool;
        next, moved := Alloc();
        assert !moved;
        SetChild(curr, i, next);
        at := at[p + [i] := next];
      } else {
        StepOld(root, pool, at, filed, t, id, k);
      }
    }

    /** Links the leaf under every byte that completes the code. */
    method Fill(t: Byte, id: int, curr: int, codelen: nat)
      requires Adding(t, id) && Len(t) > 0
      requires Path(t, Depth(t)) in at && curr == at[Path(t, Depth(t))] && codelen == |Rest(t)|
      modifies `root, `pool, `filed
      ensures Valid() && filed == old(filed) + {t} && |pool| == |old(pool)|
    {
      hide Partial, Path, Len, Depth, Rest, Shl, Pow2, Code, RootWith, PoolWith, KidsOf, TrieOk, Filling;
      StartFill(root, pool, at, filed, t, id);
      pool := pool[id := pool[id].(codelen := codelen)];
      var shift := 8 - codelen;
      var start: nat := Shl(Code(t), shift) % 256;
      var end := Pow2(shift);
      var i := start;
      while i < start + end
        invariant start <= i <= start + end <= 256 && filed == old(filed) && |pool| == |old(pool)| && -1 <= curr < |pool|
        invariant Filling(root, pool, at, filed, t, id, start, i, start + end) && size == POOL_SIZE
      {
        FillStep(root, pool, at, filed, t, id, start, i, start + end);
        SetChild(curr, i, id);
        i := i + 1;
      }
      EndFill(root, pool, at, filed, t, id, start, start + end);
      filed := filed + {t};
    }

    /** Files one symbol of the code table. */
    method AddNode(t: Byte)
      requires Valid() && t !in filed
      modifies this
      ensures Valid() && filed == old(filed) + {t}
    {
      hide TrieOk, Len, Path, Partial, Rest, Depth;
      var id := TakeLeaf(t, Len(t));
      var curr, codelen := Descend(t, id);
      Fill(t, id, curr, codelen);
    }
  }


  lemma TakeNew(root: Node, pool: seq<Node>, at: Places, filed: set<Byte>, t: Byte, codelen: nat)
    requires TrieOk(root, pool, at, filed, filed, filed) && |pool| == |filed| + |at| - 1 && t !in filed
    ensures |pool| < POOL_SIZE && Partial(root, pool + [Node(t, codelen, NO_KIDS)], at, filed, t, |pool|)
  {
    var n := Node(t, codelen, NO_KIDS);
    InnerSpace(root, pool, at, filed, filed);
    BytesLeft(filed, t);
    hide TrieOk, Unlinked;
    MoreNeeded(root, pool, at, filed, filed, filed, t);
    AppendLeaf(root, pool, at, filed, filed, filed + {t}, n);
    FreshIsUnlinked(root, pool, at, filed, filed, n);
  }

  /** A symbol is being added; its leaf is taken but not linked. */
  ghost predicate Partial(root: Node, pool: seq<Node>, at: Places, filed: set<Byte>, t: Byte, id: int) {
    && t !in filed && TrieOk(root, pool, at, filed, filed, filed + {t}) && |pool| == |filed| + |at|
    && 0 <= id < |pool| && pool[id].sym == t && Unlinked(root, pool, at, id)
  }

  ghost predicate At(pool: seq<Node>, at: Places, t: Byte, k: nat, curr: int) {
    8 * k < Len(t) && Path(t, k) in at && curr == at[Path(t, k)] && -1 <= curr < |pool|
  }

  /** The last node of the code is reached; the children from `from` to `i` lead to the leaf. */
  ghost predicate Filling(root: Node, pool: seq<Node>, at: Places, filed: set<Byte>, t: Byte, id: int, from: nat, i: nat, to: nat) {
    && t !in filed && TrieOk(root, pool, at, filed, filed + {t}, filed + {t}) && |pool| == |filed| + |at|
    && 0 <= id < |pool| && Len(t) > 0 && pool[id].sym == t && pool[id].codelen == |Rest(t)|
    && Path(t, Depth(t)) in at && at[Path(t, Depth(t))] < |pool|
    && (forall j: Byte :: from <= j < to <==> Rest(t) <= Bits(j, 8))
    && (forall j: Byte :: from <= j < i ==> KidsOf(root, pool, at[Path(t, Depth(t))])[j] == id)
    && (forall j: Byte :: i <= j < to ==> KidsOf(root, pool, at[Path(t, Depth(t))])[j] < 0)
  }

  lemma RestBits(t: Byte)
    requires Len(t) > 0
    ensures 1 <= |Rest(t)| <= 8 && Rest(t) == Bits(Code(t), |Rest(t)|)
  {
    hide Code, Len, Bits, Shr;
    BitsSplit(Code(t), 8 * Depth(t), |Rest(t)|);
  }

  lemma StartFill(root: Node, pool: seq<Node>, at: Places, filed: set<Byte>, t: Byte, id: int)
    requires Partial(root, pool, at, filed, t, id) && Len(t) > 0 && Path(t, Depth(t)) in at
    ensures 0 <= id < |pool| && 1 <= |Rest(t)| <= 8 && -1 <= at[Path(t, Depth(t))] < |pool|
    ensures var start := Shl(Code(t), 8 - |Rest(t)|) % 256;
            && start + Pow2(8 - |Rest(t)|) <= 256
            && Filling(root, pool[id := pool[id].(codelen := |Rest(t)|)], at, filed, t, id, start, start, start + Pow2(8 - |Rest(t)|))
  {
    hide Linked, AllFiled, Needed, Path, Len, Code, Bits, Shl, Pow2, Rest, Depth, Placed, Rooted, Unlinked;
    RestBits(t);
    IdsInRange(root, pool, at, filed, filed + {t});
    var n := pool[id].(codelen := |Rest(t)|);
    Retag(root, pool, at, filed, filed + {t}, id, n);
    var pool' := pool[id := n];
    MoreNeeded(root, pool', at, filed, filed, filed + {t}, t);
    assert filed + {t} + {t} == filed + {t};
    var cl := |Rest(t)|;
    forall j: Byte ensures Shl(Code(t), 8 - cl) % 256 <= j < Shl(Code(t), 8 - cl) % 256 + Pow2(8 - cl) <==> Rest(t) <= Bits(j, 8) {
      EndBlock(Code(t), cl, j);
    }
    EndBlock(Code(t), cl, 0);
    forall j: Byte | Rest(t) <= Bits(j, 8) ensures KidsOf(root, pool', at[Path(t, Depth(t))])[j] < 0 {
      EndIsFree(root, pool', at, filed, filed, t, j);
    }
  }

  lemma FillStep(root: Node, pool: seq<Node>, at: Places, filed: set<Byte>, t: Byte, id: int, from: nat, i: nat, to: nat)
    requires Filling(root, pool, at, filed, t, id, from, i, to) && from <= i < to <= 256
    requires -1 <= at[Path(t, Depth(t))]
    ensures var e := at[Path(t, Depth(t))];
            Filling(RootWith(root, e, i, id), PoolWith(pool, e, i, id), at, filed, t, id, from, i + 1, to)
  {
    hide TrieOk, Path, Len, Bits, Rest, Depth, RootWith, PoolWith, KidsOf;
    FillOne(root, pool, at, filed, t, i, id);
    var e := at[Path(t, Depth(t))];
    var root', pool' := RootWith(root, e, i, id), PoolWith(pool, e, i, id);
    forall j: Byte ensures KidsOf(root', pool', e)[j] == if j == i then id else KidsOf(root, pool, e)[j] {
      KidChanged(root, pool, e, i, id, e, j);
    }
  }

  lemma EndFill(root: Node, pool: seq<Node>, at: Places, filed: set<Byte>, t: Byte, id: int, from: nat, to: nat)
    requires Filling(root, pool, at, filed, t, id, from, to, to)
    ensures TrieOk(root, pool, at, filed + {t}, filed + {t}, filed + {t}) && |pool| == |filed + {t}| + |at| - 1
  {
    hide Linked, Needed, Path, Len, Bits, Rest, Depth, KidsOf, Rooted, Placed;
    assert Filed(root, pool, at, t);
  }

  lemma StartAt(root: Node, pool: seq<Node>, at: Places, filed: set<Byte>, t: Byte, id: int)
    requires Partial(root, pool, at, filed, t, id) && Len(t) > 0
    ensures At(pool, at, t, 0, -1) && 0 <= id < |pool|
  {
  }

  lemma Arrived(pool: seq<Node>, at: Places, t: Byte, k: nat, codelen: nat, curr: int)
    requires At(pool, at, t, k, curr) && codelen == Len(t) - 8 * k && 0 < codelen <= 8
    ensures codelen == |Rest(t)| && Path(t, Depth(t)) in at && curr == at[Path(t, Depth(t))]
  {
    hide Len, CodeBits;
    assert k == Depth(t);
  }

  lemma StepFacts(root: Node, pool: seq<Node>, at: Places, filed: set<Byte>, t: Byte, id: int, k: nat, curr: int)
    requires Partial(root, pool, at, filed, t, id) && At(pool, at, t, k, curr)
    ensures 0 <= id < |pool| && -1 <= curr < |pool| && |pool| == |filed| + |at|
  {
  }

  lemma StepOld(root: Node, pool: seq<Node>, at: Places, filed: set<Byte>, t: Byte, id: int, k: nat)
    requires Partial(root, pool, at, filed, t, id) && 8 * (k + 1) < Len(t) && Path(t, k) in at && at[Path(t, k)] < |pool|
    requires KidsOf(root, pool, at[Path(t, k)])[ByteAt(t, k)] >= 0
    ensures At(pool, at, t, k + 1, KidsOf(root, pool, at[Path(t, k)])[ByteAt(t, k)])
  {
    hide Len, Path, ByteAt, Linked, AllFiled, Needed, Rooted;
    DescendsToInner(root, pool, at, filed, filed + {t}, t, k);
    assert Path(t, k + 1) != [];
  }

  lemma StepNew(root: Node, pool: seq<Node>, at: Places, filed: set<Byte>, t: Byte, id: int, k: nat, n: Node)
    requires Partial(root, pool, at, filed, t, id) && 8 * (k + 1) < Len(t) && Path(t, k) in at && -1 <= at[Path(t, k)] < |pool|
    requires KidsOf(root, pool, at[Path(t, k)])[ByteAt(t, k)] < 0 && n.codelen < 0 && n.children == NO_KIDS
    ensures |pool| < POOL_SIZE
    ensures var p, i, c := Path(t, k), ByteAt(t, k), |pool|;
            && Partial(RootWith(root, at[p], i, c), PoolWith(pool + [n], at[p], i, c), at[p + [i] := c], filed, t, id)
            && At(PoolWith(pool + [n], at[p], i, c), at[p + [i] := c], t, k + 1, c)
  {
    hide Len, Path, ByteAt, TrieOk, RootWith, PoolWith, Unlinked, KidsOf;
    var p, i, c := Path(t, k), ByteAt(t, k), |pool|;
    StepPath(t, k);
    NewInner(root, pool, at, filed, t, p, i, n);
    BytesLeft(filed, t);
    IdsInRange(root, pool, at, filed, filed + {t});
    StaysUnlinked(root, pool, at, id, p, i, n);
    PoolGrows(pool, n, at[p], i, c, id);
  }

  lemma StepPath(t: Byte, k: nat)
    requires 8 * (k + 1) < Len(t)
    ensures Path(t, k + 1) == Path(t, k) + [ByteAt(t, k)] && OnPath(Path(t, k) + [ByteAt(t, k)], t)
  {
    hide Len, CodeBits, ByteAt, Flat, Bits;
    PathBits(t, k + 1);
  }

  lemma PoolGrows(pool: seq<Node>, n: Node, e: int, i: Byte, c: int, id: nat)
    requires -1 <= e < |pool| && id < |pool|
    ensures var pool' := PoolWith(pool + [n], e, i, c); |pool'| == |pool| + 1 && pool'[id].sym == pool[id].sym
  {
  }

  lemma NewInner(root: Node, pool: seq<Node>, at: Places, filed: set<Byte>, t: Byte, p: seq<Byte>, i: Byte, n: Node)
    requires t !in filed && TrieOk(root, pool, at, filed, filed, filed + {t}) && p in at && -1 <= at[p] < |pool|
    requires OnPath(p + [i], t) && KidsOf(root, pool, at[p])[i] < 0 && n.codelen < 0 && n.children == NO_KIDS
    ensures var c, at' := |pool|, at[p + [i] := |pool|];
            && TrieOk(RootWith(root, at[p], i, c), PoolWith(pool + [n], at[p], i, c), at', filed, filed, filed + {t})
            && |at'| == |at| + 1 && |at'| <= 15
  {
    hide TrieOk, RootWith, PoolWith, KidsOf, OnPath;
    LinkInner(root, pool, at, filed, filed, filed + {t}, p, i, t, n);
    var at' := at[p + [i] := |pool|];
    assert at'.Keys == at.Keys + {p + [i]};
    InnerSpace(RootWith(root, at[p], i, |pool|), PoolWith(pool + [n], at[p], i, |pool|), at', filed, filed + {t});
  }

  lemma InnerSpace(root: Node, pool: seq<Node>, at: Places, filed: set<Byte>, needed: set<Byte>)
    requires TrieOk(root, pool, at, filed, filed, needed)
    ensures |at| <= 15
  {
    InnerCount(pool, at, needed);
  }

  lemma IdsInRange(root: Node, pool: seq<Node>, at: Places, filed: set<Byte>, needed: set<Byte>)
    requires TrieOk(root, pool, at, filed, filed, needed)
    ensures forall q :: q in at ==> -1 <= at[q] < |pool|
  {
  }

  lemma {:induction false} BoundedSet(s: set<Byte>, n: nat)
    requires forall x :: x in s ==> x < n
    ensures |s| <= n
  {
    if n == 0 {
      assert s == {};
    } else {
      BoundedSet(s - {n - 1}, n - 1);
    }
  }

  lemma BytesLeft(s: set<Byte>, t: Byte)
    requires t !in s
    ensures |s| <= 255
  {
    BoundedSet(s + {t}, 256);
  }

  lemma NextByte(t: Byte, k: nat, codelen: nat)
    requires codelen > 0 && codelen == Len(t) - 8 * (k + 1)
    ensures Shr(Code(t), codelen) % 256 == ByteAt(t, k) && 8 * (k + 1) < Len(t)
  {
  }

  /** Every symbol of the table is filed, in table order, without the pool ever moving. */
  method CreateTree() returns (tree: Tree)
    ensures fresh(tree) && tree.Valid() && (forall b: Byte :: b in tree.filed)
    ensures tree.size == POOL_SIZE && |tree.pool| <= POOL_SIZE
  {
    tree := new Tree();
    var i := 0;
    hide TrieOk, Len;
    while i < 256
      invariant 0 <= i <= 256 && tree.Valid() && fresh(tree) && (forall b: Byte :: b in tree.filed <==> b < i)
    {
      tree.AddNode(i);
      i := i + 1;
    }
    InnerSpace(tree.root, tree.pool, tree.at, tree.filed, tree.filed);
    BoundedSet(tree.filed, 256);
  }
}
