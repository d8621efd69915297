module PbChains {
  /** Slot links of a chained-scatter table. `main[i]` is the main position of the key in
      slot i, or -1; `next` holds the relative links; `chains[p]` lists the slots of the
      keys with main position p in link order and `rank[i]` is the place of i in its chain. */
  datatype Links = Links(main: seq<int>, next: seq<int>, chains: seq<seq<int>>, rank: seq<int>)

  ghost predicate Shaped(k: Links) {
    |k.main| == |k.next| == |k.chains| == |k.rank|
  }

  /** The j-th slot of chain p. */
  ghost predicate ChainAt(k: Links, p: int, j: int)
    requires Shaped(k) && 0 <= p < |k.main| && 0 <= j < |k.chains[p]|
  {
    var c := k.chains[p][j];
    && 0 <= c < |k.main|
    && k.main[c] == p && k.rank[c] == j && (j == 0 ==> c == p)
    && k.next[c] == (if j + 1 < |k.chains[p]| then k.chains[p][j + 1] - c else 0)
  }

  /** A free slot has no link; a taken one is on the chain of its main position. */
  ghost predicate SlotAt(k: Links, i: int)
    requires Shaped(k) && 0 <= i < |k.main|
  {
    var p := k.main[i];
    if p < 0 then k.next[i] == 0
    else p < |k.main| && 0 <= k.rank[i] < |k.chains[p]| && k.chains[p][k.rank[i]] == i
  }

  ghost predicate Chained(k: Links) {
    && Shaped(k)
    && (forall p, j {:trigger k.chains[p][j]} :: 0 <= p < |k.main| && 0 <= j < |k.chains[p]| ==> ChainAt(k, p, j))
    && (forall i :: 0 <= i < |k.main| ==> SlotAt(k, i))
  }

  lemma ChainHead(k: Links, p: int)
    requires Chained(k) && 0 <= p < |k.main|
    ensures k.chains[p] != [] <==> k.main[p] == p
    ensures k.main[p] == p ==> k.rank[p] == 0
  {
    if k.chains[p] != [] { assert ChainAt(k, p, 0); }
    if k.main[p] == p { assert SlotAt(k, p); assert k.chains[p][0] == p; }
  }

  function PutFirst(k: Links, mp: int): (r: Links)
    requires Shaped(k) && 0 <= mp < |k.main|
    ensures Shaped(r) && |r.main| == |k.main|
  {
    Links(k.main[mp := mp], k.next, k.chains[mp := [mp]], k.rank[mp := 0])
  }

  lemma PutFirstChained(k: Links, mp: int)
    requires Chained(k) && 0 <= mp < |k.main| && k.main[mp] < 0
    ensures Chained(PutFirst(k, mp))
  {
    var k' := PutFirst(k, mp);
    ChainHead(k, mp);
    assert SlotAt(k, mp);
    forall p, j | 0 <= p < |k'.main| && 0 <= j < |k'.chains[p]| ensures ChainAt(k', p, j) {
      if p != mp { assert k.chains[p][j] == k'.chains[p][j]; assert ChainAt(k, p, j); }
    }
    forall i | 0 <= i < |k'.main| ensures SlotAt(k', i) {
      assert SlotAt(k, i);
    }
  }

  function PutSecond(k: Links, mp: int, f: int): (r: Links)
    requires Shaped(k) && 0 <= mp < |k.main| && 0 <= f < |k.main| && |k.chains[mp]| > 0
    ensures Shaped(r) && |r.main| == |k.main|
  {
    Links(k.main[f := mp],
          k.next[mp := f - mp][f := if k.next[mp] != 0 then (mp - f) + k.next[mp] else 0],
          k.chains[mp := [mp, f] + k.chains[mp][1..]],
          seq(|k.rank|, i requires 0 <= i < |k.rank| && |k.rank| == |k.main| =>
            if i == f then 1 else if k.main[i] == mp && i != mp then k.rank[i] + 1 else k.rank[i]))
  }

  lemma PutSecondChained(k: Links, mp: int, f: int)
    requires Chained(k) && 0 <= mp < |k.main| && 0 <= f < |k.main| && k.main[mp] == mp && k.main[f] < 0
    ensures |k.chains[mp]| > 0 && Chained(PutSecond(k, mp, f))
  {
    ChainHead(k, mp);
    var k' := PutSecond(k, mp, f);
    assert SlotAt(k, f);
    assert ChainAt(k, mp, 0) && (|k.chains[mp]| > 1 ==> ChainAt(k, mp, 1));
    forall p, j | 0 <= p < |k'.main| && 0 <= j < |k'.chains[p]| ensures ChainAt(k', p, j) {
      if p != mp { assert ChainAt(k, p, j); } else if j >= 2 { assert ChainAt(k, p, j - 1); }
      PutSecondChain(k, mp, f, p, j);
    }
    forall i | 0 <= i < |k'.main| ensures SlotAt(k', i) {
      assert SlotAt(k, i);
      PutSecondSlot(k, mp, f, i);
    }
  }

  lemma PutSecondSlot(k: Links, mp: int, f: int, i: int)
    requires Shaped(k) && 0 <= mp < |k.main| && 0 <= f < |k.main| && k.main[mp] == mp && k.main[f] < 0
    requires |k.chains[mp]| > 0 && ChainAt(k, mp, 0) && 0 <= i < |k.main| && SlotAt(k, i)
    ensures SlotAt(PutSecond(k, mp, f), i)
  {
    if k.main[i] == mp && i != mp {
      assert PutSecond(k, mp, f).chains[mp][k.rank[i] + 1] == k.chains[mp][k.rank[i]];
    }
  }

  lemma PutSecondChain(k: Links, mp: int, f: int, p: int, j: int)
    requires Shaped(k) && 0 <= mp < |k.main| && 0 <= f < |k.main| && k.main[mp] == mp && k.main[f] < 0
    requires |k.chains[mp]| > 0 && ChainAt(k, mp, 0) && 0 <= p < |k.main|
    requires 0 <= j < |PutSecond(k, mp, f).chains[p]|
    requires p != mp ==> ChainAt(k, p, j)
    requires p == mp && j >= 2 ==> ChainAt(k, p, j - 1)
    requires |k.chains[mp]| > 1 ==> ChainAt(k, mp, 1)
    ensures ChainAt(PutSecond(k, mp, f), p, j)
  {
  }

  function Displace(k: Links, mp: int, f: int, on: int): (r: Links)
    requires Shaped(k) && 0 <= mp < |k.main| && 0 <= f < |k.main| && 0 <= on < |k.main|
    requires 0 <= k.main[mp] < |k.main| && 0 <= k.rank[mp] < |k.chains[k.main[mp]]|
    ensures Shaped(r) && |r.main| == |k.main|
  {
    var q, r := k.main[mp], k.rank[mp];
    Links(k.main[f := q][mp := mp],
          k.next[on := f - on][f := if k.next[mp] != 0 then k.next[mp] + (mp - f) else 0][mp := 0],
          k.chains[q := k.chains[q][r := f]][mp := [mp]],
          k.rank[f := r][mp := 0])
  }

  lemma DisplaceChained(k: Links, mp: int, f: int, on: int)
    requires Chained(k) && 0 <= mp < |k.main| && 0 <= f < |k.main| && k.main[f] < 0
    requires k.main[mp] >= 0 && k.main[mp] != mp
    requires k.main[mp] < |k.main| && 0 < k.rank[mp] <= |k.chains[k.main[mp]]|
    requires on == k.chains[k.main[mp]][k.rank[mp] - 1]
    ensures 0 <= on < |k.main| && k.rank[mp] < |k.chains[k.main[mp]]| && Chained(Displace(k, mp, f, on))
  {
    var q, r := k.main[mp], k.rank[mp];
    assert SlotAt(k, mp);
    assert ChainAt(k, q, r - 1);
    ChainHead(k, mp);
    assert ChainAt(k, q, r);
    var k' := Displace(k, mp, f, on);
    forall p, j | 0 <= p < |k'.main| && 0 <= j < |k'.chains[p]| ensures ChainAt(k', p, j) {
      DisplaceLength(k, mp, f, on, p);
      if p != mp {
        assert ChainAt(k, p, j);
        if j + 1 < |k.chains[p]| { assert ChainAt(k, p, j + 1); }
      }
      hide ChainAt, SlotAt, Displace;
      DisplaceChain(k, mp, f, on, p, j);
    }
    forall i | 0 <= i < |k'.main| ensures SlotAt(k', i) {
      assert SlotAt(k, i);
      hide ChainAt, SlotAt, Displace;
      DisplaceSlot(k, mp, f, on, i);
    }
  }

  lemma DisplaceLength(k: Links, mp: int, f: int, on: int, p: int)
    requires Shaped(k) && 0 <= mp < |k.main| && 0 <= f < |k.main| && 0 <= on < |k.main| && 0 <= p < |k.main|
    requires 0 <= k.main[mp] < |k.main| && 0 <= k.rank[mp] < |k.chains[k.main[mp]]|
    ensures p != mp ==> |Displace(k, mp, f, on).chains[p]| == |k.chains[p]|
  {
  }

  lemma DisplaceSlot(k: Links, mp: int, f: int, on: int, i: int)
    requires Shaped(k) && 0 <= mp < |k.main| && 0 <= f < |k.main| && k.main[f] < 0 && 0 <= on < |k.main|
    requires 0 <= k.main[mp] < |k.main| && k.main[mp] != mp && k.chains[mp] == []
    requires 0 < k.rank[mp] < |k.chains[k.main[mp]]| && ChainAt(k, k.main[mp], k.rank[mp] - 1) && SlotAt(k, mp)
    requires on == k.chains[k.main[mp]][k.rank[mp] - 1]
    requires 0 <= i < |k.main| && SlotAt(k, i)
    ensures SlotAt(Displace(k, mp, f, on), i)
  {
  }

  lemma DisplaceChain(k: Links, mp: int, f: int, on: int, p: int, j: int)
    requires Shaped(k) && 0 <= mp < |k.main| && 0 <= f < |k.main| && k.main[f] < 0
    requires 0 <= k.main[mp] < |k.main| && k.main[mp] != mp && k.chains[mp] == []
    requires 0 < k.rank[mp] < |k.chains[k.main[mp]]|
    requires ChainAt(k, k.main[mp], k.rank[mp] - 1) && ChainAt(k, k.main[mp], k.rank[mp]) && SlotAt(k, mp)
    requires on == k.chains[k.main[mp]][k.rank[mp] - 1] && 0 <= on < |k.main|
    requires 0 <= p < |k.main| && 0 <= j < |Displace(k, mp, f, on).chains[p]|
    requires p != mp ==> j < |k.chains[p]| && ChainAt(k, p, j) && (j + 1 < |k.chains[p]| ==> ChainAt(k, p, j + 1))
    ensures ChainAt(Displace(k, mp, f, on), p, j)
  {
  }

  /** From the r-th slot of a chain the link leads to the next one, or ends the chain. */
  lemma ChainStep(k: Links, p: int, r: int)
    requires Chained(k) && 0 <= p < |k.main| && 0 <= r < |k.chains[p]|
    ensures ChainAt(k, p, r) && (r + 1 < |k.chains[p]| ==> ChainAt(k, p, r + 1))
    ensures k.next[k.chains[p][r]] == 0 <==> r + 1 == |k.chains[p]|
  {
    assert k.chains[p][r] == k.chains[p][r];
    if r + 1 < |k.chains[p]| { assert k.chains[p][r + 1] == k.chains[p][r + 1]; }
  }
}

/** The hash table of the protobuf core: an open table of entries chained by relative
    links, with every free slot claimed by a scan that only moves down and a misplaced
    occupant moved out of the way of a new key. It is proved to refine a map. */
module PbTable {
  import opened PbChains

  type Key = k: int | -0x8000_0000_0000_0000 <= k < 0x8000_0000_0000_0000

  /** `next` is relative to the entry that holds it; 0 ends a chain. Key 0 marks a free entry. */
  datatype Entry = Entry(next: int, key: Key, value: int)

  const FREE: Entry := Entry(0, 0, 0)

  const MIN_SIZE: nat := 8
  const MAX_BYTES: nat := 0xFFFF_FF9B // PB_MAX_HASHSIZE

  /** The main position of a key. The size is a power of two, so masking the 64-bit
      product is taking it modulo the size. Slot 0 belongs to key 0 alone. */
  function Hash(size: nat, key: Key): (h: nat)
    requires size >= 2
    ensures h < size && (key != 0 ==> h > 0)
  {
    var h := (key * 2654435761) % size;
    if key != 0 && h == 0 then 1 else h
  }

  /** A table size: a power of two from the smallest size on. */
  ghost predicate Doubled(n: nat) { n == MIN_SIZE || (n > MIN_SIZE && n % 2 == 0 && Doubled(n / 2)) }

  /** `slotOf` finds every key; no key is stored twice. */
  ghost predicate Indexed(hash: seq<Entry>, slotOf: map<Key, nat>) {
    && (forall k :: k in slotOf ==> k != 0 && slotOf[k] < |hash| && hash[slotOf[k]].key == k)
    && (forall i :: 0 <= i < |hash| && hash[i].key != 0 ==> hash[i].key in slotOf && slotOf[hash[i].key] == i)
  }

  /** The slots the scan has passed are all taken. */
  ghost predicate Scanned(hash: seq<Entry>, lastfree: nat) {
    1 <= lastfree <= |hash| && forall i :: lastfree <= i < |hash| ==> hash[i].key != 0
  }

  /** A full table holds one key per slot, slot 0 apart. */
  lemma {:induction false} FullCount(hash: seq<Entry>, slotOf: map<Key, nat>, n: nat)
    requires 1 <= n <= |hash| && Indexed(hash, slotOf)
    requires forall i :: 1 <= i < n ==> hash[i].key != 0
    ensures |slotOf| >= n - 1
  {
    var ks := FirstKeys(hash, slotOf, n);
    SubsetCount(ks, slotOf.Keys);
  }

  lemma {:induction false} FirstKeys(hash: seq<Entry>, slotOf: map<Key, nat>, n: nat) returns (ks: set<Key>)
    requires 1 <= n <= |hash| && Indexed(hash, slotOf)
    requires forall i :: 1 <= i < n ==> hash[i].key != 0
    ensures |ks| == n - 1 && ks <= slotOf.Keys && forall k :: k in ks ==> slotOf[k] < n
  {
    if n == 1 {
      ks := {};
    } else {
      ks := FirstKeys(hash, slotOf, n - 1);
      ks := ks + {hash[n - 1].key};
    }
  }

  lemma {:induction false} SubsetCount(a: set<Key>, b: set<Key>)
    requires a <= b
    ensures |a| <= |b|
  {
    if a != {} {
      var x :| x in a;
      SubsetCount(a - {x}, b - {x});
    }
  }

  /** The links are those of the entries, and main positions are hash positions. */
  ghost predicate Hashed(hash: seq<Entry>, k: Links) {
    && |hash| == |k.main| >= 2 && Chained(k)
    && hash[0].key == 0
    && (forall i :: 0 <= i < |hash| ==> HashedAt(hash, k, i))
  }

  ghost predicate HashedAt(hash: seq<Entry>, k: Links, i: int)
    requires |hash| == |k.main| >= 2 && Shaped(k) && 0 <= i < |hash|
  {
    k.main[i] == (if hash[i].key == 0 then -1 else Hash(|hash|, hash[i].key)) && k.next[i] == hash[i].next
  }

  // ------------------------------------------------------------------- the table

  class Table {
    const entrySize: nat
    var hash: seq<Entry>
    var lastfree: nat // in entries
    var hasZero: bool
    ghost var links: Links
    ghost var slotOf: map<Key, nat>

    ghost predicate Valid()
      reads this
    {
      if |hash| == 0 then slotOf == map[] && lastfree == 0 && !hasZero
      else Hashed(hash, links) && Indexed(hash, slotOf) && Scanned(hash, lastfree) && Doubled(|hash|)
    }

    /** The map the table stands for, over the nonzero keys. */
    ghost function View(): map<Key, int>
      reads this
    {
      Values(hash, slotOf)
    }

    constructor (entrySize: nat)
      requires entrySize > 0
      ensures Valid() && View() == map[] && !hasZero && this.entrySize == entrySize && hash == []
    {
      this.entrySize := entrySize;
      hash, lastfree, hasZero := [], 0, false;
      slotOf := map[];
    }

    constructor Sized(entrySize: nat, size: nat, hasZero: bool)
      requires size >= 2 && Doubled(size)
      ensures Valid() && View() == map[] && slotOf == map[] && this.hasZero == hasZero && this.entrySize == entrySize
      ensures |hash| == size && hash[0].value == 0
    {
      this.entrySize := entrySize;
      hash, lastfree, this.hasZero := seq(size, _ => FREE), size, hasZero;
      links := Links(seq(size, _ => -1), seq(size, _ => 0), seq(size, _ => []), seq(size, _ => 0));
      slotOf := map[];
    }

    /** Finds the slot of a key, or -1. Key 0 lives in slot 0. */
    method Get(key: Key) returns (slot: int)
      requires Valid()
      ensures slot >= -1 && (key != 0 ==> (slot >= 0 <==> key in slotOf))
      ensures key != 0 && slot >= 0 ==> slot == slotOf[key]
      ensures key == 0 ==> slot == (if hasZero && hash != [] then 0 else -1)
    {
      if |hash| == 0 { return -1; }
      if key == 0 { return if hasZero then 0 else -1; }
      slot := Walk(Hash(|hash|, key), key);
    }

    /** Follows the links from an entry until the key is met or the chain ends. */
    method Walk(start: nat, key: Key) returns (slot: int)
      requires Hashed(hash, links) && Indexed(hash, slotOf) && key != 0 && start == Hash(|hash|, key)
      ensures slot >= -1 && (slot >= 0 <==> key in slotOf)
      ensures slot >= 0 ==> slot == slotOf[key]
    {
      var entry: int := start;
      WalkStart(hash, links, slotOf, key);
      hide *;
      while hash[entry].key != key
        invariant 0 <= entry < |hash| && OnWay(hash, links, slotOf, key, entry)
        decreases ToGo(links, entry)
      {
        WalkStep(hash, links, slotOf, key, entry);
        if hash[entry].next == 0 { return -1; }
        entry := entry + hash[entry].next;
      }
      slot := entry;
      FoundAt(hash, slotOf, slot);
    }

    /** Scans down for a free slot; every slot it passes is taken. */
    method FindFree() returns (f: int)
      requires Valid() && |hash| > 0
      modifies `lastfree
      ensures 1 <= lastfree && Valid()
      ensures f >= 0 ==> 0 < f < |hash| && hash[f].key == 0 && Scanned(hash, f + 1) && lastfree == f + 1
      ensures f < 0 ==> lastfree == 1 && |slotOf| >= |hash| - 1
    {
      var last := lastfree;
      while last > 1
        invariant 1 <= last <= |hash| && Scanned(hash, last)
      {
        HashedStep(hash, links, last - 1);
        if hash[last - 1].key == 0 && hash[last - 1].next == 0 {
          lastfree := last;
          return last - 1;
        }
        last := last - 1;
      }
      lastfree := last;
      FullCount(hash, slotOf, |hash|);
      f := -1;
    }

    /** Walks the chain of the occupant of `mp` to the slot that links to it. */
    method Predecessor(mp: nat) returns (on: nat)
      requires Hashed(hash, links) && mp < |hash| && hash[mp].key != 0 && Hash(|hash|, hash[mp].key) != mp
      ensures IsPredecessor(links, mp, on)
    {
      on := Hash(|hash|, hash[mp].key);
      BeforeStart(hash, links, mp);
      ghost var r := links.rank[mp];
      ghost var j := 0;
      hide *;
      while on + hash[on].next != mp
        invariant 0 <= j < r && Before(hash, links, mp, on, j)
        decreases r - j
      {
        BeforeStep(hash, links, mp, on, j);
        j := j + 1;
        on := on + hash[on].next;
      }
      BeforeStep(hash, links, mp, on, j);
    }

    /** Adds an absent nonzero key with a zeroed value. Reports -1 only when the table is full. */
    method TryNewKey(key: Key) returns (slot: int)
      requires Valid() && |hash| > 0 && key != 0 && key !in slotOf
      modifies `hash, `lastfree, `links, `slotOf
      ensures Valid() && |hash| == old(|hash|) && hash[0] == old(hash[0])
      ensures slot < 0 ==> View() == old(View()) && slotOf == old(slotOf) && hash == old(hash)
      ensures slot < 0 ==> |slotOf| >= |hash| - 1 && Scanned(hash, 1)
      ensures slot >= 0 ==> View() == old(View())[key := 0] && key in slotOf && slotOf[key] == slot
      ensures slot >= 0 ==> |slotOf| == old(|slotOf|) + 1
    {
      hide Hash, Hashed, Indexed, Scanned, Values;
      SlotZero(hash, links);
      var mp := Hash(|hash|, key);
      if hash[mp].key == 0 {
        TakeMain(key, mp);
        return mp;
      }
      var f := FindFree();
      if f < 0 { return -1; }
      lastfree := f;
      if Hash(|hash|, hash[mp].key) != mp {
        var on := Predecessor(mp);
        Relocate(key, mp, f, on);
        slot := mp;
      } else {
        Append(key, mp, f);
        slot := f;
      }
    }

    /** Gives the key its free main position. */
    method TakeMain(key: Key, mp: nat)
      requires |hash| >= 2 && Hashed(hash, links) && Indexed(hash, slotOf) && Scanned(hash, lastfree) && key != 0 && key !in slotOf
      requires mp == Hash(|hash|, key) && hash[mp].key == 0
      modifies `hash, `links, `slotOf
      ensures Inserted(old(hash), old(slotOf), lastfree, key, mp, hash, links, slotOf)
    {
      InsertMain(hash, links, slotOf, lastfree, key);
      SameShape(hash, links);
      hide Hash, Hashed, Indexed, Scanned, Values, PutFirst, Inserted;
      hash := hash[mp := hash[mp].(key := key, value := 0)];
      links, slotOf := PutFirst(links, mp), slotOf[key := mp];
    }

    /** Moves the occupant of `mp` to the free slot `f` and gives `mp` to the key. */
    method Relocate(key: Key, mp: nat, f: nat, on: nat)
      requires |hash| >= 2 && Hashed(hash, links) && Indexed(hash, slotOf) && key != 0 && key !in slotOf
      requires 0 < f < |hash| && hash[f].key == 0 && Scanned(hash, f + 1)
      requires mp == Hash(|hash|, key) && hash[mp].key != 0 && Hash(|hash|, hash[mp].key) != mp
      requires IsPredecessor(links, mp, on)
      modifies `hash, `links, `slotOf
      ensures Inserted(old(hash), old(slotOf), f, key, mp, hash, links, slotOf)
    {
      hide Hash, Hashed, Indexed, Scanned, Values, Displace;
      InsertDisplacing(hash, links, slotOf, key, f, on);
      ghost var guest := hash[mp].key;
      var moved := hash[mp];
      hash := hash[on := hash[on].(next := f - on)];
      if moved.next != 0 { moved := moved.(next := moved.next + (mp - f)); }
      hash := hash[f := moved];
      hash := hash[mp := Entry(0, key, 0)];
      links, slotOf := Displace(links, mp, f, on), slotOf[guest := f][key := mp];
    }

    /** Puts the key in the free slot `f`, second on the chain that starts at `mp`. */
    method Append(key: Key, mp: nat, f: nat)
      requires |hash| >= 2 && Hashed(hash, links) && Indexed(hash, slotOf) && key != 0 && key !in slotOf
      requires 0 < f < |hash| && hash[f].key == 0 && Scanned(hash, f + 1)
      requires mp == Hash(|hash|, key) && hash[mp].key != 0 && Hash(|hash|, hash[mp].key) == mp
      modifies `hash, `links, `slotOf
      ensures Inserted(old(hash), old(slotOf), f, key, f, hash, links, slotOf)
    {
      hide Hash, Hashed, Indexed, Scanned, Values, PutSecond;
      InsertSecond(hash, links, slotOf, key, f);
      var next := if hash[mp].next != 0 then (mp - f) + hash[mp].next else 0;
      hash := hash[mp := hash[mp].(next := f - mp)];
      hash := hash[f := Entry(next, key, 0)];
      links, slotOf := PutSecond(links, mp, f), slotOf[key := f];
    }

    /** Writes the payload of an entry. */
    method SetValue(slot: nat, v: int)
      requires Valid() && slot < |hash|
      modifies `hash
      ensures Valid() && hash == old(hash)[slot := old(hash)[slot].(value := v)]
      ensures View() == (if hash[slot].key != 0 then old(View())[hash[slot].key := v] else old(View()))
    {
      ValueChanged(hash, links, slotOf, lastfree, slot, v);
      hide Hashed, Indexed, Scanned, Values, Doubled;
      hash := hash[slot := hash[slot].(value := v)];
    }

    /** Key 0 is filed in slot 0, outside every chain. */
    method NewZeroKey() returns (slot: nat)
      requires Valid() && |hash| > 0
      modifies `hash, `hasZero
      ensures Valid() && View() == old(View()) && slot == 0 && hasZero
      ensures hash == old(hash)[0 := old(hash)[0].(value := 0)]
    {
      hasZero := true;
      SetValue(0, 0);
      slot := 0;
    }

    /** The table size the doubling loop settles on for a request, or 0 when it is out of reach. */
    method NewSize(size: nat) returns (newsize: nat)
      requires entrySize > 0
      ensures newsize > 0 ==> newsize >= size && Doubled(newsize) && newsize >= MIN_SIZE && (newsize == MIN_SIZE || newsize < 2 * size)
      ensures newsize == 0 ==> size > MAX_BYTES / entrySize
    {
      newsize := MIN_SIZE;
      while newsize < MAX_BYTES / entrySize && newsize < size
        invariant newsize >= MIN_SIZE && Doubled(newsize) && (newsize == MIN_SIZE || newsize < 2 * size)
        decreases size - newsize
      {
        newsize := newsize * 2;
      }
      if newsize < size { newsize := 0; }
    }

    /** Adds an entry of the old table to this, new, one. Room is certain while fewer keys
        than slots have come over, so this never has to grow the new table. */
    method Adopt(e: Entry)
      requires Valid() && |hash| > 0 && (e.key != 0 ==> e.key !in View() && |slotOf| < |hash| - 1)
      modifies this
      ensures Valid() && |hash| == old(|hash|)
      ensures View() == if e.key != 0 then old(View())[e.key := e.value] else old(View())
      ensures hasZero == (old(hasZero) || e.key == 0)
      ensures hash[0].value == if e.key == 0 then e.value else old(hash[0].value)
      ensures |slotOf| == old(|slotOf|) + if e.key == 0 then 0 else 1
    {
      ViewKeys(hash, slotOf);
      SlotZero(hash, links);
      hide Hashed, Indexed, Scanned, Values, Doubled;
      if e.key == 0 {
        var slot := NewZeroKey();
        SetValue(slot, e.value);
      } else {
        var slot := TryNewKey(e.key);
        KeyIsAt(hash, slotOf, e.key);
        SlotZero(hash, links);
        SetValue(slot, e.value);
      }
    }

    /** Moves every entry into a larger table. Every key keeps its value. Key 0 is always
        reported present afterwards, with the value of the last entry whose key is 0. */
    method Resize(size: nat, memory: bool) returns (newsize: nat)
      requires Valid() && entrySize > 0 && size >= |hash|
      modifies this
      ensures Valid() && View() == old(View())
      ensures newsize == 0 ==> hash == old(hash) && slotOf == old(slotOf) && hasZero == old(hasZero)
      ensures newsize == 0 ==> !memory || size > MAX_BYTES / entrySize
      ensures newsize > 0 ==> |hash| == newsize >= size && newsize >= MIN_SIZE && (newsize == MIN_SIZE || newsize < 2 * size)
      ensures newsize > 0 ==> hasZero == (old(hasZero) || old(|hash|) > 0)
      ensures newsize > 0 ==> hash[0].value == LastZero(old(hash), old(|hash|))
      ensures newsize > 0 ==> |slotOf| <= (if old(|hash|) == 0 then 0 else old(|hash|) - 1)
    {
      newsize := NewSize(size);
      if newsize == 0 || !memory { return 0; }
      var nt := Rehash(newsize);
      hide Hashed, Indexed, Scanned, Values, Doubled;
      hash, lastfree, hasZero := nt.hash, nt.lastfree, nt.hasZero;
      links, slotOf := nt.links, nt.slotOf;
    }

    lemma RehashFrom()
      requires Valid()
      ensures hash != [] ==> Indexed(hash, slotOf) && Hashed(hash, links)
      ensures Below(hash, slotOf, 0) == map[] && Below(hash, slotOf, |hash|) == View() && LastZero(hash, 0) == 0
    {
      NothingBelow(hash, slotOf);
      EverythingBelow(hash, slotOf);
    }

    /** A new table with every entry of this one. */
    method Rehash(newsize: nat) returns (nt: Table)
      requires Valid() && newsize >= |hash| && newsize >= 2 && Doubled(newsize)
      ensures fresh(nt) && nt.Valid() && |nt.hash| == newsize && nt.View() == View()
      ensures nt.hasZero == (hasZero || |hash| > 0) && nt.hash[0].value == LastZero(hash, |hash|)
      ensures |nt.slotOf| <= (if |hash| == 0 then 0 else |hash| - 1)
    {
      hide *;
      nt := new Table.Sized(entrySize, newsize, hasZero);
      ghost var slots, k := slotOf, links;
      var src := hash;
      RehashFrom();
      var i := 0;
      while i < |src|
        invariant 0 <= i <= |src| && fresh(nt) && nt.Valid() && |nt.hash| == newsize
        invariant nt.View() == Below(src, slots, i)
        invariant |nt.slotOf| <= (if i == 0 then 0 else i - 1)
        invariant nt.hasZero == (hasZero || i > 0) && nt.hash[0].value == LastZero(src, i)
      {
        BelowStep(src, slots, i);
        LastZeroStep(src, i);
        SlotZero(src, k);
        nt.Adopt(src[i]);
        i := i + 1;
      }
    }

    /** Adds an absent key, growing the table when no slot is free: -1 only when it cannot grow. */
    method NewKey(key: Key, memory: bool) returns (slot: int)
      requires Valid() && entrySize > 0 && key !in View()
      modifies this
      ensures Valid() && (slot < 0 ==> View() == old(View()) && hash == old(hash) && hasZero == old(hasZero))
      ensures slot >= 0 && key != 0 ==> View() == old(View())[key := 0] && key in slotOf && slotOf[key] == slot
      ensures slot >= 0 && key != 0 ==> hasZero == (old(hasZero) || (old(|hash|) != 0 && |hash| != old(|hash|)))
      ensures slot >= 0 && key != 0 && old(|hash|) != 0 ==> |hash| > 0 && hash[0].value == old(hash)[0].value
      ensures slot >= 0 && key == 0 ==> slot == 0 < |hash| && View() == old(View()) && hasZero && hash[0].value == 0
      ensures slot < 0 ==> !memory || 2 * old(|hash|) > MAX_BYTES / entrySize
    {
      hide Hashed, Indexed, Values;
      if |hash| == 0 {
        var grown := Resize(0, memory);
        if grown == 0 { return -1; }
      }
      if key == 0 {
        slot := NewZeroKey();
        return;
      }
      ViewKeys(hash, slotOf);
      slot := TryNewKey(key);
      if slot < 0 {
        SlotZero(hash, links);
        LastZeroOfFull(hash, |hash|);
        var grown := Resize(|hash| * 2, memory);
        if grown == 0 { return -1; }
        ViewKeys(hash, slotOf);
        slot := TryNewKey(key);
      }
    }

    /** The slot of a key, added with a zero value when absent. Every nonzero key keeps its
        value. The value filed under key 0 is kept too, but once the table has grown key 0
        is reported present whether it was ever set or not. */
    method Set(key: Key, memory: bool) returns (slot: int)
      requires Valid() && entrySize > 0
      modifies this
      ensures Valid() && (slot < 0 ==> View() == old(View()) && hash == old(hash) && hasZero == old(hasZero))
      ensures key != 0 && slot >= 0 ==> key in slotOf && slotOf[key] == slot && slot < |hash| && hash[slot].key == key
      ensures key != 0 && slot >= 0 ==> View() == (if key in old(View()) then old(View()) else old(View())[key := 0])
      ensures key != 0 && slot < 0 ==> key !in old(View())
      ensures slot < 0 ==> !memory || 2 * old(|hash|) > MAX_BYTES / entrySize
      ensures key != 0 && old(|hash|) != 0 ==> |hash| > 0 && hash[0].value == old(hash)[0].value
      ensures key != 0 ==> hasZero == (old(hasZero) || (old(|hash|) != 0 && |hash| != old(|hash|)))
      ensures key == 0 ==> View() == old(View())
      ensures key == 0 && slot >= 0 ==> slot == 0 < |hash| && hasZero
      ensures key == 0 && slot >= 0 ==> hash[0].value == if old(hasZero) then old(hash)[0].value else 0
    {
      ViewKeys(hash, slotOf);
      SlotsInRange(hash, slotOf);
      hide Hashed, Indexed, Scanned, Values, Doubled;
      slot := Get(key);
      if slot < 0 { slot := NewKey(key, memory); }
      if key != 0 && slot >= 0 { KeyIsAt(hash, slotOf, key); }
    }
  }

  /** The walk is still before the key's slot on the key's own chain, if the key is there at all. */
  ghost predicate OnWay(hash: seq<Entry>, k: Links, slotOf: map<Key, nat>, key: Key, entry: int)
    requires Hashed(hash, k) && Indexed(hash, slotOf) && 0 <= entry < |hash|
  {
    key in slotOf ==> k.main[entry] == k.main[slotOf[key]] >= 0 && k.rank[entry] <= k.rank[slotOf[key]]
  }

  ghost function ToGo(k: Links, entry: int): int
    requires Chained(k) && 0 <= entry < |k.main|
  {
    assert SlotAt(k, entry);
    if k.main[entry] < 0 then 0 else |k.chains[k.main[entry]]| - k.rank[entry]
  }

  lemma WalkStart(hash: seq<Entry>, k: Links, slotOf: map<Key, nat>, key: Key)
    requires Hashed(hash, k) && Indexed(hash, slotOf) && key != 0
    ensures OnWay(hash, k, slotOf, key, Hash(|hash|, key))
  {
    if key in slotOf {
      var start := Hash(|hash|, key);
      assert HashedAt(hash, k, slotOf[key]) && SlotAt(k, slotOf[key]);
      ChainHead(k, start);
    }
  }

  lemma WalkStep(hash: seq<Entry>, k: Links, slotOf: map<Key, nat>, key: Key, entry: int)
    requires Hashed(hash, k) && Indexed(hash, slotOf) && key != 0 && 0 <= entry < |hash|
    requires OnWay(hash, k, slotOf, key, entry) && hash[entry].key != key
    ensures hash[entry].next == 0 ==> key !in slotOf
    ensures hash[entry].next != 0 ==>
              var to := entry + hash[entry].next;
              0 <= to < |hash| && OnWay(hash, k, slotOf, key, to) && 0 <= ToGo(k, to) < ToGo(k, entry)
  {
    hide Hash, Hashed, Chained, Indexed, ToGo, SlotAt;
    HashedStep(hash, k, entry);
    NextOn(k, entry);
    KeyIsAt(hash, slotOf, key);
    if key in slotOf { NotYet(k, entry, slotOf[key]); }
  }

  lemma NextOn(k: Links, entry: int)
    requires Chained(k) && 0 <= entry < |k.main|
    ensures k.next[entry] != 0 ==>
              var to := entry + k.next[entry];
              && 0 <= to < |k.main| && k.main[to] == k.main[entry] && k.rank[to] == k.rank[entry] + 1
              && 0 <= ToGo(k, to) < ToGo(k, entry)
  {
    assert SlotAt(k, entry);
    if k.main[entry] >= 0 { ChainStep(k, k.main[entry], k.rank[entry]); }
    hide Chained;
  }

  /** A slot further on the same chain: the chain does not end before it. */
  lemma NotYet(k: Links, entry: int, target: int)
    requires Chained(k) && 0 <= entry < |k.main| && 0 <= target < |k.main| && entry != target
    requires k.main[entry] == k.main[target] >= 0 && k.rank[entry] <= k.rank[target]
    ensures k.next[entry] != 0 && k.rank[entry] < k.rank[target]
  {
    assert SlotAt(k, entry) && SlotAt(k, target);
    ChainStep(k, k.main[entry], k.rank[entry]);
    hide Chained;
  }

  lemma FoundAt(hash: seq<Entry>, slotOf: map<Key, nat>, i: nat)
    requires Indexed(hash, slotOf) && i < |hash| && hash[i].key != 0
    ensures hash[i].key in slotOf && slotOf[hash[i].key] == i
  {
  }

  lemma HashedStep(hash: seq<Entry>, k: Links, i: nat)
    requires Hashed(hash, k) && i < |hash|
    ensures HashedShape(hash, k) && HashedAt(hash, k, i) && SlotAt(k, i)
  {
  }

  lemma SameShape(hash: seq<Entry>, k: Links)
    requires Hashed(hash, k)
    ensures HashedShape(hash, k)
  {
  }

  ghost predicate HashedShape(hash: seq<Entry>, k: Links) {
    |hash| == |k.main| >= 2 && Chained(k) && Shaped(k) && hash[0].key == 0
  }

  ghost function Values(hash: seq<Entry>, slotOf: map<Key, nat>): map<Key, int> {
    map k | k in slotOf && slotOf[k] < |hash| :: hash[slotOf[k]].value
  }

  /** `on` is the j-th slot of the chain `mp` is on, ahead of `mp`. */
  ghost predicate Before(hash: seq<Entry>, k: Links, mp: nat, on: nat, j: nat) {
    && Hashed(hash, k) && HashedShape(hash, k) && mp < |hash| && on < |hash| && 0 <= k.main[mp] < |hash|
    && j < k.rank[mp] < |k.chains[k.main[mp]]| && on == k.chains[k.main[mp]][j]
  }

  /** The walk starts at the head of the chain. */
  lemma BeforeStart(hash: seq<Entry>, k: Links, mp: nat)
    requires Hashed(hash, k) && mp < |hash| && hash[mp].key != 0 && Hash(|hash|, hash[mp].key) != mp
    ensures HashedShape(hash, k) && Before(hash, k, mp, Hash(|hash|, hash[mp].key), 0) && k.rank[mp] > 0
  {
    hide Hash, Hashed, Chained;
    HashedStep(hash, k, mp);
    var q, r := k.main[mp], k.rank[mp];
    ChainStep(k, q, 0);
    ChainStep(k, q, r);
    HashedStep(hash, k, q);
  }

  lemma BeforeStep(hash: seq<Entry>, k: Links, mp: nat, on: nat, j: nat)
    requires Before(hash, k, mp, on, j)
    ensures var to := on + hash[on].next;
            if to == mp then IsPredecessor(k, mp, on) else to >= 0 && Before(hash, k, mp, to, j + 1)
  {
    hide Hash, Hashed, Chained;
    HashedStep(hash, k, on);
    var q := k.main[mp];
    HashedStep(hash, k, mp);
    ChainStep(k, q, j);
    ChainStep(k, q, k.rank[mp]);
  }

  ghost predicate IsPredecessor(k: Links, mp: nat, on: nat) {
    && Chained(k) && mp < |k.main| && 0 <= k.main[mp] < |k.main|
    && 0 < k.rank[mp] <= |k.chains[k.main[mp]]| && on == k.chains[k.main[mp]][k.rank[mp] - 1]
  }

  /** What an insertion of `key` at `slot` must leave behind. */
  ghost predicate Inserted(hash: seq<Entry>, slotOf: map<Key, nat>, lastfree: nat, key: Key, slot: nat,
                           hash': seq<Entry>, links': Links, slotOf': map<Key, nat>) {
    && |hash'| == |hash| > 0 && hash'[0] == hash[0]
    && Hashed(hash', links') && Indexed(hash', slotOf') && Scanned(hash', lastfree)
    && slotOf'.Keys == slotOf.Keys + {key} && |slotOf'| == |slotOf| + 1
    && slotOf'[key] == slot < |hash| && Values(hash', slotOf') == Values(hash, slotOf)[key := 0]
  }

  /** The new key takes its free main position. */
  lemma InsertMain(hash: seq<Entry>, k: Links, slotOf: map<Key, nat>, lastfree: nat, key: Key)
    requires Hashed(hash, k) && Indexed(hash, slotOf) && Scanned(hash, lastfree) && key != 0 && key !in slotOf
    requires hash[Hash(|hash|, key)].key == 0
    ensures var mp := Hash(|hash|, key);
            Inserted(hash, slotOf, lastfree, key, mp,
                     hash[mp := hash[mp].(key := key, value := 0)], PutFirst(k, mp), slotOf[key := mp])
  {
    hide Hash;
    var mp := Hash(|hash|, key);
    HashedStep(hash, k, mp);
    PutFirstChained(k, mp);
    var hash' := hash[mp := hash[mp].(key := key, value := 0)];
    assert Shaped(k) && HashedAt(hash, k, mp) && SlotAt(k, mp);
    hide PutFirst, Chained;
    forall i | 0 <= i < |hash| ensures HashedAt(hash', PutFirst(k, mp), i) {
      HashedStep(hash, k, i);
      MainAt(hash, k, key, i);
    }
    assert Hashed(hash', PutFirst(k, mp));
    hide Hashed;
    KeyAdded(hash, slotOf, key, mp, hash');
  }

  function Seconded(hash: seq<Entry>, mp: nat, f: nat, key: Key): seq<Entry>
    requires mp < |hash| && f < |hash|
  {
    var next := if hash[mp].next != 0 then (mp - f) + hash[mp].next else 0;
    hash[mp := hash[mp].(next := f - mp)][f := Entry(next, key, 0)]
  }

  /** The occupant of the main position belongs there; the new key goes second on its chain. */
  lemma InsertSecond(hash: seq<Entry>, k: Links, slotOf: map<Key, nat>, key: Key, f: nat)
    requires Hashed(hash, k) && Indexed(hash, slotOf) && key != 0 && key !in slotOf
    requires 0 < f < |hash| && hash[f].key == 0 && Scanned(hash, f + 1)
    requires var mp := Hash(|hash|, key); hash[mp].key != 0 && Hash(|hash|, hash[mp].key) == mp
    ensures var mp := Hash(|hash|, key);
            && |k.main| == |hash| && Shaped(k) && |k.chains[mp]| > 0
            && Inserted(hash, slotOf, f, key, f, Seconded(hash, mp, f, key), PutSecond(k, mp, f), slotOf[key := f])
  {
    var mp := Hash(|hash|, key);
    SecondHashed(hash, k, key, f);
    hide Hash, Hashed, PutSecond, Chained;
    KeyAdded(hash, slotOf, key, f, Seconded(hash, mp, f, key));
  }

  lemma SecondHashed(hash: seq<Entry>, k: Links, key: Key, f: nat)
    requires Hashed(hash, k) && key != 0 && 0 < f < |hash| && hash[f].key == 0
    requires var mp := Hash(|hash|, key); hash[mp].key != 0 && Hash(|hash|, hash[mp].key) == mp
    ensures var mp := Hash(|hash|, key);
            && |k.main| == |hash| && Shaped(k) && |k.chains[mp]| > 0
            && Hashed(Seconded(hash, mp, f, key), PutSecond(k, mp, f))
  {
    hide Hash;
    var mp := Hash(|hash|, key);
    HashedStep(hash, k, mp);
    HashedStep(hash, k, f);
    PutSecondChained(k, mp, f);
    assert Shaped(k) && HashedAt(hash, k, mp);
    hide PutSecond, Chained;
    forall i | 0 <= i < |hash| ensures HashedAt(Seconded(hash, mp, f, key), PutSecond(k, mp, f), i) {
      HashedStep(hash, k, i);
      SecondAt(hash, k, key, f, i);
    }
  }

  function Displaced(hash: seq<Entry>, mp: nat, f: nat, on: nat, e: Entry): seq<Entry>
    requires mp < |hash| && f < |hash| && on < |hash|
  {
    var moved := if hash[mp].next != 0 then hash[mp].(next := hash[mp].next + (mp - f)) else hash[mp];
    hash[on := hash[on].(next := f - on)][f := moved][mp := e]
  }

  /** The occupant is a guest from another chain: it moves to the free slot and the new key
      takes the main position. */
  lemma InsertDisplacing(hash: seq<Entry>, k: Links, slotOf: map<Key, nat>, key: Key, f: nat, on: nat)
    requires Hashed(hash, k) && Indexed(hash, slotOf) && key != 0 && key !in slotOf
    requires 0 < f < |hash| && hash[f].key == 0 && Scanned(hash, f + 1)
    requires var mp := Hash(|hash|, key);
             hash[mp].key != 0 && Hash(|hash|, hash[mp].key) != mp && IsPredecessor(k, mp, on)
    ensures var mp := Hash(|hash|, key);
            && on < |hash| && CanDisplace(k, |hash|, mp)
            && Inserted(hash, slotOf, f, key, mp, Displaced(hash, mp, f, on, Entry(0, key, 0)),
                        Displace(k, mp, f, on), slotOf[hash[mp].key := f][key := mp])
  {
    var mp := Hash(|hash|, key);
    DisplacedHashed(hash, k, key, f, on);
    hide Hash, Hashed, Displace, Displaced, Chained, Indexed, Scanned, Values;
    DisplacedKeys(hash, slotOf, key, mp, f, on);
  }

  lemma DisplacedKeys(hash: seq<Entry>, slotOf: map<Key, nat>, key: Key, mp: nat, f: nat, on: nat)
    requires Indexed(hash, slotOf) && Scanned(hash, f + 1) && key != 0 && key !in slotOf
    requires mp < |hash| && 0 < f < |hash| && on < |hash| && on != mp && on != f
    requires hash[f].key == 0 && hash[mp].key != 0 && hash[0].key == 0
    ensures var hash' := Displaced(hash, mp, f, on, Entry(0, key, 0));
            var slotOf' := slotOf[hash[mp].key := f][key := mp];
            && |hash'| == |hash| && (on != 0 ==> hash'[0] == hash[0]) && Indexed(hash', slotOf') && Scanned(hash', f)
            && slotOf'.Keys == slotOf.Keys + {key} && |slotOf'| == |slotOf| + 1
            && Values(hash', slotOf') == Values(hash, slotOf)[key := 0]
  {
    var slotOf1 := slotOf[hash[mp].key := f];
    var h1, h2 := Displaced(hash, mp, f, on, FREE), Displaced(hash, mp, f, on, Entry(0, key, 0));
    DisplacedScan(hash, mp, f, on, Entry(0, key, 0));
    hide Values, Indexed, Scanned;
    KeyMoved(hash, slotOf, mp, f, h1);
    KeyAdded(h1, slotOf1, key, mp, h2);
    hide Displaced;
    assert slotOf1[key := mp].Keys == slotOf.Keys + {key};
  }

  lemma DisplacedScan(hash: seq<Entry>, mp: nat, f: nat, on: nat, e: Entry)
    requires Scanned(hash, f + 1) && mp < |hash| && 0 < f < |hash| && on < |hash| && on != mp && on != f && e.key != 0
    requires hash[f].key == 0 && hash[mp].key != 0 && hash[0].key == 0
    ensures Scanned(Displaced(hash, mp, f, on, e), f)
  {
  }

  ghost predicate CanDisplace(k: Links, n: nat, mp: nat) {
    Shaped(k) && mp < |k.main| == n && 0 <= k.main[mp] < |k.main| && 0 <= k.rank[mp] < |k.chains[k.main[mp]]|
  }

  lemma DisplacedHashed(hash: seq<Entry>, k: Links, key: Key, f: nat, on: nat)
    requires Hashed(hash, k) && key != 0 && 0 < f < |hash| && hash[f].key == 0
    requires var mp := Hash(|hash|, key);
             hash[mp].key != 0 && Hash(|hash|, hash[mp].key) != mp && IsPredecessor(k, mp, on)
    ensures var mp := Hash(|hash|, key);
            && 0 < on < |hash| && on != mp && on != f && CanDisplace(k, |hash|, mp)
            && Hashed(Displaced(hash, mp, f, on, Entry(0, key, 0)), Displace(k, mp, f, on))
  {
    hide Hash;
    var mp := Hash(|hash|, key);
    HashedStep(hash, k, mp);
    HashedStep(hash, k, f);
    DisplaceChained(k, mp, f, on);
    HashedStep(hash, k, on);
    PredecessorApart(k, mp, on);
    assert Shaped(k) && HashedAt(hash, k, mp) && k.rank[mp] >= 0;
    hide Displace, Chained;
    forall i | 0 <= i < |hash|
      ensures HashedAt(Displaced(hash, mp, f, on, Entry(0, key, 0)), Displace(k, mp, f, on), i)
    {
      HashedStep(hash, k, i);
      DisplacedAt(hash, k, key, f, on, i);
    }
  }

  lemma MainAt(hash: seq<Entry>, k: Links, key: Key, i: nat)
    requires |hash| == |k.main| >= 2 && Shaped(k) && i < |hash| && key != 0
    requires var mp := Hash(|hash|, key); HashedAt(hash, k, i) && HashedAt(hash, k, mp) && hash[mp].next == 0
    ensures var mp := Hash(|hash|, key);
            HashedAt(hash[mp := hash[mp].(key := key, value := 0)], PutFirst(k, mp), i)
  {
    hide Hash;
  }

  lemma SecondAt(hash: seq<Entry>, k: Links, key: Key, f: nat, i: nat)
    requires |hash| == |k.main| >= 2 && Shaped(k) && i < |hash| && key != 0 && 0 < f < |hash| && hash[f].key == 0
    requires HashedAt(hash, k, i) && HashedAt(hash, k, Hash(|hash|, key)) && |k.chains[Hash(|hash|, key)]| > 0
    requires hash[Hash(|hash|, key)].key != 0
    ensures HashedAt(Seconded(hash, Hash(|hash|, key), f, key), PutSecond(k, Hash(|hash|, key), f), i)
  {
    hide Hash;
  }

  lemma DisplacedAt(hash: seq<Entry>, k: Links, key: Key, f: nat, on: nat, i: nat)
    requires |hash| == |k.main| >= 2 && Shaped(k) && i < |hash| && key != 0 && 0 < f < |hash| && hash[f].key == 0
    requires HashedAt(hash, k, i) && HashedAt(hash, k, Hash(|hash|, key))
    requires var mp := Hash(|hash|, key);
             hash[mp].key != 0 && on < |hash| && on != mp && on != f && CanDisplace(k, |hash|, mp)
    ensures HashedAt(Displaced(hash, Hash(|hash|, key), f, on, Entry(0, key, 0)), Displace(k, Hash(|hash|, key), f, on), i)
  {
    hide Hash;
  }

  lemma PredecessorApart(k: Links, mp: nat, on: nat)
    requires IsPredecessor(k, mp, on)
    ensures on < |k.main| && on != mp && k.main[on] == k.main[mp]
  {
    assert SlotAt(k, mp);
    ChainStep(k, k.main[mp], k.rank[mp] - 1);
  }

  /** A key written into a free slot: one key more, every other value kept. */
  lemma KeyAdded(hash: seq<Entry>, slotOf: map<Key, nat>, key: Key, slot: nat, hash': seq<Entry>)
    requires Indexed(hash, slotOf) && key != 0 && key !in slotOf && |hash'| == |hash|
    requires slot < |hash| && hash[slot].key == 0 && hash'[slot].key == key && hash'[slot].value == 0
    requires forall i :: 0 <= i < |hash| && i != slot ==> hash'[i].key == hash[i].key && hash'[i].value == hash[i].value
    ensures Indexed(hash', slotOf[key := slot])
    ensures |slotOf[key := slot]| == |slotOf| + 1
    ensures Values(hash', slotOf[key := slot]) == Values(hash, slotOf)[key := 0]
  {
    assert slotOf[key := slot].Keys == slotOf.Keys + {key};
    ValuesAdded(hash, slotOf, key, slot, hash');
  }

  lemma ValuesAdded(hash: seq<Entry>, slotOf: map<Key, nat>, key: Key, slot: nat, hash': seq<Entry>)
    requires Indexed(hash, slotOf) && key != 0 && key !in slotOf && |hash'| == |hash|
    requires slot < |hash| && hash[slot].key == 0 && hash'[slot].key == key && hash'[slot].value == 0
    requires forall i :: 0 <= i < |hash| && i != slot ==> hash'[i].key == hash[i].key && hash'[i].value == hash[i].value
    ensures Values(hash', slotOf[key := slot]) == Values(hash, slotOf)[key := 0]
  {
    var v, w := Values(hash', slotOf[key := slot]), Values(hash, slotOf)[key := 0];
    assert v.Keys == slotOf.Keys + {key};
    assert w.Keys == slotOf.Keys + {key};
    forall x | x in v ensures v[x] == w[x] { }
  }

  /** A key moved to a free slot: the same keys and values. */
  lemma KeyMoved(hash: seq<Entry>, slotOf: map<Key, nat>, mp: nat, f: nat, hash': seq<Entry>)
    requires Indexed(hash, slotOf) && |hash'| == |hash| && mp < |hash| && f < |hash|
    requires hash[f].key == 0 && hash[mp].key != 0 && hash'[mp].key == 0
    requires hash'[f].key == hash[mp].key && hash'[f].value == hash[mp].value
    requires forall i :: 0 <= i < |hash| && i != mp && i != f ==> hash'[i].key == hash[i].key && hash'[i].value == hash[i].value
    ensures Indexed(hash', slotOf[hash[mp].key := f])
    ensures |slotOf[hash[mp].key := f]| == |slotOf|
    ensures slotOf[hash[mp].key := f].Keys == slotOf.Keys
    ensures Values(hash', slotOf[hash[mp].key := f]) == Values(hash, slotOf)
  {
    assert slotOf[hash[mp].key := f].Keys == slotOf.Keys;
    ValuesMoved(hash, slotOf, mp, f, hash');
    hide Values;
  }

  lemma ValuesMoved(hash: seq<Entry>, slotOf: map<Key, nat>, mp: nat, f: nat, hash': seq<Entry>)
    requires Indexed(hash, slotOf) && |hash'| == |hash| && mp < |hash| && f < |hash| && hash[mp].key != 0
    requires hash[f].key == 0 && hash'[f].key == hash[mp].key && hash'[f].value == hash[mp].value
    requires forall i :: 0 <= i < |hash| && i != mp && i != f ==> hash'[i].key == hash[i].key && hash'[i].value == hash[i].value
    ensures Values(hash', slotOf[hash[mp].key := f]) == Values(hash, slotOf)
  {
    var v, w := Values(hash', slotOf[hash[mp].key := f]), Values(hash, slotOf);
    assert v.Keys == slotOf.Keys == w.Keys;
    forall x | x in v ensures v[x] == w[x] { }
  }

  // ------------------------------------------------------------------- rehashing

  /** The value of the last entry with key 0 among the first n. */
  function LastZero(hash: seq<Entry>, n: nat): int
    requires n <= |hash|
  {
    if n == 0 then 0 else if hash[n - 1].key == 0 then hash[n - 1].value else LastZero(hash, n - 1)
  }

  lemma LastZeroStep(hash: seq<Entry>, n: nat)
    requires n < |hash|
    ensures LastZero(hash, n + 1) == if hash[n].key == 0 then hash[n].value else LastZero(hash, n)
  {
  }

  /** The part of the map stored in the first n slots. */
  ghost function Below(hash: seq<Entry>, slotOf: map<Key, nat>, n: nat): map<Key, int> {
    map k | k in slotOf && slotOf[k] < n && slotOf[k] < |hash| :: hash[slotOf[k]].value
  }

  lemma NothingBelow(hash: seq<Entry>, slotOf: map<Key, nat>)
    ensures Below(hash, slotOf, 0) == map[]
  {
  }

  lemma EverythingBelow(hash: seq<Entry>, slotOf: map<Key, nat>)
    ensures Below(hash, slotOf, |hash|) == Values(hash, slotOf)
  {
  }

  lemma BelowStep(hash: seq<Entry>, slotOf: map<Key, nat>, i: nat)
    requires Indexed(hash, slotOf) && i < |hash|
    ensures if hash[i].key == 0 then Below(hash, slotOf, i + 1) == Below(hash, slotOf, i)
            else hash[i].key !in Below(hash, slotOf, i)
                 && Below(hash, slotOf, i + 1) == Below(hash, slotOf, i)[hash[i].key := hash[i].value]
  {
    var b, b' := Below(hash, slotOf, i), Below(hash, slotOf, i + 1);
    if hash[i].key == 0 {
      assert b == b';
    } else {
      assert b' == b[hash[i].key := hash[i].value];
    }
  }

  lemma SlotZero(hash: seq<Entry>, k: Links)
    requires Hashed(hash, k)
    ensures |hash| >= 2 && hash[0].key == 0
  {
  }

  lemma KeyIsAt(hash: seq<Entry>, slotOf: map<Key, nat>, key: Key)
    requires Indexed(hash, slotOf)
    ensures key in slotOf ==> slotOf[key] < |hash| && hash[slotOf[key]].key == key
  {
  }

  lemma SlotsInRange(hash: seq<Entry>, slotOf: map<Key, nat>)
    requires Indexed(hash, slotOf)
    ensures 0 !in slotOf && 0 !in Values(hash, slotOf)
  {
  }

  lemma ViewKeys(hash: seq<Entry>, slotOf: map<Key, nat>)
    requires Indexed(hash, slotOf)
    ensures Values(hash, slotOf).Keys == slotOf.Keys
  {
  }

  lemma ValueChanged(hash: seq<Entry>, k: Links, slotOf: map<Key, nat>, lastfree: nat, slot: nat, v: int)
    requires Hashed(hash, k) && Indexed(hash, slotOf) && Scanned(hash, lastfree) && slot < |hash|
    ensures var hash' := hash[slot := hash[slot].(value := v)];
            && Hashed(hash', k) && Indexed(hash', slotOf) && Scanned(hash', lastfree)
            && Values(hash', slotOf)
               == (if hash[slot].key != 0 then Values(hash, slotOf)[hash[slot].key := v] else Values(hash, slotOf))
  {
    hide Hash, Chained;
    var hash' := hash[slot := hash[slot].(value := v)];
    assert Hashed(hash', k) by {
      ChainedIsShaped(k);
      forall i | 0 <= i < |hash'| ensures HashedAt(hash', k, i) { assert HashedAt(hash, k, i); }
    }
    hide Hashed;
    var w := Values(hash, slotOf);
    if hash[slot].key != 0 {
      assert Values(hash', slotOf) == w[hash[slot].key := v];
    } else {
      assert Values(hash', slotOf) == w;
    }
  }

  lemma ChainedIsShaped(k: Links)
    requires Chained(k)
    ensures Shaped(k)
  {
  }

  /** When every slot but the first is taken, growing keeps the value of key 0. */
  lemma {:induction false} LastZeroOfFull(hash: seq<Entry>, n: nat)
    requires 1 <= n <= |hash| && hash[0].key == 0
    requires forall i :: 1 <= i < n ==> hash[i].key != 0
    ensures LastZero(hash, n) == hash[0].value
  {
    if n > 1 { LastZeroOfFull(hash, n - 1); }
  }
}
