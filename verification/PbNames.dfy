/** The protobuf name table and its cache keyed by string address: whatever the cache holds, a lookup
    through it finds what a lookup without it finds. */
module PbNames {
  type Byte = x: int | 0 <= x < 256

  type Text = seq<Byte>

  datatype Option<T> = None | Some(value: T)

  const MIN_SIZE: nat := 16
  const MAX_SIZE: nat := 536870899 // the largest hash size over the size of a pointer
  const CACHE_SIZE: nat := 53
  const LENGTHS: nat := 65536 // the length of an entry has sixteen bits

  // ------------------------------------------------------------------------ hashing

  function Mix(h: bv32, c: Byte): bv32 { h ^ ((h << 5) + (h >> 2) + c as bv32) }

  function HashFrom(s: Text, len: nat, step: nat, h: bv32): bv32
    requires len <= |s| && step > 0
    decreases len
  {
    if len < step then h else HashFrom(s, len - step, step, Mix(h, s[len - 1]))
  }

  function Seed(len: nat): bv32 { (len % 0x1_0000_0000) as bv32 }

  function NameHash(s: Text): bv32 { HashFrom(s, |s|, |s| / 32 + 1, Seed(|s|)) }

  method CalcHash(s: Text) returns (h: bv32)
    ensures h == NameHash(s)
  {
    hide Mix, Seed;
    var len: nat := |s|;
    h := Seed(len);
    var step := len / 32 + 1;
    while len >= step
      invariant len <= |s| && HashFrom(s, len, step, h) == HashFrom(s, |s|, step, Seed(|s|))
      decreases len
    {
      h := Mix(h, s[len - 1]);
      len := len - step;
    }
  }

  /** The bytes the hash looks at: from the last one back in steps. */
  predicate Sampled(len: nat, step: nat, i: nat)
    requires step > 0
    decreases len
  {
    len >= step && (i == len - 1 || Sampled(len - step, step, i))
  }

  function Samples(len: nat, step: nat): nat
    requires step > 0
    decreases len
  {
    if len < step then 0 else 1 + Samples(len - step, step)
  }

  /** The hash depends on the length and the sampled bytes only, and samples fewer than 32 of them. */
  lemma HashSamples(s: Text, t: Text)
    requires |s| == |t|
    requires forall i :: 0 <= i < |s| && Sampled(|s|, |s| / 32 + 1, i) ==> s[i] == t[i]
    ensures NameHash(s) == NameHash(t) && Samples(|s|, |s| / 32 + 1) < 32
  {
    hide Mix, Seed;
    FewSamples(|s|, |s| / 32 + 1, 32);
    SameFrom(s, t, |s|, |s| / 32 + 1, Seed(|s|));
  }

  lemma {:induction false} FewSamples(len: nat, step: nat, k: nat)
    requires step > 0 && len < k * step
    ensures Samples(len, step) < k
    decreases len
  {
    if len >= step {
      assert k * step == (k - 1) * step + step;
      FewSamples(len - step, step, k - 1);
    }
  }

  lemma {:induction false} SameFrom(s: Text, t: Text, len: nat, step: nat, h: bv32)
    requires len <= |s| == |t| && step > 0
    requires forall i :: 0 <= i < len && Sampled(len, step, i) ==> s[i] == t[i]
    ensures HashFrom(s, len, step, h) == HashFrom(t, len, step, h)
    decreases len
  {
    hide Mix;
    if len >= step {
      assert Sampled(len, step, len - 1);
      SameFrom(s, t, len - step, step, Mix(h, s[len - 1]));
    }
  }

  /** The bucket for a hash; sizes are powers of two, so the mask is a remainder. */
  function Bucket(h: bv32, size: nat): (i: nat)
    requires size > 0
    ensures i < size
  {
    Rest(AsNat(h), size)
  }

  /** A table size: a power of two from the smallest size on, so that masking a hash is taking it modulo the size. */
  ghost predicate Doubled(n: nat) { n == MIN_SIZE || (n > MIN_SIZE && n % 2 == 0 && Doubled(n / 2)) }

  function AsNat(h: bv32): nat { h as nat }

  function Rest(x: nat, size: nat): (i: nat)
    requires size > 0
    ensures i < size
  {
    x % size
  }

  // ------------------------------------------------------------------------ entries

  datatype Entry = Entry(hash: bv32, length: nat, text: Text)

  function EntryFor(s: Text): Entry { Entry(NameHash(s), |s| % LENGTHS, s) }

  /** The test a lookup makes on each entry: hash, length, and that many bytes of text. */
  predicate Matches(e: Entry, s: Text, hash: bv32) {
    e.hash == hash && e.length == |s| && |s| <= |e.text| && e.text[..|s|] == s
  }

  /** A name is found again under its own hash exactly if its length fits the entry. */
  lemma FoundAgain(s: Text)
    ensures Matches(EntryFor(s), s, NameHash(s)) <==> |s| < LENGTHS
  {
    hide NameHash;
    assert s[..|s|] == s;
  }

  type Table = seq<seq<Entry>>

  /** The table holds exactly the names given, each once, under its own hash and with its whole length. */
  ghost predicate TableOk(table: Table, names: set<Text>) {
    && (table == [] ==> names == {})
    && (forall i, e :: 0 <= i < |table| && e in table[i] ==>
          e == EntryFor(e.text) && |e.text| < LENGTHS && e.text in names && Bucket(e.hash, |table|) == i)
    && (forall s :: s in names && table != [] ==> EntryFor(s) in table[Bucket(NameHash(s), |table|)])
    && (forall i, j, k :: 0 <= i < |table| && 0 <= j < k < |table[i]| ==> table[i][j] != table[i][k])
  }

  /** What a lookup under some hash finds: the name, if it is there and that is its hash. */
  ghost function Lookup(names: set<Text>, s: Text, hash: bv32): Option<Entry> {
    if s in names && hash == NameHash(s) then Some(EntryFor(s)) else None
  }

  lemma TablePut(table: Table, names: set<Text>, s: Text)
    requires TableOk(table, names) && table != [] && s !in names && |s| < LENGTHS
    ensures var i := Bucket(NameHash(s), |table|); TableOk(table[i := [EntryFor(s)] + table[i]], names + {s})
  {
    hide NameHash, Bucket;
    var i := Bucket(NameHash(s), |table|);
    var b := [EntryFor(s)] + table[i];
    forall j, k | 0 <= j < k < |b| ensures b[j] != b[k] {
      assert b[k] in table[i];
      if j > 0 { assert b[j] == table[i][j - 1] && b[k] == table[i][k - 1]; }
    }
  }

  lemma TableRemoved(table: Table, names: set<Text>, s: Text, j: nat)
    requires TableOk(table, names) && table != []
    requires var b := table[Bucket(NameHash(s), |table|)]; j < |b| && b[j] == EntryFor(s)
    ensures var i := Bucket(NameHash(s), |table|);
            s in names && TableOk(table[i := table[i][..j] + table[i][j + 1..]], names - {s})
  {
    hide NameHash, Bucket;
    var i := Bucket(NameHash(s), |table|);
    var b := table[i];
    var b' := b[..j] + b[j + 1..];
    assert b[j] in b;
    Cut(b, j);
    forall n | n in names - {s} ensures EntryFor(n) in table[i := b'][Bucket(NameHash(n), |table|)] {
      assert EntryFor(n).text != EntryFor(s).text;
    }
  }

  lemma Cut(b: seq<Entry>, j: nat)
    requires j < |b| && forall k, l :: 0 <= k < l < |b| ==> b[k] != b[l]
    ensures var b' := b[..j] + b[j + 1..];
            (forall e :: e in b' <==> e in b && e != b[j]) && (forall k, l :: 0 <= k < l < |b'| ==> b'[k] != b'[l])
  {
    var b' := b[..j] + b[j + 1..];
    assert forall k :: 0 <= k < |b'| ==> b'[k] == if k < j then b[k] else b[k + 1];
    forall e | e in b && e != b[j] ensures e in b' {
      var k :| 0 <= k < |b| && b[k] == e;
      assert b'[if k < j then k else k - 1] == e;
    }
  }

  // ----------------------------------------------------------------------- the table

  class NameTable {
    var table: Table
    var count: nat
    ghost var names: set<Text>

    ghost predicate Valid()
      reads this
    {
      TableOk(table, names) && count == |names| && (table == [] || Doubled(|table|))
    }

    constructor ()
      ensures Valid() && names == {}
    {
      table, count, names := [], 0, {};
    }

    /** Finds a name under a hash, right or wrong. */
    method GetName(s: Text, hash: bv32) returns (r: Option<Entry>)
      requires Valid()
      ensures r == Lookup(names, s, hash)
    {
      hide NameHash, Bucket;
      if table == [] { return None; }
      var i, k := Bucket(hash, |table|), 0;
      while k < |table[i]|
        invariant 0 <= k <= |table[i]| && forall j :: 0 <= j < k ==> !Matches(table[i][j], s, hash)
      {
        var e := table[i][k];
        if Matches(e, s, hash) {
          assert e in table[i];
          assert e.text[..|s|] == e.text;
          return Some(e);
        }
        k := k + 1;
      }
      Unfound(table, names, s, hash);
      return None;
    }

    /** Rehashes into a table of the next power of two; may fail. */
    method Resize(size: nat, memory: bool) returns (ok: bool)
      requires Valid()
      modifies `table
      ensures Valid() && names == old(names) && (ok ==> |table| >= size && table != []) && (!ok ==> table == old(table))
      ensures ok ==> |table| == MIN_SIZE || |table| < 2 * size
      ensures !memory ==> !ok
      ensures !ok ==> !memory || size > MAX_SIZE
    {
      hide NameHash, Bucket, TableOk;
      var newsize := MIN_SIZE;
      while newsize < MAX_SIZE && newsize < size
        invariant newsize > 0 && Doubled(newsize) && (newsize == MIN_SIZE || newsize < 2 * size)
        decreases MAX_SIZE - newsize
      {
        newsize := 2 * newsize;
      }
      if newsize < size || !memory { return false; }
      var hash: Table := seq(newsize, _ => []);
      ghost var done: set<Text> := {};
      Empty(hash);
      NoTexts(table);
      var i := 0;
      while i < |table|
        invariant table == old(table) && names == old(names) && TableOk(table, names)
        invariant 0 <= i <= |table| && |hash| == newsize && TableOk(hash, done) && done == Texts(table, i)
      {
        hash := MoveBucket(hash, done, table, names, i);
        done := Texts(table, i + 1);
        i := i + 1;
      }
      AllTexts(table, names);
      table := hash;
      return true;
    }

    /** Stores a name that is not there yet. */
    method NewName(s: Text, memory: bool) returns (e: Option<Entry>)
      requires Valid() && s !in names && |s| < LENGTHS
      modifies this
      ensures Valid() && (e.Some? ==> e.value == EntryFor(s) && names == old(names) + {s}) && (e.None? ==> names == old(names))
      ensures e.None? ==> !memory || (old(count) >= old(|table|) && 2 * old(|table|) > MAX_SIZE)
      ensures !memory ==> e.None?
      ensures old(count) < old(|table|) ==> |table| == old(|table|)
      ensures old(count) >= old(|table|) && e.Some? ==> |table| >= 2 * old(|table|)
    {
      hide NameHash, Bucket, TableOk, Doubled;
      if count >= |table| {
        var ok := Resize(|table| * 2, memory);
        if !ok { return None; }
      }
      if !memory { return None; }
      TablePut(table, names, s);
      var h := CalcHash(s);
      var i := Bucket(h, |table|);
      table := table[i := [EntryFor(s)] + table[i]];
      count := count + 1;
      names := names + {s};
      e := Some(EntryFor(s));
    }

    /** Unlinks and frees an entry. */
    method DelName(s: Text)
      requires Valid() && s in names
      modifies this
      ensures Valid() && names == old(names) - {s}
    {
      hide NameHash, Bucket, TableOk;
      Present(table, names, s);
      var i, k := Bucket(NameHash(s), |table|), 0;
      while table[i][k] != EntryFor(s)
        invariant 0 <= k < |table[i]| && exists j :: k <= j < |table[i]| && table[i][j] == EntryFor(s)
        decreases |table[i]| - k
      {
        k := k + 1;
      }
      TableRemoved(table, names, s, k);
      table := table[i := table[i][..k] + table[i][k + 1..]];
      count := count - 1;
      names := names - {s};
    }
  }

  lemma Present(table: Table, names: set<Text>, s: Text)
    requires TableOk(table, names) && s in names
    ensures table != [] && EntryFor(s) in table[Bucket(NameHash(s), |table|)]
  {
    hide NameHash, Bucket;
  }

  lemma Unfound(table: Table, names: set<Text>, s: Text, hash: bv32)
    requires TableOk(table, names) && table != []
    requires var b := table[Bucket(hash, |table|)]; forall j :: 0 <= j < |b| ==> !Matches(b[j], s, hash)
    ensures Lookup(names, s, hash) == None
  {
    hide NameHash, Bucket;
    FoundAgain(s);
    assert s in names ==> EntryFor(s) in table[Bucket(NameHash(s), |table|)];
    assert s in names ==> |s| < LENGTHS;
    hide Matches, TableOk;
  }

  lemma Empty(table: Table)
    requires table != [] && forall i :: 0 <= i < |table| ==> table[i] == []
    ensures TableOk(table, {})
  {
  }

  /** The names in the first `n` buckets. */
  ghost function Texts(table: Table, n: nat): set<Text>
    requires n <= |table|
  {
    set i, j | 0 <= i < n && 0 <= j < |table[i]| :: table[i][j].text
  }

  ghost function BucketTexts(b: seq<Entry>, n: nat): set<Text>
    requires n <= |b|
  {
    set j | 0 <= j < n :: b[j].text
  }

  lemma NoTexts(table: Table)
    ensures Texts(table, 0) == {}
  {
  }

  lemma MoreTexts(table: Table, i: nat)
    requires i < |table|
    ensures Texts(table, i + 1) == Texts(table, i) + BucketTexts(table[i], |table[i]|)
  {
    forall s | s in Texts(table, i) ensures s in Texts(table, i + 1) {
      var k, j :| 0 <= k < i && 0 <= j < |table[k]| && table[k][j].text == s;
    }
    forall s | s in BucketTexts(table[i], |table[i]|) ensures s in Texts(table, i + 1) {
      var j :| 0 <= j < |table[i]| && table[i][j].text == s;
    }
    forall s | s in Texts(table, i + 1) ensures s in Texts(table, i) || s in BucketTexts(table[i], |table[i]|) {
      var k, j :| 0 <= k < i + 1 && 0 <= j < |table[k]| && table[k][j].text == s;
    }
  }

  lemma AllTexts(table: Table, names: set<Text>)
    requires TableOk(table, names)
    ensures Texts(table, |table|) == names
  {
    hide NameHash, Bucket;
    forall s | s in Texts(table, |table|) ensures s in names {
      var k, j :| 0 <= k < |table| && 0 <= j < |table[k]| && table[k][j].text == s;
      assert table[k][j] in table[k];
    }
    forall s | s in names ensures s in Texts(table, |table|) {
      var k := Bucket(NameHash(s), |table|);
      assert EntryFor(s) in table[k];
      var j :| 0 <= j < |table[k]| && table[k][j] == EntryFor(s);
    }
  }

  /** A name stands in one place only. */
  lemma NewText(table: Table, names: set<Text>, i: nat, j: nat)
    requires TableOk(table, names) && i < |table| && j < |table[i]|
    ensures var e := table[i][j];
            && e == EntryFor(e.text) && |e.text| < LENGTHS
            && e.text !in Texts(table, i) && e.text !in BucketTexts(table[i], j)
  {
    hide NameHash, Bucket;
    var e := table[i][j];
    assert e in table[i];
    forall k, l | 0 <= k < i && 0 <= l < |table[k]| ensures table[k][l].text != e.text {
      assert table[k][l] in table[k];
    }
    forall l | 0 <= l < j ensures table[i][l].text != e.text {
      assert table[i][l] in table[i];
    }
  }

  /** Every entry of a bucket goes to the front of its bucket in the new table. */
  method MoveBucket(hash: Table, ghost done: set<Text>, table: Table, ghost names: set<Text>, i: nat) returns (moved: Table)
    requires TableOk(table, names) && i < |table| && done == Texts(table, i) && TableOk(hash, done) && hash != []
    ensures |moved| == |hash| && TableOk(moved, Texts(table, i + 1))
  {
    hide NameHash, Bucket, TableOk;
    moved := hash;
    var j := 0;
    assert done + BucketTexts(table[i], 0) == done;
    while j < |table[i]|
      invariant 0 <= j <= |table[i]| && |moved| == |hash| && TableOk(moved, done + BucketTexts(table[i], j))
    {
      var e := table[i][j];
      NewText(table, names, i, j);
      TablePut(moved, done + BucketTexts(table[i], j), e.text);
      var k := Bucket(e.hash, |moved|);
      moved := moved[k := [e] + moved[k]];
      assert done + BucketTexts(table[i], j) + {e.text} == done + BucketTexts(table[i], j + 1);
      j := j + 1;
    }
    MoreTexts(table, i);
  }

  // ----------------------------------------------------------------------- the cache

  /** The address a name was last seen at, and the hash it had. */
  datatype Slot = Slot(name: nat, hash: bv32)

  type Cache = c: seq<(Slot, Slot)> | |c| == CACHE_SIZE witness seq(CACHE_SIZE, _ => (Slot(0, 0), Slot(0, 0)))

  /** The place of an address in the cache; the product has 64 bits. */
  function CacheIndex(address: nat): (i: nat)
    ensures i < CACHE_SIZE
  {
    address * 2654435761 % 0x1_0000_0000_0000_0000 % CACHE_SIZE
  }

  /** The cache knows the hash of the name at an address. */
  ghost predicate Remembers(cache: Cache, address: nat, hash: bv32) {
    var (a, b) := cache[CacheIndex(address)];
    a == Slot(address, hash) || b == Slot(address, hash)
  }

  /** The slot the cache looks at for an address has this hash. */
  ghost predicate Hits(cache: Cache, address: nat, hash: bv32) {
    var (a, b) := cache[CacheIndex(address)];
    a == Slot(address, hash) || (a.name != address && b == Slot(address, hash))
  }

  /** Looks a name up, trying the hash remembered for its address first. The result does not depend on the cache, and
      a name stored and remembered leaves the cache as it is. */
  method Name(nt: NameTable, s: Text, address: nat, cache: Cache) returns (r: Option<Entry>, cache': Cache)
    requires nt.Valid()
    ensures r == Lookup(nt.names, s, NameHash(s))
    ensures Remembers(cache', address, NameHash(s))
    ensures s in nt.names && Hits(cache, address, NameHash(s)) ==> cache' == cache
  {
    hide NameHash;
    r, cache' := None, cache;
    var i := CacheIndex(address);
    var (first, second) := cache[i];
    var inFirst := true;
    if first.name == address {
      r := nt.GetName(s, first.hash);
    } else if second.name == address {
      r := nt.GetName(s, second.hash);
      inFirst := false;
    } else {
      cache' := cache'[i := (Slot(address, first.hash), first)];
    }
    if r == None {
      var h := CalcHash(s);
      var (a, b) := cache'[i];
      cache' := cache'[i := if inFirst then (a.(hash := h), b) else (a, b.(hash := h))];
      r := nt.GetName(s, h);
    }
  }

  /** Stores a name unless it is there. */
  method StoreName(nt: NameTable, s: Text, memory: bool) returns (r: Option<Entry>)
    requires nt.Valid() && |s| < LENGTHS
    modifies nt
    ensures nt.Valid() && (r.Some? ==> r.value == EntryFor(s) && nt.names == old(nt.names) + {s})
    ensures r.None? ==> nt.names == old(nt.names) && (!memory || 2 * old(|nt.table|) > MAX_SIZE)
    ensures s in old(nt.names) ==> nt.table == old(nt.table) && r.Some?
  {
    hide NameHash, TableOk;
    var h := CalcHash(s);
    r := nt.GetName(s, h);
    if r == None {
      r := nt.NewName(s, memory);
    } else {
      assert nt.names + {s} == nt.names;
    }
  }
}
