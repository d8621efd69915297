/** The HPACK encoder as a function of its live entries, an RFC 7541 decoder, and the theorem
    that the two stay in step over every run of header blocks. */
module HpackTable {
  import opened BitStrings
  import opened HpackWire

  datatype Field = Field(name: Str, value: Str)

  const STATIC_SIZE: nat := 61
  const HEADER_SIZE: nat := 256

  function Size(f: Field): nat { |f.name| + |f.value| + 32 }

  function Sum(t: seq<Field>): nat { if t == [] then 0 else Sum(t[..|t| - 1]) + Size(t[|t| - 1]) }

  // ------------------------------------------------------------- the lookup keys

  const COLON: Byte := 58
  const SPACE: Byte := 32

  /** Both tables are searched by the text of the whole field. */
  function Key(f: Field): Str { f.name + [COLON, SPACE] + f.value }

  predicate Separated(name: Str) {
    forall i :: 0 <= i < |name| - 1 ==> !(name[i] == COLON && name[i + 1] == SPACE)
  }

  /** Names the encoder can handle: those without the separator, and those too long to be looked up with a value. */
  predicate Readable(name: Str) { Separated(name) || |name| + 32 >= HEADER_SIZE }

  /** Without the separator in their names, fields with the same key are the same. */
  lemma KeyIsInjective(f: Field, g: Field)
    requires Separated(f.name) && Separated(g.name) && Key(f) == Key(g)
    ensures f == g
  {
    NotShorter(f, g);
    NotShorter(g, f);
    assert f.name == Key(f)[..|f.name|];
    assert g.name == Key(g)[..|g.name|];
    assert f.value == Key(f)[|f.name| + 2..];
    assert g.value == Key(g)[|g.name| + 2..];
  }

  lemma NotShorter(f: Field, g: Field)
    requires Key(f) == Key(g)
    ensures |f.name| < |g.name| ==> !Separated(g.name)
  {
    var n := |f.name|;
    if n < |g.name| {
      assert Key(f)[n] == COLON && Key(f)[n + 1] == SPACE;
      assert Key(g)[|g.name|] == COLON;
      assert Key(g)[n] == g.name[n] && Key(g)[n + 1] == g.name[n + 1];
    }
  }

  // ------------------------------------------------------------ the static table

  /** The two halves of a static entry, the value missing where the table has none. */
  datatype Entry = Entry(name: Str, value: Option<Str>)

  /** What the static lookup table maps a text to: an entry's name, or the key of an entry with a value. */
  ghost predicate Names(entries: seq<Entry>, key: Str, id: int) {
    && 1 <= id <= |entries|
    && (entries[id - 1].name == key
        || (entries[id - 1].value.Some? && Key(Field(entries[id - 1].name, entries[id - 1].value.value)) == key))
  }

  /** The key of an entry with a value is shorter than a name too long to be looked up. */
  predicate Short(e: Entry) { e.value.Some? ==> |e.name| + 2 + |e.value.value| + 32 < HEADER_SIZE }

  ghost predicate StaticOk(entries: seq<Entry>, stat: map<Str, nat>) {
    && |entries| == STATIC_SIZE
    && (forall i :: 0 <= i < |entries| ==> Separated(entries[i].name) && Short(entries[i]))
    && (forall key :: key in stat ==> Names(entries, key, stat[key]))
  }

  function StaticField(entries: seq<Entry>, id: nat): Field
    requires 1 <= id <= |entries|
  {
    var e := entries[id - 1];
    Field(e.name, if e.value.Some? then e.value.value else [])
  }

  /** A key found in the static table belongs to that very field. */
  lemma StaticHit(entries: seq<Entry>, stat: map<Str, nat>, f: Field)
    requires StaticOk(entries, stat) && Separated(f.name) && Key(f) in stat
    ensures 1 <= stat[Key(f)] <= STATIC_SIZE && StaticField(entries, stat[Key(f)]) == f
  {
    var id := stat[Key(f)];
    assert Names(entries, Key(f), id);
    var e := entries[id - 1];
    HasSeparator(f);
    assert e.name != Key(f);
    KeyIsInjective(f, Field(e.name, e.value.value));
  }

  lemma HasSeparator(f: Field)
    ensures !Separated(Key(f))
  {
    var n := |f.name|;
    assert Key(f)[n] == COLON && Key(f)[n + 1] == SPACE;
  }

  lemma StaticName(entries: seq<Entry>, stat: map<Str, nat>, name: Str)
    requires StaticOk(entries, stat) && Readable(name) && name in stat
    ensures 1 <= stat[name] <= STATIC_SIZE && StaticField(entries, stat[name]).name == name
  {
    var id := stat[name];
    assert Names(entries, name, id);
    var e := entries[id - 1];
    assert Short(e);
    if e.value.Some? { HasSeparator(Field(e.name, e.value.value)); }
  }

  // ------------------------------------------------------------------ the encoder

  /** Live entries, oldest first, and how many of them are older than any used in this block. */
  datatype Enc = Enc(limit: nat, live: seq<Field>, used: nat)

  ghost predicate EncOk(e: Enc) {
    && e.used <= |e.live| && Sum(e.live) <= e.limit
    && (forall f :: f in e.live ==> Separated(f.name))
  }

  /** Entries older than the oldest one used in this block go when space runs short. */
  function Evict(e: Enc, need: nat): Enc
    requires e.used <= |e.live|
  {
    if e.limit - Sum(e.live) >= need then e else e.(live := e.live[e.used..], used := 0)
  }

  function Add(e: Enc, f: Field): (Enc, bool)
    requires e.used <= |e.live|
  {
    var e' := Evict(e, Size(f));
    if e'.limit - Sum(e'.live) >= Size(f) then (e'.(live := e'.live + [f]), true) else (e', false)
  }

  function Find(live: seq<Field>, key: Str): (j: int)
    ensures j < 0 ==> forall i :: 0 <= i < |live| ==> Key(live[i]) != key
    ensures j >= 0 ==> j < |live| && Key(live[j]) == key
  {
    if live == [] then -1
    else if Key(live[|live| - 1]) == key then |live| - 1
    else Find(live[..|live| - 1], key)
  }

  /** The representation chosen for a field and the encoder's next state. */
  function PackField(stat: map<Str, nat>, e: Enc, f: Field): (r: (Enc, Rep))
    requires e.used <= |e.live|
    ensures r.0.used <= |r.0.live|
  {
    var can := Size(f) < HEADER_SIZE;
    var j := Find(e.live, Key(f));
    if can && Key(f) in stat then (e, Indexed(stat[Key(f)]))
    else if can && j >= 0 then (e.(used := if j < e.used then j else e.used), Indexed(|e.live| - j + STATIC_SIZE))
    else
      var a := if can then Add(e, f) else (e, false);
      (a.0, if f.name in stat then Named(stat[f.name], f.value, a.1) else Spelled(f.name, f.value, a.1))
  }

  function PackFields(stat: map<Str, nat>, e: Enc, fs: seq<Field>): (r: (Enc, Str))
    requires e.used <= |e.live|
    ensures r.0.used <= |r.0.live|
    decreases |fs|
  {
    if fs == [] then (e, [])
    else
      var (e', r) := PackField(stat, e, fs[0]);
      var (e'', b) := PackFields(stat, e', fs[1..]);
      (e'', Wire(r) + b)
  }

  /** A header block: nothing counts as used yet. */
  function PackBlock(stat: map<Str, nat>, e: Enc, fs: seq<Field>): (r: (Enc, Str))
    ensures r.0.used <= |r.0.live|
  {
    PackFields(stat, e.(used := |e.live|), fs)
  }

  function PackRun(stat: map<Str, nat>, e: Enc, blocks: seq<seq<Field>>): (r: (Enc, seq<Str>))
    decreases |blocks|
  {
    if blocks == [] then (e, [])
    else
      var (e', b) := PackBlock(stat, e, blocks[0]);
      var (e'', bs) := PackRun(stat, e', blocks[1..]);
      (e'', [b] + bs)
  }

  // ----------------------------------------------- the decoder, section 4.4 of RFC 7541

  /** Section 4.1: the size of an entry and of a table. */
  function EntrySize(f: Field): nat { 32 + |f.value| + |f.name| }

  function TableSize(table: seq<Field>): nat { if table == [] then 0 else EntrySize(table[0]) + TableSize(table[1..]) }

  lemma {:induction false} SameSize(table: seq<Field>)
    ensures TableSize(table) == Sum(table)
  {
    if table != [] {
      SameSize(table[1..]);
      SumCons(table[0], table[1..]);
      assert table == [table[0]] + table[1..];
    }
  }

  /** Entries are evicted from the old end, the end of the table, until the rest fits. */
  function Fit(table: seq<Field>, room: int): (r: seq<Field>)
    ensures |r| <= |table|
    decreases |table|
  {
    if table == [] || TableSize(table) <= room then table else Fit(table[..|table| - 1], room)
  }

  function Insert(table: seq<Field>, limit: nat, f: Field): seq<Field> {
    if EntrySize(f) > limit then [] else [f] + Fit(table, limit - EntrySize(f))
  }

  /** Section 2.3.3: static entries first, then the dynamic table, newest first. */
  function At(entries: seq<Entry>, table: seq<Field>, id: nat): Option<Field> {
    if 1 <= id <= |entries| then Some(StaticField(entries, id))
    else if |entries| < id <= |entries| + |table| then Some(table[id - |entries| - 1])
    else None
  }

  function Interpret(entries: seq<Entry>, table: seq<Field>, limit: nat, r: Rep): Option<(Field, seq<Field>)> {
    match r
    case Indexed(id) => (match At(entries, table, id) case None => None case Some(f) => Some((f, table)))
    case Named(id, text, add) =>
      (match At(entries, table, id)
       case None => None
       case Some(f) => Some((Field(f.name, text), if add then Insert(table, limit, Field(f.name, text)) else table)))
    case Spelled(name, text, add) => Some((Field(name, text), if add then Insert(table, limit, Field(name, text)) else table))
  }

  ghost function DecodeBlock(entries: seq<Entry>, table: seq<Field>, limit: nat, b: Str): Option<(seq<Field>, seq<Field>)>
    decreases |b|
  {
    if b == [] then Some(([], table))
    else
      match ReadRep(b)
      case None => None
      case Some(r) =>
        match Interpret(entries, table, limit, r.0)
        case None => None
        case Some(i) =>
          match DecodeBlock(entries, i.1, limit, r.1)
          case None => None
          case Some(rest) => Some(([i.0] + rest.0, rest.1))
  }

  ghost function DecodeRun(entries: seq<Entry>, table: seq<Field>, limit: nat, bs: seq<Str>): Option<(seq<seq<Field>>, seq<Field>)>
    decreases |bs|
  {
    if bs == [] then Some(([], table))
    else
      match DecodeBlock(entries, table, limit, bs[0])
      case None => None
      case Some(d) =>
        match DecodeRun(entries, d.1, limit, bs[1..])
        case None => None
        case Some(rest) => Some(([d.0] + rest.0, rest.1))
  }

  // ---------------------------------------------------------------- staying in step

  /** The live entries are the newest of the decoder's, in the same order, and both fit the limit. */
  ghost predicate InStep(e: Enc, table: seq<Field>) {
    && EncOk(e) && Sum(table) <= e.limit && |e.live| <= |table|
    && (forall j :: 0 <= j < |e.live| ==> table[|e.live| - 1 - j] == e.live[j])
  }

  lemma {:induction false} SumConcat(a: seq<Field>, b: seq<Field>)
    ensures Sum(a + b) == Sum(a) + Sum(b)
  {
    if b == [] {
      assert a + b == a;
    } else {
      SumConcat(a, b[..|b| - 1]);
      assert (a + b)[..|a + b| - 1] == a + b[..|b| - 1];
    }
  }

  lemma SumCons(f: Field, b: seq<Field>)
    ensures Sum([f] + b) == Size(f) + Sum(b)
  {
    SumConcat([f], b);
    assert Sum([f]) == Sum([]) + Size(f) by { assert [f][..0] == []; }
  }

  lemma {:induction false} SumMirror(live: seq<Field>, table: seq<Field>)
    requires |live| == |table| && forall j :: 0 <= j < |live| ==> table[|live| - 1 - j] == live[j]
    ensures Sum(live) == Sum(table)
  {
    if live != [] {
      var n := |live|;
      assert table[0] == live[n - 1];
      SumMirror(live[..n - 1], table[1..]);
      SumCons(table[0], table[1..]);
      assert table == [table[0]] + table[1..];
    }
  }

  /** Making room only ever removes entries from the old end, and stops as soon as the rest fits. */
  lemma {:induction false} FitKeeps(table: seq<Field>, room: int, n: nat)
    requires n <= |table| && Sum(table[..n]) <= room
    ensures n <= |Fit(table, room)| && Fit(table, room) == table[..|Fit(table, room)|] && Sum(Fit(table, room)) <= room
    decreases |table|
  {
    assert table[..|table|] == table;
    SameSize(table);
    if table != [] && Sum(table) > room {
      var t := table[..|table| - 1];
      assert t[..n] == table[..n];
      FitKeeps(t, room, n);
      var k := |Fit(t, room)|;
      assert t[..k] == table[..k];
    }
  }

  lemma EvictInStep(e: Enc, need: nat, table: seq<Field>)
    requires InStep(e, table)
    ensures InStep(Evict(e, need), table)
  {
    hide Sum, Separated;
    var n, kept := |e.live|, e.live[e.used..];
    SumConcat(e.live[..e.used], kept);
    assert e.live == e.live[..e.used] + kept;
    forall j | 0 <= j < |kept| ensures table[|kept| - 1 - j] == kept[j] {
      assert kept[j] == e.live[e.used + j] == table[n - 1 - (e.used + j)];
    }
  }

  lemma AddInStep(e: Enc, f: Field, table: seq<Field>)
    requires InStep(e, table) && Separated(f.name)
    ensures var a := Add(e, f);
            InStep(a.0, if a.1 then Insert(table, e.limit, f) else table) && a.0.limit == e.limit
  {
    EvictInStep(e, Size(f), table);
    var e' := Evict(e, Size(f));
    hide Evict;
    if e'.limit - Sum(e'.live) >= Size(f) { InsertInStep(e', f, table); }
  }

  lemma InsertInStep(e: Enc, f: Field, table: seq<Field>)
    requires InStep(e, table) && Separated(f.name) && e.limit - Sum(e.live) >= Size(f)
    ensures InStep(e.(live := e.live + [f]), Insert(table, e.limit, f))
  {
    hide Sum, Fit, Separated;
    InsertFits(e.live, e.limit, f, table);
    var n, kept := |e.live|, Fit(table, e.limit - Size(f));
    var table', live' := [f] + kept, e.live + [f];
    forall j | 0 <= j < n + 1 ensures table'[n - j] == live'[j] {
      if j < n { assert table'[n - j] == kept[n - 1 - j] == table[n - 1 - j]; }
    }
  }

  lemma InsertFits(live: seq<Field>, limit: nat, f: Field, table: seq<Field>)
    requires |live| <= |table| && limit - Sum(live) >= Size(f)
    requires forall j :: 0 <= j < |live| ==> table[|live| - 1 - j] == live[j]
    ensures var kept := Fit(table, limit - Size(f));
            && |live| <= |kept| && kept == table[..|kept|]
            && Sum([f] + kept) <= limit && Sum(live + [f]) <= limit
  {
    SumCons(f, []);
    assert [f] + [] == [f] && Sum([]) == 0;
    hide Sum, Fit, Size;
    SumMirror(live, table[..|live|]);
    FitKeeps(table, limit - Size(f), |live|);
    SumCons(f, Fit(table, limit - Size(f)));
    SumConcat(live, [f]);
  }

  /** Every representation is read back as the field it stands for, and the tables stay in step. */
  lemma FieldInStep(entries: seq<Entry>, stat: map<Str, nat>, e: Enc, f: Field, table: seq<Field>)
    requires StaticOk(entries, stat) && InStep(e, table) && Readable(f.name)
    ensures var (e', r) := PackField(stat, e, f);
            && Sound(r)
            && Interpret(entries, table, e.limit, r).Some?
            && Interpret(entries, table, e.limit, r).value.0 == f
            && InStep(e', Interpret(entries, table, e.limit, r).value.1) && e'.limit == e.limit
  {
    hide Key, Separated, Add, Insert, Sum, StaticField;
    var can := Size(f) < HEADER_SIZE;
    var j := Find(e.live, Key(f));
    if can && Key(f) in stat {
      StaticHit(entries, stat, f);
    } else if can && j >= 0 {
      KeyIsInjective(e.live[j], f);
      assert table[|e.live| - 1 - j] == f;
    } else {
      if can { AddInStep(e, f, table); }
      if f.name in stat { StaticName(entries, stat, f.name); }
    }
  }

  lemma {:induction false} FieldsInStep(entries: seq<Entry>, stat: map<Str, nat>, e: Enc, fs: seq<Field>, table: seq<Field>)
    requires StaticOk(entries, stat) && InStep(e, table) && e.used <= |e.live|
    requires forall f :: f in fs ==> Readable(f.name)
    ensures var (e', b) := PackFields(stat, e, fs);
            && DecodeBlock(entries, table, e.limit, b).Some?
            && DecodeBlock(entries, table, e.limit, b).value.0 == fs
            && InStep(e', DecodeBlock(entries, table, e.limit, b).value.1) && e'.limit == e.limit
    decreases |fs|
  {
    hide StaticOk, InStep, PackField, Interpret, Readable, Wire, ReadRep;
    if fs != [] {
      FieldInStep(entries, stat, e, fs[0], table);
      var (e1, r) := PackField(stat, e, fs[0]);
      var i := Interpret(entries, table, e.limit, r);
      FieldsInStep(entries, stat, e1, fs[1..], i.value.1);
      var (e2, b) := PackFields(stat, e1, fs[1..]);
      ReadWire(r, b);
      assert fs == [fs[0]] + fs[1..];
    }
  }

  ghost predicate AllReadable(blocks: seq<seq<Field>>) {
    forall i, f :: 0 <= i < |blocks| && f in blocks[i] ==> Readable(f.name)
  }

  /** Over every run of header blocks the decoder sees exactly the fields that were packed. */
  lemma {:induction false} RunInStep(entries: seq<Entry>, stat: map<Str, nat>, e: Enc, blocks: seq<seq<Field>>, table: seq<Field>)
    requires StaticOk(entries, stat) && InStep(e, table) && AllReadable(blocks)
    ensures var (e', bs) := PackRun(stat, e, blocks);
            && DecodeRun(entries, table, e.limit, bs).Some?
            && DecodeRun(entries, table, e.limit, bs).value.0 == blocks
            && InStep(e', DecodeRun(entries, table, e.limit, bs).value.1)
    decreases |blocks|
  {
    hide StaticOk, PackFields, DecodeBlock, Readable;
    if blocks != [] {
      var e0 := e.(used := |e.live|);
      assert InStep(e0, table);
      FieldsInStep(entries, stat, e0, blocks[0], table);
      var (e1, b) := PackBlock(stat, e, blocks[0]);
      var d := DecodeBlock(entries, table, e.limit, b);
      RunInStep(entries, stat, e1, blocks[1..], d.value.1);
      assert blocks == [blocks[0]] + blocks[1..];
    }
  }

  // ------------------------------------------------------- which names are safe

  /** From empty tables under this limit, what is packed is what a decoder reads. */
  ghost predicate ReadsBack(entries: seq<Entry>, stat: map<Str, nat>, limit: nat, blocks: seq<seq<Field>>) {
    var d := DecodeRun(entries, [], limit, PackRun(stat, Enc(limit, [], 0), blocks).1);
    d.Some? && d.value.0 == blocks
  }

  /** After any blocks with readable names, under any limit, a field of this name is read back with them. */
  ghost predicate Safe(entries: seq<Entry>, stat: map<Str, nat>, name: Str) {
    forall limit, blocks, v :: AllReadable(blocks) ==> ReadsBack(entries, stat, limit, blocks + [[Field(name, v)]])
  }

  /** A name is read back in every run exactly if it does not contain the separator or is too long to be looked up. */
  lemma SafeNames(entries: seq<Entry>, stat: map<Str, nat>, name: Str)
    requires StaticOk(entries, stat)
    ensures Safe(entries, stat, name) <==> Separated(name) || |name| + 32 >= HEADER_SIZE
  {
    hide StaticOk, ReadsBack, Separated;
    if Readable(name) {
      forall limit, blocks, v | AllReadable(blocks) ensures ReadsBack(entries, stat, limit, blocks + [[Field(name, v)]]) {
        AlwaysReadsBack(entries, stat, limit, blocks + [[Field(name, v)]]);
      }
    } else {
      var g := Confusable(name);
      var limit := Size(g);
      ConfusedRun(entries, stat, limit, name, g);
      assert [[g], [Field(name, [])]] == [[g]] + [[Field(name, [])]];
      assert AllReadable([[g]]);
    }
  }

  lemma AlwaysReadsBack(entries: seq<Entry>, stat: map<Str, nat>, limit: nat, blocks: seq<seq<Field>>)
    requires StaticOk(entries, stat) && AllReadable(blocks)
    ensures ReadsBack(entries, stat, limit, blocks)
  {
    hide StaticOk, AllReadable, PackRun, DecodeRun;
    assert InStep(Enc(limit, [], 0), []);
    RunInStep(entries, stat, Enc(limit, [], 0), blocks, []);
  }

  lemma Confusable(name: Str) returns (g: Field)
    requires !Separated(name)
    ensures Separated(g.name) && Key(g) == Key(Field(name, [])) && Size(g) == |name| + 32 && g.name != name
  {
    var i := FirstSeparator(name, 0);
    g := Field(name[..i], name[i + 2..] + [COLON, SPACE]);
    assert name == name[..i] + [COLON, SPACE] + name[i + 2..];
  }

  lemma FirstSeparator(name: Str, from: nat) returns (i: nat)
    requires !Separated(name) && from < |name|
    requires forall k :: 0 <= k < from && k + 1 < |name| ==> !(name[k] == COLON && name[k + 1] == SPACE)
    ensures i + 1 < |name| && name[i] == COLON && name[i + 1] == SPACE && Separated(name[..i])
    decreases |name| - from
  {
    if from + 1 < |name| && name[from] == COLON && name[from + 1] == SPACE {
      i := from;
    } else {
      i := FirstSeparator(name, from + 1);
    }
  }

  /** Once a field's key can be looked up, another field with that key and size is packed in its place. */
  lemma SamePack(stat: map<Str, nat>, e: Enc, f: Field, g: Field)
    requires e.used <= |e.live| && Key(f) == Key(g) && Size(f) == Size(g) < HEADER_SIZE
    requires Key(g) in stat || Find(e.live, Key(g)) >= 0
    ensures PackField(stat, e, f) == PackField(stat, e, g)
  {
    hide Key, Size, Add;
  }

  lemma NowFound(stat: map<Str, nat>, g: Field)
    requires Size(g) < HEADER_SIZE
    ensures var e := PackField(stat, Enc(Size(g), [], 0), g).0; Key(g) in stat || Find(e.live, Key(g)) >= 0
  {
    hide Key, Size;
    var e := Enc(Size(g), [], 0);
    assert Add(e, g) == (e.(live := [] + [g]), true);
    assert [] + [g] == [g];
    assert Find([g], Key(g)) == 0;
  }

  lemma OneField(stat: map<Str, nat>, e: Enc, f: Field)
    ensures var e0 := e.(used := |e.live|);
            PackBlock(stat, e, [f]) == (PackField(stat, e0, f).0, Wire(PackField(stat, e0, f).1) + [])
  {
    hide PackField, Wire;
    var (e1, r) := PackField(stat, e.(used := |e.live|), f);
    assert [f][1..] == [] && PackFields(stat, e1, []) == (e1, []);
  }

  lemma TwoBlocks(stat: map<Str, nat>, e: Enc, a: seq<Field>, b: seq<Field>)
    ensures var (e1, x) := PackBlock(stat, e, a);
            PackRun(stat, e, [a, b]).1 == [x, PackBlock(stat, e1, b).1]
  {
    hide PackBlock;
    var (e1, x) := PackBlock(stat, e, a);
    var (e2, y) := PackBlock(stat, e1, b);
    assert [a, b][1..] == [b] && [b][1..] == [];
    assert PackRun(stat, e1, [b]) == (e2, [y] + []);
    assert [x] + [y] == [x, y];
  }

  /** The second field is packed as the first, so the decoder reads the first one twice. */
  lemma ConfusedRun(entries: seq<Entry>, stat: map<Str, nat>, limit: nat, name: Str, g: Field)
    requires StaticOk(entries, stat) && limit == Size(g) && |name| + 32 < HEADER_SIZE
    requires Separated(g.name) && Key(g) == Key(Field(name, [])) && Size(g) == |name| + 32 && g.name != name
    ensures !ReadsBack(entries, stat, limit, [[g], [Field(name, [])]])
  {
    hide StaticOk, Key, Separated, Wire, DecodeRun, PackField, PackBlock, PackRun, Find;
    var f, e := Field(name, []), Enc(limit, [], 0);
    OneField(stat, e, g);
    NowFound(stat, g);
    var e1 := PackBlock(stat, e, [g]).0;
    OneField(stat, e1, f);
    OneField(stat, e1, g);
    SamePack(stat, e1.(used := |e1.live|), f, g);
    TwoBlocks(stat, e, [g], [f]);
    TwoBlocks(stat, e, [g], [g]);
    assert PackRun(stat, e, [[g], [f]]).1 == PackRun(stat, e, [[g], [g]]).1;
    AlwaysReadsBack(entries, stat, limit, [[g], [g]]);
    assert [[g], [g]][1] == [g] && [[g], [f]][1] == [f] && [g][0] == g && [f][0] == f;
  }
}
