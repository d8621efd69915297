/** The receiving end of a cluster connection: per-connection partial packets in a hash table and complete
    packets in a ring that grows when it is full. */
module ClusterQueue {
  import opened ClusterFraming

  const HASH_SIZE: nat := 2048
  const QUEUE_SIZE: nat := 2048

  datatype Packet = Packet(fd: nat, body: Bytes)

  /** A packet being received: the header bytes, then the body; `started` once the body has a buffer. */
  datatype Entry = Entry(fd: nat, header: Bytes, started: bool, data: Bytes)

  ghost predicate EntryOk(limit: nat, e: Entry) {
    && |e.header| <= 4 && (e.started <==> |e.header| == 4) && (!e.started ==> e.data == [])
    && Partial(limit, e.header + e.data)
  }

  // ---------------------------------------------------------------------- the ring

  /** From the tail up to the head, around the end. */
  function Ring(queue: seq<Packet>, tail: nat, head: nat): seq<Packet>
    requires tail < |queue| && head < |queue|
  {
    if tail <= head then queue[tail..head] else queue[tail..] + queue[..head]
  }

  function Next(h: nat, n: nat): nat { if h + 1 == n then 0 else h + 1 }

  lemma NextIs(h: nat, n: nat)
    requires h < n
    ensures (h + 1) % n == Next(h, n) < n
  {
    if h + 1 < n { SmallMod(h + 1, n); } else { Around(n, n); }
  }

  lemma SmallMod(h: nat, n: nat)
    requires h < n
    ensures h % n == h
  {
  }

  lemma Around(h: nat, count: nat)
    requires 0 < count && h < 2 * count
    ensures h % count == if h < count then h else h - count
  {
    var d := h / count;
    Multiples(count, d);
    assert h == count * d + h % count;
  }

  lemma Multiples(n: nat, d: nat)
    ensures (d >= 2 ==> n * d >= 2 * n) && (d == 1 ==> n * d == n) && (d == 0 ==> n * d == 0)
  {
    if d >= 2 { assert n * d == 2 * n + n * (d - 2); }
  }

  lemma RingPut(queue: seq<Packet>, tail: nat, head: nat, p: Packet)
    requires tail < |queue| && head < |queue|
    ensures var queue', head' := queue[head := p], Next(head, |queue|);
            if head' != tail then Ring(queue', tail, head') == Ring(queue, tail, head) + [p]
            else queue'[tail..] + queue'[..tail] == Ring(queue, tail, head) + [p]
  {
    var queue' := queue[head := p];
    if tail <= head {
      assert queue'[tail..head + 1] == queue[tail..head] + [p];
    } else {
      assert queue'[tail..] == queue[tail..] && queue'[..head + 1] == queue[..head] + [p];
    }
  }

  lemma RingTake(queue: seq<Packet>, tail: nat, head: nat)
    requires tail < |queue| && head < |queue| && tail != head
    ensures Ring(queue, tail, head) == [queue[tail]] + Ring(queue, Next(tail, |queue|), head)
  {
    if tail < head {
      assert queue[tail..head] == [queue[tail]] + queue[tail + 1..head];
    } else {
      var x, y := queue[tail + 1..], queue[..head];
      assert queue[tail..] == [queue[tail]] + x;
      assert ([queue[tail]] + x) + y == [queue[tail]] + (x + y);
      if tail + 1 == |queue| { assert x + y == queue[0..head]; }
    }
  }

  // ---------------------------------------------------------------- the hash table

  type Table = seq<seq<Entry>>

  function Bucket(fd: nat): (i: nat)
    ensures i < HASH_SIZE
  {
    fd % HASH_SIZE
  }

  /** A bucket holds entries of its own connections only, each once. */
  ghost predicate BucketOk(b: seq<Entry>, i: nat, held: map<nat, Entry>) {
    && (forall e :: e in b ==> Bucket(e.fd) == i && e.fd in held && held[e.fd] == e)
    && (forall j, k :: 0 <= j < k < |b| ==> b[j].fd != b[k].fd)
  }

  /** The buckets hold exactly the entries of `held`, each in the bucket of its connection and once. */
  ghost predicate TableOk(table: Table, held: map<nat, Entry>) {
    && |table| == HASH_SIZE
    && (forall i :: 0 <= i < HASH_SIZE ==> BucketOk(table[i], i, held))
    && (forall fd :: fd in held ==> held[fd].fd == fd && held[fd] in table[Bucket(fd)])
  }

  lemma TableRemoved(table: Table, held: map<nat, Entry>, fd: nat, j: nat)
    requires TableOk(table, held)
    requires var b := table[Bucket(fd)]; j < |b| && b[j].fd == fd
    ensures var b := table[Bucket(fd)];
            fd in held && held[fd] == b[j] && TableOk(table[Bucket(fd) := b[..j] + b[j + 1..]], held - {fd})
  {
    hide Bucket;
    var i := Bucket(fd);
    var b := table[i];
    var table' := table[i := b[..j] + b[j + 1..]];
    assert BucketOk(b, i, held) && b[j] in b;
    BucketRemoved(b, j);
    forall k | 0 <= k < HASH_SIZE ensures BucketOk(table'[k], k, held - {fd}) {
      assert BucketOk(table[k], k, held);
    }
    hide BucketOk;
  }

  lemma BucketRemoved(b: seq<Entry>, j: nat)
    requires j < |b| && forall k, l :: 0 <= k < l < |b| ==> b[k].fd != b[l].fd
    ensures var b' := b[..j] + b[j + 1..];
            && (forall e :: e in b' <==> e in b && e.fd != b[j].fd)
            && (forall k, l :: 0 <= k < l < |b'| ==> b'[k].fd != b'[l].fd)
  {
    var b' := b[..j] + b[j + 1..];
    assert forall k :: 0 <= k < |b'| ==> b'[k] == if k < j then b[k] else b[k + 1];
    forall e | e in b && e.fd != b[j].fd ensures e in b' {
      var k :| 0 <= k < |b| && b[k] == e;
      assert b'[if k < j then k else k - 1] == e;
    }
  }

  lemma TablePut(table: Table, held: map<nat, Entry>, e: Entry)
    requires TableOk(table, held) && e.fd !in held
    ensures TableOk(table[Bucket(e.fd) := [e] + table[Bucket(e.fd)]], held[e.fd := e])
  {
    hide Bucket;
    var i := Bucket(e.fd);
    var table' := table[i := [e] + table[i]];
    forall k | 0 <= k < HASH_SIZE ensures BucketOk(table'[k], k, held[e.fd := e]) {
      assert BucketOk(table[k], k, held);
      forall j | 0 <= j < |table[k]| ensures table[k][j].fd != e.fd { assert table[k][j] in table[k]; }
    }
    hide BucketOk;
  }

  lemma TableSize(table: Table, held: map<nat, Entry>)
    requires TableOk(table, held)
    ensures |table| == HASH_SIZE
  {
  }

  /** A connection is not in its bucket exactly if it has no entry. */
  lemma NotThere(table: Table, held: map<nat, Entry>, fd: nat)
    requires TableOk(table, held) && forall k :: 0 <= k < |table[Bucket(fd)]| ==> table[Bucket(fd)][k].fd != fd
    ensures fd !in held
  {
    hide Bucket, BucketOk;
  }

  // ------------------------------------------------------------------ one packet

  /** What the bytes at hand amount to: not yet a packet, an error, or a packet in their first `n` bytes. */
  datatype Front = More | Bad(error: Error) | One(n: nat)

  function First(limit: nat, b: Bytes): (f: Front)
    ensures f.One? ==> 4 <= f.n <= |b|
  {
    if |b| < 4 then More
    else
      var size := FromLe(b[..4]);
      if SizeError(limit, size).Some? then Bad(SizeError(limit, size).value)
      else if |b| < 4 + size then More
      else if !BodyOk(b[4..4 + size]) then Bad(PacketSize)
      else One(4 + size)
  }

  function Behind(body: Bytes, p: Parsed): Parsed { Parsed([body] + p.packets, p.rest, p.error) }

  lemma ParseFirst(limit: nat, b: Bytes)
    ensures var f := First(limit, b);
            && (f.More? ==> Parse(limit, b) == Parsed([], b, None) && Partial(limit, b))
            && (f.Bad? ==> Parse(limit, b) == Parsed([], [], Some(f.error)))
            && (f.One? ==> Parse(limit, b) == Behind(b[4..f.n], Parse(limit, b[f.n..])))
  {
    hide FromLe, BodyOk;
  }

  function Tag(fd: nat, packets: seq<Bytes>): (r: seq<Packet>)
    ensures |r| == |packets| && forall i :: 0 <= i < |r| ==> r[i] == Packet(fd, packets[i])
  {
    seq(|packets|, i requires 0 <= i < |packets| => Packet(fd, packets[i]))
  }

  function Code(e: Error): (r: int)
    ensures r < 0
  {
    if e.HardLimit? then -1 else -2
  }

  /** One call of push_once: what it took, what is pending afterwards, and the packet it completed if any. */
  ghost predicate Fed(limit: nat, fd: nat, r: Bytes, buff: Bytes, eat: int, r': Bytes, before: seq<Packet>, after: seq<Packet>) {
    var f := First(limit, r + buff);
    && (f.More? ==> eat == |buff| && r' == r + buff && after == before)
    && (f.Bad? ==> eat == Code(f.error) && r' == [] && after == before)
    && (f.One? ==> f.n > |r| && eat == f.n - |r| && r' == [] && after == before + [Packet(fd, (r + buff)[4..f.n])])
  }

  /** Bytes that are not a packet yet make one only with more bytes. */
  lemma FrontGrows(limit: nat, r: Bytes, buff: Bytes)
    requires Partial(limit, r)
    ensures First(limit, r + buff).One? ==> First(limit, r + buff).n > |r|
  {
    hide FromLe, BodyOk;
    if |r| >= 4 { assert (r + buff)[..4] == r[..4]; }
  }

  /** Copies header bytes as far as they are there. */
  method FillHeader(e: Entry, buff: Bytes) returns (e': Entry, eat: nat)
    requires |e.header| <= 4 && (|e.header| < 4 ==> e.data == [])
    ensures e' == e.(header := e'.header) && eat <= |buff| && |e'.header| <= 4
    ensures |e.header| + |e.data| + eat <= |e.header + e.data + buff|
    ensures e'.header + e'.data == (e.header + e.data + buff)[..|e.header| + |e.data| + eat]
    ensures |e'.header| < 4 ==> eat == |buff|
  {
    e', eat := e, 0;
    if |e.header| < 4 {
      var need := 4 - |e.header|;
      var copy := if need < |buff| then need else |buff|;
      e' := e.(header := e.header + buff[..copy]);
      eat := copy;
    }
  }

  /** Copies body bytes up to the size of the packet. */
  method FillBody(e: Entry, size: nat, buff: Bytes, from: nat) returns (e': Entry, eat: nat)
    requires |e.data| <= size && from <= |buff|
    ensures from <= eat <= |buff| && e' == e.(data := e.data + buff[from..eat]) && |e'.data| <= size
    ensures |e'.data| < size ==> eat == |buff|
  {
    var need, left := size - |e.data|, |buff| - from;
    var copy := if need < left then need else left;
    e' := e.(data := e.data + buff[from..from + copy]);
    eat := from + copy;
  }

  lemma HeaderIs(e: Entry, t: Bytes, n: nat)
    requires |e.header| == 4 && n <= |t| && e.header + e.data == t[..n]
    ensures |t| >= 4 && t[..4] == e.header
  {
    assert t[..n][..4] == t[..4];
    assert (e.header + e.data)[..4] == e.header;
  }

  lemma BodyIs(e: Entry, r: Bytes, buff: Bytes, eat: nat)
    requires eat <= |buff| && |e.header| == 4 && e.header + e.data == (r + buff)[..|r| + eat]
    ensures 4 + |e.data| == |r| + eat && (r + buff)[4..4 + |e.data|] == e.data
  {
    assert (e.header + e.data)[4..] == e.data;
    assert (r + buff)[..|r| + eat][4..] == (r + buff)[4..|r| + eat];
  }

  lemma Unstarted(limit: nat, fd: nat)
    ensures EntryOk(limit, Entry(fd, [], false, []))
  {
  }

  /** Fills a partial packet from the buffer: it stays partial, goes wrong, or is complete. */
  method Feed(limit: nat, e0: Entry, buff: Bytes) returns (e: Entry, eat: nat, f: Front)
    requires EntryOk(limit, e0)
    ensures f == First(limit, e0.header + e0.data + buff)
    ensures f.More? ==> eat == |buff| && e.fd == e0.fd && EntryOk(limit, e) && e.header + e.data == e0.header + e0.data + buff
    ensures f.One? ==> |e0.header| + |e0.data| < f.n && eat == f.n - |e0.header| - |e0.data|
    ensures f.One? ==> e.data == (e0.header + e0.data + buff)[4..f.n]
  {
    hide FromLe, BodyOk;
    ghost var r := e0.header + e0.data;
    ghost var t := r + buff;
    assert |e0.header| == 4 ==> r[..4] == e0.header == t[..4];
    FrontGrows(limit, r, buff);
    e, eat := FillHeader(e0, buff);
    if |e.header| < 4 {
      assert t[..|t|] == t;
      f := More;
      return;
    }
    HeaderIs(e, t, |r| + eat);
    var size := FromLe(e.header);
    if !e.started {
      var err := SizeError(limit, size);
      if err.Some? { return e, eat, Bad(err.value); }
      e := e.(started := true);
    }
    assert e.data == e0.data;
    e, eat, f := FeedBody(limit, e, size, r, buff, eat);
  }

  method FeedBody(limit: nat, e0: Entry, size: nat, ghost r: Bytes, buff: Bytes, from: nat) returns (e: Entry, eat: nat, f: Front)
    requires from <= |buff| && |e0.header| == 4 && e0.started && e0.header + e0.data == (r + buff)[..|r| + from]
    requires size == FromLe(e0.header) && SizeError(limit, size).None? && |e0.data| < size
    requires (r + buff)[..4] == e0.header
    ensures f == First(limit, r + buff)
    ensures f.More? ==> eat == |buff| && e.fd == e0.fd && EntryOk(limit, e) && e.header + e.data == r + buff
    ensures f.One? ==> eat == f.n - |r| && e.data == (r + buff)[4..f.n]
  {
    hide FromLe, BodyOk;
    e, eat := FillBody(e0, size, buff, from);
    Extended(e0.header, e0.data, r, buff, from, eat);
    BodyIs(e, r, buff, eat);
    if |e.data| >= size {
      f := if BodyOk(e.data) then One(4 + size) else Bad(PacketSize);
    } else {
      f := More;
      assert (r + buff)[..|r + buff|] == r + buff;
    }
  }

  lemma Extended(h: Bytes, d: Bytes, r: Bytes, buff: Bytes, from: nat, to: nat)
    requires from <= to <= |buff| && h + d == (r + buff)[..|r| + from]
    ensures h + (d + buff[from..to]) == (r + buff)[..|r| + to]
  {
    assert h + (d + buff[from..to]) == (h + d) + buff[from..to];
    assert (r + buff)[..|r| + to] == (r + buff)[..|r| + from] + buff[from..to];
  }

  /** Packets found earlier, in front of what the rest parses to. */
  function After(packets: seq<Bytes>, p: Parsed): Parsed { Parsed(packets + p.packets, p.rest, p.error) }

  lemma FoldOne(limit: nat, fd: nat, r: Bytes, d: Bytes, n: nat, sofar: seq<Bytes>)
    requires First(limit, r + d) == One(n) && n > |r|
    ensures var b := (r + d)[4..n];
            && After(sofar, Parse(limit, r + d)) == After(sofar + [b], Parse(limit, [] + d[n - |r|..]))
            && Tag(fd, sofar + [b]) == Tag(fd, sofar) + [Packet(fd, b)]
  {
    ParseFirst(limit, r + d);
    hide Parse, First;
    var p := Parse(limit, (r + d)[n..]);
    assert [] + d[n - |r|..] == (r + d)[n..];
    var b := (r + d)[4..n];
    assert sofar + ([b] + p.packets) == (sofar + [b]) + p.packets;
  }

  class NetPacket {
    var cap: nat
    var head: nat
    var tail: nat
    var limit: nat
    var queue: seq<Packet>
    var table: Table
    ghost var held: map<nat, Entry>

    ghost predicate RingOk()
      reads this
    {
      |queue| == cap && tail < cap && head < cap
    }

    ghost predicate Valid()
      reads this
    {
      && RingOk() && TableOk(table, held)
      && (forall fd :: fd in held ==> EntryOk(limit, held[fd]))
    }

    ghost function Contents(): seq<Packet>
      reads this
      requires RingOk()
    {
      Ring(queue, tail, head)
    }

    /** The bytes received for a connection since its last complete packet. */
    ghost function Pending(fd: nat): Bytes
      reads `held
    {
      if fd in held then held[fd].header + held[fd].data else []
    }

    constructor (hardlimit: nat)
      ensures Valid() && limit == hardlimit && Contents() == [] && held == map[]
    {
      cap, head, tail, limit := QUEUE_SIZE, 0, 0, hardlimit;
      queue := seq(QUEUE_SIZE, _ => Packet(0, []));
      table := seq(HASH_SIZE, _ => []);
      held := map[];
    }

    /** The packets move to the start of a larger ring, in order. */
    method ExpandQueue()
      requires RingOk() && head == tail
      modifies `queue, `cap, `head, `tail
      ensures RingOk() && Contents() == old(queue[tail..] + queue[..tail]) && cap == old(cap) + QUEUE_SIZE
    {
      var count, h := cap, tail;
      var bigger := [];
      ghost var all := queue[tail..] + queue[..tail];
      var i := 0;
      while i < count
        invariant 0 <= i <= count && h == tail + i && bigger == all[..i]
        invariant queue == old(queue) && tail == old(tail) && cap == count
      {
        Around(h, count);
        assert queue[h % count] == all[i];
        bigger := bigger + [queue[h % count]];
        h := h + 1;
        i := i + 1;
      }
      cap := cap + QUEUE_SIZE;
      queue := bigger + seq(QUEUE_SIZE, _ => Packet(0, []));
      tail, head := 0, count;
      assert queue[0..count] == all;
    }

    method PushComplete(p: Packet)
      requires RingOk()
      modifies `queue, `cap, `head, `tail
      ensures RingOk() && Contents() == old(Contents()) + [p]
    {
      RingPut(queue, tail, head, p);
      NextIs(head, cap);
      var h := head;
      head := (head + 1) % cap;
      queue := queue[h := p];
      if head == tail { ExpandQueue(); }
    }

    /** Packets come out in the order they went in. */
    method PopPacket() returns (p: Option<Packet>)
      requires RingOk()
      modifies `tail
      ensures RingOk() && (p.None? <==> old(Contents()) == []) && (p.None? ==> Contents() == [])
      ensures p.Some? ==> old(Contents()) == [p.value] + Contents()
    {
      if tail == head { return None; }
      RingTake(queue, tail, head);
      NextIs(tail, cap);
      p := Some(queue[tail]);
      tail := (tail + 1) % cap;
    }

    /** Takes the partial packet of a connection out of the table. */
    method GetIncomplete(fd: nat) returns (e: Option<Entry>)
      requires Valid()
      modifies `table, `held
      ensures Valid() && held == old(held) - {fd}
      ensures if fd in old(held) then e == Some(old(held)[fd]) && e.value.fd == fd else e == None
    {
      hide Bucket, EntryOk;
      TableSize(table, held);
      var i := Bucket(fd);
      var j := 0;
      hide TableOk;
      while j < |table[i]|
        invariant 0 <= j <= |table[i]| && table == old(table) && held == old(held)
        invariant forall k :: 0 <= k < j ==> table[i][k].fd != fd
      {
        if table[i][j].fd == fd {
          TableRemoved(table, held, fd, j);
          assert table[i][j].fd == fd;
          e := Some(table[i][j]);
          table := table[i := table[i][..j] + table[i][j + 1..]];
          held := held - {fd};
          return;
        }
        j := j + 1;
      }
      NotThere(table, held, fd);
      assert held - {fd} == held;
      return None;
    }

    method PutIncomplete(e: Entry)
      requires Valid() && e.fd !in held && EntryOk(limit, e)
      modifies `table, `held
      ensures Valid() && held == old(held)[e.fd := e]
    {
      hide Bucket, TableOk, EntryOk;
      TableSize(table, held);
      TablePut(table, held, e);
      table := table[Bucket(e.fd) := [e] + table[Bucket(e.fd)]];
      held := held[e.fd := e];
    }

    /** Takes in bytes up to the end of one packet; returns how many, or a negative error. */
    method PushOnce(fd: nat, buff: Bytes) returns (eat: int)
      requires Valid()
      modifies this
      ensures Valid() && limit == old(limit) && held - {fd} == old(held) - {fd}
      ensures Fed(limit, fd, old(Pending(fd)), buff, eat, Pending(fd), old(Contents()), Contents())
    {
      hide First, Ring, TableOk, EntryOk, Partial;
      Unstarted(limit, fd);
      ghost var r := Pending(fd);
      var found := GetIncomplete(fd);
      var e := if found.Some? then found.value else Entry(fd, [], false, []);
      assert r == e.header + e.data;
      var f;
      e, eat, f := Feed(limit, e, buff);
      match f
      case More => PutIncomplete(e);
      case Bad(err) => eat := Code(err);
      case One(_) => PushComplete(Packet(fd, e.data));
    }

    /** Takes in a chunk: the packets it completes, and its error, are those of the connection's stream. */
    method Push(fd: nat, data: Bytes) returns (err: Option<Error>)
      requires Valid()
      modifies this
      ensures Valid() && limit == old(limit) && held - {fd} == old(held) - {fd}
      ensures var p := Parse(limit, old(Pending(fd)) + data);
              && Contents() == old(Contents()) + Tag(fd, p.packets) && err == p.error
              && Pending(fd) == (if p.error.None? then p.rest else []) && |Pending(fd)| <= 4 + limit
    {
      hide FromLe, BodyOk, Ring, TableOk, Parse, First, EntryOk;
      RestFits(limit, Pending(fd) + data);
      var d, again := data, true;
      ghost var whole, sofar := Parse(limit, Pending(fd) + data), [];
      err := None;
      while again
        invariant Valid() && limit == old(limit) && held - {fd} == old(held) - {fd}
        invariant Contents() == old(Contents()) + Tag(fd, sofar)
        invariant whole == After(sofar, Parse(limit, Pending(fd) + d)) && (!again ==> d == [])
        decreases |d| + if again then 1 else 0
      {
        ghost var r := Pending(fd);
        ghost var f := First(limit, r + d);
        ParseFirst(limit, r + d);
        var n := PushOnce(fd, d);
        if n < 0 {
          err := Some(if n == -1 then HardLimit else PacketSize);
          assert sofar + [] == sofar;
          return;
        }
        if f.One? {
          FoldOne(limit, fd, r, d, f.n, sofar);
          sofar := sofar + [(r + d)[4..f.n]];
        } else {
          assert (r + d) + [] == r + d;
        }
        d := d[n..];
        again := d != [];
      }
      assert Pending(fd) + d == Pending(fd);
      PendingParses(fd);
      assert sofar + [] == sofar;
    }

    /** Any run of arrivals on a fresh queue: the packets come out as `Got` says, the errors as `Reported` says. */
    method PushAll(run: seq<Arrival>) returns (errors: seq<Option<Error>>)
      requires Valid() && held == map[] && Contents() == []
      modifies this
      ensures Valid() && limit == old(limit) && Contents() == Got(limit, run)
      ensures |errors| == |run| && forall i :: 0 <= i < |run| ==> errors[i] == Reported(limit, run, i)
      ensures forall fd :: Pending(fd) == Rest(limit, run, fd)
    {
      hide Ring, TableOk, EntryOk, Parse, First, Got, Rest;
      NothingGot(limit);
      assert run[..0] == [];
      var i := 0;
      errors := [];
      while i < |run|
        invariant 0 <= i <= |run| && Valid() && limit == old(limit) && Contents() == Got(limit, run[..i])
        invariant |errors| == i && forall k :: 0 <= k < i ==> errors[k] == Reported(limit, run, k)
        invariant forall fd :: Pending(fd) == Rest(limit, run[..i], fd)
      {
        ghost var before := held;
        var err := Push(run[i].fd, run[i].chunk);
        errors := errors + [err];
        GotStep(limit, run, i);
        forall fd ensures Pending(fd) == Rest(limit, run[..i + 1], fd) {
          RestStep(limit, run, i, fd);
          if fd != run[i].fd { OthersKeep(before, held, run[i].fd, fd); }
        }
        i := i + 1;
      }
      assert run[..i] == run;
    }

    lemma PendingParses(fd: nat)
      requires Valid()
      ensures Parse(limit, Pending(fd)) == Parsed([], Pending(fd), None)
    {
      hide FromLe, BodyOk;
    }
  }

  // ------------------------------------------------------- runs over many connections

  datatype Arrival = Arrival(fd: nat, chunk: Bytes)

  /** What is pending for a connection after a run. */
  function Rest(limit: nat, run: seq<Arrival>, fd: nat): Bytes
    decreases |run|
  {
    if run == [] then []
    else
      var before, last := Rest(limit, run[..|run| - 1], fd), run[|run| - 1];
      if last.fd != fd then before
      else
        var p := Parse(limit, before + last.chunk);
        if p.error.None? then p.rest else []
  }

  /** The packets completed by a run, in order. */
  function Got(limit: nat, run: seq<Arrival>): seq<Packet>
    decreases |run|
  {
    if run == [] then []
    else
      var before, last := run[..|run| - 1], run[|run| - 1];
      Got(limit, before) + Tag(last.fd, Parse(limit, Rest(limit, before, last.fd) + last.chunk).packets)
  }

  lemma NothingGot(limit: nat)
    ensures Got(limit, []) == [] && forall fd :: Rest(limit, [], fd) == []
  {
  }

  lemma GotStep(limit: nat, run: seq<Arrival>, i: nat)
    requires i < |run|
    ensures Got(limit, run[..i + 1])
            == Got(limit, run[..i]) + Tag(run[i].fd, Parse(limit, Rest(limit, run[..i], run[i].fd) + run[i].chunk).packets)
  {
    hide Parse, Tag, Rest;
    assert run[..i + 1][..i] == run[..i];
  }

  lemma RestStep(limit: nat, run: seq<Arrival>, i: nat, fd: nat)
    requires i < |run|
    ensures var before := Rest(limit, run[..i], fd); var p := Parse(limit, before + run[i].chunk);
            Rest(limit, run[..i + 1], fd) == if run[i].fd != fd then before else if p.error.None? then p.rest else []
  {
    hide Parse;
    assert run[..i + 1][..i] == run[..i];
  }

  lemma OthersKeep(before: map<nat, Entry>, after: map<nat, Entry>, fd: nat, g: nat)
    requires after - {fd} == before - {fd} && g != fd
    ensures (g in after <==> g in before) && (g in after ==> after[g] == before[g])
  {
    assert g in after <==> g in after - {fd};
    assert g in before <==> g in before - {fd};
    assert g in after ==> after[g] == (after - {fd})[g];
    assert g in before ==> before[g] == (before - {fd})[g];
  }

  /** The error the i-th push of a run returns. */
  function Reported(limit: nat, run: seq<Arrival>, i: nat): Option<Error>
    requires i < |run|
  {
    Parse(limit, Rest(limit, run[..i], run[i].fd) + run[i].chunk).error
  }

  function Of(run: seq<Arrival>, fd: nat): seq<Bytes> {
    if run == [] then []
    else Of(run[..|run| - 1], fd) + if run[|run| - 1].fd == fd then [run[|run| - 1].chunk] else []
  }

  function Bodies(ps: seq<Packet>, fd: nat): seq<Bytes> {
    if ps == [] then []
    else Bodies(ps[..|ps| - 1], fd) + if ps[|ps| - 1].fd == fd then [ps[|ps| - 1].body] else []
  }

  lemma {:induction false} BodiesConcat(a: seq<Packet>, b: seq<Packet>, fd: nat)
    ensures Bodies(a + b, fd) == Bodies(a, fd) + Bodies(b, fd)
  {
    if b == [] {
      assert a + b == a;
    } else {
      var c := b[..|b| - 1];
      BodiesConcat(a, c, fd);
      assert (a + b)[..|a + b| - 1] == a + c && (a + b)[|a + b| - 1] == b[|b| - 1];
      assert Bodies(a + b, fd) == Bodies(a + c, fd) + Bodies([b[|b| - 1]], fd);
      assert Bodies(b, fd) == Bodies(c, fd) + Bodies([b[|b| - 1]], fd);
    }
  }

  lemma {:induction false} BodiesOfTag(fd: nat, packets: seq<Bytes>, g: nat)
    ensures Bodies(Tag(fd, packets), g) == if fd == g then packets else []
  {
    if packets != [] {
      var n := |packets| - 1;
      BodiesOfTag(fd, packets[..n], g);
      assert Tag(fd, packets)[..n] == Tag(fd, packets[..n]);
      assert packets == packets[..n] + [packets[n]];
    }
  }

  /** The whole stream of a connection, parsed in one go. */
  function Whole(limit: nat, run: seq<Arrival>, fd: nat): Parsed { Parse(limit, Concat(Of(run, fd))) }

  /** One more arrival: what the stream parses to, and what the connection has got. */
  lemma OneMore(limit: nat, run: seq<Arrival>, fd: nat)
    requires run != []
    ensures var before, last := run[..|run| - 1], run[|run| - 1];
            var p := Parse(limit, Rest(limit, before, last.fd) + last.chunk);
            if last.fd == fd
            then && Whole(limit, run, fd) == Resume(limit, Whole(limit, before, fd), last.chunk)
                 && Bodies(Got(limit, run), fd) == Bodies(Got(limit, before), fd) + p.packets
            else && Whole(limit, run, fd) == Whole(limit, before, fd)
                 && Bodies(Got(limit, run), fd) == Bodies(Got(limit, before), fd)
  {
    hide Parse, Bodies, Tag;
    var before, last := run[..|run| - 1], run[|run| - 1];
    var past := Of(before, fd);
    var p := Parse(limit, Rest(limit, before, last.fd) + last.chunk);
    BodiesConcat(Got(limit, before), Tag(last.fd, p.packets), fd);
    BodiesOfTag(last.fd, p.packets, fd);
    if last.fd == fd {
      assert Of(run, fd)[..|past|] == past && Of(run, fd)[|past|] == last.chunk;
      assert Concat(Of(run, fd)) == Concat(past) + last.chunk;
      ParseSplit(limit, Concat(past), last.chunk);
    } else {
      assert Of(run, fd) == past;
      assert Bodies(Got(limit, before), fd) + [] == Bodies(Got(limit, before), fd);
    }
  }

  /** However connections interleave and chunks are cut, a connection gets the packets of its own stream: all of them
      while the stream is sound, and never fewer than those before its error. */
  lemma {:induction false} EachStreamIsItsOwn(limit: nat, run: seq<Arrival>, fd: nat)
    ensures Whole(limit, run, fd).packets <= Bodies(Got(limit, run), fd)
    ensures Whole(limit, run, fd).error.None? ==>
              Bodies(Got(limit, run), fd) == Whole(limit, run, fd).packets && Rest(limit, run, fd) == Whole(limit, run, fd).rest
    decreases |run|
  {
    hide Parse, Bodies, Tag;
    if run == [] {
      NothingYet(limit, fd);
    } else {
      hide Got, Whole;
      EachStreamIsItsOwn(limit, run[..|run| - 1], fd);
      OneMore(limit, run, fd);
    }
  }

  /** The push that completes a wrong header or body delivers what is before it and reports the error of the whole
      stream; up to it nothing was reported. */
  lemma {:induction false} FirstError(limit: nat, run: seq<Arrival>, fd: nat)
    requires run != [] && run[|run| - 1].fd == fd && Whole(limit, run[..|run| - 1], fd).error.None?
    ensures Bodies(Got(limit, run), fd) == Whole(limit, run, fd).packets
    ensures Reported(limit, run, |run| - 1) == Whole(limit, run, fd).error
    ensures Rest(limit, run, fd) == if Whole(limit, run, fd).error.None? then Whole(limit, run, fd).rest else []
  {
    hide Parse, Bodies, Tag, Got, Whole;
    EachStreamIsItsOwn(limit, run[..|run| - 1], fd);
    OneMore(limit, run, fd);
  }

  /** As long as the stream is sound, no push for the connection reports an error. */
  lemma {:induction false} NoErrorBefore(limit: nat, run: seq<Arrival>, fd: nat, i: nat)
    requires i < |run| && run[i].fd == fd && Whole(limit, run, fd).error.None?
    ensures Reported(limit, run, i) == None
    decreases |run|
  {
    hide Parse, Bodies, Tag, Got, Whole;
    var before := run[..|run| - 1];
    OneMore(limit, run, fd);
    if i == |run| - 1 {
      FirstError(limit, run, fd);
    } else {
      NoErrorBefore(limit, before, fd, i);
      assert before[..i] == run[..i];
    }
  }

  lemma NothingYet(limit: nat, fd: nat)
    ensures Bodies([], fd) == [] && Whole(limit, [], fd) == Parsed([], [], None)
  {
  }
}

