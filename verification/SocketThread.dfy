/** The socket thread: connections in numbered slots, operations queued by workers, writes batched
    through a dirty set. Results of system calls are arbitrary values in their range. */
module SocketThread {
  import opened WriteList

  const SLOTS: nat := 65536
  const DIRTY_MAX: nat := 64
  const WRAP: nat := 0x1_0000_0000

  datatype Op = Connect(sid: nat) | Close(sid: nat) | Send(sid: nat, buf: Buf) | ReadEnable(sid: nat, on: bool)

  /** A slot of the socket pool; `tcp` tells TCP connections from everything else. */
  datatype Slot = Slot(sid: int, version: nat, tcp: bool, dirty: bool,
                       polling: bool, pending: bool, reading: bool, writing: bool,
                       closing: bool, closewait: bool, zombie: bool,
                       wlbytes: nat, offset: nat, wl: seq<Buf>)

  function Blank(version: nat): Slot {
    Slot(-1, version, false, false, false, false, false, false, false, false, false, 0, 0, [])
  }

  function Sid(version: nat, i: nat): nat { version * 65536 + i }

  function IndexOf(sid: int): (i: nat)
    ensures i < SLOTS
  {
    sid % 65536
  }

  lemma SidIndex(version: nat, i: nat)
    requires i < SLOTS
    ensures IndexOf(Sid(version, i)) == i
  {
  }

  // --------------------------------------------------------------- the invariant

  /** What holds of one slot by itself. */
  ghost predicate Local(i: nat, s: Slot) {
    && (s.sid == -1 || s.sid == Sid(s.version, i))
    && (s.sid < 0 ==> s == Blank(s.version))
    && (s.zombie ==> s.wl == [] && !s.polling && !s.writing)
    && (!s.zombie ==> ListOk(s.wl, s.offset))
    && (s.wl != [] ==> s.tcp)
    && (Open(s) ==> s.polling)
    && (s.tcp && s.pending && s.polling ==> s.writing)
  }

  /** A live TCP connection that is connected and not dead. */
  ghost predicate Open(s: Slot) { s.sid >= 0 && s.tcp && !s.pending && !s.zombie }

  /** Data waits only behind a write event or in the dirty set, except in the slot being flushed. */
  ghost predicate Awake(i: nat, s: Slot, hot: int) {
    Open(s) && s.wl != [] ==> s.writing || s.dirty || i == hot
  }

  /** A socket whose connect is still queued has no data yet. */
  ghost predicate Starts(s: Slot, q: seq<Op>) {
    Waiting(s) ==> s.wl == [] && Connect(s.sid) in q
  }

  /** Payload bytes of the sends queued for a socket. */
  function Queued(q: seq<Op>, sid: int): nat {
    if q == [] then 0 else (if q[0].Send? && q[0].sid == sid then |q[0].buf.data| else 0) + Queued(q[1..], sid)
  }

  /** Written bytes and unsent bytes are the payloads in push order; the byte count includes queued sends. */
  ghost predicate Accounted(s: Slot, q: seq<Op>, wire: seq<Byte>, pushed: seq<Byte>) {
    s.sid >= 0 && s.tcp && !s.zombie && ListOk(s.wl, s.offset) ==>
      && wire + Unsent(s.wl, s.offset) == pushed
      && s.wlbytes == (|Unsent(s.wl, s.offset)| + Queued(q, s.sid)) % WRAP
  }

  /** Everything the proofs talk about: the slots, the operations in the order they will be processed, what
      each slot's current connection has written and been given, the dirty set and the slot being flushed
      from it, and the buffers handed over and freed. */
  datatype World = World(slots: seq<Slot>, q: seq<Op>, wire: seq<seq<Byte>>, pushed: seq<seq<Byte>>,
                         dirty: seq<nat>, hot: int, taken: multiset<nat>, freed: multiset<nat>)

  ghost predicate SlotOk(w: World, i: nat)
    requires i < |w.slots| == |w.wire| == |w.pushed|
  {
    && Local(i, w.slots[i]) && Accounted(w.slots[i], w.q, w.wire[i], w.pushed[i])
    && (w.slots[i].dirty ==> i in w.dirty) && Awake(i, w.slots[i], w.hot) && Starts(w.slots[i], w.q)
  }

  ghost predicate SlotsOk(w: World) {
    && |w.slots| == |w.wire| == |w.pushed| == SLOTS
    && (forall i :: 0 <= i < SLOTS ==> SlotOk(w, i))
    && (forall i :: i in w.dirty ==> i < SLOTS)
  }

  /** An operation is for a socket that is or was alive; a connect comes first and finds its socket waiting. */
  ghost predicate OpOk(slots: seq<Slot>, q: seq<Op>, k: nat)
    requires |slots| == SLOTS && k < |q|
  {
    var i := IndexOf(q[k].sid);
    && (q[k].sid < Sid(slots[i].version, i) || slots[i].sid == q[k].sid)
    && (q[k].Connect? && slots[i].sid == q[k].sid ==> Waiting(slots[i]) && forall j :: 0 <= j < k ==> q[j].sid != q[k].sid)
    && (q[k].Send? ==> q[k].buf.data != [])
  }

  ghost predicate Waiting(s: Slot) { s.tcp && s.pending && !s.polling && !s.zombie && s.sid >= 0 }

  ghost predicate OpsOk(slots: seq<Slot>, q: seq<Op>) {
    |slots| == SLOTS && forall k :: 0 <= k < |q| ==> OpOk(slots, q, k)
  }

  ghost function Ids(wl: seq<Buf>): multiset<nat> {
    if wl == [] then multiset{} else Ids(wl[..|wl| - 1]) + multiset{wl[|wl| - 1].id}
  }

  ghost function InOps(q: seq<Op>): multiset<nat> {
    if q == [] then multiset{} else (if q[0].Send? then multiset{q[0].buf.id} else multiset{}) + InOps(q[1..])
  }

  ghost function InSlots(slots: seq<Slot>): multiset<nat> {
    if slots == [] then multiset{} else InSlots(slots[..|slots| - 1]) + Ids(slots[|slots| - 1].wl)
  }

  /** Every buffer handed over is queued, in a write list, or freed, and only one of these. */
  ghost predicate Conserved(w: World) {
    w.taken == w.freed + InOps(w.q) + InSlots(w.slots)
  }

  ghost predicate Good(w: World) {
    SlotsOk(w) && OpsOk(w.slots, w.q) && Conserved(w)
  }

  /** No stranded data: once the dirty set is empty, waiting data has its write event on. */
  lemma NoStranded(w: World, i: nat)
    requires Good(w) && w.dirty == [] && w.hot < 0 && i < SLOTS && Open(w.slots[i]) && w.slots[i].wl != []
    ensures w.slots[i].polling && w.slots[i].writing
  {
    assert SlotOk(w, i);
  }

  lemma SlotFacts(w: World, i: nat)
    requires Good(w) && i < SLOTS
    ensures |w.slots| == |w.wire| == |w.pushed| == SLOTS && Local(i, w.slots[i])
    ensures Awake(i, w.slots[i], w.hot) && Starts(w.slots[i], w.q)
    ensures Accounted(w.slots[i], w.q, w.wire[i], w.pushed[i]) && (w.slots[i].dirty ==> i in w.dirty)
  {
    assert SlotOk(w, i);
  }

  // ----------------------------------------------------------- changing one slot

  lemma {:induction false} InSlotsUpdate(slots: seq<Slot>, i: nat, s: Slot)
    requires i < |slots|
    ensures InSlots(slots[i := s]) + Ids(slots[i].wl) == InSlots(slots) + Ids(s.wl)
  {
    hide Ids;
    var n, slots' := |slots| - 1, slots[i := s];
    assert InSlots(slots') == InSlots(slots'[..n]) + Ids(slots'[n].wl);
    assert InSlots(slots) == InSlots(slots[..n]) + Ids(slots[n].wl);
    if i == n {
      assert slots'[..n] == slots[..n];
    } else {
      InSlotsUpdate(slots[..n], i, s);
      assert slots'[..n] == slots[..n][i := s];
      hide InSlots;
      Swap(InSlots(slots'[..n]), Ids(slots[n].wl), Ids(slots[i].wl), InSlots(slots[..n]), Ids(s.wl));
    }
  }

  lemma Swap(a: multiset<nat>, b: multiset<nat>, c: multiset<nat>, d: multiset<nat>, e: multiset<nat>)
    requires a + c == d + e
    ensures a + b + c == d + b + e
  {
    assert a + b + c == (a + c) + b;
    assert d + b + e == (d + e) + b;
  }

  /** Buffers that leave a list for good are freed. */
  lemma Moved(taken: multiset<nat>, freed: multiset<nat>, ops: multiset<nat>, before: multiset<nat>, after: multiset<nat>,
              mine: multiset<nat>, gone: multiset<nat>)
    requires taken == freed + ops + before && after + (mine + gone) == before + mine
    ensures taken == freed + gone + ops + after
  {
    forall x ensures after[x] + gone[x] == before[x] {
      assert (after + (mine + gone))[x] == (before + mine)[x];
    }
    assert before == after + gone;
  }

  lemma Cancel(a: multiset<nat>, b: multiset<nat>, c: multiset<nat>)
    requires a + c == b + c
    ensures a == b
  {
    forall x ensures a[x] == b[x] { assert (a + c)[x] == (b + c)[x]; }
  }

  /** How a slot may change: in place, waiting on if its connect is queued; or by being freed; or by being
      taken from the free slots. */
  ghost predicate Evolves(i: nat, s: Slot, s': Slot) {
    || (s'.sid == s.sid && s'.version == s.version && (Waiting(s) ==> Waiting(s')))
    || (s'.sid == -1 && s'.version == s.version + 1 && s.sid == Sid(s.version, i))
    || (s.sid == -1 && s'.sid == Sid(s.version, i) && s'.version == s.version)
  }

  lemma OpsOkTouch(slots: seq<Slot>, q: seq<Op>, i: nat, s: Slot)
    requires OpsOk(slots, q) && i < SLOTS && Evolves(i, slots[i], s)
    ensures OpsOk(slots[i := s], q)
  {
    hide IndexOf;
    var slots' := slots[i := s];
    forall k | 0 <= k < |q| ensures OpOk(slots', q, k) {
      assert OpOk(slots, q, k);
    }
  }

  /** One slot changes, the bytes it has written and been given with it, and buffers leave its list for good. */
  lemma Touch(w: World, i: nat, s: Slot, wire: seq<Byte>, pushed: seq<Byte>, gone: multiset<nat>)
    requires Good(w) && i < SLOTS && Evolves(i, w.slots[i], s)
    requires Local(i, s) && Accounted(s, w.q, wire, pushed) && (s.dirty ==> i in w.dirty) && Awake(i, s, w.hot) && Starts(s, w.q)
    requires Ids(w.slots[i].wl) == Ids(s.wl) + gone
    ensures Good(w.(slots := w.slots[i := s], wire := w.wire[i := wire], pushed := w.pushed[i := pushed], freed := w.freed + gone))
  {
    hide Local, Accounted, Awake, Starts, Ids, InSlots, InOps, OpsOk, Evolves;
    var w' := w.(slots := w.slots[i := s], wire := w.wire[i := wire], pushed := w.pushed[i := pushed], freed := w.freed + gone);
    OpsOkTouch(w.slots, w.q, i, s);
    InSlotsUpdate(w.slots, i, s);
    Moved(w.taken, w.freed, InOps(w.q), InSlots(w.slots), InSlots(w'.slots), Ids(s.wl), gone);
    forall j | 0 <= j < SLOTS ensures SlotOk(w', j) {
      assert SlotOk(w, j);
    }
  }

  // ----------------------------------------------------------- the operation queue

  lemma {:induction false} QueuedAppend(q: seq<Op>, op: Op, sid: int)
    ensures Queued(q + [op], sid) == Queued(q, sid) + Queued([op], sid)
  {
    if q == [] {
      assert q + [op] == [op];
    } else {
      QueuedAppend(q[1..], op, sid);
      assert (q + [op])[1..] == q[1..] + [op];
    }
  }

  lemma {:induction false} InOpsAppend(q: seq<Op>, op: Op)
    ensures InOps(q + [op]) == InOps(q) + InOps([op])
  {
    if q == [] {
      assert q + [op] == [op];
    } else {
      InOpsAppend(q[1..], op);
      assert (q + [op])[1..] == q[1..] + [op];
    }
  }

  lemma One(op: Op, sid: int)
    ensures Queued([op], sid) == if op.Send? && op.sid == sid then |op.buf.data| else 0
    ensures InOps([op]) == if op.Send? then multiset{op.buf.id} else multiset{}
  {
    assert [op][1..] == [];
  }

  lemma OtherSid(w: World, j: nat, sid: nat)
    requires SlotsOk(w) && j < SLOTS && j != IndexOf(sid)
    ensures w.slots[j].sid != sid
  {
    assert SlotOk(w, j);
    if w.slots[j].sid >= 0 { SidIndex(w.slots[j].version, j); }
  }

  lemma AccountedFrame(s: Slot, q: seq<Op>, q': seq<Op>, wire: seq<Byte>, pushed: seq<Byte>)
    requires Accounted(s, q, wire, pushed) && Queued(q', s.sid) == Queued(q, s.sid)
    ensures Accounted(s, q', wire, pushed)
  {
  }

  lemma OpsOkAppend(slots: seq<Slot>, q: seq<Op>, op: Op)
    requires OpsOk(slots, q) && OpOk(slots, q + [op], |q|)
    ensures OpsOk(slots, q + [op])
  {
    var q' := q + [op];
    forall k | 0 <= k < |q'| ensures OpOk(slots, q', k) {
      if k < |q| { assert OpOk(slots, q, k); }
    }
  }

  /** An operation without payload joins the queue. */
  lemma Push(w: World, op: Op)
    requires Good(w) && (op.Close? || op.ReadEnable?) && w.slots[IndexOf(op.sid)].sid == op.sid
    ensures Good(w.(q := w.q + [op]))
  {
    hide Local, Accounted, OpOk, InSlots, InOps, Queued, IndexOf;
    var w' := w.(q := w.q + [op]);
    assert OpOk(w.slots, w'.q, |w.q|) by { LastOp(w.slots, w.q, op); }
    OpsOkAppend(w.slots, w.q, op);
    InOpsAppend(w.q, op);
    One(op, 0);
    forall j | 0 <= j < SLOTS ensures SlotOk(w', j) {
      assert SlotOk(w, j);
      QueuedAppend(w.q, op, w.slots[j].sid);
      One(op, w.slots[j].sid);
      AccountedFrame(w.slots[j], w.q, w'.q, w.wire[j], w.pushed[j]);
    }
  }

  lemma LastOp(slots: seq<Slot>, q: seq<Op>, op: Op)
    requires |slots| == SLOTS && !op.Connect? && slots[IndexOf(op.sid)].sid == op.sid && (op.Send? ==> op.buf.data != [])
    ensures OpOk(slots, q + [op], |q|)
  {
  }

  lemma Wraps(x: nat, d: nat)
    ensures (x % WRAP + d) % WRAP == (x + d) % WRAP
    ensures d <= x ==> (x % WRAP - d) % WRAP == (x - d) % WRAP
  {
  }

  /** A send joins the queue and counts at once. */
  lemma PushSend(w: World, i: nat, b: Buf)
    requires Good(w) && i < SLOTS && w.slots[i].sid >= 0 && b.data != []
    ensures var s := w.slots[i];
            Good(w.(q := w.q + [Send(s.sid, b)], slots := w.slots[i := s.(wlbytes := (s.wlbytes + |b.data|) % WRAP)],
                    taken := w.taken + multiset{b.id}))
  {
    hide OpOk, InSlots, InOps, Queued, IndexOf, Ids;
    var s := w.slots[i];
    assert SlotOk(w, i);
    SidIndex(s.version, i);
    var op, s' := Send(s.sid, b), s.(wlbytes := (s.wlbytes + |b.data|) % WRAP);
    var slots' := w.slots[i := s'];
    var w' := w.(q := w.q + [op], slots := slots', taken := w.taken + multiset{b.id});
    OpsOkTouch(w.slots, w.q, i, s');
    LastOp(slots', w.q, op);
    OpsOkAppend(slots', w.q, op);
    InOpsAppend(w.q, op);
    InSlotsUpdate(w.slots, i, s');
    Cancel(InSlots(slots'), InSlots(w.slots), Ids(s.wl));
    One(op, s.sid);
    QueuedAppend(w.q, op, s.sid);
    SendCounts(s, s', w.q, w'.q, w.wire[i], w.pushed[i], |b.data|);
    hide Local, Accounted;
    forall j | 0 <= j < SLOTS ensures SlotOk(w', j) {
      assert SlotOk(w, j);
      if j != i {
        OtherSid(w, j, s.sid);
        QueuedAppend(w.q, op, w.slots[j].sid);
        One(op, w.slots[j].sid);
        AccountedFrame(w.slots[j], w.q, w'.q, w.wire[j], w.pushed[j]);
      }
    }
  }

  lemma SendCounts(s: Slot, s': Slot, q: seq<Op>, q': seq<Op>, wire: seq<Byte>, pushed: seq<Byte>, n: nat)
    requires s' == s.(wlbytes := (s.wlbytes + n) % WRAP) && Queued(q', s.sid) == Queued(q, s.sid) + n
    requires Accounted(s, q, wire, pushed)
    ensures Accounted(s', q', wire, pushed)
  {
    hide Queued, Unsent;
    if s.sid >= 0 && s.tcp && !s.zombie && ListOk(s.wl, s.offset) {
      Wraps(|Unsent(s.wl, s.offset)| + Queued(q, s.sid), n);
    }
  }

  lemma OpsOkRest(slots: seq<Slot>, q: seq<Op>)
    requires OpsOk(slots, q) && q != []
    ensures OpsOk(slots, q[1..])
  {
    hide IndexOf;
    var q' := q[1..];
    forall k | 0 <= k < |q'| ensures OpOk(slots, q', k) {
      assert OpOk(slots, q, k + 1);
      assert q'[k] == q[k + 1];
      assert forall j :: 0 <= j < k ==> q'[j] == q[j + 1];
    }
  }

  /** An operation is taken off the queue; a send that finds no connection is dropped and its buffer freed. */
  lemma Pop(w: World)
    requires Good(w) && w.q != []
    requires w.q[0].Send? ==> var s := w.slots[IndexOf(w.q[0].sid)]; s.sid != w.q[0].sid || s.zombie || !s.tcp
    requires w.q[0].Connect? ==> w.slots[IndexOf(w.q[0].sid)].sid != w.q[0].sid
    ensures Good(w.(q := w.q[1..], freed := w.freed + InOps([w.q[0]])))
  {
    hide Local, OpOk, InSlots, IndexOf, Unsent, Awake;
    var op := w.q[0];
    assert w.q == [op] + w.q[1..];
    var w' := w.(q := w.q[1..], freed := w.freed + InOps([op]));
    OpsOkRest(w.slots, w.q);
    One(op, 0);
    forall j | 0 <= j < SLOTS ensures SlotOk(w', j) {
      assert SlotOk(w, j);
      if j != IndexOf(op.sid) { OtherSid(w, j, op.sid); }
    }
  }

  /** A send reaches its connection: its buffer joins the write list and, unless still connecting, the slot
      is in the dirty set. */
  lemma PopSend(w: World, i: nat, dirty: seq<nat>)
    requires Good(w) && w.q != [] && w.q[0].Send? && i < SLOTS && w.slots[i].sid == w.q[0].sid
    requires w.slots[i].tcp && !w.slots[i].zombie
    requires dirty == w.dirty || dirty == w.dirty + [i]
    requires w.slots[i].pending || i in dirty
    ensures var s, b := w.slots[i], w.q[0].buf;
            Good(w.(q := w.q[1..], slots := w.slots[i := s.(wl := s.wl + [b], dirty := s.dirty || !s.pending)],
                    pushed := w.pushed[i := w.pushed[i] + b.data], dirty := dirty))
  {
    hide SlotOk, OpsOk, InSlots, InOps, Ids, Queued, Conserved;
    var s, op := w.slots[i], w.q[0];
    var b := op.buf;
    var s' := s.(wl := s.wl + [b], dirty := s.dirty || !s.pending);
    var slots' := w.slots[i := s'];
    var w' := w.(q := w.q[1..], slots := slots', pushed := w.pushed[i := w.pushed[i] + b.data], dirty := dirty);
    SentOps(w, i, s');
    forall j | 0 <= j < SLOTS ensures SlotOk(w', j) { SentSlot(w, w', i, j); }
    SentConserved(w, w', i, b);
  }

  lemma SentConserved(w: World, w': World, i: nat, b: Buf)
    requires Conserved(w) && i < |w.slots| && w.q != [] && w.q[0].Send? && w.q[0].buf == b
    requires w'.q == w.q[1..] && w'.taken == w.taken && w'.freed == w.freed
    requires |w'.slots| == |w.slots| && w'.slots == w.slots[i := w'.slots[i]] && w'.slots[i].wl == w.slots[i].wl + [b]
    ensures Conserved(w')
  {
    assert InOps(w.q) == multiset{b.id} + InOps(w'.q);
    hide InSlots, InOps, Ids;
    InSlotsUpdate(w.slots, i, w'.slots[i]);
    IdsAppend(w.slots[i].wl, b);
    Joined(w.taken, w.freed, InOps(w'.q), multiset{b.id}, InSlots(w.slots), InSlots(w'.slots), Ids(w.slots[i].wl));
  }

  lemma SentOps(w: World, i: nat, s': Slot)
    requires Good(w) && w.q != [] && i < SLOTS && s'.sid == w.slots[i].sid && s'.version == w.slots[i].version
    requires Waiting(w.slots[i]) ==> Waiting(s')
    ensures OpsOk(w.slots[i := s'], w.q[1..])
  {
    OpsOkRest(w.slots, w.q);
    hide Good, OpsOk;
    OpsOkTouch(w.slots, w.q[1..], i, s');
  }

  lemma SentSlot(w: World, w': World, i: nat, j: nat)
    requires Good(w) && w.q != [] && w.q[0].Send? && i < SLOTS && j < SLOTS && w.slots[i].sid == w.q[0].sid
    requires w.slots[i].tcp && !w.slots[i].zombie
    requires w'.dirty == w.dirty || w'.dirty == w.dirty + [i]
    requires w.slots[i].pending || i in w'.dirty
    requires var s, b := w.slots[i], w.q[0].buf;
             w' == w.(q := w.q[1..], slots := w.slots[i := s.(wl := s.wl + [b], dirty := s.dirty || !s.pending)],
                      pushed := w.pushed[i := w.pushed[i] + b.data], dirty := w'.dirty)
    ensures SlotOk(w', j)
  {
    var op := w.q[0];
    assert SlotOk(w, j) && SlotOk(w, i);
    assert OpOk(w.slots, w.q, 0);
    NotWaiting(w, i);
    SidIndex(w.slots[i].version, i);
    if j == i {
      Arrives(w.slots[i], w'.slots[i], w.q, w.wire[i], w.pushed[i], op.buf);
      hide Good, OpOk, Queued, Unsent, Accounted;
    } else {
      OtherSid(w, j, op.sid);
      hide Good, OpOk, Queued, Local, Accounted, Awake, IndexOf;
      QueuedRest(w.q, w.slots[j].sid);
      AccountedFrame(w.slots[j], w.q, w'.q, w.wire[j], w.pushed[j]);
      assert w.q == [op] + w.q[1..];
    }
  }

  /** The connect of a waiting socket is its first operation. */
  lemma NotWaiting(w: World, i: nat)
    requires Good(w) && w.q != [] && !w.q[0].Connect? && i < SLOTS && w.slots[i].sid == w.q[0].sid
    ensures !Waiting(w.slots[i])
  {
    SlotFacts(w, i);
    SidIndex(w.slots[i].version, i);
    NoOtherConnect(w, i);
    assert Connect(w.slots[i].sid) !in w.q;
  }

  lemma QueuedRest(q: seq<Op>, sid: int)
    requires q != []
    ensures Queued(q, sid) == (if q[0].Send? && q[0].sid == sid then |q[0].buf.data| else 0) + Queued(q[1..], sid)
  {
  }

  lemma IdsAppend(wl: seq<Buf>, b: Buf)
    ensures Ids(wl + [b]) == Ids(wl) + multiset{b.id}
  {
    assert (wl + [b])[..|wl|] == wl;
  }

  lemma Joined(taken: multiset<nat>, freed: multiset<nat>, ops: multiset<nat>, one: multiset<nat>,
               before: multiset<nat>, after: multiset<nat>, mine: multiset<nat>)
    requires taken == freed + (one + ops) + before && after + mine == before + (mine + one)
    ensures taken == freed + ops + after
  {
    forall x ensures after[x] == before[x] + one[x] {
      assert (after + mine)[x] == (before + (mine + one))[x];
    }
    assert after == before + one;
  }

  lemma Arrives(s: Slot, s': Slot, q: seq<Op>, wire: seq<Byte>, pushed: seq<Byte>, b: Buf)
    requires q != [] && s.sid >= 0 && q[0] == Send(s.sid, b) && b.data != [] && s.tcp && !s.zombie && ListOk(s.wl, s.offset)
    requires s' == s.(wl := s.wl + [b], dirty := s.dirty || !s.pending)
    requires Accounted(s, q, wire, pushed)
    ensures ListOk(s'.wl, s'.offset) && Accounted(s', q[1..], wire, pushed + b.data)
  {
    hide Unsent, Queued;
    Appended(s.wl, s.offset, b);
    QueuedRest(q, s.sid);
    assert wire + (Unsent(s.wl, s.offset) + b.data) == wire + Unsent(s.wl, s.offset) + b.data;
  }

  // ------------------------------------------------------------------ fresh slots

  lemma Unknown(w: World, i: nat, k: nat)
    requires Good(w) && i < SLOTS && w.slots[i].sid < 0 && k < |w.q|
    ensures w.q[k].sid != Sid(w.slots[i].version, i)
  {
    assert OpOk(w.slots, w.q, k);
    SidIndex(w.slots[i].version, i);
  }

  lemma {:induction false} NoneQueued(q: seq<Op>, sid: int)
    requires forall k :: 0 <= k < |q| ==> q[k].sid != sid
    ensures Queued(q, sid) == 0
  {
    if q != [] { NoneQueued(q[1..], sid); }
  }

  lemma NothingQueued(w: World, i: nat)
    requires Good(w) && i < SLOTS && w.slots[i].sid < 0
    ensures Queued(w.q, Sid(w.slots[i].version, i)) == 0 && w.slots[i] == Blank(w.slots[i].version)
  {
    assert SlotOk(w, i);
    forall k | 0 <= k < |w.q| ensures w.q[k].sid != Sid(w.slots[i].version, i) { Unknown(w, i, k); }
    NoneQueued(w.q, Sid(w.slots[i].version, i));
  }

  /** A free slot becomes an accepted connection. */
  lemma Accepted(w: World, i: nat, s: Slot)
    requires Good(w) && i < SLOTS && w.slots[i].sid < 0
    requires s == Blank(w.slots[i].version).(sid := Sid(w.slots[i].version, i), tcp := true, polling := true, reading := true)
    ensures Good(w.(slots := w.slots[i := s], wire := w.wire[i := []], pushed := w.pushed[i := []]))
  {
    NothingQueued(w, i);
    hide Good, Queued, Sid;
    Touch(w, i, s, [], [], multiset{});
    assert w.freed + multiset{} == w.freed;
  }

  /** A free slot becomes a socket whose connect joins the queue. */
  lemma PushConnect(w: World, i: nat, s: Slot)
    requires Good(w) && i < SLOTS && w.slots[i].sid < 0
    requires s == Blank(w.slots[i].version).(sid := Sid(w.slots[i].version, i), tcp := true, pending := true)
    ensures Good(w.(q := w.q + [Connect(s.sid)], slots := w.slots[i := s], wire := w.wire[i := []], pushed := w.pushed[i := []]))
  {
    NothingQueued(w, i);
    hide SlotOk, OpsOk, InSlots, InOps, Queued, Sid, Ids;
    var op := Connect(s.sid);
    ConnectOps(w, i, s, op);
    InSlotsUpdate(w.slots, i, s);
    Cancel(InSlots(w.slots[i := s]), InSlots(w.slots), Ids([]));
    InOpsAppend(w.q, op);
    One(op, 0);
    var w' := w.(q := w.q + [op], slots := w.slots[i := s], wire := w.wire[i := []], pushed := w.pushed[i := []]);
    forall j | 0 <= j < SLOTS ensures SlotOk(w', j) { ConnectSlot(w, i, s, op, j); }
  }

  lemma ConnectOps(w: World, i: nat, s: Slot, op: Op)
    requires Good(w) && i < SLOTS && w.slots[i].sid < 0
    requires s == Blank(w.slots[i].version).(sid := Sid(w.slots[i].version, i), tcp := true, pending := true)
    requires op == Connect(s.sid)
    ensures OpsOk(w.slots[i := s], w.q + [op])
  {
    SidIndex(w.slots[i].version, i);
    forall k | 0 <= k < |w.q| ensures w.q[k].sid != op.sid { Unknown(w, i, k); }
    assert Evolves(i, w.slots[i], s) by { assert SlotOk(w, i); }
    hide Good, IndexOf;
    OpsOkTouch(w.slots, w.q, i, s);
    hide OpsOk;
    assert OpOk(w.slots[i := s], w.q + [op], |w.q|);
    OpsOkAppend(w.slots[i := s], w.q, op);
  }

  lemma ConnectSlot(w: World, i: nat, s: Slot, op: Op, j: nat)
    requires Good(w) && i < SLOTS && w.slots[i].sid < 0 && j < SLOTS
    requires s == Blank(w.slots[i].version).(sid := Sid(w.slots[i].version, i), tcp := true, pending := true)
    requires op == Connect(s.sid)
    ensures SlotOk(w.(q := w.q + [op], slots := w.slots[i := s], wire := w.wire[i := []], pushed := w.pushed[i := []]), j)
  {
    NothingQueued(w, i);
    assert SlotOk(w, j);
    hide Good, Queued, Sid;
    var t := if j == i then s else w.slots[j];
    QueuedAppend(w.q, op, t.sid);
    One(op, t.sid);
    if j == i {
      NewSlot(i, s, w.q + [op]);
      assert (w.q + [op])[|w.q|] == op;
    } else {
      hide Local, Accounted, Awake;
      AccountedFrame(t, w.q, w.q + [op], w.wire[j], w.pushed[j]);
      StartsMore(t, w.q, op);
    }
  }

  lemma StartsMore(s: Slot, q: seq<Op>, op: Op)
    requires Starts(s, q)
    ensures Starts(s, q + [op])
  {
  }

  lemma NewSlot(i: nat, s: Slot, q: seq<Op>)
    requires s == Blank(s.version).(sid := Sid(s.version, i), tcp := true, pending := true) && Queued(q, s.sid) == 0
    ensures Local(i, s) && Accounted(s, q, [], []) && Awake(i, s, -1)
    ensures forall hot :: Awake(i, s, hot)
  {
  }

  /** A waiting socket's connect is taken off the queue and it waits no longer. */
  lemma PopConnect(w: World, i: nat, s: Slot)
    requires Good(w) && w.q != [] && w.q[0].Connect? && i < SLOTS && w.slots[i].sid == w.q[0].sid
    requires Waiting(w.slots[i]) && !Waiting(s)
    requires || s == Blank(w.slots[i].version + 1)
             || (s == w.slots[i].(pending := s.pending, polling := true, reading := true, writing := s.pending))
    ensures Good(w.(q := w.q[1..], slots := w.slots[i := s]))
  {
    hide InSlots, IndexOf, Ids, Queued, InOps;
    var op, slots' := w.q[0], w.slots[i := s];
    var w' := w.(q := w.q[1..], slots := slots');
    SlotFacts(w, i);
    SidIndex(w.slots[i].version, i);
    assert w.q == [op] + w.q[1..];
    OpsOkRest(w.slots, w.q);
    NoOtherConnect(w, i);
    NoWaiter(w.slots, w.q[1..], i, s);
    QueuedRest(w.q, s.sid);
    InSlotsUpdate(w.slots, i, s);
    Cancel(InSlots(slots'), InSlots(w.slots), Ids([]));
    InOpsRest(w.q);
    assert SlotOk(w', i);
    hide OpOk, Local, Accounted, Awake;
    forall j | 0 <= j < SLOTS ensures SlotOk(w', j) {
      assert SlotOk(w, j);
      if j != i {
        OtherSid(w, j, op.sid);
        QueuedRest(w.q, w.slots[j].sid);
        AccountedFrame(w.slots[j], w.q, w'.q, w.wire[j], w.pushed[j]);
      }
    }
  }

  lemma InOpsRest(q: seq<Op>)
    requires q != [] && !q[0].Send?
    ensures InOps(q) == InOps(q[1..])
  {
  }

  lemma NoOtherConnect(w: World, i: nat)
    requires Good(w) && w.q != [] && i < SLOTS && w.slots[i].sid == w.q[0].sid
    ensures forall k :: 1 <= k < |w.q| ==> w.q[k] != Connect(w.slots[i].sid)
  {
    SlotFacts(w, i);
    SidIndex(w.slots[i].version, i);
    forall k | 1 <= k < |w.q| ensures w.q[k] != Connect(w.slots[i].sid) { assert OpOk(w.slots, w.q, k); }
  }

  lemma NoWaiter(slots: seq<Slot>, q: seq<Op>, i: nat, s: Slot)
    requires OpsOk(slots, q) && i < SLOTS && slots[i].sid == Sid(slots[i].version, i)
    requires forall k :: 0 <= k < |q| ==> q[k] != Connect(slots[i].sid)
    requires (s.sid == slots[i].sid && s.version == slots[i].version) || s == Blank(slots[i].version + 1)
    ensures OpsOk(slots[i := s], q)
  {
    hide IndexOf;
    var slots' := slots[i := s];
    forall k | 0 <= k < |q| ensures OpOk(slots', q, k) {
      assert OpOk(slots, q, k);
    }
  }

  // ----------------------------------------------------------- transitions of a slot

  /** Only flags change that no queued operation depends on. */
  lemma Flags(w: World, i: nat, s: Slot)
    requires Good(w) && i < SLOTS
    requires var t := w.slots[i]; t.sid >= 0 && s == t.(reading := s.reading, writing := s.writing, closing := s.closing, closewait := s.closewait)
    requires w.slots[i].zombie ==> !s.writing
    requires w.slots[i].writing ==> s.writing || (w.slots[i].wl == [] && !w.slots[i].pending)
    ensures Good(w.(slots := w.slots[i := s]))
  {
    assert SlotOk(w, i);
    hide SlotsOk, OpsOk, Conserved, Queued, Ids, Unsent;
    Touch(w, i, s, w.wire[i], w.pushed[i], multiset{});
    Same(w, i, s);
  }

  lemma Same(w: World, i: nat, s: Slot)
    requires SlotsOk(w) && i < SLOTS
    ensures w.(slots := w.slots[i := s], wire := w.wire[i := w.wire[i]], pushed := w.pushed[i := w.pushed[i]], freed := w.freed + multiset{})
            == w.(slots := w.slots[i := s])
  {
    assert w.wire[i := w.wire[i]] == w.wire && w.pushed[i := w.pushed[i]] == w.pushed;
    assert w.freed + multiset{} == w.freed;
  }

  /** The slot is emptied for reuse; buffers it still held are freed. */
  lemma Freed(w: World, i: nat)
    requires Good(w) && i < SLOTS && w.slots[i].sid >= 0
    ensures Good(w.(slots := w.slots[i := Blank(w.slots[i].version + 1)], freed := w.freed + Ids(w.slots[i].wl)))
  {
    assert SlotOk(w, i);
    hide SlotsOk, OpsOk, Conserved, Queued, Unsent, IndexOf;
    Touch(w, i, Blank(w.slots[i].version + 1), w.wire[i], w.pushed[i], Ids(w.slots[i].wl));
    assert w.wire[i := w.wire[i]] == w.wire && w.pushed[i := w.pushed[i]] == w.pushed by { hide Good; }
  }

  function Dead(s: Slot): Slot {
    s.(wl := [], wlbytes := 0, polling := false, reading := false, writing := false, zombie := true)
  }

  /** The connection fails: its list is freed and it is no longer polled. */
  lemma Zombied(w: World, i: nat)
    requires Good(w) && i < SLOTS && w.slots[i].sid >= 0 && !Waiting(w.slots[i])
    ensures Good(w.(slots := w.slots[i := Dead(w.slots[i])], freed := w.freed + Ids(w.slots[i].wl)))
  {
    assert SlotOk(w, i);
    hide SlotsOk, OpsOk, Conserved, Queued, Unsent, IndexOf;
    Touch(w, i, Dead(w.slots[i]), w.wire[i], w.pushed[i], Ids(w.slots[i].wl));
    assert w.wire[i := w.wire[i]] == w.wire && w.pushed[i := w.pushed[i]] == w.pushed by { hide Good; }
  }

  /** A connection in progress is up; its write event stays on if data is waiting. */
  lemma Connected(w: World, i: nat, s: Slot)
    requires Good(w) && i < SLOTS && w.slots[i].sid >= 0 && w.slots[i].tcp && w.slots[i].polling && !w.slots[i].zombie
    requires s == w.slots[i].(pending := false, writing := s.writing) && (s.wl != [] ==> s.writing)
    ensures Good(w.(slots := w.slots[i := s]))
  {
    assert SlotOk(w, i);
    hide SlotsOk, OpsOk, Conserved, Queued, Ids, Unsent;
    Touch(w, i, s, w.wire[i], w.pushed[i], multiset{});
    Same(w, i, s);
  }

  /** Bytes were written: they leave the front of the list, buffers sent completely are freed, and the write
      event is on exactly if something is left. */
  lemma Sent(w: World, i: nat, s: Slot, s': Slot, gone: seq<Buf>, n: nat)
    requires Good(w) && i < |w.slots| == |w.wire| == |w.pushed| && i < SLOTS && s == w.slots[i] && Open(s)
    requires ListOk(s.wl, s.offset) && n <= |Unsent(s.wl, s.offset)| && s.wl == gone + s'.wl
    requires ListOk(s'.wl, s'.offset) && Unsent(s'.wl, s'.offset) == Unsent(s.wl, s.offset)[n..]
    requires s' == s.(wl := s'.wl, offset := s'.offset, wlbytes := (s.wlbytes - n) % WRAP, writing := s'.wl != [])
    ensures Good(w.(slots := w.slots[i := s'], wire := w.wire[i := w.wire[i] + Unsent(s.wl, s.offset)[..n]],
                    freed := w.freed + Ids(gone)))
  {
    hide Good, Ids, Unsent, Accounted, ListOk, Sid;
    SlotFacts(w, i);
    assert Local(i, s') && Awake(i, s', w.hot);
    SentAccounted(s, s', w.q, w.wire[i], w.pushed[i], n);
    IdsConcat(gone, s'.wl);
    hide Local, Awake;
    var wire := w.wire[i] + Unsent(s.wl, s.offset)[..n];
    Touch(w, i, s', wire, w.pushed[i], Ids(gone));
    assert w.pushed[i := w.pushed[i]] == w.pushed;
  }

  lemma SentAccounted(s: Slot, s': Slot, q: seq<Op>, wire: seq<Byte>, pushed: seq<Byte>, n: nat)
    requires s.sid >= 0 && s.tcp && !s.zombie && ListOk(s.wl, s.offset) && Accounted(s, q, wire, pushed)
    requires n <= |Unsent(s.wl, s.offset)| && ListOk(s'.wl, s'.offset)
    requires Unsent(s'.wl, s'.offset) == Unsent(s.wl, s.offset)[n..]
    requires s' == s.(wl := s'.wl, offset := s'.offset, wlbytes := (s.wlbytes - n) % WRAP, writing := s'.writing)
    ensures Accounted(s', q, wire + Unsent(s.wl, s.offset)[..n], pushed)
  {
    hide Queued, Unsent;
    var u := Unsent(s.wl, s.offset);
    Wraps(|u| + Queued(q, s.sid), n);
    assert wire + u[..n] + u[n..] == wire + u;
  }

  lemma Assoc(a: multiset<nat>, b: multiset<nat>, c: multiset<nat>)
    ensures a + b + c == a + (b + c)
  {
  }

  lemma {:induction false} IdsConcat(a: seq<Buf>, b: seq<Buf>)
    ensures Ids(a + b) == Ids(a) + Ids(b)
  {
    assert Ids([]) == multiset{};
    hide Ids;
    if b == [] {
      assert a + b == a;
    } else {
      var c, x := b[..|b| - 1], b[|b| - 1];
      IdsConcat(a, c);
      assert b == c + [x];
      assert a + (c + [x]) == (a + c) + [x];
      IdsAppend(a + c, x);
      IdsAppend(c, x);
      Assoc(Ids(a), Ids(c), multiset{x.id});
    }
  }
}
