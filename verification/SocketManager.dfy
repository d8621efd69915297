/** The socket thread's loop: operations, events and the batched flush, interleaved with workers. */
module SocketManager {
  import opened WriteList
  import opened SocketThread

  /** What a worker may do between two steps of the socket thread. */
  datatype Action =
    | DoSend(sid: Id, buf: Buf)
    | DoClose(sid: Id)
    | DoConnect(slot: nat)
    | DoReadEnable(sid: Id, on: bool)

  /** Any id a caller may come up with, live or not, but the one that stands for a free slot. */
  type Id = x: int | x != -1 witness 0

  datatype Status = Done | Closed | Closing

  datatype Outcome = Up | InProgress | Refused

  /** What happens around one operation: what workers do before it, how a connect goes, whether the poller takes the
      socket, and how much the kernel takes in each write. */
  datatype Turn = Turn(actions: seq<Action>, outcome: Outcome, added: bool, rooms: seq<int>)

  function Room(rooms: seq<int>, k: nat): int { if k < |rooms| then rooms[k] else 0 }

  class Manager {
    var slots: seq<Slot>
    var dirty: seq<nat> // the slots marked dirty, oldest first
    var batch: seq<Op> // operations flipped out for processing
    var ops: seq<Op> // operations being collected
    ghost var wire: seq<seq<Byte>>
    ghost var pushed: seq<seq<Byte>>
    ghost var flushing: seq<nat>
    ghost var hot: int
    ghost var processed: seq<Op>
    ghost var taken: multiset<nat>
    ghost var freed: multiset<nat>

    ghost function W(): World
      reads this
    {
      World(slots, batch + ops, wire, pushed, flushing + dirty, hot, taken, freed)
    }

    ghost predicate Valid()
      reads this
    {
      Good(W()) && |dirty| < DIRTY_MAX && flushing == [] && hot < 0
    }

    /** Valid, and every waiting byte has a write event behind it. */
    ghost predicate Settled()
      reads this
    {
      && Valid() && dirty == [] && batch == []
      && (forall i :: 0 <= i < |slots| && Open(slots[i]) && slots[i].wl != [] ==> slots[i].polling && slots[i].writing)
    }

    constructor ()
      ensures Settled() && ops == []
    {
      slots := seq(SLOTS, _ => Blank(0));
      dirty, batch, ops := [], [], [];
      wire, pushed := seq(SLOTS, _ => []), seq(SLOTS, _ => []);
      flushing, hot, taken, freed, processed := [], -1, multiset{}, multiset{}, [];
      new;
      hide Good;
      assert batch + ops == [] && flushing + dirty == [];
      Initial(W());
    }

    // ---------------------------------------------------------- freeing a slot

    method FreeSocket(i: nat)
      requires Good(W()) && i < |slots| == SLOTS && slots[i].sid >= 0
      modifies `slots, `freed
      ensures Good(W()) && slots == old(slots)[i := Blank(old(slots[i]).version + 1)]
    {
      hide Good, Ids;
      Freed(W(), i);
      freed := freed + Ids(slots[i].wl);
      slots := slots[i := Blank(slots[i].version + 1)];
    }

    method ZombineSocket(i: nat)
      requires Good(W()) && i < |slots| == SLOTS && slots[i].sid >= 0 && !Waiting(slots[i])
      modifies `slots, `freed
      ensures Good(W())
      ensures slots == old(slots)[i := if old(slots[i]).closewait then Blank(old(slots[i]).version + 1) else Dead(old(slots[i]))]
    {
      hide Good, Ids;
      if slots[i].closewait {
        FreeSocket(i);
        return;
      }
      Zombied(W(), i);
      freed := freed + Ids(slots[i].wl);
      slots := slots[i := Dead(slots[i])];
    }

    // ---------------------------------------------------------------- writing

    /** Writes as much as the kernel has room for, nothing while the connection is not up, and with a negative number
        nothing but an error. A connection is freed exactly if it was to be closed and all its data is out. */
    method DrainTcp(i: nat, room: int) returns (failed: bool)
      requires Good(W()) && i < |slots| == |wire| == SLOTS && slots[i].sid >= 0 && slots[i].tcp && !slots[i].zombie
      requires ListOk(slots[i].wl, slots[i].offset)
      modifies `slots, `wire, `freed
      ensures Good(W()) && |slots| == SLOTS
      ensures forall j :: 0 <= j < SLOTS && j != i ==> slots[j] == old(slots)[j]
      ensures failed <==> room < 0 && old(slots[i]).wl != []
      ensures !failed ==> slots[i].wl == [] || slots[i].writing
      ensures var s := old(slots[i]);
              && AfterWrite(s, slots[i], room)
              && (slots[i] == Blank(s.version + 1) <==> Empties(s, room) && s.closewait)
              && (!(Empties(s, room) && s.closewait) ==> slots[i].sid == s.sid)
      ensures wire == old(wire)[i := old(wire[i]) + Goes(old(slots[i]), room)]
    {
      hide Good, Ids, Unsent, Accounted, Concat, Sid, Taken, Local, ListOk, AfterWrite, Reduced, Goes, Empties;
      SlotFacts(W(), i);
      Counted(slots[i], W().q, wire[i], pushed[i]);
      GoesNowhere(slots[i], wire[i], room);
      assert wire[i := wire[i]] == wire;
      NoWrite(slots[i], room);
      if slots[i].wl == [] { return false; }
      var total := Writev(slots[i].wl, slots[i].offset, slots[i].pending, room);
      if total < 0 { return true; }
      failed := false;
      if total == 0 {
        WriteEnable(i);
      } else {
        GoesOut(slots[i], room);
        ghost var s := slots[i];
        Take(i, total);
        TookOut(s, slots[i], room, total);
        if slots[i].wl == [] && slots[i].closewait { FreeSocket(i); }
      }
    }

    /** The same for a slot whose list is in order because it is not dead. */
    method TryWrite(i: nat, room: int) returns (failed: bool)
      requires Good(W()) && i < |slots| == SLOTS && slots[i].sid >= 0 && slots[i].tcp && !slots[i].zombie
      modifies `slots, `wire, `freed
      ensures Good(W()) && |slots| == SLOTS && ListOk(old(slots[i]).wl, old(slots[i]).offset)
      ensures forall j :: 0 <= j < SLOTS && j != i ==> slots[j] == old(slots)[j]
      ensures failed <==> room < 0 && old(slots[i]).wl != []
      ensures !failed ==> slots[i].wl == [] || slots[i].writing
      ensures var s := old(slots[i]);
              && AfterWrite(s, slots[i], room)
              && (slots[i] == Blank(s.version + 1) <==> Empties(s, room) && s.closewait)
              && (!(Empties(s, room) && s.closewait) ==> slots[i].sid == s.sid)
      ensures |old(wire)| == SLOTS && wire == old(wire)[i := old(wire[i]) + Goes(old(slots[i]), room)]
    {
      hide Good, AfterWrite, Empties, Goes, ListOk;
      OpenList(W(), i);
      failed := DrainTcp(i, room);
    }

    method WriteEnable(i: nat)
      requires Good(W()) && i < |slots| == SLOTS && slots[i].sid >= 0 && !slots[i].zombie
      modifies `slots
      ensures Good(W()) && slots == old(slots)[i := old(slots[i]).(writing := true)]
    {
      hide Good;
      Flags(W(), i, slots[i].(writing := true));
      slots := slots[i := slots[i].(writing := true)];
    }

    /** Takes written bytes off the list; the write event stays on exactly if something is left. */
    method Take(i: nat, total: nat)
      requires Good(W()) && i < |slots| == |wire| == |pushed| == SLOTS && Open(slots[i]) && ListOk(slots[i].wl, slots[i].offset)
      requires total <= |Unsent(slots[i].wl, slots[i].offset)|
      modifies `slots, `wire, `freed
      ensures Good(W()) && |slots| == SLOTS && ListOk(slots[i].wl, slots[i].offset)
      ensures Reduced(old(slots[i]), slots[i], total)
      ensures forall j :: 0 <= j < SLOTS && j != i ==> slots[j] == old(slots)[j]
      ensures wire == old(wire)[i := old(wire[i]) + old(Unsent(slots[i].wl, slots[i].offset))[..total]]
    {
      hide Good, Ids, Unsent, Accounted, ListOk;
      var s := slots[i];
      var left, offset, gone := Consume(s.wl, s.offset, total);
      var s' := s.(wl := left, offset := offset, wlbytes := (s.wlbytes - total) % WRAP, writing := left != []);
      Sent(W(), i, s, s', gone, total);
      wire := wire[i := wire[i] + Unsent(s.wl, s.offset)[..total]];
      freed := freed + Ids(gone);
      slots := slots[i := s'];
    }

    // ------------------------------------------------------------ the dirty set

    /** Drains every slot marked dirty, in the order they were marked. Unless a write fails, no connection is lost but
        those that were to be closed. */
    method FlushDirty(rooms: seq<int>)
      requires Good(W()) && flushing == [] && hot < 0
      modifies `slots, `wire, `freed, `dirty, `flushing, `hot
      ensures Valid() && dirty == [] && |slots| == |old(slots)|
      ensures forall j :: 0 <= j < |slots| && j !in old(dirty) ==> slots[j] == old(slots)[j]
      ensures (forall k :: 0 <= k < |rooms| ==> rooms[k] >= 0) ==> forall j :: 0 <= j < |slots| ==> Survives(old(slots)[j], slots[j])
    {
      hide Good, Survives;
      var list := dirty;
      flushing, dirty := list, [];
      assert flushing + [] == [] + list;
      StillThere(slots);
      var k := 0;
      while k < |list|
        invariant 0 <= k <= |list| && flushing == list[k..] && dirty == [] && hot < 0 && Good(W())
        invariant |slots| == |old(slots)| && forall j :: 0 <= j < |slots| && j !in list ==> slots[j] == old(slots)[j]
        invariant (forall n :: 0 <= n < |rooms| ==> rooms[n] >= 0) ==> forall j :: 0 <= j < |slots| ==> Survives(old(slots)[j], slots[j])
      {
        ghost var mid := slots;
        FlushNext(list[k], Room(rooms, k));
        if forall n :: 0 <= n < |rooms| ==> rooms[n] >= 0 { AllSurvive(old(slots), mid, slots, list[k], Room(rooms, k)); }
        k := k + 1;
      }
    }

    method FlushNext(i: nat, room: int)
      requires Good(W()) && flushing != [] && flushing[0] == i && dirty == [] && hot < 0
      modifies `slots, `wire, `freed, `flushing, `hot
      ensures Good(W()) && flushing == old(flushing)[1..] && hot < 0 && |slots| == |old(slots)| && i < |slots|
      ensures forall j :: 0 <= j < |slots| && j != i ==> slots[j] == old(slots)[j]
      ensures Flushed(old(slots[i]).(dirty := false), slots[i], room)
    {
      hide Good, Flushed;
      assert W().dirty == flushing;
      DirtyInRange(W(), i);
      FlushStart(W(), i);
      assert (flushing + [])[1..] == flushing[1..] + [];
      slots := slots[i := slots[i].(dirty := false)];
      flushing, hot := flushing[1..], i;
      FlushOne(i, room);
    }

    method FlushOne(i: nat, room: int)
      requires Good(W()) && hot == i < |slots| == SLOTS
      modifies `slots, `wire, `freed, `hot
      ensures Good(W()) && hot < 0 && |slots| == SLOTS && |old(wire)| == SLOTS
      ensures forall j :: 0 <= j < SLOTS && j != i ==> slots[j] == old(slots)[j]
      ensures Flushed(old(slots[i]), slots[i], room)
      ensures var s := old(slots[i]); wire == if ToFlush(s) then old(wire)[i := old(wire[i]) + Goes(s, room)] else old(wire)
    {
      hide Good, Accounted, Sid, Empties, Goes, ListOk, Unsent, Taken;
      SlotFacts(W(), i);
      if !(slots[i].zombie || slots[i].sid < 0 || slots[i].wl == [] || !slots[i].tcp) {
        var failed := TryWrite(i, room);
        if failed { ZombineSocket(i); }
      }
      FlushEnd(W(), i);
      hot := -1;
    }

    // ------------------------------------------------- operations from the queue

    method PopAndSet(i: nat, s: Slot)
      requires Valid() && batch != [] && i < |slots| == SLOTS
      requires Good(W().(q := W().q[1..], slots := slots[i := s]))
      modifies `batch, `slots
      ensures Valid() && batch == old(batch)[1..] && slots == old(slots)[i := s]
    {
      hide Good;
      assert (batch + ops)[1..] == batch[1..] + ops;
      batch := batch[1..];
      slots := slots[i := s];
    }

    /** Connects a waiting socket: it goes up, is in progress, or is freed when refused or not taken by the poller. */
    method OpTcpConnect(i: nat, outcome: Outcome, added: bool)
      requires Valid() && batch != [] && batch[0].Connect? && i < |slots| == SLOTS && slots[i].sid == batch[0].sid
      requires Waiting(slots[i])
      modifies `batch, `slots
      ensures Valid() && batch == old(batch)[1..]
      ensures Attempted(old(slots), slots, i, outcome, added)
    {
      hide Good;
      SlotFacts(W(), i);
      var s := slots[i];
      if outcome == Refused || !added {
        s := Blank(s.version + 1);
      } else if outcome == Up {
        s := s.(pending := false, polling := true, reading := true, writing := s.wl != []);
      } else {
        s := s.(polling := true, reading := true, writing := true);
      }
      PopConnect(W(), i, s);
      PopAndSet(i, s);
    }

    /** A socket with nothing left to send is closed at once, any other when its data is out. */
    method OpClose(i: nat)
      requires Valid() && i < |slots| == SLOTS && slots[i].sid >= 0
      modifies `slots, `freed
      ensures Valid()
      ensures var s := old(slots[i]);
              slots == old(slots)[i := if s.wl == [] then Blank(s.version + 1) else s.(closewait := true, reading := false)]
    {
      hide Good;
      if slots[i].wl == [] {
        FreeSocket(i);
      } else {
        SlotFacts(W(), i);
        var s := slots[i].(closewait := true, reading := false);
        Flags(W(), i, s);
        slots := slots[i := s];
      }
    }

    /** The buffer joins the list; a connected socket is marked dirty, and a full dirty set is flushed. */
    method OpTcpSend(i: nat, rooms: seq<int>)
      requires Valid() && batch != [] && batch[0].Send? && i < |slots| == |pushed| == SLOTS && slots[i].sid == batch[0].sid
      requires slots[i].tcp && !slots[i].zombie
      modifies `slots, `batch, `pushed, `dirty, `wire, `freed, `flushing, `hot
      ensures Valid() && batch == old(batch)[1..] && |slots| == SLOTS
      ensures pushed == old(pushed)[i := old(pushed[i]) + old(batch)[0].buf.data]
      ensures var s := old(slots[i]);
              var slots1 := old(slots)[i := s.(wl := s.wl + [old(batch)[0].buf], dirty := s.dirty || !s.pending)];
              var dirty1 := if s.pending || s.dirty then old(dirty) else old(dirty) + [i];
              if |dirty1| < DIRTY_MAX then slots == slots1 && dirty == dirty1 && wire == old(wire)
              else dirty == [] && ((forall k :: 0 <= k < |rooms| ==> rooms[k] >= 0) ==>
                                     forall j :: 0 <= j < SLOTS ==> Survives(slots1[j], slots[j]))
    {
      hide Good, Survives;
      AppendSend(i);
      if |dirty| >= DIRTY_MAX { FlushDirty(rooms); }
    }

    method AppendSend(i: nat)
      requires Valid() && batch != [] && batch[0].Send? && i < |slots| == |pushed| == SLOTS && slots[i].sid == batch[0].sid
      requires slots[i].tcp && !slots[i].zombie
      modifies `slots, `batch, `pushed, `dirty
      ensures Good(W()) && batch == old(batch)[1..]
      ensures pushed == old(pushed)[i := old(pushed[i]) + old(batch)[0].buf.data]
      ensures var s := old(slots[i]);
              && slots == old(slots)[i := s.(wl := s.wl + [old(batch)[0].buf], dirty := s.dirty || !s.pending)]
              && dirty == if s.pending || s.dirty then old(dirty) else old(dirty) + [i]
    {
      hide Good, Accounted, Local, Awake, Starts, Sid;
      SlotFacts(W(), i);
      var s, b := slots[i], batch[0].buf;
      var marked := if s.pending || s.dirty then dirty else dirty + [i];
      assert W().dirty == dirty && W().q[0] == batch[0] && W().q[1..] == batch[1..] + ops;
      PopSend(W(), i, marked);
      assert flushing + marked == marked;
      batch := batch[1..];
      pushed := pushed[i := pushed[i] + b.data];
      slots := slots[i := s.(wl := s.wl + [b], dirty := s.dirty || !s.pending)];
      dirty := marked;
    }

    method DropOp()
      requires Valid() && batch != [] && |slots| == SLOTS
      requires batch[0].Send? ==> var s := slots[IndexOf(batch[0].sid)]; s.sid != batch[0].sid || s.zombie || !s.tcp
      requires batch[0].Connect? ==> slots[IndexOf(batch[0].sid)].sid != batch[0].sid
      modifies `batch, `freed
      ensures Valid() && batch == old(batch)[1..] && freed == old(freed) + InOps([old(batch)[0]])
    {
      hide Good, InOps, IndexOf;
      Pop(W());
      assert (batch + ops)[1..] == batch[1..] + ops;
      freed := freed + InOps([batch[0]]);
      batch := batch[1..];
    }

    /** The next operation: a send reaches the connection it names, or its buffer is freed here and now; anything else
        does to the slot what it asks for, if that is still there. */
    method ProcessOne(turn: Turn)
      requires Valid() && batch != []
      modifies this
      ensures Valid() && batch == old(batch)[1..] && ops == old(ops) && taken == old(taken)
      ensures processed == old(processed) + [old(batch)[0]] && |old(slots)| == |old(pushed)| == |slots| == SLOTS
      ensures if old(batch)[0].Send?
              then Delivered(old(batch)[0], old(slots), slots, old(pushed), pushed, old(freed), freed, turn.rooms)
              else Handled(old(batch)[0], old(slots), slots, turn.outcome, turn.added)
    {
      hide Good, IndexOf, Survives;
      var op := batch[0];
      var i := IndexOf(op.sid);
      SlotFacts(W(), i);
      if op.Send? { ProcessSend(i, turn.rooms); } else { ProcessOther(i, turn.outcome, turn.added); }
      SizeIs(W());
      processed := processed + [op];
    }

    method ProcessSend(i: nat, rooms: seq<int>)
      requires Valid() && batch != [] && batch[0].Send? && i == IndexOf(batch[0].sid) && |slots| == |pushed| == SLOTS
      modifies `slots, `batch, `pushed, `dirty, `wire, `freed, `flushing, `hot
      ensures Valid() && batch == old(batch)[1..] && |slots| == SLOTS
      ensures Delivered(old(batch)[0], old(slots), slots, old(pushed), pushed, old(freed), freed, rooms)
    {
      hide Good, IndexOf, Survives;
      var op := batch[0];
      One(op, 0);
      if slots[i].sid != op.sid || slots[i].zombie {
        DropOp();
      } else if slots[i].tcp {
        Lasts(slots, i, slots[i].(wl := slots[i].wl + [op.buf], dirty := slots[i].dirty || !slots[i].pending));
        OpTcpSend(i, rooms);
      } else {
        RefuseSend(i);
      }
    }

    method ProcessOther(i: nat, outcome: Outcome, added: bool)
      requires Valid() && batch != [] && !batch[0].Send? && i == IndexOf(batch[0].sid) && |slots| == SLOTS
      modifies `slots, `batch, `freed
      ensures Valid() && batch == old(batch)[1..] && Handled(old(batch)[0], old(slots), slots, outcome, added)
    {
      hide Good, IndexOf;
      var op := batch[0];
      if op.Connect? { FirstConnect(W()); }
      if slots[i].sid != op.sid || (!op.Close? && slots[i].zombie) {
        DropOp();
      } else if op.Connect? {
        OpTcpConnect(i, outcome, added);
      } else {
        DropOp();
        if op.Close? {
          OpClose(i);
        } else {
          Flags(W(), i, slots[i].(reading := op.on));
          slots := slots[i := slots[i].(reading := op.on)];
        }
      }
    }

    /** A send to something that is not a TCP connection: the buffer is freed and no longer counted. */
    method RefuseSend(i: nat)
      requires Valid() && batch != [] && batch[0].Send? && i < |slots| == SLOTS && slots[i].sid == batch[0].sid
      requires i == IndexOf(batch[0].sid) && !slots[i].tcp
      modifies `slots, `batch, `freed
      ensures Valid() && batch == old(batch)[1..] && freed == old(freed) + multiset{old(batch)[0].buf.id}
      ensures slots == old(slots)[i := old(slots[i]).(wlbytes := (old(slots[i]).wlbytes - |old(batch)[0].buf.data|) % WRAP)]
    {
      hide Good, IndexOf;
      var op := batch[0];
      One(op, 0);
      DropOp();
      Uncount(W(), i, |op.buf.data|);
      slots := slots[i := slots[i].(wlbytes := (slots[i].wlbytes - |op.buf.data|) % WRAP)];
    }

    /** Processes everything queued so far, with workers acting before each operation, then flushes. */
    method OpProcess(turns: seq<Turn>, rooms: seq<int>) returns (ghost before: seq<View>, ghost after: seq<View>)
      requires Valid() && batch == []
      modifies this
      ensures Settled() && processed == old(processed) + old(ops) && |old(slots)| == |slots| == SLOTS
      ensures Traced(old(ops), turns, (old(slots), []), before, after) && |before| == |old(ops)|
      ensures var (slots1, ops1) := From((old(slots), []), after, |after|);
              && ops == ops1 && |slots1| == SLOTS
              && ((forall k :: 0 <= k < |rooms| ==> rooms[k] >= 0) ==> forall j :: 0 <= j < SLOTS ==> Survives(slots1[j], slots[j]))
    {
      hide Good, Shipped, Handled, Survives, Traced, ActedAll;
      SizeIs(W());
      assert ops + [] == [] + ops;
      ghost var all := ops;
      batch, ops := ops, [];
      before, after := [], [];
      NotTraced(all, turns, (slots, ops));
      var k := 0;
      while batch != []
        invariant Valid() && 0 <= k <= |all| && processed + batch == old(processed) + all && batch == all[k..]
        invariant Traced(all, turns, (old(slots), []), before, after) && |before| == |after| == k && |slots| == SLOTS
        invariant (slots, ops) == From((old(slots), []), after, k)
        decreases |batch|
      {
        var turn := TurnAt(turns, k);
        Workers(turn.actions);
        ghost var mid := (slots, ops);
        OneMore(processed, batch);
        ProcessOne(turn);
        TracedMore(all, turns, (old(slots), []), before, after, mid, (slots, ops));
        before, after := before + [mid], after + [(slots, ops)];
        k := k + 1;
      }
      FlushDirty(rooms);
      SizeIs(W());
      Calm(W());
    }

    // ------------------------------------------------------------------- workers

    method Workers(actions: seq<Action>)
      requires Valid()
      modifies this
      ensures Valid() && batch == old(batch) && dirty == old(dirty) && processed == old(processed) && |old(slots)| == |slots| == SLOTS
      ensures (slots, ops) == ActedAll((old(slots), old(ops)), actions)
    {
      hide Good, Acted;
      SizeIs(W());
      var k := 0;
      assert actions[..0] == [];
      while k < |actions|
        invariant 0 <= k <= |actions| && Valid() && batch == old(batch) && dirty == old(dirty) && processed == old(processed)
        invariant |slots| == SLOTS && (slots, ops) == ActedAll((old(slots), old(ops)), actions[..k])
      {
        ActedMore((old(slots), old(ops)), actions, k);
        match actions[k] {
          case DoSend(sid, b) => var _ := TcpSend(sid, b);
          case DoClose(sid) => var _ := CloseSocket(sid);
          case DoConnect(slot) => TcpConnect(slot);
          case DoReadEnable(sid, on) => SetReadEnable(sid, on);
        }
        SizeIs(W());
        k := k + 1;
      }
      assert actions[..k] == actions;
    }

    /** Hands a buffer over: it is queued and counted, or freed here. */
    method TcpSend(sid: Id, b: Buf) returns (st: Status)
      requires Valid()
      modifies `slots, `ops, `taken, `freed
      ensures Valid() && taken == old(taken) + multiset{b.id}
      ensures st == Closed || b.data == [] ==> freed == old(freed) + multiset{b.id} && ops == old(ops)
      ensures st == Done && b.data != [] ==> sid >= 0 && freed == old(freed) && ops == old(ops) + [Send(sid, b)]
      ensures |old(slots)| == SLOTS
      ensures st == Closed <==> old(slots)[IndexOf(sid)].sid != sid || old(slots)[IndexOf(sid)].zombie
      ensures (slots, ops) == Acted((old(slots), old(ops)), DoSend(sid, b))
    {
      hide Good, IndexOf;
      var i := IndexOf(sid);
      SlotFacts(W(), i);
      if slots[i].sid != sid || slots[i].zombie || b.data == [] {
        TakeAndFree(W(), b.id);
        st := if slots[i].sid != sid || slots[i].zombie then Closed else Done;
        taken := taken + multiset{b.id};
        freed := freed + multiset{b.id};
        return;
      }
      PushSend(W(), i, b);
      assert batch + ops + [Send(sid, b)] == batch + (ops + [Send(sid, b)]);
      slots := slots[i := slots[i].(wlbytes := (slots[i].wlbytes + |b.data|) % WRAP)];
      taken := taken + multiset{b.id};
      ops := ops + [Send(sid, b)];
      st := Done;
    }

    /** Queues a close, or frees the slot at once if the connection is already dead. */
    method CloseSocket(sid: Id) returns (st: Status)
      requires Valid()
      modifies `slots, `ops, `freed
      ensures Valid() && |old(slots)| == SLOTS
      ensures var s := old(slots)[IndexOf(sid)];
              && (st == Closed <==> s.sid != sid) && (st == Closing <==> s.sid == sid && s.closewait)
              && (st != Done ==> slots == old(slots) && ops == old(ops))
              && (st == Done && s.zombie ==> slots == old(slots)[IndexOf(sid) := Blank(s.version + 1)] && ops == old(ops))
              && (st == Done && !s.zombie ==>
                    sid >= 0 && slots == old(slots)[IndexOf(sid) := s.(closing := true)] && ops == old(ops) + [Close(sid)])
      ensures (slots, ops) == Acted((old(slots), old(ops)), DoClose(sid))
    {
      hide Good, IndexOf;
      var i := IndexOf(sid);
      SlotFacts(W(), i);
      if slots[i].sid != sid { return Closed; }
      if slots[i].closewait { return Closing; }
      st := Done;
      if slots[i].zombie {
        FreeSocket(i);
        return;
      }
      Flags(W(), i, slots[i].(closing := true));
      slots := slots[i := slots[i].(closing := true)];
      Push(W(), Close(sid));
      assert batch + ops + [Close(sid)] == batch + (ops + [Close(sid)]);
      ops := ops + [Close(sid)];
    }

    method SetReadEnable(sid: Id, on: bool)
      requires Valid()
      modifies `ops
      ensures Valid() && |slots| == SLOTS
      ensures var s := slots[IndexOf(sid)];
              if s.sid != sid || s.zombie then ops == old(ops) else sid >= 0 && ops == old(ops) + [ReadEnable(sid, on)]
      ensures (slots, ops) == Acted((slots, old(ops)), DoReadEnable(sid, on))
    {
      hide Good, IndexOf;
      var i := IndexOf(sid);
      SlotFacts(W(), i);
      if slots[i].sid != sid || slots[i].zombie { return; }
      Push(W(), ReadEnable(sid, on));
      assert batch + ops + [ReadEnable(sid, on)] == batch + (ops + [ReadEnable(sid, on)]);
      ops := ops + [ReadEnable(sid, on)];
    }

    /** Takes a free slot for a new connection and queues its connect. */
    method TcpConnect(i: nat)
      requires Valid()
      modifies `slots, `ops, `wire, `pushed
      ensures Valid() && |old(slots)| == SLOTS
      ensures if i < SLOTS && old(slots)[i].sid < 0
              then && Waiting(slots[i]) && Untouched(slots[i]) && !slots[i].reading && !slots[i].writing
                   && slots == old(slots)[i := slots[i]] && ops == old(ops) + [Connect(slots[i].sid)]
              else slots == old(slots) && ops == old(ops)
      ensures (slots, ops) == Acted((old(slots), old(ops)), DoConnect(i))
    {
      hide Good;
      SizeIs(W());
      if i < SLOTS {
        SlotFacts(W(), i);
        if slots[i].sid < 0 {
          var s := Blank(slots[i].version).(sid := Sid(slots[i].version, i), tcp := true, pending := true);
          PushConnect(W(), i, s);
          assert batch + ops + [Connect(s.sid)] == batch + (ops + [Connect(s.sid)]);
          slots := slots[i := s];
          wire, pushed := wire[i := []], pushed[i := []];
          ops := ops + [Connect(s.sid)];
        }
      }
    }

    // -------------------------------------------------------------------- events

    /** A connection was accepted into a free slot, which is freed again if the poller does not take it. */
    method Accept(i: nat, added: bool)
      requires Settled() && i < SLOTS
      modifies `slots, `wire, `pushed, `freed
      ensures Settled() && |old(slots)| == |slots| == |wire| == |pushed| == SLOTS
      ensures old(slots)[i].sid < 0 && added ==>
                && Open(slots[i]) && slots[i].reading && !slots[i].writing && Untouched(slots[i]) && wire[i] == [] == pushed[i]
      ensures var v := old(slots)[i].version;
              slots == if old(slots)[i].sid >= 0 then old(slots)
                       else if !added then old(slots)[i := Blank(v + 1)]
                       else old(slots)[i := Blank(v).(sid := Sid(v, i), tcp := true, polling := true, reading := true)]
    {
      hide Good;
      SlotFacts(W(), i);
      if slots[i].sid < 0 {
        var s := Blank(slots[i].version).(sid := Sid(slots[i].version, i), tcp := true, polling := true, reading := true);
        Accepted(W(), i, s);
        slots := slots[i := s];
        wire, pushed := wire[i := []], pushed[i := []];
        if !added { FreeSocket(i); }
      }
      Calm(W());
    }

    /** The poller reports on a polled socket: a connect completes or fails, or a connection is readable,
        writable, broken or at its end. */
    method Event(i: nat, r: Report)
      requires Settled() && i < |slots| && slots[i].polling
      modifies `slots, `wire, `freed
      ensures Settled()
      ensures old(slots[i]).tcp && old(slots[i]).pending ==> Completed(old(slots), slots, i, r.pendingError)
      ensures old(slots[i]).tcp && !old(slots[i]).pending ==> Served(old(slots), slots, i, r)
      ensures !old(slots[i]).tcp ==> slots == old(slots)
    {
      hide Good, Served, Completed;
      SizeIs(W());
      Polled(W(), i);
      if slots[i].tcp && slots[i].pending {
        CheckConnected(i, r.pendingError);
      } else if slots[i].tcp {
        ReadWrite(i, r);
      }
      Calm(W());
    }

    /** One round: the queued operations, then the events the poller reported, with workers acting before each. */
    method Poll(turns: seq<Turn>, rooms: seq<int>, events: seq<(seq<Action>, PollEvent)>)
      returns (ghost before: seq<View>, ghost after: seq<View>, ghost start: View, ghost mids: seq<View>, ghost ends: seq<View>)
      requires Valid() && batch == []
      modifies this
      ensures Settled() && processed == old(processed) + old(ops) && |old(slots)| == SLOTS
      ensures Traced(old(ops), turns, (old(slots), []), before, after) && |before| == |old(ops)|
      ensures var (slots1, ops1) := From((old(slots), []), after, |after|);
              && start.1 == ops1 && |slots1| == |start.0| == SLOTS
              && ((forall k :: 0 <= k < |rooms| ==> rooms[k] >= 0) ==> forall j :: 0 <= j < SLOTS ==> Survives(slots1[j], start.0[j]))
      ensures Reported(events, start, mids, ends) && |mids| == |events| && (slots, ops) == From(start, ends, |ends|)
    {
      hide Good, Completed, Served, Survives, Traced, ActedAll, Reported, Happened;
      before, after := OpProcess(turns, rooms);
      start, mids, ends := (slots, ops), [], [];
      NotReported(events, start);
      var k := 0;
      while k < |events|
        invariant 0 <= k <= |events| && Settled() && processed == old(processed) + old(ops)
        invariant Reported(events, start, mids, ends) && |mids| == |ends| == k && |slots| == SLOTS
        invariant (slots, ops) == From(start, ends, k)
      {
        Workers(events[k].0);
        Calm(W());
        ghost var mid := (slots, ops);
        Handle(events[k].1);
        ReportedMore(events, start, mids, ends, mid, (slots, ops));
        mids, ends := mids + [mid], ends + [(slots, ops)];
        k := k + 1;
      }
    }

    method Handle(e: PollEvent)
      requires Settled() && |slots| == SLOTS
      modifies `slots, `wire, `pushed, `freed
      ensures Settled() && |slots| == SLOTS && Happened(old(slots), slots, e)
    {
      hide Good, Completed, Served;
      match e {
        case Arrival(slot, added) =>
          if slot < SLOTS { Accept(slot, added); }
        case Ready(slot, report) =>
          if slot < SLOTS && slots[slot].polling { Event(slot, report); }
      }
      SizeIs(W());
    }

    method CheckConnected(i: nat, failed: bool)
      requires Valid() && i < |slots| == SLOTS && slots[i].polling && slots[i].tcp && slots[i].pending
      modifies `slots, `freed
      ensures Valid()
      ensures Completed(old(slots), slots, i, failed)
    {
      hide Good;
      SlotFacts(W(), i);
      if failed {
        FreeSocket(i);
      } else {
        var s := slots[i].(pending := false, writing := slots[i].writing && slots[i].wl != []);
        Connected(W(), i, s);
        slots := slots[i := s];
      }
    }

    method ReadWrite(i: nat, r: Report)
      requires Valid() && i < |slots| == SLOTS && Open(slots[i])
      modifies `slots, `wire, `freed
      ensures Valid() && Served(old(slots), slots, i, r)
    {
      hide Good, Local, ServedSlot, AfterWrite, Empties, Goes, ListOk;
      ghost var before := slots;
      OpenList(W(), i);
      var sid, failed := slots[i].sid, r.read == ReadError;
      if r.writable {
        var f := TryWrite(i, r.room);
        failed := failed || f;
      }
      ghost var mid := slots;
      AfterOpen(before[i], mid[i], r);
      if slots[i].sid != sid || r.read == ReadSome { // closed now that everything is sent, or more to read
        NothingMore(before[i], mid[i], r);
        return;
      }
      if !failed && r.error { failed := r.pendingError; }
      EndEvent(i, failed, r.read == ReadEof || r.hangup);
      ServedEnd(before[i], mid[i], r, failed);
    }

    /** After an error the connection is dead; at the end of the stream it is no longer read. */
    method EndEvent(i: nat, failed: bool, eof: bool)
      requires Valid() && i < |slots| == SLOTS && Open(slots[i])
      modifies `slots, `freed
      ensures Valid()
      ensures var s := old(slots[i]);
              slots == old(slots)[i := Ended(s, failed, eof)]
    {
      hide Good;
      if failed {
        ZombineSocket(i);
      } else if eof {
        Flags(W(), i, slots[i].(reading := false));
        slots := slots[i := slots[i].(reading := false)];
      }
    }
  }

  // ------------------------------------------------------------------- what a round does

  /** The slots and the operations collected for the next round. */
  type View = (seq<Slot>, seq<Op>)

  /** What a call of a worker does to them. */
  ghost function Acted(v: View, a: Action): (v': View)
    requires |v.0| == SLOTS
    ensures |v'.0| == SLOTS
  {
    match a
    case DoSend(sid, b) =>
      var i := IndexOf(sid);
      var s := v.0[i];
      if s.sid != sid || s.zombie || b.data == [] || sid < 0 then v
      else (v.0[i := s.(wlbytes := (s.wlbytes + |b.data|) % WRAP)], v.1 + [Send(sid, b)])
    case DoClose(sid) =>
      var i := IndexOf(sid);
      var s := v.0[i];
      if s.sid != sid || s.closewait || sid < 0 then v
      else if s.zombie then (v.0[i := Blank(s.version + 1)], v.1)
      else (v.0[i := s.(closing := true)], v.1 + [Close(sid)])
    case DoConnect(i) =>
      if i >= SLOTS || v.0[i].sid >= 0 then v
      else
        var s := Blank(v.0[i].version).(sid := Sid(v.0[i].version, i), tcp := true, pending := true);
        (v.0[i := s], v.1 + [Connect(s.sid)])
    case DoReadEnable(sid, on) =>
      var s := v.0[IndexOf(sid)];
      if s.sid != sid || s.zombie || sid < 0 then v else (v.0, v.1 + [ReadEnable(sid, on)])
  }

  ghost function ActedAll(v: View, actions: seq<Action>): (v': View)
    requires |v.0| == SLOTS
    ensures |v'.0| == SLOTS
  {
    if actions == [] then v else Acted(ActedAll(v, actions[..|actions| - 1]), actions[|actions| - 1])
  }

  lemma ActedMore(v: View, actions: seq<Action>, k: nat)
    requires |v.0| == SLOTS && k < |actions|
    ensures ActedAll(v, actions[..k + 1]) == Acted(ActedAll(v, actions[..k]), actions[k])
  {
    assert actions[..k + 1][..k] == actions[..k];
  }

  function TurnAt(turns: seq<Turn>, k: nat): Turn { if k < |turns| then turns[k] else Turn([], Refused, false, []) }

  /** One operation was processed. */
  ghost predicate Turned(op: Op, v: View, v': View, turn: Turn) {
    && |v.0| == |v'.0| == SLOTS && v'.1 == v.1
    && if op.Send? then Shipped(op, v.0, v'.0, turn.rooms) else Handled(op, v.0, v'.0, turn.outcome, turn.added)
  }

  /** The view a step starts from. */
  ghost function From(start: View, ends: seq<View>, k: nat): View
    requires k <= |ends|
  {
    if k == 0 then start else ends[k - 1]
  }

  /** Workers acted on the view the step before had left. */
  ghost predicate Begun(v: View, mid: View, actions: seq<Action>) { |v.0| == SLOTS && mid == ActedAll(v, actions) }

  lemma FromStays(start: View, ends: seq<View>, end: View, k: nat)
    requires k <= |ends|
    ensures From(start, ends + [end], k) == From(start, ends, k)
  {
  }

  /** Before each operation the workers of its turn act; then it is processed. */
  ghost predicate Traced(ops: seq<Op>, turns: seq<Turn>, start: View, before: seq<View>, after: seq<View>) {
    && |before| == |after| <= |ops|
    && (forall k :: 0 <= k < |before| ==> Turned(ops[k], before[k], after[k], TurnAt(turns, k)))
    && (forall k :: 0 <= k < |before| ==> Begun(From(start, after, k), before[k], TurnAt(turns, k).actions))
  }

  lemma NotTraced(ops: seq<Op>, turns: seq<Turn>, start: View)
    ensures Traced(ops, turns, start, [], [])
  {
  }

  lemma TracedMore(ops: seq<Op>, turns: seq<Turn>, start: View, before: seq<View>, after: seq<View>, mid: View, end: View)
    requires Traced(ops, turns, start, before, after) && |before| < |ops| && Turned(ops[|before|], mid, end, TurnAt(turns, |before|))
    requires Begun(From(start, after, |after|), mid, TurnAt(turns, |before|).actions)
    ensures Traced(ops, turns, start, before + [mid], after + [end])
  {
    hide Turned, Begun, From, TurnAt;
    var before', after' := before + [mid], after + [end];
    forall k | 0 <= k < |before'|
      ensures Turned(ops[k], before'[k], after'[k], TurnAt(turns, k))
      ensures Begun(From(start, after', k), before'[k], TurnAt(turns, k).actions)
    {
      FromStays(start, after, end, k);
      if k < |before| { assert before'[k] == before[k] && after'[k] == after[k]; }
    }
  }

  /** An event was handled, or ignored because its socket is not polled. */
  ghost predicate Happened(before: seq<Slot>, after: seq<Slot>, e: PollEvent)
    requires |before| == SLOTS
  {
    match e
    case Arrival(i, added) =>
      if i >= SLOTS || before[i].sid >= 0 then after == before
      else
        var v := before[i].version;
        after == before[i := if !added then Blank(v + 1)
                             else Blank(v).(sid := Sid(v, i), tcp := true, polling := true, reading := true)]
    case Ready(i, r) =>
      if i >= SLOTS || !before[i].polling || !before[i].tcp then after == before
      else if before[i].pending then Completed(before, after, i, r.pendingError)
      else Served(before, after, i, r)
  }

  ghost predicate Dealt(mid: View, end: View, e: PollEvent) {
    |mid.0| == |end.0| == SLOTS && end.1 == mid.1 && Happened(mid.0, end.0, e)
  }

  /** Before each event the workers act; then it is handled. */
  ghost predicate Reported(events: seq<(seq<Action>, PollEvent)>, start: View, mids: seq<View>, ends: seq<View>) {
    && |mids| == |ends| <= |events|
    && (forall k :: 0 <= k < |mids| ==> Dealt(mids[k], ends[k], events[k].1))
    && (forall k :: 0 <= k < |mids| ==> Begun(From(start, ends, k), mids[k], events[k].0))
  }

  lemma NotReported(events: seq<(seq<Action>, PollEvent)>, start: View)
    ensures Reported(events, start, [], [])
  {
  }

  lemma ReportedMore(events: seq<(seq<Action>, PollEvent)>, start: View, mids: seq<View>, ends: seq<View>, mid: View, end: View)
    requires Reported(events, start, mids, ends) && |mids| < |events| && Dealt(mid, end, events[|mids|].1)
    requires Begun(From(start, ends, |ends|), mid, events[|mids|].0)
    ensures Reported(events, start, mids + [mid], ends + [end])
  {
    hide Dealt, Begun, From;
    var mids', ends' := mids + [mid], ends + [end];
    forall k | 0 <= k < |mids'|
      ensures Dealt(mids'[k], ends'[k], events[k].1) && Begun(From(start, ends', k), mids'[k], events[k].0)
    {
      FromStays(start, ends, end, k);
      if k < |mids| { assert mids'[k] == mids[k] && ends'[k] == ends[k]; }
    }
  }

  /** A send reached its connection's stream, or its buffer was freed; no connection is lost over it but by a failing
      write or because it was to be closed. */
  ghost predicate Delivered(op: Op, slots: seq<Slot>, slots': seq<Slot>, pushed: seq<seq<Byte>>, pushed': seq<seq<Byte>>,
                            freed: multiset<nat>, freed': multiset<nat>, rooms: seq<int>)
    requires op.Send? && |slots| == |slots'| == |pushed| == SLOTS
  {
    var i := IndexOf(op.sid);
    && Shipped(op, slots, slots', rooms)
    && if slots[i].sid == op.sid && slots[i].tcp && !slots[i].zombie then pushed' == pushed[i := pushed[i] + op.buf.data]
       else pushed' == pushed && freed' == freed + multiset{op.buf.id}
  }

  /** What a send does to the slots: its buffer joins the list of its connection, and nobody is lost over it but by a
      failing write or because it was to be closed; one refused is no longer counted. */
  ghost predicate Shipped(op: Op, slots: seq<Slot>, slots': seq<Slot>, rooms: seq<int>)
    requires op.Send? && |slots| == |slots'| == SLOTS
  {
    var i := IndexOf(op.sid);
    var s := slots[i];
    if s.sid != op.sid || s.zombie then slots' == slots
    else if !s.tcp then slots' == slots[i := s.(wlbytes := (s.wlbytes - |op.buf.data|) % WRAP)]
    else
      || slots' == slots[i := s.(wl := s.wl + [op.buf], dirty := s.dirty || !s.pending)]
      || ((forall k :: 0 <= k < |rooms| ==> rooms[k] >= 0) ==> forall j :: 0 <= j < SLOTS ==> Survives(slots[j], slots'[j]))
  }

  /** A close, connect or read request took effect on its slot, or found it gone. */
  ghost predicate Handled(op: Op, before: seq<Slot>, after: seq<Slot>, outcome: Outcome, added: bool)
    requires !op.Send? && |before| == SLOTS
  {
    var i := IndexOf(op.sid);
    var s := before[i];
    if s.sid != op.sid || (s.zombie && !op.Close?) then after == before
    else match op
      case Connect(_) => Attempted(before, after, i, outcome, added)
      case ReadEnable(_, on) => after == before[i := s.(reading := on)]
      case _ => after == before[i := if s.wl == [] then Blank(s.version + 1) else s.(closewait := true, reading := false)]
  }

  /** A connect was attempted: the socket is free again, up, or in progress with its write event on. */
  ghost predicate Attempted(before: seq<Slot>, after: seq<Slot>, i: nat, outcome: Outcome, added: bool)
    requires i < |before|
  {
    var s := before[i].(polling := true, reading := true);
    after == before[i := if outcome == Refused || !added then Blank(s.version + 1)
                         else if outcome == Up then s.(pending := false, writing := s.wl != [])
                         else s.(writing := true)]
  }

  /** How many bytes of the pieces gathered from the list the kernel takes; -1 is an error, 0 stands for "try again". */
  method Writev(wl: seq<Buf>, offset: nat, pending: bool, kernel: int) returns (total: int)
    requires ListOk(wl, offset)
    ensures total == if kernel < 0 then -1 else if pending then 0 else Taken(wl, offset, kernel)
    ensures kernel > 0 && !pending && wl != [] ==> total > 0
    ensures kernel == 0 ==> total == 0
  {
    hide Unsent, Beyond, Concat;
    var iov := Gather(wl, offset);
    if kernel < 0 { return -1; }
    if pending { return 0; }
    total := if kernel < |Concat(iov)| then kernel else |Concat(iov)|;
  }

  lemma OpenList(w: World, i: nat)
    requires Good(w) && i < SLOTS
    ensures |w.slots| == |w.wire| == SLOTS && (!w.slots[i].zombie ==> ListOk(w.slots[i].wl, w.slots[i].offset))
  {
    SlotFacts(w, i);
  }

  /** Nothing was sent through the socket yet, nobody closes it, and it is not marked. */
  ghost predicate Untouched(s: Slot) {
    s.wl == [] && s.offset == 0 && s.wlbytes == 0 && !s.dirty && !s.closing && !s.closewait && !s.zombie
  }

  /** Only the write list, its offset and count and the write event differ. */
  ghost predicate Drained(s: Slot, s': Slot) {
    s' == s.(wl := s'.wl, offset := s'.offset, wlbytes := s'.wlbytes, writing := s'.writing)
  }

  /** The first n unsent bytes are off the list and the count, and the write event is on exactly if something is left. */
  ghost predicate Reduced(s: Slot, s': Slot, n: nat)
    requires ListOk(s.wl, s.offset) && n <= |Unsent(s.wl, s.offset)|
  {
    && Drained(s, s') && ListOk(s'.wl, s'.offset) && Unsent(s'.wl, s'.offset) == Unsent(s.wl, s.offset)[n..]
    && s'.wlbytes == (s.wlbytes - n) % WRAP && (s'.writing <==> s'.wl != [])
  }

  /** The bytes that go out when the kernel has this much room. */
  ghost function Goes(s: Slot, room: int): seq<Byte>
    requires ListOk(s.wl, s.offset)
  {
    if room <= 0 || s.pending || s.wl == [] then [] else Unsent(s.wl, s.offset)[..Taken(s.wl, s.offset, room)]
  }

  /** All the data goes out. */
  ghost predicate Empties(s: Slot, room: int)
    requires ListOk(s.wl, s.offset)
  {
    room > 0 && !s.pending && s.wl != [] && Taken(s.wl, s.offset, room) == |Unsent(s.wl, s.offset)|
  }

  /** What a write attempt leaves of a slot. */
  ghost predicate AfterWrite(s: Slot, s': Slot, room: int)
    requires ListOk(s.wl, s.offset)
  {
    if s.wl == [] || room < 0 then s' == s
    else if Empties(s, room) && s.closewait then s' == Blank(s.version + 1)
    else |Goes(s, room)| <= |Unsent(s.wl, s.offset)| && Reduced(s, s', |Goes(s, room)|)
  }

  ghost predicate ToFlush(s: Slot) { s.sid >= 0 && s.tcp && !s.zombie && s.wl != [] && ListOk(s.wl, s.offset) }

  /** What the flush leaves of a slot. */
  ghost predicate Flushed(s: Slot, s': Slot, room: int) {
    if !ToFlush(s) then s' == s
    else if room < 0 then s' == if s.closewait then Blank(s.version + 1) else Dead(s)
    else AfterWrite(s, s', room)
  }

  /** A slot keeps its socket, dead only if it was, unless that was to be closed. */
  ghost predicate Survives(s: Slot, s': Slot) {
    !s.closewait ==> s'.sid == s.sid && s'.version == s.version && s'.zombie == s.zombie && !s'.closewait
  }

  lemma StillThere(slots: seq<Slot>)
    ensures forall j :: 0 <= j < |slots| ==> Survives(slots[j], slots[j])
  {
  }

  lemma Lasts(slots: seq<Slot>, i: nat, s: Slot)
    requires i < |slots| && Drained(slots[i].(dirty := s.dirty), s)
    ensures forall j :: 0 <= j < |slots| ==> Survives(slots[j], slots[i := s][j])
    ensures forall a, b, c :: Survives(a, b) && Survives(b, c) ==> Survives(a, c)
  {
  }

  lemma AllSurvive(before: seq<Slot>, mid: seq<Slot>, after: seq<Slot>, i: nat, room: int)
    requires i < |before| == |mid| == |after| && room >= 0
    requires forall j :: 0 <= j < |before| ==> Survives(before[j], mid[j])
    requires forall j :: 0 <= j < |before| && j != i ==> after[j] == mid[j]
    requires Flushed(mid[i].(dirty := false), after[i], room)
    ensures forall j :: 0 <= j < |before| ==> Survives(before[j], after[j])
  {
    hide ListOk, Unsent, Taken, Empties, Goes;
    assert Survives(before[i], mid[i]) && Survives(mid[i], after[i]);
  }

  /** The count of a live connection is below the wrap. */
  lemma Counted(s: Slot, q: seq<Op>, wire: seq<Byte>, pushed: seq<Byte>)
    requires Accounted(s, q, wire, pushed) && s.sid >= 0 && s.tcp && !s.zombie && ListOk(s.wl, s.offset)
    ensures s.wlbytes < WRAP
  {
    hide Unsent, Queued;
  }

  lemma GoesNowhere(s: Slot, wire: seq<Byte>, room: int)
    requires ListOk(s.wl, s.offset)
    ensures room <= 0 || s.pending || s.wl == [] ==> wire + Goes(s, room) == wire && !Empties(s, room)
    ensures Unsent(s.wl, s.offset)[0..] == Unsent(s.wl, s.offset)
  {
    hide Unsent, Taken;
  }

  lemma GoesOut(s: Slot, room: int)
    requires ListOk(s.wl, s.offset) && room > 0 && !s.pending && s.wl != []
    ensures |Goes(s, room)| == Taken(s.wl, s.offset, room) <= |Unsent(s.wl, s.offset)|
    ensures Goes(s, room) == Unsent(s.wl, s.offset)[..Taken(s.wl, s.offset, room)]
  {
    hide Unsent, Taken;
  }

  /** Without room nothing changes but the write event. */
  lemma NoWrite(s: Slot, room: int)
    requires ListOk(s.wl, s.offset) && s.wlbytes < WRAP && s.sid >= 0
    ensures s.wl == [] || room < 0 ==> AfterWrite(s, s, room)
    ensures s.wl != [] && room >= 0 && (room == 0 || s.pending) ==> AfterWrite(s, s.(writing := true), room)
    ensures s != Blank(s.version + 1) && s.(writing := true) != Blank(s.version + 1)
  {
    GoesNowhere(s, [], room);
    hide Unsent, Taken;
    assert [] + Goes(s, room) == Goes(s, room);
  }

  lemma TookOut(s: Slot, s1: Slot, room: int, total: nat)
    requires ListOk(s.wl, s.offset) && room > 0 && !s.pending && s.wl != [] && total == Taken(s.wl, s.offset, room) && s.sid >= 0
    requires Reduced(s, s1, total)
    ensures Drained(s, s1) && (s1.wl == [] || s1.writing) && s1 != Blank(s.version + 1) && (s1.wl == [] <==> Empties(s, room))
    ensures s1.wl != [] || !s.closewait ==> AfterWrite(s, s1, room)
    ensures s1.wl == [] && s.closewait ==> AfterWrite(s, Blank(s.version + 1), room)
  {
    GoesOut(s, room);
    NothingLeft(s1.wl, s1.offset);
    hide Unsent, Taken;
  }

  lemma NothingLeft(wl: seq<Buf>, offset: nat)
    requires ListOk(wl, offset)
    ensures wl == [] <==> Unsent(wl, offset) == []
  {
  }

  /** A connect has completed: it failed, or the socket is up and polled for writing only if data is waiting. */
  ghost predicate Completed(before: seq<Slot>, after: seq<Slot>, i: nat, failed: bool)
    requires i < |before|
  {
    var s := before[i];
    after == before[i := if failed then Blank(s.version + 1) else s.(pending := false, writing := s.writing && s.wl != [])]
  }

  /** What the poller and the system calls behind it say about a connection: the result of reading, whether it can be
      written and for how much, an error event with the error that is pending, and the end of the stream. */
  datatype Report = Report(read: ReadResult, writable: bool, room: int, error: bool, pendingError: bool, hangup: bool)

  ghost predicate Fails(s: Slot, r: Report) {
    r.read == ReadError || (r.writable && r.room < 0 && s.wl != []) || (r.error && r.pendingError)
  }

  /** What an event does to a connection; nobody else is touched. It is freed when all its data is out and it was to be
      closed; after an error it is dead, or freed if it was to be closed, except that an error waits while there is more
      to read; otherwise it stays, is no longer read at the end of the stream, and has sent what the kernel took. */
  ghost predicate Served(before: seq<Slot>, after: seq<Slot>, i: nat, r: Report)
    requires i < |before|
  {
    && |after| == |before| && (forall j :: 0 <= j < |before| && j != i ==> after[j] == before[j])
    && ServedSlot(before[i], after[i], r)
  }

  ghost predicate ServedSlot(s: Slot, s': Slot, r: Report) {
    && ListOk(s.wl, s.offset)
    && if r.writable && Empties(s, r.room) && s.closewait then s' == Blank(s.version + 1)
       else if r.read != ReadSome && Fails(s, r) then
         if s.closewait then s' == Blank(s.version + 1)
         else && s'.sid == s.sid && s'.version == s.version && s'.zombie && s'.wl == [] && s'.wlbytes == 0
              && !s'.polling && !s'.reading && !s'.writing
       else
         && s'.sid == s.sid && !s'.zombie
         && s'.reading == (s.reading && (r.read == ReadSome || !(r.read == ReadEof || r.hangup)))
         && if r.writable then AfterWrite(s, s'.(reading := s.reading), r.room) else s'.(reading := s.reading) == s
  }

  function Ended(s: Slot, failed: bool, eof: bool): Slot {
    if failed then (if s.closewait then Blank(s.version + 1) else Dead(s)) else if eof then s.(reading := false) else s
  }

  /** The write of an event has been done to an open connection. */
  ghost predicate Written(s: Slot, m: Slot, r: Report) {
    && ListOk(s.wl, s.offset) && Open(s)
    && (if r.writable then AfterWrite(s, m, r.room) else m == s)
    && (m.sid != s.sid <==> r.writable && Empties(s, r.room) && s.closewait)
  }

  lemma AfterOpen(s: Slot, m: Slot, r: Report)
    requires Written(s, m, r)
    ensures m.sid == s.sid ==> Drained(s, m) && Open(m)
  {
    hide ListOk, Unsent, Taken, Goes, Empties;
  }

  lemma NothingMore(s: Slot, m: Slot, r: Report)
    requires Written(s, m, r) && (m.sid != s.sid || r.read == ReadSome)
    ensures ServedSlot(s, m, r)
  {
    AfterOpen(s, m, r);
    assert m.sid == s.sid ==> m.(reading := s.reading) == m;
    hide ListOk, Reduced, Goes, Empties;
  }

  lemma ServedEnd(s: Slot, m: Slot, r: Report, failed: bool)
    requires Written(s, m, r) && m.sid == s.sid && r.read != ReadSome && (failed <==> Fails(s, r))
    ensures ServedSlot(s, Ended(m, failed, r.read == ReadEof || r.hangup), r)
  {
    AfterOpen(s, m, r);
    hide ListOk, AfterWrite, Empties;
    assert m.(reading := false).(reading := s.reading) == m && m.(reading := s.reading) == m;
  }

  datatype PollEvent =
    | Arrival(slot: nat, added: bool)
    | Ready(slot: nat, report: Report)

  datatype ReadResult = ReadNothing | ReadSome | ReadEof | ReadError

  lemma OneMore(done: seq<Op>, rest: seq<Op>)
    requires rest != []
    ensures done + [rest[0]] + rest[1..] == done + rest
  {
  }

  lemma SizeIs(w: World)
    requires Good(w)
    ensures |w.slots| == SLOTS
  {
  }

  /** With the dirty set empty, nothing is stranded. */
  lemma Calm(w: World)
    requires Good(w) && w.dirty == [] && w.hot < 0
    ensures forall i :: 0 <= i < |w.slots| && Open(w.slots[i]) && w.slots[i].wl != [] ==> w.slots[i].polling && w.slots[i].writing
  {
    forall i | 0 <= i < |w.slots| && Open(w.slots[i]) && w.slots[i].wl != [] ensures w.slots[i].polling && w.slots[i].writing {
      NoStranded(w, i);
    }
  }

  lemma Polled(w: World, i: nat)
    requires Good(w) && i < |w.slots| && w.slots[i].polling
    ensures i < SLOTS && (w.slots[i].tcp && !w.slots[i].pending ==> Open(w.slots[i]))
  {
    SlotFacts(w, i);
    hide Good, Accounted, Starts;
  }

  /** A connect in front of the queue finds its socket waiting. */
  lemma FirstConnect(w: World)
    requires Good(w) && w.q != [] && w.q[0].Connect?
    ensures w.slots[IndexOf(w.q[0].sid)].sid == w.q[0].sid ==> Waiting(w.slots[IndexOf(w.q[0].sid)])
  {
    assert OpOk(w.slots, w.q, 0);
  }

  lemma Uncount(w: World, i: nat, n: nat)
    requires Good(w) && i < SLOTS && w.slots[i].sid >= 0 && !w.slots[i].tcp
    ensures Good(w.(slots := w.slots[i := w.slots[i].(wlbytes := (w.slots[i].wlbytes - n) % WRAP)]))
  {
    SlotFacts(w, i);
    var s := w.slots[i].(wlbytes := (w.slots[i].wlbytes - n) % WRAP);
    hide Good, Queued, Ids, Unsent;
    Touch(w, i, s, w.wire[i], w.pushed[i], multiset{});
    assert w.wire[i := w.wire[i]] == w.wire && w.pushed[i := w.pushed[i]] == w.pushed;
    assert w.freed + multiset{} == w.freed;
  }

  lemma TakeAndFree(w: World, id: nat)
    requires Good(w)
    ensures Good(w.(taken := w.taken + multiset{id}, freed := w.freed + multiset{id}))
  {
    hide Local, Accounted, Awake, Starts, OpOk, InOps, InSlots;
    var w' := w.(taken := w.taken + multiset{id}, freed := w.freed + multiset{id});
    forall j | 0 <= j < SLOTS ensures SlotOk(w', j) { assert SlotOk(w, j); }
  }

  lemma DirtyInRange(w: World, i: nat)
    requires Good(w) && i in w.dirty
    ensures i < SLOTS == |w.slots|
  {
  }

  lemma FlushStart(w: World, i: nat)
    requires Good(w) && w.dirty != [] && i == w.dirty[0] && i < SLOTS && w.hot < 0
    ensures Good(w.(slots := w.slots[i := w.slots[i].(dirty := false)], dirty := w.dirty[1..], hot := i))
  {
    hide Accounted, OpOk, InOps, InSlots, Sid, Starts;
    var s := w.slots[i].(dirty := false);
    var w1 := w.(hot := i);
    forall j | 0 <= j < SLOTS ensures SlotOk(w1, j) { assert SlotOk(w, j); }
    SlotFacts(w, i);
    assert s.sid < 0 ==> s == w.slots[i];
    StartsAnyway(w.slots[i], s, w.q);
    NotCounted(w.slots[i], s, w.q, w.wire[i], w.pushed[i]);
    Touch(w1, i, s, w.wire[i], w.pushed[i], multiset{});
    Same(w1, i, s);
    var w2 := w1.(slots := w.slots[i := s]);
    var w' := w2.(dirty := w.dirty[1..]);
    assert w.dirty == [i] + w.dirty[1..];
    hide Local, Awake;
    forall j | 0 <= j < SLOTS ensures SlotOk(w', j) { assert SlotOk(w2, j); }
    forall j | j in w'.dirty ensures j < SLOTS { assert j in w.dirty; }
    assert SlotsOk(w');
    assert Conserved(w');
  }

  lemma StartsAnyway(s: Slot, s': Slot, q: seq<Op>)
    requires Starts(s, q) && s' == s.(dirty := s'.dirty)
    ensures Starts(s', q)
  {
  }

  lemma NotCounted(s: Slot, s': Slot, q: seq<Op>, wire: seq<Byte>, pushed: seq<Byte>)
    requires Accounted(s, q, wire, pushed) && s' == s.(dirty := s'.dirty)
    ensures Accounted(s', q, wire, pushed)
  {
  }

  lemma FlushEnd(w: World, i: nat)
    requires Good(w) && w.hot == i < SLOTS
    requires var s := w.slots[i]; s.zombie || s.sid < 0 || s.wl == [] || !s.tcp || s.writing
    ensures Good(w.(hot := -1))
  {
    hide Local, Accounted, OpOk, InOps, InSlots, Starts;
    var w' := w.(hot := -1);
    forall j | 0 <= j < SLOTS ensures SlotOk(w', j) { assert SlotOk(w, j); }
  }

  lemma Initial(w: World)
    requires w.slots == seq(SLOTS, _ => Blank(0)) && w.q == [] && w.dirty == [] && w.hot < 0
    requires w.taken == w.freed == multiset{} && w.wire == w.pushed == seq(SLOTS, _ => [])
    ensures Good(w)
  {
    NoBufs(w.slots);
  }

  lemma {:induction false} NoBufs(slots: seq<Slot>)
    requires forall i :: 0 <= i < |slots| ==> slots[i].wl == []
    ensures InSlots(slots) == multiset{}
  {
    if slots != [] { NoBufs(slots[..|slots| - 1]); }
  }

  /** A buffer handed over once is in exactly one place; when no queue and no list holds it, it was freed once. */
  lemma FreedOnce(w: World, id: nat)
    requires Good(w) && w.taken[id] == 1
    ensures w.freed[id] + InOps(w.q)[id] + InSlots(w.slots)[id] == 1
  {
    hide SlotsOk, OpsOk, InOps, InSlots;
    assert (w.freed + InOps(w.q) + InSlots(w.slots))[id] == w.freed[id] + InOps(w.q)[id] + InSlots(w.slots)[id];
  }

  /** What a live connection has written is the beginning of what it was given, and the rest is still held. */
  lemma WrittenInOrder(w: World, i: nat)
    requires Good(w) && i < SLOTS && w.slots[i].sid >= 0 && w.slots[i].tcp && !w.slots[i].zombie
    ensures var s := w.slots[i];
            && w.wire[i] <= w.pushed[i] && ListOk(s.wl, s.offset) && w.pushed[i][|w.wire[i]|..] == Unsent(s.wl, s.offset)
            && s.wlbytes == (|w.pushed[i]| - |w.wire[i]| + Queued(w.q, s.sid)) % WRAP
  {
    SlotFacts(w, i);
    hide Good, Unsent, Queued;
  }
}
