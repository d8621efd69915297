/** Timers from creation to their end, as interleaved atomic steps of workers and the timer thread: nodes
    move between the free list, the command buffer, the wheel and the chain of freed nodes, and a session
    is a node together with the version it had when it was handed out. Which timers of the wheel fire
    in a tick is the subject of module TimerWheel; here any of them may. */
module TimerLifecycle {
  const RESOLUTION: nat := 10
  const WRAP: nat := 0x1_0000_0000

  datatype NodeState = Adding | Ticking | Freed

  /** Where a node is; kept for the proofs. */
  datatype Place = InFree | InHand | InQueue | InWheel | InChain

  datatype Node = Node(version: nat, state: NodeState, place: Place)

  datatype Cmd = After(c: nat) | Cancel(c: nat, version: nat)

  type Session = (nat, nat) // node and version

  datatype Phase = Resting | Advanced | Processing | Running

  datatype State = State(
    nodes: seq<Node>, free: seq<nat>, chain: seq<nat>, hands: set<nat>, wheel: set<nat>,
    writing: seq<Cmd>, batch: seq<Cmd>,
    phase: Phase, left: nat, cancels: nat, jiffies: nat, ticktime: nat,
    scheduled: nat, pending: int, fired: nat, canceled: nat,
    counting: nat, starting: nat, // workers between the steps of timer_after
    returned: set<Session>, cancelling: multiset<Session>,
    issued: set<Session>, ended: multiset<Session>)
  {
    function Queue(): seq<Cmd> { batch + writing }
  }

  datatype Step =
    | CountScheduled // timer_after: the first counter
    | CountPending // timer_after: the second counter
    | NewPage(n: nat) // pool_newnode: a page joins the free list
    | Alloc // pool_newnode: the oldest free node
    | PushAfter(c: nat) // timer_after: the command; the session is returned
    | CheckCancel(s: Session) // timer_cancel: the version test
    | PushCancel(s: Session) // timer_cancel: the command
    | Advance(time: nat) // timer_update: the clock
    | Flip // process_cmd: exchange the buffers
    | ProcessCmd // process_cmd: the next command
    | EndCmds // process_cmd: the counters
    | Fire(c: nat) // update_timer: one expired node
    | EndTick // update_timer: the next tick
    | Release // timer_update: the freed nodes go back to the pool

  predicate Enabled(s: State, t: Step) {
    match t
    case CountScheduled => true
    case CountPending => s.counting > 0
    case NewPage(n) => s.starting > 0 && n > 0
    case Alloc => s.free != [] && s.starting > 0 && s.free[0] < |s.nodes|
    case PushAfter(c) => c in s.hands && c < |s.nodes|
    case CheckCancel(x) => true
    case PushCancel(x) => s.cancelling[x] > 0
    case Advance(time) => s.phase.Resting? && s.ticktime + RESOLUTION <= time < s.ticktime + 0x8000_0000
    case Flip => s.phase.Advanced?
    case ProcessCmd => s.phase.Processing? && s.batch != [] && s.batch[0].c < |s.nodes|
    case EndCmds => s.phase.Processing? && s.batch == []
    case Fire(c) => s.phase.Running? && s.left > 0 && c in s.wheel && c < |s.nodes|
    case EndTick => s.phase.Running? && s.left > 0
    case Release => s.phase.Running? && s.left == 0
  }

  /** The node's session is over: its version goes up and it joins the chain. */
  function End(s: State, c: nat): State
    requires c < |s.nodes|
  {
    s.(nodes := s.nodes[c := Node(s.nodes[c].version + 1, Freed, InChain)], wheel := s.wheel - {c},
       chain := s.chain + [c], ended := s.ended + multiset{(c, s.nodes[c].version)})
  }

  function Do(s: State, t: Step): State
    requires Enabled(s, t)
  {
    match t
    case CountScheduled => s.(scheduled := s.scheduled + 1, counting := s.counting + 1)
    case CountPending => s.(pending := s.pending + 1, counting := s.counting - 1, starting := s.starting + 1)
    case NewPage(n) =>
      s.(nodes := s.nodes + seq(n, _ => Node(0, Freed, InFree)), free := s.free + seq(n, i => |s.nodes| + i))
    case Alloc =>
      var c := s.free[0];
      s.(free := s.free[1..], starting := s.starting - 1, hands := s.hands + {c},
         nodes := s.nodes[c := s.nodes[c].(state := Adding, place := InHand)],
         issued := s.issued + {(c, s.nodes[c].version)})
    case PushAfter(c) =>
      s.(hands := s.hands - {c}, nodes := s.nodes[c := s.nodes[c].(place := InQueue)],
         writing := s.writing + [After(c)], returned := s.returned + {(c, s.nodes[c].version)})
    case CheckCancel(x) =>
      if x.0 < |s.nodes| && s.nodes[x.0].version == x.1 then s.(cancelling := s.cancelling + multiset{x}) else s
    case PushCancel(x) => s.(cancelling := s.cancelling - multiset{x}, writing := s.writing + [Cancel(x.0, x.1)])
    case Advance(time) =>
      var ticks := (time - s.ticktime) / RESOLUTION;
      s.(ticktime := s.ticktime + ticks * RESOLUTION, left := ticks, phase := Advanced)
    case Flip => s.(batch := s.writing, writing := [], phase := Processing)
    case ProcessCmd =>
      var s' := s.(batch := s.batch[1..]);
      (match s.batch[0]
       case After(c) => s'.(nodes := s.nodes[c := s.nodes[c].(state := Ticking, place := InWheel)], wheel := s.wheel + {c})
       case Cancel(c, v) => if s.nodes[c].version != v then s' else End(s', c).(cancels := s.cancels + 1))
    case EndCmds => s.(pending := s.pending - s.cancels, canceled := s.canceled + s.cancels, cancels := 0, phase := Running)
    case Fire(c) => End(s, c).(pending := s.pending - 1, fired := s.fired + 1)
    case EndTick => s.(jiffies := (s.jiffies + 1) % WRAP, left := s.left - 1)
    case Release => s.(free := s.free + s.chain, chain := [],
                       nodes := seq(|s.nodes|, i requires 0 <= i < |s.nodes| =>
                                  if s.nodes[i].place.InChain? then s.nodes[i].(place := InFree) else s.nodes[i]),
                       phase := Resting)
  }

  function Initial(time: nat): State {
    State([], [], [], {}, {}, [], [], Resting, 0, 0, time / RESOLUTION % WRAP, time / RESOLUTION * RESOLUTION,
          0, 0, 0, 0, 0, 0, {}, multiset{}, {}, multiset{})
  }

  // --------------------------------------------------------------- the invariant

  ghost predicate Live(n: Node) { n.place.InHand? || n.place.InQueue? || n.place.InWheel? }

  /** One node: it is where its place says and nowhere else, and its state fits. */
  ghost predicate PlaceOk(c: nat, n: Node, free: seq<nat>, chain: seq<nat>, hands: set<nat>, wheel: set<nat>, q: seq<Cmd>) {
    && (c in free <==> n.place.InFree?)
    && (c in chain <==> n.place.InChain?)
    && (c in hands <==> n.place.InHand?)
    && (c in wheel <==> n.place.InWheel?)
    && (After(c) in q <==> n.place.InQueue?)
    && n.state == (if n.place.InWheel? then Ticking else if Live(n) then Adding else Freed)
  }

  /** Of its sessions all but a live one have ended, once each. */
  ghost predicate SessionsOk(c: nat, n: Node, issued: set<Session>, ended: multiset<Session>, returned: set<Session>) {
    && (forall v: nat :: (c, v) in issued <==> v < n.version || (v == n.version && Live(n)))
    && (forall v: nat :: ended[(c, v)] == if v < n.version then 1 else 0)
    && (forall v: nat :: (c, v) in returned <==> v < n.version || (v == n.version && (n.place.InQueue? || n.place.InWheel?)))
  }

  ghost predicate NodeOk(s: State, c: nat)
    requires c < |s.nodes|
  {
    && PlaceOk(c, s.nodes[c], s.free, s.chain, s.hands, s.wheel, s.Queue())
    && SessionsOk(c, s.nodes[c], s.issued, s.ended, s.returned)
  }

  ghost predicate Distinct(a: seq<nat>) { forall i, j :: 0 <= i < j < |a| ==> a[i] != a[j] }

  /** Nothing refers to a node that does not exist. */
  ghost predicate Ranges(s: State) {
    && (forall i :: 0 <= i < |s.free| ==> s.free[i] < |s.nodes|)
    && (forall i :: 0 <= i < |s.chain| ==> s.chain[i] < |s.nodes|)
    && (forall c :: c in s.hands ==> c < |s.nodes|)
    && (forall c :: c in s.wheel ==> c < |s.nodes|)
    && (forall x :: x in s.issued ==> x.0 < |s.nodes|)
    && (forall x :: x in s.returned ==> x.0 < |s.nodes|)
    && (forall x :: x in s.ended ==> x.0 < |s.nodes|)
    && (forall x :: x in s.cancelling ==> x in s.returned)
    && Distinct(s.free) && Distinct(s.chain)
  }

  /** Commands are for existing nodes, a node is added by one command only, and a cancel that still matters comes
      after that command. */
  ghost predicate CmdOk(s: State, q: seq<Cmd>, k: nat)
    requires k < |q|
  {
    && q[k].c < |s.nodes|
    && (q[k].After? ==> forall j :: 0 <= j < k ==> q[j] != q[k])
    && (q[k].Cancel? ==>
          && (q[k].c, q[k].version) in s.returned
          && (s.nodes[q[k].c].version == q[k].version && !s.nodes[q[k].c].place.InWheel? ==>
                exists j :: 0 <= j < k && q[j] == After(q[k].c)))
  }

  ghost predicate QueueOk(s: State) {
    && (forall k :: 0 <= k < |s.Queue()| ==> CmdOk(s, s.Queue(), k))
    && (s.phase.Processing? || s.batch == [])
    && (s.phase.Running? || s.chain == [] || s.phase.Processing?)
  }

  function Afters(q: seq<Cmd>): nat { if q == [] then 0 else Afters(q[..|q| - 1]) + if q[|q| - 1].After? then 1 else 0 }

  /** The counters, with the timers counted but not yet created and the cancels not yet counted. */
  ghost predicate CountsOk(s: State) {
    && s.scheduled == s.pending + s.fired + s.canceled + s.counting
    && s.pending == s.starting + |s.hands| + Afters(s.Queue()) + |s.wheel| + s.cancels
    && (s.phase.Processing? || s.cancels == 0)
  }

  ghost predicate ClockOk(s: State) {
    && s.ticktime % WRAP == (s.jiffies + s.left) * RESOLUTION % WRAP
    && s.jiffies < WRAP
    && (s.phase.Resting? ==> s.left == 0)
  }

  ghost predicate Inv(s: State) {
    && Ranges(s) && (forall c :: 0 <= c < |s.nodes| ==> NodeOk(s, c)) && QueueOk(s) && CountsOk(s) && ClockOk(s)
  }

  /** A cancel is for a session that has been returned. */
  predicate Honest(s: State, t: Step) { t.CheckCancel? ==> t.s in s.returned }

  /** The assertions in the code: a node taken from the pool is free, a session names a node of the pool, an added
      node is being added, a cancelled one is ticking, and the tick time agrees with the tick count. */
  ghost predicate AssertsHold(s: State, t: Step)
    requires Enabled(s, t)
  {
    match t
    case Alloc => s.nodes[s.free[0]].state == Freed
    case CheckCancel(x) => x.0 < |s.nodes|
    case ProcessCmd =>
      (match s.batch[0]
       case After(c) => s.nodes[c].state == Adding
       case Cancel(c, v) => s.nodes[c].version == v ==> s.nodes[c].state == Ticking)
    case Release => s.ticktime % WRAP == s.jiffies * RESOLUTION % WRAP
    case _ => true
  }

  lemma AssertsNeverFail(s: State, t: Step)
    requires Inv(s) && Enabled(s, t) && Honest(s, t)
    ensures AssertsHold(s, t)
  {
    hide CountsOk, SessionsOk;
    if t.Alloc? {
      assert NodeOk(s, s.free[0]);
    } else if t.ProcessCmd? {
      var q := s.Queue();
      assert q[0] == s.batch[0] && CmdOk(s, q, 0);
      assert NodeOk(s, q[0].c);
    }
  }

  // --------------------------------------------------------------------- the clock

  lemma TickWraps(j: nat, left: nat)
    requires j < WRAP && left > 0
    ensures ((j + 1) % WRAP + (left - 1)) * RESOLUTION % WRAP == (j + left) * RESOLUTION % WRAP
  {
    if j + 1 == WRAP {
      assert (j + left) * RESOLUTION == (left - 1) * RESOLUTION + WRAP * RESOLUTION;
    }
  }

  lemma AdvanceWraps(tick: nat, j: nat, ticks: nat)
    requires tick % WRAP == j * RESOLUTION % WRAP
    ensures (tick + ticks * RESOLUTION) % WRAP == (j + ticks) * RESOLUTION % WRAP
  {
    var x, k := (j + ticks) * RESOLUTION, tick / WRAP - j * RESOLUTION / WRAP;
    assert tick + ticks * RESOLUTION == x + WRAP * k;
    AddMultiple(x, k);
  }

  lemma AddMultiple(x: nat, k: int)
    requires x + WRAP * k >= 0
    ensures (x + WRAP * k) % WRAP == x % WRAP
  {
  }

  lemma ClockKeeps(s: State, t: Step)
    requires ClockOk(s) && Enabled(s, t)
    ensures ClockOk(Do(s, t))
  {
    match t
    case Advance(time) => AdvanceWraps(s.ticktime, s.jiffies, (time - s.ticktime) / RESOLUTION);
    case EndTick => TickWraps(s.jiffies, s.left);
    case _ =>
  }

  // ------------------------------------------------------------------ the counters

  lemma AftersAppend(q: seq<Cmd>, x: Cmd)
    ensures Afters(q + [x]) == Afters(q) + if x.After? then 1 else 0
  {
    assert (q + [x])[..|q|] == q;
  }

  lemma {:induction false} AftersRest(q: seq<Cmd>)
    requires q != []
    ensures Afters(q) == Afters(q[1..]) + if q[0].After? then 1 else 0
  {
    if |q| > 1 {
      AftersRest(q[..|q| - 1]);
      assert q[..|q| - 1][1..] == q[1..][..|q| - 2];
    }
  }

  lemma CountsKeep(s: State, t: Step)
    requires Inv(s) && Enabled(s, t)
    ensures CountsOk(Do(s, t))
  {
    hide Inv, Do, CountsOk;
    match t
    case PushAfter(c) => PushCounts(s, t, After(c));
    case PushCancel(x) => PushCounts(s, t, Cancel(x.0, x.1));
    case ProcessCmd => ProcessCounts(s);
    case Alloc => AllocCounts(s);
    case Flip => FlipCounts(s);
    case Fire(c) => FireCounts(s, c);
    case _ => OtherCounts(s, t);
  }

  lemma PushCounts(s: State, t: Step, x: Cmd)
    requires Inv(s) && Enabled(s, t) && ((t == PushAfter(x.c) && x.After?) || (x.Cancel? && t == PushCancel((x.c, x.version))))
    ensures CountsOk(Do(s, t))
  {
    hide Ranges, QueueOk, Afters, ClockOk, NodeOk;
    AftersAppend(s.Queue(), x);
    Joined(s, x);
  }

  lemma AllocCounts(s: State)
    requires Inv(s) && Enabled(s, Alloc)
    ensures CountsOk(Do(s, Alloc))
  {
    assert NodeOk(s, s.free[0]);
    hide Ranges, QueueOk, Afters, ClockOk, SessionsOk;
  }

  lemma FlipCounts(s: State)
    requires Inv(s) && Enabled(s, Flip)
    ensures CountsOk(Do(s, Flip))
  {
    assert s.batch == [];
    hide Ranges, QueueOk, Afters, ClockOk, NodeOk;
    assert s.writing + [] == [] + s.writing;
  }

  lemma FireCounts(s: State, c: nat)
    requires Inv(s) && Enabled(s, Fire(c))
    ensures CountsOk(Do(s, Fire(c)))
  {
    hide Ranges, QueueOk, Afters, ClockOk, NodeOk;
  }

  /** The remaining steps leave the queue, the wheel and the nodes in hand alone. */
  lemma OtherCounts(s: State, t: Step)
    requires Inv(s) && Enabled(s, t)
    requires t.CountScheduled? || t.CountPending? || t.NewPage? || t.CheckCancel? || t.Advance? || t.EndCmds? || t.EndTick? || t.Release?
    ensures CountsOk(Do(s, t))
  {
    hide Ranges, QueueOk, Afters, ClockOk, NodeOk;
  }

  /** What the command in front of the queue finds: a node being added, or, if the session is not over, a ticking
      one. */
  lemma HeadFacts(s: State)
    requires Inv(s) && Enabled(s, ProcessCmd)
    ensures var x := s.batch[0]; var c := x.c;
            && (x.After? ==> c !in s.wheel && c !in s.chain)
            && (x.Cancel? && s.nodes[c].version == x.version ==> c in s.wheel && c !in s.chain)
  {
    AssertsNeverFail(s, ProcessCmd);
    assert NodeOk(s, s.batch[0].c);
    hide QueueOk, CountsOk, ClockOk, SessionsOk, Ranges;
    Taken(s);
  }

  lemma ProcessCounts(s: State)
    requires Inv(s) && Enabled(s, ProcessCmd)
    ensures CountsOk(Do(s, ProcessCmd))
  {
    hide Ranges, QueueOk, Afters, ClockOk, NodeOk;
    HeadFacts(s);
    AftersRest(s.Queue());
    Taken(s);
    assert s.phase.Processing?;
    var s' := Do(s, ProcessCmd);
    assert s'.Queue() == s.Queue()[1..];
    match s.batch[0]
    case After(c) => assert |s.wheel + {c}| == |s.wheel| + 1;
    case Cancel(c, v) => if s.nodes[c].version == v { assert |s.wheel - {c}| == |s.wheel| - 1; }
  }

  // ---------------------------------------------------------------------- the nodes

  lemma Joined(s: State, x: Cmd)
    ensures s.(writing := s.writing + [x]).Queue() == s.Queue() + [x]
  {
  }

  lemma Taken(s: State)
    requires s.batch != []
    ensures s.(batch := s.batch[1..]).Queue() == s.Queue()[1..] && s.Queue() == [s.batch[0]] + s.Queue()[1..]
  {
  }

  /** A command is taken out of the queue: it was the only one adding its node. */
  lemma FirstAfter(s: State)
    requires QueueOk(s) && s.batch != []
    ensures s.batch[0].c < |s.nodes|
    ensures s.batch[0].After? ==> s.batch[0] !in s.Queue()[1..]
  {
    var q := s.Queue();
    assert CmdOk(s, q, 0);
    forall k | 0 <= k < |q| - 1 ensures s.batch[0].After? ==> q[1..][k] != s.batch[0] {
      assert CmdOk(s, q, k + 1);
    }
  }

  lemma NoCmd(s: State, c: nat)
    requires QueueOk(s) && c >= |s.nodes|
    ensures After(c) !in s.Queue()
  {
    forall k | 0 <= k < |s.Queue()| ensures s.Queue()[k] != After(c) { assert CmdOk(s, s.Queue(), k); }
  }

  lemma PageNode(s: State, n: nat, c: nat)
    requires Inv(s) && Enabled(s, NewPage(n)) && c < |s.nodes| + n
    ensures NodeOk(Do(s, NewPage(n)), c)
  {
    hide QueueOk, CountsOk, ClockOk;
    var s' := Do(s, NewPage(n));
    if c < |s.nodes| {
      assert NodeOk(s, c);
    } else {
      assert s'.free[|s.free| + (c - |s.nodes|)] == c;
      assert forall v: nat :: (c, v) !in s.ended;
      NoCmd(s, c);
    }
  }

  lemma AllocNode(s: State, c: nat)
    requires Inv(s) && Enabled(s, Alloc) && c < |s.nodes|
    ensures NodeOk(Do(s, Alloc), c)
  {
    hide QueueOk, CountsOk, ClockOk;
    assert NodeOk(s, c);
    assert s.free == [s.free[0]] + s.free[1..];
    assert s.free[0] !in s.free[1..];
  }

  lemma PushAfterNode(s: State, x: nat, c: nat)
    requires Inv(s) && Enabled(s, PushAfter(x)) && c < |s.nodes|
    ensures NodeOk(Do(s, PushAfter(x)), c)
  {
    hide QueueOk, CountsOk, ClockOk, Ranges;
    assert NodeOk(s, c);
    Joined(s, After(x));
  }

  lemma ProcessedNode(s: State, c: nat)
    requires Inv(s) && Enabled(s, ProcessCmd) && c < |s.nodes|
    ensures NodeOk(Do(s, ProcessCmd), c)
  {
    hide CmdOk, CountsOk, ClockOk, Ranges;
    AssertsNeverFail(s, ProcessCmd);
    FirstAfter(s);
    hide QueueOk;
    assert NodeOk(s, c);
    Taken(s);
    match s.batch[0]
    case After(x) =>
    case Cancel(x, v) =>
      if s.nodes[x].version == v {
        assert NodeOk(s, x);
        EndedNode(s.(batch := s.batch[1..]), x, c);
      }
  }

  lemma EndedNode(s: State, x: nat, c: nat)
    requires x < |s.nodes| && c < |s.nodes| && NodeOk(s, c) && s.nodes[x].place.InWheel?
    ensures NodeOk(End(s, x), c)
  {
  }

  lemma ReleasedNode(s: State, c: nat)
    requires Inv(s) && Enabled(s, Release) && c < |s.nodes|
    ensures NodeOk(Do(s, Release), c)
  {
    hide QueueOk, CountsOk, ClockOk, Ranges;
    assert NodeOk(s, c);
  }

  lemma FiredNode(s: State, x: nat, c: nat)
    requires Inv(s) && Enabled(s, Fire(x)) && c < |s.nodes|
    ensures NodeOk(Do(s, Fire(x)), c)
  {
    hide QueueOk, CountsOk, ClockOk, Ranges;
    assert NodeOk(s, c) && NodeOk(s, x);
    EndedNode(s, x, c);
  }

  lemma PushCancelNode(s: State, x: Session, c: nat)
    requires Inv(s) && Enabled(s, PushCancel(x)) && c < |s.nodes|
    ensures NodeOk(Do(s, PushCancel(x)), c)
  {
    hide QueueOk, CountsOk, ClockOk, Ranges, SessionsOk;
    assert NodeOk(s, c);
    Joined(s, Cancel(x.0, x.1));
  }

  /** The remaining steps leave the nodes, their places and sessions alone. */
  lemma OtherNode(s: State, t: Step, c: nat)
    requires Inv(s) && Enabled(s, t) && c < |s.nodes|
    requires t.CountScheduled? || t.CountPending? || t.CheckCancel? || t.Advance? || t.Flip? || t.EndCmds? || t.EndTick?
    ensures Do(s, t).nodes == s.nodes && NodeOk(Do(s, t), c)
  {
    assert NodeOk(s, c);
    assert s.phase.Advanced? ==> s.batch == [];
    hide Ranges, QueueOk, CountsOk, ClockOk, SessionsOk, PlaceOk;
    assert s.writing + [] == [] + s.writing;
  }

  lemma SizeAfter(s: State, t: Step)
    requires Enabled(s, t)
    ensures |Do(s, t).nodes| == |s.nodes| + if t.NewPage? then t.n else 0
  {
  }

  lemma NodesKeep(s: State, t: Step, c: nat)
    requires Inv(s) && Enabled(s, t) && c < |Do(s, t).nodes|
    ensures NodeOk(Do(s, t), c)
  {
    SizeAfter(s, t);
    hide Inv, NodeOk, Do;
    match t
    case NewPage(n) => PageNode(s, n, c);
    case Alloc => AllocNode(s, c);
    case PushAfter(x) => PushAfterNode(s, x, c);
    case ProcessCmd => ProcessedNode(s, c);
    case Release => ReleasedNode(s, c);
    case Fire(x) => FiredNode(s, x, c);
    case PushCancel(x) => PushCancelNode(s, x, c);
    case _ => OtherNode(s, t, c);
  }

  // ------------------------------------------------------------------ the references

  lemma RangesKeep(s: State, t: Step)
    requires Inv(s) && Enabled(s, t) && Honest(s, t)
    ensures Ranges(Do(s, t))
  {
    hide Inv, Ranges, Do;
    match t
    case ProcessCmd => ProcessRanges(s);
    case Fire(c) => FireRanges(s, c);
    case Release => Released(s);
    case NewPage(n) => PageRanges(s, n);
    case Alloc => AllocRanges(s);
    case _ => OtherRanges(s, t);
  }

  lemma FireRanges(s: State, c: nat)
    requires Inv(s) && Enabled(s, Fire(c))
    ensures Ranges(Do(s, Fire(c)))
  {
    assert NodeOk(s, c);
    hide QueueOk, CountsOk, ClockOk, SessionsOk;
    EndRanges(s, c);
  }

  lemma OtherRanges(s: State, t: Step)
    requires Inv(s) && Enabled(s, t) && Honest(s, t) && !t.ProcessCmd? && !t.Fire? && !t.Release? && !t.NewPage? && !t.Alloc?
    ensures Ranges(Do(s, t))
  {
    hide QueueOk, CountsOk, ClockOk, NodeOk;
  }

  lemma AllocRanges(s: State)
    requires Inv(s) && Enabled(s, Alloc)
    ensures Ranges(Do(s, Alloc))
  {
    hide QueueOk, CountsOk, ClockOk, NodeOk;
  }

  lemma PageRanges(s: State, n: nat)
    requires Inv(s) && Enabled(s, NewPage(n))
    ensures Ranges(Do(s, NewPage(n)))
  {
    hide QueueOk, CountsOk, ClockOk, NodeOk;
    var s' := Do(s, NewPage(n));
    assert forall i :: |s.free| <= i < |s'.free| ==> s'.free[i] == |s.nodes| + (i - |s.free|);
  }

  lemma ProcessRanges(s: State)
    requires Inv(s) && Enabled(s, ProcessCmd)
    ensures Ranges(Do(s, ProcessCmd))
  {
    hide QueueOk, CountsOk, ClockOk, NodeOk;
    HeadFacts(s);
    var s1 := s.(batch := s.batch[1..]);
    match s.batch[0]
    case After(c) =>
    case Cancel(c, v) =>
      if s.nodes[c].version == v { EndRanges(s1, c); }
  }

  lemma EndRanges(s: State, c: nat)
    requires Ranges(s) && c < |s.nodes| && c !in s.chain
    ensures Ranges(End(s, c))
  {
  }

  lemma Released(s: State)
    requires Inv(s) && Enabled(s, Release)
    ensures Ranges(Do(s, Release))
  {
    hide SessionsOk, QueueOk, CountsOk, ClockOk;
    forall i, j | 0 <= i < |s.free| && 0 <= j < |s.chain| ensures s.free[i] != s.chain[j] {
      assert NodeOk(s, s.free[i]);
    }
  }

  // ------------------------------------------------------------------ the commands

  /** A command stays in order when nodes only change in ways it does not depend on. */
  ghost predicate Unmoved(n: Node, n': Node) {
    n'.version > n.version || (n'.version == n.version && (n.place.InWheel? ==> n'.place.InWheel?))
  }

  lemma CmdFrame(s: State, s': State, q: seq<Cmd>, q': seq<Cmd>, k: nat)
    requires k < |q| <= |q'| && q'[..|q|] == q && CmdOk(s, q, k) && |s.nodes| <= |s'.nodes| && s.returned <= s'.returned
    requires Unmoved(s.nodes[q[k].c], s'.nodes[q[k].c])
    requires q[k].Cancel? ==> q[k].version <= s.nodes[q[k].c].version
    ensures CmdOk(s', q', k)
  {
    assert q'[k] == q[k] && forall j :: 0 <= j < k ==> q'[j] == q[j];
    if q[k].Cancel? && s'.nodes[q[k].c].version == q[k].version && !s'.nodes[q[k].c].place.InWheel? {
      var j :| 0 <= j < k && q[j] == After(q[k].c);
      assert q'[j] == After(q[k].c);
    }
  }

  lemma CancelIsOld(s: State, k: nat)
    requires Inv(s) && k < |s.Queue()| && s.Queue()[k].Cancel?
    ensures s.Queue()[k].c < |s.nodes| && s.Queue()[k].version <= s.nodes[s.Queue()[k].c].version
  {
    hide CountsOk, ClockOk, Ranges, PlaceOk;
    assert CmdOk(s, s.Queue(), k);
    assert NodeOk(s, s.Queue()[k].c);
  }

  /** Steps that leave the queue as it is, or add to it. */
  lemma CmdKeeps(s: State, t: Step, k: nat)
    requires Inv(s) && Enabled(s, t) && !t.ProcessCmd? && k < |s.Queue()|
    ensures |s.Queue()| <= |Do(s, t).Queue()| && CmdOk(Do(s, t), Do(s, t).Queue(), k)
  {
    var s', q, q' := Do(s, t), s.Queue(), Do(s, t).Queue();
    assert CmdOk(s, q, k);
    if q[k].Cancel? { CancelIsOld(s, k); }
    QueueGrows(s, t);
    NodeUnmoved(s, t, q[k].c);
    hide Inv, Do, CmdOk;
    CmdFrame(s, s', q, q', k);
  }

  lemma NodeUnmoved(s: State, t: Step, c: nat)
    requires Inv(s) && Enabled(s, t) && !t.ProcessCmd? && c < |s.nodes|
    ensures c < |Do(s, t).nodes| && Unmoved(s.nodes[c], Do(s, t).nodes[c]) && |s.nodes| <= |Do(s, t).nodes|
    ensures s.returned <= Do(s, t).returned
  {
    assert NodeOk(s, c);
    hide QueueOk, CountsOk, ClockOk, SessionsOk, Ranges;
    assert t.Alloc? && s.free[0] == c ==> c in s.free;
  }

  lemma QueueGrows(s: State, t: Step)
    requires QueueOk(s) && Enabled(s, t) && !t.ProcessCmd?
    ensures |s.Queue()| <= |Do(s, t).Queue()| && Do(s, t).Queue()[..|s.Queue()|] == s.Queue()
    ensures t.PushAfter? ==> Do(s, t).Queue() == s.Queue() + [After(t.c)]
    ensures t.PushCancel? ==> Do(s, t).Queue() == s.Queue() + [Cancel(t.s.0, t.s.1)]
    ensures !t.PushAfter? && !t.PushCancel? ==> Do(s, t).Queue() == s.Queue()
  {
    hide CmdOk;
    match t
    case PushAfter(c) => Joined(s, After(c));
    case PushCancel(x) => Joined(s, Cancel(x.0, x.1));
    case Flip => assert s.writing + [] == [] + s.writing;
    case _ =>
  }

  lemma NewAfter(s: State, c: nat)
    requires Inv(s) && Enabled(s, PushAfter(c))
    ensures var s' := Do(s, PushAfter(c)); s'.Queue() == s.Queue() + [After(c)] && CmdOk(s', s'.Queue(), |s.Queue()|)
  {
    assert NodeOk(s, c);
    QueueGrows(s, PushAfter(c));
    hide QueueOk, CountsOk, ClockOk, SessionsOk, Ranges;
    var q := s.Queue();
    forall j | 0 <= j < |q| ensures q[j] != After(c) { assert q[j] in q; }
  }

  lemma NewCancel(s: State, x: Session)
    requires Inv(s) && Enabled(s, PushCancel(x))
    ensures var s' := Do(s, PushCancel(x)); s'.Queue() == s.Queue() + [Cancel(x.0, x.1)] && CmdOk(s', s'.Queue(), |s.Queue()|)
  {
    assert x in s.cancelling && x in s.returned && x.0 < |s.nodes|;
    assert NodeOk(s, x.0);
    QueueGrows(s, PushCancel(x));
    hide QueueOk, CountsOk, ClockOk, Ranges;
    var q := s.Queue();
    if s.nodes[x.0].version == x.1 && !s.nodes[x.0].place.InWheel? {
      var j :| 0 <= j < |q| && q[j] == After(x.0);
      assert (q + [Cancel(x.0, x.1)])[j] == After(x.0);
    }
  }

  /** The first command changes a node only by adding it to the wheel or by ending its session. */
  lemma HeadMoves(s: State, c: nat)
    requires Inv(s) && Enabled(s, ProcessCmd) && c < |s.nodes|
    ensures var s' := Do(s, ProcessCmd);
            && |s'.nodes| == |s.nodes| && s'.returned == s.returned && Unmoved(s.nodes[c], s'.nodes[c])
            && (s.batch[0] == After(c) ==> s'.nodes[c].place.InWheel?)
  {
    hide Inv;
  }

  /** The rest of the queue, one place further to the front. */
  lemma CmdShifts(s: State, s': State, q: seq<Cmd>, k: nat)
    requires k + 1 < |q| && CmdOk(s, q, k + 1) && |s'.nodes| == |s.nodes| && s'.returned == s.returned
    requires Unmoved(s.nodes[q[k + 1].c], s'.nodes[q[k + 1].c])
    requires q[0] == After(q[k + 1].c) ==> s'.nodes[q[k + 1].c].place.InWheel?
    requires q[k + 1].Cancel? ==> q[k + 1].version <= s.nodes[q[k + 1].c].version
    ensures CmdOk(s', q[1..], k)
  {
    var q' := q[1..];
    assert q'[k] == q[k + 1] && forall j :: 0 <= j < k ==> q'[j] == q[j + 1];
    if q'[k].Cancel? && s'.nodes[q'[k].c].version == q'[k].version && !s'.nodes[q'[k].c].place.InWheel? {
      var j :| 0 <= j < k + 1 && q[j] == After(q'[k].c);
      assert q'[j - 1] == After(q'[k].c);
    }
  }

  lemma CmdAdvances(s: State, k: nat)
    requires Inv(s) && Enabled(s, ProcessCmd) && k + 1 < |s.Queue()|
    ensures var s' := Do(s, ProcessCmd); s'.Queue() == s.Queue()[1..] && CmdOk(s', s'.Queue(), k)
  {
    var s', q := Do(s, ProcessCmd), s.Queue();
    Taken(s);
    assert s'.Queue() == q[1..];
    assert CmdOk(s, q, k + 1);
    assert q[k + 1].c < |s.nodes|;
    if q[k + 1].Cancel? { CancelIsOld(s, k + 1); }
    HeadMoves(s, q[k + 1].c);
    hide Inv, Do, CmdOk, Unmoved;
    CmdShifts(s, s', q, k);
  }

  lemma PhasesKeep(s: State, t: Step)
    requires QueueOk(s) && Enabled(s, t)
    ensures var s' := Do(s, t);
            && (s'.phase.Processing? || s'.batch == [])
            && (s'.phase.Running? || s'.chain == [] || s'.phase.Processing?)
  {
    hide CmdOk;
  }

  lemma QueueKeeps(s: State, t: Step)
    requires Inv(s) && Enabled(s, t)
    ensures QueueOk(Do(s, t))
  {
    PhasesKeep(s, t);
    var s' := Do(s, t);
    forall k | 0 <= k < |s'.Queue()| ensures CmdOk(s', s'.Queue(), k) { CmdsKeep(s, t, k); }
    hide Do, CmdOk, Ranges, CountsOk, ClockOk, NodeOk;
  }

  lemma CmdsKeep(s: State, t: Step, k: nat)
    requires Inv(s) && Enabled(s, t) && k < |Do(s, t).Queue()|
    ensures CmdOk(Do(s, t), Do(s, t).Queue(), k)
  {
    hide Do, Ranges, CountsOk, ClockOk, CmdOk, NodeOk;
    if t.ProcessCmd? {
      Pops(s);
      CmdAdvances(s, k);
    } else {
      QueueGrows(s, t);
      if k < |s.Queue()| {
        CmdKeeps(s, t, k);
      } else if t.PushAfter? {
        NewAfter(s, t.c);
      } else {
        NewCancel(s, t.s);
      }
    }
  }

  lemma Pops(s: State)
    requires Enabled(s, ProcessCmd)
    ensures |Do(s, ProcessCmd).Queue()| == |s.Queue()| - 1
  {
    Taken(s);
  }

  // ------------------------------------------------------------------- every run

  lemma StepKeeps(s: State, t: Step)
    requires Inv(s) && Enabled(s, t) && Honest(s, t)
    ensures Inv(Do(s, t)) && AssertsHold(s, t)
  {
    hide Ranges, QueueOk, CountsOk, ClockOk, NodeOk, Do, AssertsHold;
    AssertsNeverFail(s, t);
    RangesKeep(s, t);
    forall c | 0 <= c < |Do(s, t).nodes| ensures NodeOk(Do(s, t), c) { NodesKeep(s, t, c); }
    QueueKeeps(s, t);
    CountsKeep(s, t);
    ClockKeeps(s, t);
  }

  ghost predicate Possible(s: State, ts: seq<Step>)
    decreases |ts|
  {
    ts == [] || (Enabled(s, ts[0]) && Possible(Do(s, ts[0]), ts[1..]))
  }

  /** Every cancel of the run is for a session returned by then. */
  ghost predicate AllHonest(s: State, ts: seq<Step>)
    requires Possible(s, ts)
    decreases |ts|
  {
    ts == [] || (Honest(s, ts[0]) && AllHonest(Do(s, ts[0]), ts[1..]))
  }

  function Run(s: State, ts: seq<Step>): State
    requires Possible(s, ts)
    decreases |ts|
  {
    if ts == [] then s else Run(Do(s, ts[0]), ts[1..])
  }

  /** Over every interleaving nothing is lost: a session is live or has ended exactly once, between updates the
      counters add up, and the tick time is in step with the tick count. */
  lemma {:induction false} RunKeeps(s: State, ts: seq<Step>)
    requires Inv(s) && Possible(s, ts) && AllHonest(s, ts)
    ensures var s' := Run(s, ts);
            && Inv(s')
            && (forall x :: x in s'.issued ==> s'.ended[x] == if LiveSession(s', x) then 0 else 1)
            && s'.scheduled == s'.pending + s'.fired + s'.canceled + s'.counting
            && (s'.phase.Resting? ==> s'.ticktime % WRAP == s'.jiffies * RESOLUTION % WRAP)
    decreases |ts|
  {
    if ts == [] {
      forall x | x in s.issued ensures s.ended[x] == if LiveSession(s, x) then 0 else 1 { Ends(s, x); }
      hide Ranges, QueueOk, NodeOk;
    } else {
      hide Inv, Honest;
      StepKeeps(s, ts[0]);
      RunKeeps(Do(s, ts[0]), ts[1..]);
    }
  }

  /** The node still carries the session's version and has not been freed. */
  ghost predicate LiveSession(s: State, x: Session) {
    x.0 < |s.nodes| && s.nodes[x.0].version == x.1 && Live(s.nodes[x.0])
  }

  lemma Ends(s: State, x: Session)
    requires Inv(s) && x in s.issued
    ensures s.ended[x] == if LiveSession(s, x) then 0 else 1
  {
    hide QueueOk, CountsOk, ClockOk, PlaceOk;
    assert NodeOk(s, x.0);
    assert x == (x.0, x.1);
  }

  /** A cancel for a session that has ended changes nothing but the queue, however often it is repeated. */
  lemma StaleCancel(s: State)
    requires Inv(s) && Enabled(s, ProcessCmd) && s.batch[0].Cancel?
    requires s.ended[(s.batch[0].c, s.batch[0].version)] > 0
    ensures Do(s, ProcessCmd) == s.(batch := s.batch[1..])
  {
    hide QueueOk, CountsOk, ClockOk, PlaceOk, Ranges;
    assert NodeOk(s, s.batch[0].c);
  }

  /** A cancel of a session that has not ended ends it: the node leaves the wheel, its version goes up, and the cancel
      is counted. */
  lemma LiveCancel(s: State, c: nat, v: nat)
    requires Inv(s) && Enabled(s, ProcessCmd) && s.batch[0] == Cancel(c, v) && s.ended[(c, v)] == 0
    ensures var s' := Do(s, ProcessCmd);
            && c in s.wheel && c !in s'.wheel && s'.ended == s.ended + multiset{(c, v)} && s'.cancels == s.cancels + 1
            && s.nodes[c].version == v && s'.nodes[c].version == v + 1 && s'.fired == s.fired && s'.canceled == s.canceled
            && s'.scheduled == s.scheduled
  {
    assert CmdOk(s, s.Queue(), 0) && s.Queue()[0] == s.batch[0];
    assert NodeOk(s, c);
    HeadFacts(s);
    hide Ranges, CountsOk, ClockOk, QueueOk, PlaceOk;
  }

  /** The add of a node puts its session into the wheel, where it is live. */
  lemma AddTakesEffect(s: State, c: nat)
    requires Inv(s) && Enabled(s, ProcessCmd) && s.batch[0] == After(c)
    ensures var s' := Do(s, ProcessCmd);
            && c in s'.wheel && LiveSession(s', (c, s.nodes[c].version)) && (c, s.nodes[c].version) in s'.returned
            && s'.ended == s.ended && s'.fired == s.fired && s'.cancels == s.cancels && s'.canceled == s.canceled
            && s'.scheduled == s.scheduled
  {
    assert s.Queue()[0] == s.batch[0] && s.Queue()[0] in s.Queue();
    assert NodeOk(s, c);
    hide Ranges, CountsOk, ClockOk, QueueOk;
  }

  /** When the timer thread rests and no command waits, every session returned is in the wheel or has ended. */
  lemma AtRest(s: State, x: Session)
    requires Inv(s) && s.phase.Resting? && s.writing == [] && x in s.returned
    ensures x.0 in s.wheel || s.ended[x] == 1
  {
    assert x == (x.0, x.1) && s.batch == [];
    assert NodeOk(s, x.0);
    hide CountsOk, ClockOk;
  }

  // ---------------------------------------------------------------- how sessions end

  /** The session a step fires. */
  ghost function FiredBy(s: State, t: Step): multiset<Session>
    requires Enabled(s, t)
  {
    if t.Fire? then multiset{(t.c, s.nodes[t.c].version)} else multiset{}
  }

  /** The session a step cancels: the one named by the command, if that has not ended. */
  ghost function CancelledBy(s: State, t: Step): multiset<Session>
    requires Enabled(s, t)
  {
    if t.ProcessCmd? && s.batch[0].Cancel? && s.ended[(s.batch[0].c, s.batch[0].version)] == 0
    then multiset{(s.batch[0].c, s.batch[0].version)} else multiset{}
  }

  ghost function FiredIn(s: State, ts: seq<Step>): multiset<Session>
    requires Possible(s, ts)
    decreases |ts|
  {
    if ts == [] then multiset{} else FiredBy(s, ts[0]) + FiredIn(Do(s, ts[0]), ts[1..])
  }

  ghost function CancelledIn(s: State, ts: seq<Step>): multiset<Session>
    requires Possible(s, ts)
    decreases |ts|
  {
    if ts == [] then multiset{} else CancelledBy(s, ts[0]) + CancelledIn(Do(s, ts[0]), ts[1..])
  }

  ghost function StartsIn(ts: seq<Step>): nat {
    if ts == [] then 0 else (if ts[0].CountScheduled? then 1 else 0) + StartsIn(ts[1..])
  }

  lemma StepAccounts(s: State, t: Step)
    requires Inv(s) && Enabled(s, t)
    ensures var s' := Do(s, t); var f, k := FiredBy(s, t), CancelledBy(s, t);
            && s'.ended == s.ended + (f + k) && s'.fired == s.fired + |f|
            && s'.canceled + s'.cancels == s.canceled + s.cancels + |k|
            && s'.scheduled == s.scheduled + if t.CountScheduled? then 1 else 0
  {
    hide Do, Inv;
    if t.ProcessCmd? { ProcessAccounts(s); } else { OtherAccounts(s, t); }
  }

  lemma ProcessAccounts(s: State)
    requires Inv(s) && Enabled(s, ProcessCmd)
    ensures var s' := Do(s, ProcessCmd); var k := CancelledBy(s, ProcessCmd);
            && s'.ended == s.ended + (multiset{} + k) && s'.fired == s.fired
            && s'.canceled + s'.cancels == s.canceled + s.cancels + |k| && s'.scheduled == s.scheduled
  {
    var x := s.batch[0];
    hide Inv, Do;
    if x.After? {
      AddTakesEffect(s, x.c);
    } else if s.ended[(x.c, x.version)] == 0 {
      LiveCancel(s, x.c, x.version);
    } else {
      StaleCancel(s);
    }
  }

  lemma OtherAccounts(s: State, t: Step)
    requires Enabled(s, t) && !t.ProcessCmd?
    ensures var s' := Do(s, t); var f := FiredBy(s, t);
            && s'.ended == s.ended + (f + multiset{}) && s'.fired == s.fired + |f|
            && s'.canceled + s'.cancels == s.canceled + s.cancels
            && s'.scheduled == s.scheduled + if t.CountScheduled? then 1 else 0
  {
  }

  /** Over every run: the sessions that end are those fired and those cancelled, each of which is counted. */
  lemma {:induction false} RunAccounts(s: State, ts: seq<Step>)
    requires Inv(s) && Possible(s, ts) && AllHonest(s, ts)
    ensures var s' := Run(s, ts); var f, k := FiredIn(s, ts), CancelledIn(s, ts);
            && s'.ended == s.ended + (f + k) && s'.fired == s.fired + |f|
            && s'.canceled + s'.cancels == s.canceled + s.cancels + |k|
            && s'.scheduled == s.scheduled + StartsIn(ts)
    decreases |ts|
  {
    hide Inv, Do, Enabled, Honest, FiredBy, CancelledBy;
    if ts != [] {
      StepAccounts(s, ts[0]);
      StepKeeps(s, ts[0]);
      RunAccounts(Do(s, ts[0]), ts[1..]);
      Regroup(s.ended, FiredBy(s, ts[0]), CancelledBy(s, ts[0]), FiredIn(Do(s, ts[0]), ts[1..]), CancelledIn(Do(s, ts[0]), ts[1..]));
    }
  }

  lemma Regroup(e: multiset<Session>, f: multiset<Session>, k: multiset<Session>, f': multiset<Session>, k': multiset<Session>)
    ensures e + (f + k) + (f' + k') == e + ((f + f') + (k + k'))
  {
  }

  /** A session ends once: one cancelled before it fires never fires, and one that has fired is not cancelled. */
  lemma EndsOnce(s: State, ts: seq<Step>, x: Session)
    requires Inv(s) && Possible(s, ts) && AllHonest(s, ts)
    ensures s.ended[x] + FiredIn(s, ts)[x] + CancelledIn(s, ts)[x] <= 1
  {
    hide Inv, Possible, AllHonest, Run, FiredIn, CancelledIn;
    RunAccounts(s, ts);
    RunKeeps(s, ts);
    OnceAtMost(Run(s, ts), x);
  }

  lemma OnceAtMost(s: State, x: Session)
    requires Inv(s)
    ensures s.ended[x] <= 1
  {
    hide QueueOk, CountsOk, ClockOk, PlaceOk;
    if x.0 < |s.nodes| {
      assert NodeOk(s, x.0);
      assert x == (x.0, x.1);
    }
  }

  /** The clock is brought up to the tick the time is in, and that many ticks are to be made. */
  lemma AdvanceCatchesUp(s: State, time: nat)
    requires Enabled(s, Advance(time))
    ensures var s' := Do(s, Advance(time));
            && s'.ticktime <= time < s'.ticktime + RESOLUTION && s'.ticktime == s.ticktime + s'.left * RESOLUTION
  {
  }

  lemma InitialInv(time: nat)
    ensures Inv(Initial(time)) && Initial(time).phase.Resting? && Initial(time).ticktime <= time < Initial(time).ticktime + RESOLUTION
  {
    var j := time / RESOLUTION;
    assert (j % WRAP) * RESOLUTION % WRAP == j * RESOLUTION % WRAP by { Shrinks(j); }
  }

  lemma Shrinks(j: nat)
    ensures (j % WRAP) * RESOLUTION % WRAP == j * RESOLUTION % WRAP
  {
    var q := j / WRAP;
    assert j * RESOLUTION == (j % WRAP) * RESOLUTION + WRAP * (q * RESOLUTION);
  }

  // ----------------------------------------------------------------- a new session

  lemma Counted(s: State)
    ensures var s1 := Do(s, CountScheduled);
            && Enabled(s1, CountPending)
            && Do(s1, CountPending) == s.(scheduled := s.scheduled + 1, pending := s.pending + 1, starting := s.starting + 1)
  {
  }

  lemma Paged(s: State)
    requires s.starting > 0
    ensures Enabled(s, NewPage(1)) && |Do(s, NewPage(1)).free| == |s.free| + 1
    ensures var s' := Do(s, NewPage(1)); s' == s.(nodes := s'.nodes, free := s'.free)
  {
  }

  lemma Handed(s: State)
    requires Inv(s) && s.starting > 0 && s.free != []
    ensures Enabled(s, Alloc)
    ensures var c := s.free[0]; var s' := Do(s, Alloc);
            && Enabled(s', PushAfter(c)) && (c, s.nodes[c].version) !in s.issued
            && var s'' := Do(s', PushAfter(c));
               && (c, s.nodes[c].version) in s''.returned && LiveSession(s'', (c, s.nodes[c].version))
               && s''.pending == s.pending && s''.wheel == s.wheel && s''.ended == s.ended
               && s''.writing == s.writing + [After(c)]
  {
    assert NodeOk(s, s.free[0]);
    hide QueueOk, CountsOk, ClockOk;
  }

  /** From every state a worker can start a timer: it gets a session never issued before, live, whose add is the last
      command written. */
  lemma CanStart(s: State) returns (ts: seq<Step>, x: Session)
    requires Inv(s)
    ensures Possible(s, ts) && AllHonest(s, ts)
    ensures var s' := Run(s, ts);
            && x !in s.issued && x in s'.returned && LiveSession(s', x) && s'.pending == s.pending + 1
            && s'.writing == s.writing + [After(x.0)] && s'.wheel == s.wheel && s'.ended == s.ended
  {
    hide Inv, Do, Possible, AllHonest, Run, LiveSession;
    var s1 := Do(s, CountScheduled);
    Counted(s);
    var s2 := Do(s1, CountPending);
    Paged(s2);
    var s3 := Do(s2, NewPage(1));
    StepKeeps(s, CountScheduled);
    StepKeeps(s1, CountPending);
    StepKeeps(s2, NewPage(1));
    Handed(s3);
    var c := s3.free[0];
    x := (c, s3.nodes[c].version);
    var s4 := Do(s3, Alloc);
    NoSteps(Do(s4, PushAfter(c)));
    StepFirst(s4, PushAfter(c), []);
    StepFirst(s3, Alloc, [PushAfter(c)] + []);
    StepFirst(s2, NewPage(1), [Alloc] + ([PushAfter(c)] + []));
    StepFirst(s1, CountPending, [NewPage(1)] + ([Alloc] + ([PushAfter(c)] + [])));
    ts := [CountScheduled] + ([CountPending] + ([NewPage(1)] + ([Alloc] + ([PushAfter(c)] + []))));
    StepFirst(s, CountScheduled, [CountPending] + ([NewPage(1)] + ([Alloc] + ([PushAfter(c)] + []))));
  }

  // --------------------------------------------------------- cancels of other sessions

  /** A cancel for x, now, can lead to a failing assertion though every other cancel is for a returned session. */
  ghost predicate CanFail(s: State, x: Session) {
    || !AssertsHold(s, CheckCancel(x))
    || exists ts, t :: Fails(Do(s, CheckCancel(x)), ts, t)
  }

  /** The run ts is possible with cancels of returned sessions only, and the assertion of the step t after it fails. */
  ghost predicate Fails(s: State, ts: seq<Step>, t: Step) {
    Possible(s, ts) && AllHonest(s, ts) && Enabled(Run(s, ts), t) && Honest(Run(s, ts), t) && !AssertsHold(Run(s, ts), t)
  }

  /** The version test of timer_cancel alone does not protect the assertion behind it. A cancel can fail an assertion
      exactly if its session names no node of the pool, or passes the version test without having been returned. */
  lemma CancelFailsExactly(s: State, x: Session)
    requires Inv(s)
    ensures CanFail(s, x) <==> x.0 >= |s.nodes| || (s.nodes[x.0].version == x.1 && x !in s.returned)
  {
    hide Inv, Fails, Do;
    if x.0 < |s.nodes| {
      if s.nodes[x.0].version == x.1 && x !in s.returned {
        var ts, t := FailingRun(s, x);
        assert Fails(Do(s, CheckCancel(x)), ts, t);
      } else {
        var s1 := Do(s, CheckCancel(x));
        assert Inv(s1) by { CheckKeeps(s, x); }
        forall ts, t ensures !Fails(s1, ts, t) { NeverFails(s1, ts, t); }
      }
    }
  }

  lemma CheckKeeps(s: State, x: Session)
    requires Inv(s) && x.0 < |s.nodes| && (s.nodes[x.0].version == x.1 ==> x in s.returned)
    ensures Inv(Do(s, CheckCancel(x)))
  {
    hide Inv;
    if s.nodes[x.0].version == x.1 { StepKeeps(s, CheckCancel(x)); }
  }

  lemma NeverFails(s: State, ts: seq<Step>, t: Step)
    requires Inv(s)
    ensures !Fails(s, ts, t)
  {
    hide Inv, AssertsHold, Honest, Enabled, Do;
    if Possible(s, ts) && AllHonest(s, ts) && Enabled(Run(s, ts), t) && Honest(Run(s, ts), t) {
      RunKeeps(s, ts);
      AssertsNeverFail(Run(s, ts), t);
    }
  }

  /** The session passes the version test but was not returned: its node is in hand, free or being freed. */
  ghost predicate MadeUp(s: State, x: Session) {
    x.0 < |s.nodes| && s.nodes[x.0].version == x.1 && x !in s.returned
  }

  /** What the timer thread does next when no timer expires; between updates it waits for a command. */
  function Next(s: State): Step {
    match s.phase
    case Resting => Advance(s.ticktime + RESOLUTION)
    case Advanced => Flip
    case Processing => if s.batch == [] then EndCmds else ProcessCmd
    case Running => if s.left == 0 then Release else EndTick
  }

  function Wait(waiting: nat): nat { if waiting == 0 then 0 else waiting + 8 }

  function StepsLeft(s: State): nat {
    match s.phase
    case Resting => Wait(|s.writing|)
    case Advanced => |s.writing| + s.left + 4
    case Processing => |s.batch| + s.left + 3 + Wait(|s.writing|)
    case Running => s.left + 2 + Wait(|s.writing|)
  }

  lemma NextEnabled(s: State)
    requires Inv(s)
    ensures Enabled(s, Next(s))
  {
    hide Ranges, NodeOk, CountsOk, ClockOk;
    if s.batch != [] { assert s.Queue()[0] == s.batch[0] && CmdOk(s, s.Queue(), 0); }
  }

  lemma NextSteps(s: State)
    requires Inv(s) && Enabled(s, Next(s)) && (s.phase.Resting? ==> s.writing != [])
    ensures StepsLeft(Do(s, Next(s))) < StepsLeft(s)
  {
    hide Ranges, NodeOk, CountsOk, CmdOk;
  }

  lemma NotInWheel(s: State, x: Session)
    requires Inv(s) && MadeUp(s, x)
    ensures x.0 !in s.wheel && !s.nodes[x.0].state.Ticking?
  {
    assert NodeOk(s, x.0);
    hide Ranges, CountsOk, ClockOk, QueueOk;
    assert x == (x.0, x.1);
  }

  /** The timer thread does not touch a node that is neither in the wheel nor waiting to be added. */
  lemma NextLeaves(s: State, x: Session)
    requires Inv(s) && Enabled(s, Next(s)) && MadeUp(s, x)
    ensures MadeUp(Do(s, Next(s)), x)
  {
    NotInWheel(s, x);
    if s.phase.Processing? && s.batch != [] { HeadFacts(s); }
    var t := Next(s);
    hide Inv, Do, MadeUp;
    if t.ProcessCmd? {
      ProcessLeaves(s, x);
    } else if t.Release? {
      ReleaseLeaves(s, x);
    } else {
      NodesStay(s, t);
      SameMadeUp(s, Do(s, t), x);
    }
  }

  lemma NodesStay(s: State, t: Step)
    requires TimerStep(t) && !t.ProcessCmd? && !t.Release? && Enabled(s, t)
    ensures Do(s, t).nodes == s.nodes && Do(s, t).returned == s.returned
  {
  }

  lemma SameMadeUp(s: State, s': State, x: Session)
    requires MadeUp(s, x) && s'.nodes == s.nodes && s'.returned == s.returned
    ensures MadeUp(s', x)
  {
  }

  lemma ProcessLeaves(s: State, x: Session)
    requires Enabled(s, ProcessCmd) && MadeUp(s, x) && x.0 !in s.wheel
    requires s.batch[0].Cancel? && s.nodes[s.batch[0].c].version == s.batch[0].version ==> s.batch[0].c in s.wheel
    ensures MadeUp(Do(s, ProcessCmd), x)
  {
  }

  lemma ReleaseLeaves(s: State, x: Session)
    requires Enabled(s, Release) && MadeUp(s, x)
    ensures MadeUp(Do(s, Release), x)
  {
  }

  /** Left alone, the timer thread finishes its update and takes up what is waiting. */
  lemma {:induction false} Settles(s: State, x: Session) returns (ts: seq<Step>)
    requires Inv(s) && MadeUp(s, x)
    ensures Possible(s, ts) && forall i :: 0 <= i < |ts| ==> TimerStep(ts[i])
    ensures var s' := Run(s, ts); Inv(s') && MadeUp(s', x) && s'.phase.Resting? && s'.writing == []
    decreases StepsLeft(s)
  {
    hide Inv, MadeUp, Do, Enabled, StepsLeft;
    if s.phase.Resting? && s.writing == [] {
      ts := [];
    } else {
      var t := Next(s);
      NextEnabled(s);
      NextSteps(s);
      NextLeaves(s, x);
      StepKeeps(s, t);
      var rest := Settles(Do(s, t), x);
      ts := [t] + rest;
      assert ts[1..] == rest;
    }
  }

  predicate TimerStep(t: Step) {
    t.Advance? || t.Flip? || t.ProcessCmd? || t.EndCmds? || t.EndTick? || t.Release?
  }

  function With(s: State, m: multiset<Session>): State { s.(cancelling := m) }

  /** The timer thread does not look at the cancels still to be pushed. */
  lemma StepWith(s: State, t: Step, m: multiset<Session>)
    requires TimerStep(t) && Enabled(s, t)
    ensures Enabled(With(s, m), t) && Honest(With(s, m), t) && Do(With(s, m), t) == With(Do(s, t), m)
  {
    match t
    case ProcessCmd => match s.batch[0] { case After(c) => case Cancel(c, v) => }
    case Release => assert Do(With(s, m), t).nodes == Do(s, t).nodes;
    case _ =>
  }

  lemma {:induction false} RunWith(s: State, ts: seq<Step>, m: multiset<Session>)
    requires Possible(s, ts) && forall i :: 0 <= i < |ts| ==> TimerStep(ts[i])
    ensures Possible(With(s, m), ts) && AllHonest(With(s, m), ts) && Run(With(s, m), ts) == With(Run(s, ts), m)
    decreases |ts|
  {
    hide Do, Enabled, With, Honest, TimerStep;
    if ts != [] {
      StepWith(s, ts[0], m);
      RunWith(Do(s, ts[0]), ts[1..], m);
    }
  }

  lemma {:induction false} RunTwo(s: State, ts: seq<Step>, us: seq<Step>)
    requires Possible(s, ts) && AllHonest(s, ts) && Possible(Run(s, ts), us) && AllHonest(Run(s, ts), us)
    ensures Possible(s, ts + us) && AllHonest(s, ts + us) && Run(s, ts + us) == Run(Run(s, ts), us)
    decreases |ts|
  {
    hide Do, Enabled, Honest;
    if ts == [] {
      assert ts + us == us;
    } else {
      assert (ts + us)[1..] == ts[1..] + us;
      RunTwo(Do(s, ts[0]), ts[1..], us);
    }
  }

  lemma StepFirst(s: State, t: Step, rest: seq<Step>)
    requires Enabled(s, t) && Honest(s, t) && Possible(Do(s, t), rest) && AllHonest(Do(s, t), rest)
    ensures Possible(s, [t] + rest) && AllHonest(s, [t] + rest) && Run(s, [t] + rest) == Run(Do(s, t), rest)
  {
    hide Do, Enabled, Honest;
    var ts := [t] + rest;
    assert ts[0] == t && ts[1..] == rest;
  }

  /** The cancel alone in the buffer. */
  lemma LastStates(s: State, x: Session)
    requires s.phase.Resting? && s.writing == [] && s.cancelling[x] > 0
    ensures var b := Advance(s.ticktime + RESOLUTION);
            && Enabled(s, PushCancel(x)) && Enabled(Do(s, PushCancel(x)), b) && Enabled(Do(Do(s, PushCancel(x)), b), Flip)
            && var s3 := Do(Do(Do(s, PushCancel(x)), b), Flip);
               s3.batch == [Cancel(x.0, x.1)] && s3.nodes == s.nodes && s3.phase.Processing?
  {
    var s1 := s.(cancelling := s.cancelling - multiset{x}, writing := [Cancel(x.0, x.1)]);
    assert Do(s, PushCancel(x)) == s1;
    assert Do(s1, Advance(s.ticktime + RESOLUTION)) == s1.(ticktime := s.ticktime + RESOLUTION, left := 1, phase := Advanced);
  }

  /** Its node is not ticking. */
  lemma LastSteps(s: State, x: Session)
    requires MadeUp(s, x) && s.phase.Resting? && s.writing == [] && s.cancelling[x] > 0
    requires !s.nodes[x.0].state.Ticking?
    ensures Fails(s, [PushCancel(x), Advance(s.ticktime + RESOLUTION), Flip], ProcessCmd)
  {
    hide Do, Enabled, Possible, AllHonest, Run, AssertsHold;
    var a, b := PushCancel(x), Advance(s.ticktime + RESOLUTION);
    LastStates(s, x);
    var s1 := Do(s, a);
    var s2 := Do(s1, b);
    var s3 := Do(s2, Flip);
    assert [Flip] + [] == [Flip] && [b] + [Flip] == [b, Flip] && [a] + [b, Flip] == [a, b, Flip];
    NoSteps(s3);
    StepFirst(s2, Flip, []);
    StepFirst(s1, b, [Flip]);
    StepFirst(s, a, [b, Flip]);
    Trips(s3, x);
  }

  lemma NoSteps(s: State)
    ensures Possible(s, []) && AllHonest(s, []) && Run(s, []) == s
  {
  }

  lemma Trips(s: State, x: Session)
    requires s.phase.Processing? && s.batch == [Cancel(x.0, x.1)]
    requires x.0 < |s.nodes| && s.nodes[x.0].version == x.1 && !s.nodes[x.0].state.Ticking?
    ensures Enabled(s, ProcessCmd) && !AssertsHold(s, ProcessCmd)
  {
  }

  lemma CheckDoes(s: State, x: Session)
    requires MadeUp(s, x)
    ensures Do(s, CheckCancel(x)) == With(s, s.cancelling + multiset{x})
  {
  }

  lemma FailsLater(s: State, first: seq<Step>, last: seq<Step>, t: Step)
    requires Possible(s, first) && AllHonest(s, first) && Fails(Run(s, first), last, t)
    ensures Fails(s, first + last, t)
  {
    hide Possible, AllHonest, Run, Enabled, Honest, AssertsHold;
    RunTwo(s, first, last);
  }

  /** Check, let the timer thread settle, push, advance, exchange the buffers: the next command fails. */
  lemma FailingRun(s: State, x: Session) returns (ts: seq<Step>, t: Step)
    requires Inv(s) && MadeUp(s, x)
    ensures Fails(Do(s, CheckCancel(x)), ts, t)
  {
    hide *;
    var m := s.cancelling + multiset{x};
    CheckDoes(s, x);
    var first := Settles(s, x);
    RunWith(s, first, m);
    NotInWheel(Run(s, first), x);
    var s1 := With(Run(s, first), m);
    assert s1.cancelling == m && s1.nodes == Run(s, first).nodes && MadeUp(s1, x) && s1.phase.Resting? && s1.writing == []
    by { LooksLike(Run(s, first), m, x); }
    var last := [PushCancel(x), Advance(s1.ticktime + RESOLUTION), Flip];
    LastSteps(s1, x);
    FailsLater(With(s, m), first, last, ProcessCmd);
    ts, t := first + last, ProcessCmd;
  }

  lemma LooksLike(s: State, m: multiset<Session>, x: Session)
    ensures var s1 := With(s, m);
            && s1.cancelling == m && s1.nodes == s.nodes && s1.phase == s.phase && s1.writing == s.writing
            && (MadeUp(s, x) ==> MadeUp(s1, x))
  {
  }
}
