/** The command channel between workers and the socket thread: a double buffer, a pipe and a flag,
    as interleaved atomic steps of any number of producers and one consumer. */
module CommandChannel {

  // ----------------------------------------------------------- the growing buffer

  type Byte = x: int | 0 <= x < 256

  class Array {
    var buf: array<Byte>
    var size: nat

    ghost predicate Valid()
      reads this
    {
      0 < buf.Length && size <= buf.Length
    }

    ghost function Contents(): seq<Byte>
      reads this, buf
      requires Valid()
    {
      buf[..size]
    }

    constructor (cap: nat)
      ensures Valid() && fresh(buf) && Contents() == [] && buf.Length == if cap == 0 then 16 else cap
    {
      var n := if cap == 0 then 16 else cap;
      buf := new Byte[n](_ => 0);
      size := 0;
    }

    /** Moves to a buffer of the first doubled capacity that holds `n` bytes. */
    method Grow(n: nat)
      requires Valid() && buf.Length < n
      modifies this
      ensures Valid() && fresh(buf) && size == old(size) && Contents() == old(Contents())
      ensures n <= buf.Length && (buf.Length < 2 * n || buf.Length == 2 * old(buf.Length))
    {
      var cap := buf.Length * 2;
      while cap < n
        invariant 2 * buf.Length <= cap && (cap == 2 * buf.Length || cap < 2 * n)
        decreases n - cap
      {
        cap := cap * 2;
      }
      var bigger := new Byte[cap](_ => 0);
      forall k | 0 <= k < size { bigger[k] := buf[k]; }
      assert bigger[..size] == buf[..size];
      buf := bigger;
    }

    /** Appends, growing the buffer if the data does not fit. */
    method Write(data: seq<Byte>)
      requires Valid()
      modifies this, buf
      ensures Valid() && (buf == old(buf) || fresh(buf)) && Contents() == old(Contents()) + data
      ensures old(buf.Length) >= old(size) + |data| ==> buf == old(buf)
    {
      if size + |data| > buf.Length { Grow(size + |data|); }
      forall k | 0 <= k < |data| { buf[size + k] := data[k]; }
      size := size + |data|;
      assert buf[..size] == old(Contents()) + data;
    }
  }

  // ------------------------------------------------------------------ the protocol

  /** A producer between two pushes, about to write the pipe, or about to raise the flag. */
  datatype Producer = Idle | MustFire | MustRaise

  /** The consumer waits for the flag, reads the pipe, lowers the flag, clears the slot it read last, flips,
      and works through what it flipped out. */
  datatype Consumer = Waiting | Reading | Lowering | Clearing | Flipping | Working(pos: nat)

  datatype State<Op> = State(slots: (seq<Op>, seq<Op>), writing: bool, pipe: nat, fired: bool,
                             producers: seq<Producer>, consumer: Consumer,
                             pushed: seq<Op>, done: seq<Op>)
  {
    function In(): seq<Op> { if writing then slots.1 else slots.0 }

    function Out(): seq<Op> { if writing then slots.0 else slots.1 }
  }

  datatype Step<Op> =
    | Push(p: nat, op: Op) // flipbuf_write, under the lock
    | FirePipe(p: nat) // trigger_fire: the byte
    | FireRaise(p: nat) // trigger_fire: the flag
    | SeeFlag // trigger_consume: the test
    | ReadPipe // trigger_consume: the byte
    | LowerFlag // trigger_consume: the flag
    | ClearOut // flipbuf_flip: empty the slot read last
    | Flip // flipbuf_flip: exchange the slots, under the lock
    | ProcessOp // op_process: the next operation
    | Finish // op_process: nothing left

  function Initial<Op>(n: nat): State<Op> {
    State(([], []), false, 0, false, seq(n, _ => Idle), Waiting, [], [])
  }

  /** Which steps can be taken: a read of the pipe needs a byte in it, everything else only the right place. */
  predicate Enabled<Op>(s: State<Op>, t: Step<Op>) {
    match t
    case Push(p, _) => p < |s.producers| && s.producers[p].Idle?
    case FirePipe(p) => p < |s.producers| && s.producers[p].MustFire?
    case FireRaise(p) => p < |s.producers| && s.producers[p].MustRaise?
    case SeeFlag => s.consumer.Waiting? && s.fired
    case ReadPipe => s.consumer.Reading? && s.pipe > 0
    case LowerFlag => s.consumer.Lowering?
    case ClearOut => s.consumer.Clearing?
    case Flip => s.consumer.Flipping?
    case ProcessOp => s.consumer.Working? && s.consumer.pos < |s.Out()|
    case Finish => s.consumer.Working? && s.consumer.pos >= |s.Out()|
  }

  function Append<Op>(s: State<Op>, op: Op): (seq<Op>, seq<Op>) {
    if s.writing then (s.slots.0, s.slots.1 + [op]) else (s.slots.0 + [op], s.slots.1)
  }

  function Do<Op>(s: State<Op>, t: Step<Op>): State<Op>
    requires Enabled(s, t)
  {
    match t
    case Push(p, op) =>
      s.(slots := Append(s, op), pushed := s.pushed + [op],
         producers := s.producers[p := if s.In() == [] then MustFire else Idle])
    case FirePipe(p) => s.(pipe := s.pipe + 1, producers := s.producers[p := MustRaise])
    case FireRaise(p) => s.(fired := true, producers := s.producers[p := Idle])
    case SeeFlag => s.(consumer := Reading)
    case ReadPipe => s.(pipe := s.pipe - 1, consumer := Lowering)
    case LowerFlag => s.(fired := false, consumer := Clearing)
    case ClearOut => s.(slots := if s.writing then ([], s.slots.1) else (s.slots.0, []), consumer := Flipping)
    case Flip => s.(writing := !s.writing, consumer := Working(0))
    case ProcessOp => s.(done := s.done + [s.Out()[s.consumer.pos]], consumer := Working(s.consumer.pos + 1))
    case Finish => s.(consumer := Waiting)
  }

  // --------------------------------------------------------------- the invariant

  function Count(ps: seq<Producer>, what: Producer): nat {
    if ps == [] then 0 else Count(ps[1..], what) + if ps[0] == what then 1 else 0
  }

  /** Where the one wake-up that stands for a non-empty buffer is. */
  datatype Wakeup = None | Firing | Raising | Raised | Taken | Lowered

  ghost predicate At<Op>(s: State<Op>, w: Wakeup) {
    && Count(s.producers, MustFire) == (if w.Firing? then 1 else 0)
    && Count(s.producers, MustRaise) == (if w.Raising? then 1 else 0)
    && s.pipe == (if w.Raising? || w.Raised? then 1 else 0)
    && (s.fired <==> w.Raised? || w.Taken?)
    && (s.In() == [] <==> w.None?)
    && (w.Taken? <==> s.consumer.Lowering?)
    && (w.Lowered? <==> s.consumer.Clearing? || s.consumer.Flipping?)
    && (s.consumer.Reading? ==> w.Raised?)
  }

  /** Operations processed, flipped out and still buffered are the ones pushed, in push order. */
  ghost predicate InOrder<Op>(s: State<Op>) {
    && (s.consumer.Working? ==> s.consumer.pos <= |s.Out()|)
    && (s.consumer.Flipping? ==> s.Out() == [])
    && s.pushed == s.done + Left(s) + s.In()
  }

  ghost predicate Inv<Op>(s: State<Op>) {
    InOrder(s) && exists w :: At(s, w)
  }

  lemma {:induction false} CountUpdate(ps: seq<Producer>, p: nat, v: Producer, what: Producer)
    requires p < |ps|
    ensures Count(ps[p := v], what) + (if ps[p] == what then 1 else 0) == Count(ps, what) + (if v == what then 1 else 0)
  {
    if p == 0 {
      assert ps[0 := v][1..] == ps[1..];
    } else {
      CountUpdate(ps[1..], p - 1, v, what);
      assert ps[p := v][1..] == ps[1..][p - 1 := v];
    }
  }

  lemma {:induction false} NoneOf(n: nat, what: Producer)
    requires !what.Idle?
    ensures Count(seq(n, _ => Idle), what) == 0
  {
    if n > 0 {
      NoneOf(n - 1, what);
      assert seq(n, _ => Idle)[1..] == seq(n - 1, _ => Idle);
    }
  }

  lemma {:induction false} SomeOf(ps: seq<Producer>, what: Producer) returns (p: nat)
    requires Count(ps, what) > 0
    ensures p < |ps| && ps[p] == what
  {
    if ps[0] == what {
      p := 0;
    } else {
      var q := SomeOf(ps[1..], what);
      p := q + 1;
    }
  }

  lemma InitialInv<Op>(n: nat)
    ensures Inv(Initial<Op>(n))
  {
    NoneOf(n, MustFire);
    NoneOf(n, MustRaise);
    assert At(Initial<Op>(n), None);
  }

  /** Where the wake-up is after a step. */
  function Next<Op>(s: State<Op>, w: Wakeup, t: Step<Op>): Wakeup {
    match t
    case Push(_, _) => if s.In() == [] then Firing else w
    case FirePipe(_) => Raising
    case FireRaise(_) => Raised
    case ReadPipe => Taken
    case LowerFlag => Lowered
    case Flip => None
    case _ => w
  }

  lemma StepKeepsAt<Op>(s: State<Op>, t: Step<Op>, w: Wakeup)
    requires InOrder(s) && At(s, w) && Enabled(s, t)
    ensures At(Do(s, t), Next(s, w, t))
  {
    match t
    case Push(p, op) =>
      var v := if s.In() == [] then MustFire else Idle;
      CountUpdate(s.producers, p, v, MustFire);
      CountUpdate(s.producers, p, v, MustRaise);
    case FirePipe(p) =>
      CountUpdate(s.producers, p, MustRaise, MustFire);
      CountUpdate(s.producers, p, MustRaise, MustRaise);
    case FireRaise(p) =>
      CountUpdate(s.producers, p, Idle, MustFire);
      CountUpdate(s.producers, p, Idle, MustRaise);
    case _ =>
  }

  /** What was flipped out and has not been processed. */
  function Left<Op>(s: State<Op>): seq<Op> {
    if s.consumer.Working? && s.consumer.pos <= |s.Out()| then s.Out()[s.consumer.pos..] else []
  }

  lemma StepKeepsOrder<Op>(s: State<Op>, t: Step<Op>)
    requires InOrder(s) && Enabled(s, t)
    ensures InOrder(Do(s, t))
  {
    hide Count;
    var s' := Do(s, t);
    match t
    case Push(p, op) =>
      assert s'.Out() == s.Out() && s'.In() == s.In() + [op];
      Joins(s.done, Left(s), s.In(), op);
    case ProcessOp =>
      var out, k := s.Out(), s.consumer.pos;
      assert s'.Out() == out && s'.In() == s.In();
      Moves(s.done, out, k, s.In());
    case Flip =>
      assert s'.Out()[0..] == s.In() && s'.In() == [];
      assert s.done + [] + s.In() == s.done + s.In() + [];
    case Finish =>
      assert Left(s) == [];
    case _ =>
  }

  lemma Joins<Op>(done: seq<Op>, left: seq<Op>, buffered: seq<Op>, op: Op)
    ensures done + left + buffered + [op] == done + left + (buffered + [op])
  {
  }

  lemma Moves<Op>(done: seq<Op>, out: seq<Op>, k: nat, buffered: seq<Op>)
    requires k < |out|
    ensures done + out[k..] + buffered == (done + [out[k]]) + out[k + 1..] + buffered
  {
    assert out[k..] == [out[k]] + out[k + 1..];
  }

  /** Every step of every interleaving keeps the invariant. */
  lemma StepKeeps<Op>(s: State<Op>, t: Step<Op>)
    requires Inv(s) && Enabled(s, t)
    ensures Inv(Do(s, t))
  {
    var w :| At(s, w);
    StepKeepsAt(s, t, w);
    StepKeepsOrder(s, t);
  }

  ghost predicate Possible<Op>(s: State<Op>, ts: seq<Step<Op>>)
    decreases |ts|
  {
    ts == [] || (Enabled(s, ts[0]) && Possible(Do(s, ts[0]), ts[1..]))
  }

  function Run<Op>(s: State<Op>, ts: seq<Step<Op>>): State<Op>
    requires Possible(s, ts)
    decreases |ts|
  {
    if ts == [] then s else Run(Do(s, ts[0]), ts[1..])
  }

  /** Over every run: at most one byte is in the pipe, a consumer that saw the flag finds it, and operations
      are processed once each, in push order. */
  lemma {:induction false} RunKeeps<Op>(s: State<Op>, ts: seq<Step<Op>>)
    requires Inv(s) && Possible(s, ts)
    ensures var s' := Run(s, ts);
            && Inv(s') && s'.pipe <= 1 && s'.done <= s'.pushed
            && (s'.consumer.Reading? ==> Enabled(s', ReadPipe))
    decreases |ts|
  {
    if ts == [] {
      var w :| At(s, w);
    } else {
      StepKeeps(s, ts[0]);
      RunKeeps(Do(s, ts[0]), ts[1..]);
    }
  }

  /** A buffered operation has a fire pending, a byte in the pipe or a flip under way behind it. */
  lemma Behind<Op>(s: State<Op>) returns (p: nat)
    requires Inv(s) && s.In() != []
    ensures || (p < |s.producers| && s.producers[p].MustFire?)
            || s.pipe == 1
            || s.consumer.Lowering? || s.consumer.Clearing? || s.consumer.Flipping?
  {
    p := 0;
    var w :| At(s, w);
    if w.Firing? { p := SomeOf(s.producers, MustFire); }
  }

  /** A writer never touches the slot the reader works on, nor the reader the writers' slot. */
  lemma SlotsApart<Op>(s: State<Op>, t: Step<Op>)
    requires Enabled(s, t)
    ensures t.Push? ==> Do(s, t).Out() == s.Out()
    ensures !t.Push? && !t.Flip? ==> Do(s, t).In() == s.In()
    ensures t.Flip? ==> Do(s, t).In() == s.Out() && Do(s, t).Out() == s.In()
  {
  }

  // ------------------------------------------------------------------- progress

  /** Steps left until everything buffered has been processed, if nothing more is pushed. */
  function Rank<Op>(s: State<Op>): nat {
    2 * Count(s.producers, MustFire) + Count(s.producers, MustRaise)
    + 2 * |s.In()| + (if s.In() == [] then 0 else 10)
    + match s.consumer
      case Waiting => 5
      case Reading => 4
      case Lowering => 3
      case Clearing => 2
      case Flipping => 1
      case Working(pos) => 6 + if pos <= |s.Out()| then |s.Out()| - pos else 0
  }

  lemma RankDrops<Op>(s: State<Op>, t: Step<Op>)
    requires Inv(s) && Enabled(s, t) && !t.Push?
    ensures Rank(Do(s, t)) < Rank(s)
  {
    var w :| At(s, w);
    match t
    case FirePipe(p) =>
      CountUpdate(s.producers, p, MustRaise, MustFire);
      CountUpdate(s.producers, p, MustRaise, MustRaise);
    case FireRaise(p) =>
      CountUpdate(s.producers, p, Idle, MustFire);
      CountUpdate(s.producers, p, Idle, MustRaise);
    case _ =>
  }

  lemma StepAhead<Op>(s: State<Op>) returns (t: Step<Op>)
    requires Inv(s) && s.done != s.pushed
    ensures Enabled(s, t) && !t.Push?
  {
    var w :| At(s, w);
    match s.consumer
    case Reading => t := ReadPipe;
    case Lowering => t := LowerFlag;
    case Clearing => t := ClearOut;
    case Flipping => t := Flip;
    case Working(pos) => t := if pos < |s.Out()| then ProcessOp else Finish;
    case Waiting =>
      assert s.In() != [];
      if w.Firing? {
        var p := SomeOf(s.producers, MustFire);
        t := FirePipe(p);
      } else if w.Raising? {
        var p := SomeOf(s.producers, MustRaise);
        t := FireRaise(p);
      } else {
        t := SeeFlag;
      }
  }

  /** Nothing can go on but a new push. */
  ghost predicate Stuck<Op(!new)>(s: State<Op>) { forall t :: Enabled(s, t) ==> t.Push? }

  /** No wake-up is lost: without further pushes every run ends within a bound known at its start, and one that
      cannot go on has processed everything pushed. */
  lemma {:induction false} EveryRunDrains<Op(!new)>(s: State<Op>, ts: seq<Step<Op>>)
    requires Inv(s) && Possible(s, ts) && forall i :: 0 <= i < |ts| ==> !ts[i].Push?
    ensures |ts| <= Rank(s) && Run(s, ts).pushed == s.pushed
    ensures Stuck(Run(s, ts)) ==> Run(s, ts).done == s.pushed
    decreases |ts|
  {
    hide Inv, Rank;
    if ts == [] {
      if s.done != s.pushed { var t := StepAhead(s); }
    } else {
      StepKeeps(s, ts[0]);
      RankDrops(s, ts[0]);
      SamePushed(s, ts[0]);
      EveryRunDrains(Do(s, ts[0]), ts[1..]);
    }
  }

  lemma SamePushed<Op>(s: State<Op>, t: Step<Op>)
    requires Enabled(s, t) && !t.Push?
    ensures Do(s, t).pushed == s.pushed
  {
  }

  /** From every reachable state there is such a run. */
  lemma {:induction false} Drains<Op>(s: State<Op>) returns (ts: seq<Step<Op>>)
    requires Inv(s)
    ensures Possible(s, ts) && (forall i :: 0 <= i < |ts| ==> !ts[i].Push?)
    ensures Run(s, ts).done == s.pushed == Run(s, ts).pushed
    decreases Rank(s)
  {
    if s.done == s.pushed {
      ts := [];
    } else {
      var t := StepAhead(s);
      StepKeeps(s, t);
      RankDrops(s, t);
      var rest := Drains(Do(s, t));
      ts := [t] + rest;
      assert ts[1..] == rest;
    }
  }
}
