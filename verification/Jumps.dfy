/** Jumps of the Lua code generator: lists of pending jumps threaded through the jump offsets themselves,
    patching them, and the final pass that makes jumps to jumps go to the end of the chain. */
module Jumps {
  const NO_JUMP: int := -1
  const MAX_SJ: int := 0x1ff_ffff
  const OFFSET_SJ: int := 0xff_ffff
  const NO_REG: nat := 255

  /** Only what the jump code looks at: tests are the instructions that may control the jump behind them. */
  datatype Instr =
    | Jmp(sj: int)
    | TestSet(a: nat, b: nat, k: bool)
    | Test(a: nat, k: bool)
    | Compare(id: nat)
    | Plain(id: nat)

  type Code = seq<Instr>

  function Target(code: Code, pc: nat): int
    requires pc < |code| && code[pc].Jmp?
  {
    pc + 1 + code[pc].sj
  }

  predicate InRange(pc: nat, dest: int) { -OFFSET_SJ <= dest - (pc + 1) <= MAX_SJ - OFFSET_SJ }

  function JumpTo(pc: nat, dest: int): Instr { Jmp(dest - (pc + 1)) }

  // ------------------------------------------------------------------- jump lists

  /** Following the list from `l` visits exactly `pcs`, in order; a jump to itself ends it. */
  ghost predicate IsList(code: Code, l: int, pcs: seq<nat>)
    decreases |pcs|
  {
    if pcs == [] then l == NO_JUMP
    else l == pcs[0] && pcs[0] < |code| && code[pcs[0]].Jmp? && IsList(code, NextOf(code, pcs[0]), pcs[1..])
  }

  function NextOf(code: Code, pc: nat): int
    requires pc < |code| && code[pc].Jmp?
  {
    if code[pc].sj == NO_JUMP then NO_JUMP else Target(code, pc)
  }

  ghost predicate Disjoint(a: seq<nat>, b: seq<nat>) { forall x :: x in a ==> x !in b }

  lemma {:induction false} ListMember(code: Code, l: int, pcs: seq<nat>, k: nat)
    requires IsList(code, l, pcs) && k < |pcs|
    ensures pcs[k] < |code| && code[pcs[k]].Jmp? && IsList(code, pcs[k], pcs[k..])
    ensures NextOf(code, pcs[k]) == if k + 1 < |pcs| then pcs[k + 1] else NO_JUMP
    decreases k
  {
    if k == 0 {
      assert pcs[0..] == pcs;
    } else {
      ListMember(code, NextOf(code, pcs[0]), pcs[1..], k - 1);
      assert pcs[1..][k - 1..] == pcs[k..];
    }
  }

  lemma {:induction false} SameLength(code: Code, l: int, a: seq<nat>, b: seq<nat>)
    requires IsList(code, l, a) && IsList(code, l, b)
    ensures a == b
    decreases |a|
  {
    if a != [] && b != [] {
      SameLength(code, NextOf(code, a[0]), a[1..], b[1..]);
      assert a == [a[0]] + a[1..] && b == [b[0]] + b[1..];
    }
  }

  /** A list that ends has no jump twice. */
  lemma NoRepeats(code: Code, l: int, pcs: seq<nat>, j: nat, k: nat)
    requires IsList(code, l, pcs) && j < k < |pcs|
    ensures pcs[j] != pcs[k]
  {
    ListMember(code, l, pcs, j);
    ListMember(code, l, pcs, k);
    if pcs[j] == pcs[k] { SameLength(code, pcs[j], pcs[j..], pcs[k..]); }
  }

  /** Changing instructions outside the list leaves it alone. */
  lemma {:induction false} ListFrame(code: Code, code': Code, l: int, pcs: seq<nat>)
    requires IsList(code, l, pcs) && |code'| == |code|
    requires forall k :: 0 <= k < |pcs| && pcs[k] < |code| ==> code'[pcs[k]] == code[pcs[k]]
    ensures IsList(code', l, pcs)
    decreases |pcs|
  {
    if pcs != [] {
      assert code'[pcs[0]] == code[pcs[0]];
      ListFrame(code, code', NextOf(code, pcs[0]), pcs[1..]);
    }
  }

  /** Linking the last jump of one list to the first of another joins them. */
  lemma {:induction false} Joined(code: Code, l: int, a: seq<nat>, l2: int, b: seq<nat>)
    requires IsList(code, l, a) && IsList(code, l2, b) && a != [] && b != [] && Disjoint(a, b)
    ensures var last := a[|a| - 1];
            last < |code| && IsList(code[last := JumpTo(last, l2)], l, a + b)
    decreases |a|
  {
    var n, last := |a|, a[|a| - 1];
    ListMember(code, l, a, n - 1);
    assert last in a;
    var code' := code[last := JumpTo(last, l2)];
    assert l2 in b;
    if n == 1 {
      forall k | 0 <= k < |b| ensures b[k] != last { assert b[k] in b; }
      ListFrame(code, code', l2, b);
      assert (a + b)[1..] == b;
    } else {
      NoRepeats(code, l, a, 0, n - 1);
      assert forall x :: x in a[1..] ==> x in a;
      Joined(code, NextOf(code, a[0]), a[1..], l2, b);
      assert (a + b)[1..] == a[1..] + b;
    }
  }

  // ------------------------------------------------------------------ where jumps lead

  /** After `n` hops; anything but a jump stays put. */
  function Hop(code: Code, pc: nat, n: nat): (r: nat)
    requires Closed(code) && pc < |code|
    ensures r < |code|
    decreases n
  {
    if n == 0 || !code[pc].Jmp? then pc else Hop(code, Target(code, pc), n - 1)
  }

  /** Every jump leads into the code. */
  ghost predicate Closed(code: Code) {
    forall pc :: 0 <= pc < |code| && code[pc].Jmp? ==> 0 <= Target(code, pc) < |code|
  }

  /** Execution at `pc` reaches `t` as the first instruction that is not a jump. */
  ghost predicate Lands(code: Code, pc: nat, t: nat)
    requires Closed(code) && pc < |code|
  {
    t < |code| && !code[t].Jmp? && exists n :: Hop(code, pc, n) == t
  }

  lemma {:induction false} HopAdd(code: Code, pc: nat, a: nat, b: nat)
    requires Closed(code) && pc < |code|
    ensures Hop(code, pc, a + b) == Hop(code, Hop(code, pc, a), b)
    decreases a
  {
    if a > 0 && code[pc].Jmp? { HopAdd(code, Target(code, pc), a - 1, b); }
  }

  /** One jump is sent further along its own chain. */
  ghost predicate Shortcut(code: Code, code': Code, i: nat, k: nat)
    requires Closed(code)
  {
    && i < |code| && code[i].Jmp? && k >= 1 && code' == code[i := JumpTo(i, Hop(code, i, k))]
  }

  lemma ShortcutCloses(code: Code, code': Code, i: nat, k: nat)
    requires Closed(code) && Shortcut(code, code', i, k)
    ensures Closed(code') && Target(code', i) == Hop(code, i, k)
  {
  }

  /** Once landed, further hops change nothing. */
  lemma HopStays(code: Code, pc: nat, n: nat, m: nat)
    requires Closed(code) && pc < |code| && !code[Hop(code, pc, n)].Jmp? && n <= m
    ensures Hop(code, pc, m) == Hop(code, pc, n)
  {
    HopAdd(code, pc, n, m - n);
  }

  /** A shortcut takes nobody longer to land. */
  lemma {:induction false} StillLands(code: Code, code': Code, i: nat, k: nat, pc: nat, t: nat, n: nat)
    requires Closed(code) && Shortcut(code, code', i, k) && Closed(code') && Target(code', i) == Hop(code, i, k)
    requires pc < |code| && t < |code| && !code[t].Jmp? && Hop(code, pc, n) == t
    ensures Hop(code', pc, n) == t
    decreases n
  {
    if code[pc].Jmp? {
      var d := Target(code', pc);
      if pc == i {
        if k <= n {
          HopAdd(code, i, k, n - k);
          StillLands(code, code', i, k, d, t, n - k);
          HopStays(code', d, n - k, n - 1);
        } else {
          HopAdd(code, i, n, k - n);
          assert d == t;
          HopStays(code', d, 0, n - 1);
        }
      } else {
        StillLands(code, code', i, k, d, t, n - 1);
      }
    }
  }

  lemma {:induction false} LandedBefore(code: Code, code': Code, i: nat, k: nat, pc: nat, t: nat, n: nat)
    requires Closed(code) && Shortcut(code, code', i, k) && Closed(code') && Target(code', i) == Hop(code, i, k)
    requires pc < |code| && t < |code| && !code[t].Jmp? && Hop(code', pc, n) == t
    ensures Lands(code, pc, t)
    decreases n
  {
    if !code[pc].Jmp? {
      assert Hop(code, pc, 0) == t;
    } else {
      var d := Target(code', pc);
      LandedBefore(code, code', i, k, d, t, n - 1);
      var m: nat :| Hop(code, d, m) == t;
      if pc == i {
        HopAdd(code, i, k, m);
        assert Hop(code, pc, k + m) == t;
      } else {
        assert Hop(code, pc, m + 1) == t;
      }
    }
  }

  /** Sending a jump further along its chain changes nobody's destination. */
  lemma SameLanding(code: Code, code': Code, i: nat, k: nat, pc: nat, t: nat)
    requires Closed(code) && Shortcut(code, code', i, k) && Closed(code') && pc < |code|
    ensures Lands(code', pc, t) <==> Lands(code, pc, t)
  {
    ShortcutCloses(code, code', i, k);
    if Lands(code, pc, t) {
      var n: nat :| Hop(code, pc, n) == t;
      StillLands(code, code', i, k, pc, t, n);
      assert Hop(code', pc, n) == t;
    }
    if Lands(code', pc, t) {
      var n: nat :| Hop(code', pc, n) == t;
      LandedBefore(code, code', i, k, pc, t, n);
    }
  }

  /** Every jump leads to a place on its original chain, and from every instruction it takes no longer to land. */
  ghost predicate Shorter(code: Code, code': Code)
    requires Closed(code) && Closed(code') && |code'| == |code|
  {
    && (forall pc: nat, n: nat :: pc < |code| && !code[Hop(code, pc, n)].Jmp? ==> Hop(code', pc, n) == Hop(code, pc, n))
    && (forall pc: nat, n: nat :: pc < |code| ==> OnChain(code, pc, Hop(code', pc, n)))
  }

  ghost predicate OnChain(code: Code, pc: nat, t: nat)
    requires Closed(code) && pc < |code|
  {
    exists m :: Hop(code, pc, m) == t
  }

  lemma ChainChain(code: Code, pc: nat, d: nat, t: nat)
    requires Closed(code) && pc < |code| && d < |code| && OnChain(code, pc, d) && OnChain(code, d, t)
    ensures OnChain(code, pc, t)
  {
    var a: nat :| Hop(code, pc, a) == d;
    var b: nat :| Hop(code, d, b) == t;
    HopAdd(code, pc, a, b);
    assert Hop(code, pc, a + b) == t;
  }

  /** What one shortcut makes reachable was reachable. */
  lemma {:induction false} StaysOnChain(code: Code, code': Code, i: nat, k: nat, pc: nat, n: nat)
    requires Closed(code) && Shortcut(code, code', i, k) && Closed(code') && Target(code', i) == Hop(code, i, k) && pc < |code|
    ensures OnChain(code, pc, Hop(code', pc, n))
    decreases n
  {
    if n == 0 || !code[pc].Jmp? {
      assert Hop(code, pc, 0) == pc;
    } else {
      var d := Target(code', pc);
      StaysOnChain(code, code', i, k, d, n - 1);
      if pc == i { assert Hop(code, pc, k) == d; } else { assert Hop(code, pc, 1) == d; }
      ChainChain(code, pc, d, Hop(code', d, n - 1));
    }
  }

  lemma ShorterStep(code: Code, code1: Code, code2: Code, i: nat, k: nat)
    requires SameFlow(code, code1) && Shorter(code, code1) && Shortcut(code1, code2, i, k) && Closed(code2)
    ensures Shorter(code, code2)
  {
    ShortcutCloses(code1, code2, i, k);
    forall pc: nat, n: nat | pc < |code| && !code[Hop(code, pc, n)].Jmp? ensures Hop(code2, pc, n) == Hop(code, pc, n) {
      StillLands(code1, code2, i, k, pc, Hop(code, pc, n), n);
    }
    forall pc: nat, n: nat | pc < |code| ensures OnChain(code, pc, Hop(code2, pc, n)) {
      StaysOnChain(code1, code2, i, k, pc, n);
      AlongBoth(code, code1, pc, Hop(code2, pc, n));
    }
  }

  lemma AlongBoth(code: Code, code1: Code, pc: nat, t: nat)
    requires Closed(code) && Closed(code1) && |code1| == |code| && Shorter(code, code1) && pc < |code| && OnChain(code1, pc, t)
    ensures OnChain(code, pc, t)
  {
    var m: nat :| Hop(code1, pc, m) == t;
  }

  /** The jump goes straight to where it leads, if that is within a hundred hops. */
  ghost predicate Straight(code: Code, code': Code, pc: nat)
    requires Closed(code) && pc < |code| == |code'|
  {
    code'[pc].Jmp? && !code[Hop(code, pc, 100)].Jmp? ==> Target(code', pc) == Hop(code, pc, 100)
  }

  /** Both codes have jumps in the same places, the same instructions elsewhere, and every instruction leads to the
      same first instruction that is not a jump, or to none. */
  ghost predicate SameFlow(code: Code, code': Code) {
    && |code'| == |code| && Closed(code) && Closed(code')
    && (forall pc :: 0 <= pc < |code| ==> (code'[pc].Jmp? <==> code[pc].Jmp?) && (!code[pc].Jmp? ==> code'[pc] == code[pc]))
    && (forall pc: nat, t: nat :: pc < |code| ==> (Lands(code', pc, t) <==> Lands(code, pc, t)))
  }

  lemma SameFlowStep(code: Code, code1: Code, code2: Code, i: nat, k: nat)
    requires SameFlow(code, code1) && Shortcut(code1, code2, i, k)
    ensures SameFlow(code, code2)
  {
    ShortcutCloses(code1, code2, i, k);
    forall pc: nat, t: nat | pc < |code| ensures Lands(code2, pc, t) <==> Lands(code, pc, t) {
      SameLanding(code1, code2, i, k, pc, t);
    }
  }

  // --------------------------------------------------------------------- the passes

  /** The instruction that decides whether a jump is taken, if there is one. */
  function Control(code: Code, pc: nat): (c: nat)
    requires pc < |code|
    ensures c < |code|
  {
    if pc >= 1 && (code[pc - 1].TestSet? || code[pc - 1].Test? || code[pc - 1].Compare?) then pc - 1 else pc
  }

  predicate MakesValue(code: Code, pc: nat)
    requires pc < |code|
  {
    code[Control(code, pc)].TestSet?
  }

  function Patched(i: Instr, reg: nat): Instr {
    match i
    case TestSet(_, b, k) => if reg != NO_REG && reg != b then TestSet(reg, b, k) else Test(b, k)
    case _ => i
  }

  /** The instruction at `pc` after patching the jumps in `pcs`. */
  ghost function Patching(code: Code, pcs: seq<nat>, vtarget: int, reg: nat, dtarget: int, pc: nat): Instr
    requires pc < |code|
  {
    if pc in pcs then JumpTo(pc, if MakesValue(code, pc) then vtarget else dtarget)
    else if pc + 1 in pcs && code[pc].TestSet? then Patched(code[pc], reg)
    else code[pc]
  }

  ghost predicate PatchedCode(code: Code, code': Code, pcs: seq<nat>, vtarget: int, reg: nat, dtarget: int) {
    |code'| == |code| && forall pc :: 0 <= pc < |code| ==> code'[pc] == Patching(code, pcs, vtarget, reg, dtarget, pc)
  }

  /** The code after patching the jump at `s`. */
  function PatchAt(code: Code, s: nat, vtarget: int, reg: nat, dtarget: int): Code
    requires s < |code|
  {
    if MakesValue(code, s) then code[Control(code, s) := Patched(code[Control(code, s)], reg)][s := JumpTo(s, vtarget)]
    else code[s := JumpTo(s, dtarget)]
  }

  lemma PatchOne(code0: Code, code: Code, start: int, pcs: seq<nat>, k: nat, vtarget: int, reg: nat, dtarget: int)
    requires k < |pcs| && IsList(code0, start, pcs) && IsList(code, pcs[k], pcs[k..])
    requires PatchedCode(code0, code, pcs[..k], vtarget, reg, dtarget)
    ensures var s := pcs[k];
            && s < |code| == |code0| && code[s].Jmp? && (MakesValue(code, s) <==> MakesValue(code0, s))
            && IsList(PatchAt(code, s, vtarget, reg, dtarget), NextOf(code, s), pcs[k + 1..])
            && PatchedCode(code0, PatchAt(code, s, vtarget, reg, dtarget), pcs[..k + 1], vtarget, reg, dtarget)
  {
    hide IsList, PatchAt;
    var s := pcs[k];
    Earlier(code0, start, pcs, k);
    SameControl(code0, code, start, pcs, k, vtarget, reg, dtarget);
    assert |code| == |code0|;
    hide PatchedCode;
    RestStays(code0, code, start, pcs, k, vtarget, reg, dtarget);
    PatchedMore(code0, code, pcs[..k], s, vtarget, reg, dtarget);
    TakeOne(pcs, k);
  }

  lemma TakeOne(pcs: seq<nat>, k: nat)
    requires k < |pcs|
    ensures pcs[..k + 1] == pcs[..k] + [pcs[k]]
  {
  }

  /** Every listed jump can reach its target. */
  ghost predicate Reachable(code: Code, pcs: seq<nat>, vtarget: int, dtarget: int) {
    forall pc :: pc in pcs && pc < |code| ==> InRange(pc, if MakesValue(code, pc) then vtarget else dtarget)
  }

  lemma ReachableMore(code: Code, pcs: seq<nat>, k: nat, vtarget: int, dtarget: int)
    requires k < |pcs| && pcs[k] < |code| && Reachable(code, pcs[..k], vtarget, dtarget)
    ensures var fits := InRange(pcs[k], if MakesValue(code, pcs[k]) then vtarget else dtarget);
            (fits <==> Reachable(code, pcs[..k + 1], vtarget, dtarget)) && (!fits ==> !Reachable(code, pcs, vtarget, dtarget))
  {
    TakeOne(pcs, k);
    assert pcs[k] in pcs && pcs[k] in pcs[..k + 1];
  }

  lemma NothingPatched(code: Code, vtarget: int, reg: nat, dtarget: int)
    ensures PatchedCode(code, code, [], vtarget, reg, dtarget)
  {
  }

  lemma ListEnd(code: Code, l: int, pcs: seq<nat>)
    requires IsList(code, l, pcs)
    ensures if l == NO_JUMP then pcs == [] else pcs != [] && l == pcs[0]
  {
  }

  lemma Earlier(code: Code, start: int, pcs: seq<nat>, k: nat)
    requires k < |pcs| && IsList(code, start, pcs)
    ensures pcs[k] < |code| && code[pcs[k]].Jmp? && pcs[k] !in pcs[..k]
    ensures forall j :: 0 <= j < k ==> pcs[j] < |code| && code[pcs[j]].Jmp?
  {
    hide IsList;
    ListMember(code, start, pcs, k);
    forall j | 0 <= j < k ensures pcs[j] != pcs[k] && pcs[j] < |code| && code[pcs[j]].Jmp? {
      NoRepeats(code, start, pcs, j, k);
      ListMember(code, start, pcs, j);
    }
  }

  lemma PatchKeepsLength(code: Code, s: nat, vtarget: int, reg: nat, dtarget: int)
    requires s < |code|
    ensures |PatchAt(code, s, vtarget, reg, dtarget)| == |code|
  {
  }

  lemma LaterStays(code0: Code, code: Code, start: int, pcs: seq<nat>, k: nat, vtarget: int, reg: nat, dtarget: int, j: nat)
    requires k < j < |pcs| && IsList(code0, start, pcs) && IsList(code, pcs[k], pcs[k..]) && |code| == |code0|
    requires pcs[k] < |code| && pcs[j] < |code| == |PatchAt(code, pcs[k], vtarget, reg, dtarget)|
    ensures PatchAt(code, pcs[k], vtarget, reg, dtarget)[pcs[j]] == code[pcs[j]]
  {
    hide IsList;
    NoRepeats(code0, start, pcs, k, j);
    ListMember(code, pcs[k], pcs[k..], j - k);
  }

  /** The jumps still to be patched keep their links. */
  lemma RestStays(code0: Code, code: Code, start: int, pcs: seq<nat>, k: nat, vtarget: int, reg: nat, dtarget: int)
    requires k < |pcs| && IsList(code0, start, pcs) && IsList(code, pcs[k], pcs[k..]) && |code| == |code0|
    requires pcs[k] < |code| && code[pcs[k]].Jmp?
    ensures IsList(PatchAt(code, pcs[k], vtarget, reg, dtarget), NextOf(code, pcs[k]), pcs[k + 1..])
  {
    var s, rest := pcs[k], pcs[k + 1..];
    var code' := PatchAt(code, s, vtarget, reg, dtarget);
    assert pcs[k..][1..] == rest;
    assert IsList(code, NextOf(code, s), rest);
    PatchKeepsLength(code, s, vtarget, reg, dtarget);
    hide IsList, PatchAt, NextOf;
    forall j | 0 <= j < |rest| && rest[j] < |code| ensures code'[rest[j]] == code[rest[j]] {
      LaterStays(code0, code, start, pcs, k, vtarget, reg, dtarget, k + 1 + j);
    }
    ListFrame(code, code', NextOf(code, s), rest);
  }

  lemma PatchedMore(code0: Code, code: Code, done: seq<nat>, s: nat, vtarget: int, reg: nat, dtarget: int)
    requires PatchedCode(code0, code, done, vtarget, reg, dtarget) && s < |code| && s !in done && code0[s].Jmp?
    requires code[s] == code0[s] && Control(code, s) == Control(code0, s) && code[Control(code, s)] == code0[Control(code, s)]
    ensures PatchedCode(code0, PatchAt(code, s, vtarget, reg, dtarget), done + [s], vtarget, reg, dtarget)
  {
    var code' := PatchAt(code, s, vtarget, reg, dtarget);
    forall pc | 0 <= pc < |code0|
      ensures code'[pc] == Patching(code0, done + [s], vtarget, reg, dtarget, pc)
    {
      assert code[pc] == Patching(code0, done, vtarget, reg, dtarget, pc);
      assert pc in done + [s] <==> pc in done || pc == s;
      assert pc + 1 in done + [s] <==> pc + 1 in done || pc + 1 == s;
    }
  }

  /** What controls a jump that is not patched yet has not been touched. */
  lemma SameControl(code0: Code, code: Code, start: int, pcs: seq<nat>, k: nat, vtarget: int, reg: nat, dtarget: int)
    requires k < |pcs| && pcs[k] < |code0| && pcs[k] !in pcs[..k] && code0[pcs[k]].Jmp?
    requires forall j :: 0 <= j < k ==> pcs[j] < |code0| && code0[pcs[j]].Jmp?
    requires PatchedCode(code0, code, pcs[..k], vtarget, reg, dtarget)
    ensures code[pcs[k]] == code0[pcs[k]] && Control(code, pcs[k]) == Control(code0, pcs[k])
    ensures code[Control(code, pcs[k])] == code0[Control(code, pcs[k])]
  {
    var s := pcs[k];
    assert code[s] == Patching(code0, pcs[..k], vtarget, reg, dtarget, s);
    if s >= 1 {
      if s - 1 in pcs[..k] {
        var j :| 0 <= j < k && pcs[..k][j] == s - 1;
        assert code0[pcs[j]].Jmp?;
      }
      assert code[s - 1] == Patching(code0, pcs[..k], vtarget, reg, dtarget, s - 1);
    }
  }

  // ---------------------------------------------------------- what tests and jumps do

  datatype Value = Value(truthy: bool, id: nat)

  type Regs = map<nat, Value>

  function Get(regs: Regs, r: nat): Value { if r in regs then regs[r] else Value(false, 0) }

  /** One step of the machine: the next instruction and the registers. A test goes on to the jump behind it or over it;
      one that makes a value stores it when it goes on. Which comparisons hold is given. */
  function Step(code: Code, pc: nat, regs: Regs, holds: set<nat>): (int, Regs)
    requires pc < |code|
  {
    var next := if pc + 1 < |code| && code[pc + 1].Jmp? then pc + 2 + code[pc + 1].sj else pc + 1;
    match code[pc]
    case Jmp(sj) => (pc + 1 + sj, regs)
    case TestSet(a, b, k) => if Get(regs, b).truthy == k then (next, regs[a := Get(regs, b)]) else (pc + 2, regs)
    case Test(a, k) => if Get(regs, a).truthy == k then (next, regs) else (pc + 2, regs)
    case Compare(id) => if id in holds then (next, regs) else (pc + 2, regs)
    case Plain(_) => (pc + 1, regs)
  }

  /** What patching leaves at an instruction and behind it. */
  lemma Around(code: Code, code': Code, start: int, pcs: seq<nat>, vtarget: int, reg: nat, dtarget: int, pc: nat)
    requires IsList(code, start, pcs) && PatchedCode(code, code', pcs, vtarget, reg, dtarget) && pc < |code|
    ensures |code'| == |code| && code'[pc] == Patching(code, pcs, vtarget, reg, dtarget, pc)
    ensures pc + 1 < |code| ==> code'[pc + 1] == Patching(code, pcs, vtarget, reg, dtarget, pc + 1)
    ensures (pc in pcs ==> code[pc].Jmp?) && (pc + 1 in pcs ==> pc + 1 < |code| && code[pc + 1].Jmp?)
  {
    hide IsList;
    if pc in pcs {
      var k :| 0 <= k < |pcs| && pcs[k] == pc;
      ListMember(code, start, pcs, k);
    }
    if pc + 1 in pcs {
      var k :| 0 <= k < |pcs| && pcs[k] == pc + 1;
      ListMember(code, start, pcs, k);
    }
  }

  /** A test that made a value goes the same way once it is patched: where it did not take its jump nothing changes, and
      where it did it goes to the value target, with the value in the register asked for and no other changed. */
  lemma ValueTestRuns(code: Code, code': Code, start: int, pcs: seq<nat>, vtarget: int, reg: nat, dtarget: int,
                      pc: nat, regs: Regs, holds: set<nat>)
    requires IsList(code, start, pcs) && PatchedCode(code, code', pcs, vtarget, reg, dtarget)
    requires pc < |code| && pc + 1 in pcs && code[pc].TestSet?
    ensures var (to, after) := Step(code', pc, regs, holds);
            if Get(regs, code[pc].b).truthy == code[pc].k
            then && to == vtarget
                 && (if reg == NO_REG then forall r :: Get(after, r) == Get(regs, r)
                     else && Get(after, reg) == Get(regs, code[pc].b)
                          && forall r :: r != reg ==> Get(after, r) == Get(regs, r))
            else to == pc + 2 && after == regs
  {
    Around(code, code', start, pcs, vtarget, reg, dtarget, pc);
  }

  /** Any other test in front of a listed jump, and a listed jump reached on its own, go to the default target exactly
      when they took the jump before, and change no register. */
  lemma OtherTestRuns(code: Code, code': Code, start: int, pcs: seq<nat>, vtarget: int, reg: nat, dtarget: int,
                      pc: nat, regs: Regs, holds: set<nat>)
    requires IsList(code, start, pcs) && PatchedCode(code, code', pcs, vtarget, reg, dtarget) && pc < |code|
    requires (pc + 1 in pcs && (code[pc].Test? || code[pc].Compare?)) || (pc in pcs && (pc == 0 || !code[pc - 1].TestSet?))
    ensures var (to, after) := Step(code', pc, regs, holds);
            && after == regs
            && to == match code[pc]
                     case Test(a, k) => if Get(regs, a).truthy == k then dtarget else pc + 2
                     case Compare(id) => if id in holds then dtarget else pc + 2
                     case _ => dtarget
  {
    Around(code, code', start, pcs, vtarget, reg, dtarget, pc);
  }

  /** Everything else does what it did. */
  lemma RestRuns(code: Code, code': Code, start: int, pcs: seq<nat>, vtarget: int, reg: nat, dtarget: int,
                 pc: nat, regs: Regs, holds: set<nat>)
    requires IsList(code, start, pcs) && PatchedCode(code, code', pcs, vtarget, reg, dtarget)
    requires pc < |code| && pc !in pcs && pc + 1 !in pcs
    ensures Step(code', pc, regs, holds) == Step(code, pc, regs, holds)
  {
    Around(code, code', start, pcs, vtarget, reg, dtarget, pc);
  }

  class FuncState {
    var code: Code

    constructor (c: Code)
      ensures code == c
    {
      code := c;
    }

    function GetJump(pc: nat): int
      reads this
      requires pc < |code| && code[pc].Jmp?
    {
      NextOf(code, pc)
    }

    /** Fails when the distance does not fit the instruction. */
    method FixJump(pc: nat, dest: int) returns (ok: bool)
      requires pc < |code| && code[pc].Jmp? && dest != NO_JUMP
      modifies this
      ensures ok <==> InRange(pc, dest)
      ensures code == if ok then old(code)[pc := JumpTo(pc, dest)] else old(code)
    {
      var offset := dest - (pc + 1);
      if !(-OFFSET_SJ <= offset <= MAX_SJ - OFFSET_SJ) { return false; }
      code := code[pc := Jmp(offset)];
      return true;
    }

    /** Appends one list of jumps to another. */
    method Concat(l1: int, l2: int, ghost a: seq<nat>, ghost b: seq<nat>) returns (l: int, ok: bool)
      requires IsList(code, l1, a) && IsList(code, l2, b) && Disjoint(a, b)
      modifies this
      ensures ok ==> IsList(code, l, a + b) && |code| == |old(code)|
      ensures ok ==> forall pc :: 0 <= pc < |code| && (a == [] || b == [] || pc != a[|a| - 1]) ==> code[pc] == old(code)[pc]
      ensures !ok ==> code == old(code)
      ensures ok <==> a == [] || b == [] || InRange(a[|a| - 1], l2)
    {
      assert a + [] == a && [] + b == b;
      if l2 == NO_JUMP { return l1, true; }
      if l1 == NO_JUMP { return l2, true; }
      assert a != [] && b != [] && l2 in b;
      var list := l1;
      ghost var k := 0;
      ListMember(code, l1, a, 0);
      while GetJump(list) != NO_JUMP
        invariant 0 <= k < |a| && 0 <= list < |code| && list == a[k] && code[list].Jmp? && code == old(code)
        decreases |a| - k
      {
        ListMember(code, l1, a, k);
        list := GetJump(list);
        k := k + 1;
        ListMember(code, l1, a, k);
      }
      ListMember(code, l1, a, k);
      assert k == |a| - 1;
      Joined(code, l1, a, l2, b);
      ok := FixJump(list, l2);
      l := l1;
    }

    /** Gives the test in front of a jump its register, or makes it a plain test; tells whether it makes a value. */
    method PatchTestReg(node: nat, reg: nat) returns (r: bool)
      requires node < |code|
      modifies this
      ensures r <==> MakesValue(old(code), node)
      ensures code == if r then old(code)[Control(old(code), node) := Patched(old(code)[Control(old(code), node)], reg)] else old(code)
    {
      var c := Control(code, node);
      if !code[c].TestSet? { return false; }
      code := code[c := Patched(code[c], reg)];
      return true;
    }

    /** One jump of a list: to the value target if the test before it makes a value, else to the default. */
    method PatchJump(s: nat, vtarget: nat, reg: nat, dtarget: nat) returns (ok: bool)
      requires s < |code| && code[s].Jmp?
      modifies this
      ensures ok <==> InRange(s, if MakesValue(old(code), s) then vtarget else dtarget)
      ensures ok ==> code == PatchAt(old(code), s, vtarget, reg, dtarget)
    {
      var made := PatchTestReg(s, reg);
      ok := FixJump(s, if made then vtarget else dtarget);
    }

    /** Sends exactly the listed jumps to their targets; nothing else changes but the tests that control them. */
    method PatchListAux(start: int, vtarget: nat, reg: nat, dtarget: nat, ghost pcs: seq<nat>) returns (ok: bool)
      requires IsList(code, start, pcs)
      modifies this
      ensures ok ==> PatchedCode(old(code), code, pcs, vtarget, reg, dtarget)
      ensures ok <==> Reachable(old(code), pcs, vtarget, dtarget)
    {
      var list := start;
      ghost var k := 0;
      ghost var code0 := code;
      NothingPatched(code, vtarget, reg, dtarget);
      assert Reachable(code, [], vtarget, dtarget);
      assert pcs[0..] == pcs && pcs[..0] == [];
      hide IsList, PatchedCode, Control, Reachable, InRange, PatchAt, NextOf, MakesValue;
      while list != NO_JUMP
        invariant 0 <= k <= |pcs| && IsList(code, list, pcs[k..]) && code0 == old(code)
        invariant PatchedCode(code0, code, pcs[..k], vtarget, reg, dtarget)
        invariant Reachable(code0, pcs[..k], vtarget, dtarget)
        decreases |pcs| - k
      {
        ListEnd(code, list, pcs[k..]);
        assert list == pcs[k];
        PatchOne(code0, code, start, pcs, k, vtarget, reg, dtarget);
        ReachableMore(code0, pcs, k, vtarget, dtarget);
        var next := GetJump(list);
        ok := PatchJump(list, vtarget, reg, dtarget);
        if !ok { return; }
        list := next;
        k := k + 1;
      }
      ListEnd(code, list, pcs[k..]);
      assert pcs[..k] == pcs;
      ok := true;
    }

    /** The end of a chain of jumps, or a jump a hundred hops along it. */
    method FinalTarget(start: nat) returns (i: nat, ghost k: nat)
      requires Closed(code) && start < |code|
      ensures i < |code| && i == Hop(code, start, k) && k <= 100 && (code[start].Jmp? ==> k >= 1)
      ensures !code[i].Jmp? || k == 100
    {
      i, k := start, 0;
      var count := 0;
      while count < 100
        invariant 0 <= count == k <= 100 && i < |code| && i == Hop(code, start, k)
        invariant k > 0 ==> code[start].Jmp?
      {
        if !code[i].Jmp? { break; }
        HopAdd(code, start, k, 1);
        i := Target(code, i);
        count := count + 1;
        k := k + 1;
      }
    }

    /** Makes every jump go straight to the end of its chain, in place; where each instruction leads is unchanged. It
        stops early only at a jump that cannot reach a place on its own chain. */
    method Finish() returns (ok: bool)
      requires Closed(code)
      modifies this
      ensures SameFlow(old(code), code)
      ensures ok ==> forall pc :: 0 <= pc < |code| ==> Straight(old(code), code, pc)
      ensures !ok ==> exists pc: nat, t: nat ::
                        pc < |old(code)| && old(code)[pc].Jmp? && OnChain(old(code), pc, t) && !InRange(pc, t)
    {
      hide Closed, Doing, OnChain, Hop, InRange, SameFlow, Straight;
      var i := 0;
      ghost var code0 := code;
      AsItWas(code);
      while i < |code|
        invariant 0 <= i <= |code| && Closed(code0) && code0 == old(code) && Doing(code0, code, i)
      {
        DoingFacts(code0, code, i);
        if code[i].Jmp? {
          var target, k := FinalTarget(i);
          DoJump(code0, code, i, k, target);
          ok := FixJump(i, target);
          if !ok { return; }
        } else {
          DoOther(code0, code, i);
        }
        i := i + 1;
      }
      DoingFacts(code0, code, i);
      ok := true;
    }
  }

  /** The jumps before `i` have been straightened. */
  ghost predicate Doing(code0: Code, code: Code, i: nat)
    requires Closed(code0)
  {
    && SameFlow(code0, code) && Shorter(code0, code)
    && (forall pc :: 0 <= pc < i && pc < |code| ==> Straight(code0, code, pc))
  }

  lemma DoingFacts(code0: Code, code: Code, i: nat)
    requires Closed(code0) && Doing(code0, code, i)
    ensures |code| == |code0| && Closed(code) && SameFlow(code0, code)
    ensures forall pc :: 0 <= pc < i && pc < |code| ==> Straight(code0, code, pc)
    ensures i < |code| ==> (code[i].Jmp? <==> code0[i].Jmp?)
  {
    hide Hop, Lands;
  }

  lemma DoOther(code0: Code, code: Code, i: nat)
    requires Closed(code0) && Doing(code0, code, i) && i < |code| && !code[i].Jmp?
    ensures Doing(code0, code, i + 1)
  {
    hide Hop, Lands;
  }

  lemma DoJump(code0: Code, code: Code, i: nat, k: nat, target: nat)
    requires Closed(code0) && Doing(code0, code, i) && i < |code| == |code0| && Closed(code) && code[i].Jmp? && k >= 1
    requires target < |code| && target == Hop(code, i, k) && k <= 100 && (!code[target].Jmp? || k == 100)
    ensures OnChain(code0, i, target)
    ensures Doing(code0, code[i := JumpTo(i, target)], i + 1)
  {
    FlowFacts(code0, code);
    Found(code0, code, i, k, target);
    var code' := code[i := JumpTo(i, target)];
    assert Shortcut(code, code', i, k);
    SameFlowStep(code0, code, code', i, k);
    FlowFacts(code0, code');
    ShorterStep(code0, code, code', i, k);
    hide SameFlow, Shorter, Hop, Closed, OnChain;
    forall pc | 0 <= pc < i + 1 ensures Straight(code0, code', pc) {
      if pc < i { assert Straight(code0, code, pc); }
    }
  }

  lemma AsItWas(code: Code)
    requires Closed(code)
    ensures Doing(code, code, 0)
  {
    forall pc: nat, n: nat | pc < |code| ensures OnChain(code, pc, Hop(code, pc, n)) {}
  }

  lemma FlowFacts(code: Code, code': Code)
    requires SameFlow(code, code')
    ensures |code'| == |code| && Closed(code) && Closed(code')
    ensures forall pc :: 0 <= pc < |code| ==> (code'[pc].Jmp? <==> code[pc].Jmp?)
  {
  }

  /** What the final target means for the original code. */
  lemma Found(code0: Code, code: Code, i: nat, k: nat, target: nat)
    requires Closed(code0) && Closed(code) && |code| == |code0| && Shorter(code0, code) && i < |code|
    requires forall pc :: 0 <= pc < |code| ==> (code[pc].Jmp? <==> code0[pc].Jmp?)
    requires target == Hop(code, i, k) && k <= 100 && (!code[target].Jmp? || k == 100)
    ensures OnChain(code0, i, target)
    ensures !code0[Hop(code0, i, 100)].Jmp? ==> target == Hop(code0, i, 100)
  {
    if !code0[Hop(code0, i, 100)].Jmp? && k < 100 { HopStays(code, i, k, 100); }
  }
}
