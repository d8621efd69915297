/** The hierarchical timing wheel of the timer thread: a root of 256 slots and
    four levels of 64 slots, driven by a wrapping 32-bit tick counter.

    The wheel is proved to refine a bag of timers, each with an absolute due
    tick: one tick fires exactly the timers that are due, whatever level they
    were filed on and however often the counter has wrapped. */
module TimerWheel {

  const TWO31: int := 0x8000_0000
  const TWO32: int := 0x1_0000_0000

  type U32 = x: int | 0 <= x < 0x1_0000_0000

  const RESOLUTION: int := 10
  const ROOT_SIZE: int := 256
  const LEVEL_SIZE: int := 64
  const SLOT_COUNT: int := 512

  /** A node linked into the wheel: the session it reports and its 32-bit expire tick. */
  datatype Timer = Timer(session: nat, expire: U32)

  /** The `int32_t` difference of two 32-bit ticks. */
  function Lead(expire: U32, jiffies: U32): int {
    var d := (expire - jiffies) % TWO32;
    if d < TWO31 then d else d - TWO32
  }

  /** The absolute tick a 32-bit expire stands for at absolute time `now`:
      the representative nearest to `now`. */
  function Due(now: nat, expire: U32): int {
    now + Lead(expire, now % TWO32)
  }

  /** Ticks covered by one slot of a level: 2^(8 + 6 * level). */
  function Span(level: int): int
    requires 0 <= level < 4
  {
    if level == 0 then 0x100 else if level == 1 then 0x4000 else if level == 2 then 0x10_0000 else 0x400_0000
  }

  function LevelSlot(level: int, i: int): int { ROOT_SIZE + LEVEL_SIZE * level + i }

  // ---------------------------------------------------------------- the bag

  /** What the wheel stands for: the absolute time and the due tick of every pending timer. */
  datatype Bag = Bag(now: nat, due: map<Timer, int>)

  function BagAdd(b: Bag, t: Timer): Bag { b.(due := b.due[t := Due(b.now, t.expire)]) }

  /** The timers one tick fires: everything due by the new time. */
  function BagFired(b: Bag): set<Timer> { set t | t in b.due && b.due[t] <= b.now + 1 }

  function BagTick(b: Bag): Bag { Bag(b.now + 1, b.due - BagFired(b)) }

  function BagCancel(b: Bag, t: Timer): Bag { b.(due := b.due - {t}) }

  datatype Event = Add(timer: Timer) | Cancel(timer: Timer) | Tick

  function BagStep(b: Bag, e: Event): Bag {
    match e
    case Add(t) => BagAdd(b, t)
    case Cancel(t) => BagCancel(b, t)
    case Tick => BagTick(b)
  }

  /** A timer is added while it is not pending and cancelled while it is. */
  ghost predicate Allowed(b: Bag, es: seq<Event>)
    decreases es
  {
    es == [] ||
    (&& (es[0].Add? ==> es[0].timer !in b.due) && (es[0].Cancel? ==> es[0].timer in b.due)
     && Allowed(BagStep(b, es[0]), es[1..]))
  }

  function BagRun(b: Bag, es: seq<Event>): Bag
    decreases es
  {
    if es == [] then b else BagRun(BagStep(b, es[0]), es[1..])
  }

  /** The fire times of `t` over a run: one entry for every tick in which it fires. */
  function FireTimes(b: Bag, es: seq<Event>, t: Timer): seq<int>
    decreases es
  {
    if es == [] then []
    else
      (if es[0].Tick? && t in BagFired(b) then [b.now + 1] else [])
      + FireTimes(BagStep(b, es[0]), es[1..], t)
  }

  function Ticks(es: seq<Event>): nat {
    if es == [] then 0 else (if es[0].Tick? then 1 else 0) + Ticks(es[1..])
  }

  /** The same read off a log of the timers fired tick by tick. */
  function TimesIn(log: seq<seq<Timer>>, now: nat, t: Timer): seq<int> {
    if log == [] then [] else (if t in log[0] then [now + 1] else []) + TimesIn(log[1..], now + 1, t)
  }

  /** A pending timer that is neither added again nor cancelled fires once the clock reaches its due
      tick (on the very next tick when it is already late), exactly then and exactly once;
      until then it stays pending. */
  lemma {:induction false} FiresExactlyWhenDue(b: Bag, es: seq<Event>, t: Timer)
    requires t in b.due
    requires Add(t) !in es && Cancel(t) !in es
    ensures BagRun(b, es).now == b.now + Ticks(es)
    ensures var at := if b.due[t] <= b.now then b.now + 1 else b.due[t];
            if at <= b.now + Ticks(es)
            then FireTimes(b, es, t) == [at] && t !in BagRun(b, es).due
            else FireTimes(b, es, t) == [] && t in BagRun(b, es).due && BagRun(b, es).due[t] == b.due[t]
    decreases es
  {
    if es == [] {
    } else if es[0].Tick? && t in BagFired(b) {
      GoneNeverFires(BagTick(b), es[1..], t);
      assert FireTimes(b, es, t) == [b.now + 1] + FireTimes(BagTick(b), es[1..], t);
    } else {
      assert es[0] != Add(t) && es[0] != Cancel(t);
      FiresExactlyWhenDue(BagStep(b, es[0]), es[1..], t);
    }
  }

  /** A timer that has fired or was cancelled stays silent until it is added again. */
  lemma {:induction false} GoneNeverFires(b: Bag, es: seq<Event>, t: Timer)
    requires t !in b.due
    requires Add(t) !in es
    ensures BagRun(b, es).now == b.now + Ticks(es)
    ensures FireTimes(b, es, t) == [] && t !in BagRun(b, es).due
    decreases es
  {
    if es != [] {
      assert es[0] != Add(t);
      GoneNeverFires(BagStep(b, es[0]), es[1..], t);
    }
  }

  /** A deadline less than 2^31 ticks away survives the trip through a 32-bit field,
      wrap-around included. */
  lemma DueIsDeadline(now: nat, deadline: nat)
    requires -TWO31 <= deadline - now < TWO31
    ensures Due(now, deadline % TWO32) == deadline
  {
    var j, e := now % TWO32, deadline % TWO32;
    assert (e - j) % TWO32 == (deadline - now) % TWO32 by {
      assert now == TWO32 * (now / TWO32) + j && deadline == TWO32 * (deadline / TWO32) + e;
      assert deadline - now == (e - j) + TWO32 * (deadline / TWO32 - now / TWO32);
    }
  }

  /** The expire tick computed from a timeout: never before the timeout has passed and less than a tick after it,
      and near enough to survive its 32-bit field unless 2^31 ticks pass before it is filed. */
  lemma AfterFits(now: nat, tick: nat, timeout: U32)
    requires -TWO31 <= tick - now <= TWO31 - 429_496_731
    ensures var ticktime := RESOLUTION * tick; var deadline := (ticktime + timeout + RESOLUTION - 1) / RESOLUTION;
            && ticktime + timeout <= RESOLUTION * deadline < ticktime + timeout + RESOLUTION
            && Due(now, deadline % TWO32) == deadline
  {
    var deadline := (RESOLUTION * tick + timeout + RESOLUTION - 1) / RESOLUTION;
    var more := (timeout + RESOLUTION - 1) / RESOLUTION;
    assert deadline == tick + more;
    hide Due;
    DueIsDeadline(now, deadline);
  }

  /** The due tick does not move while time advances towards it. */
  lemma DueIsStable(now: nat, expire: U32)
    requires Due(now, expire) > now
    ensures Due(now + 1, expire) == Due(now, expire)
  {
    var due := Due(now, expire);
    DueModulo(now, expire);
    DueIsDeadline(now + 1, due);
  }

  lemma DueModulo(now: nat, expire: U32)
    ensures Due(now, expire) % TWO32 == expire
    ensures now - TWO31 <= Due(now, expire) < now + TWO31
  {
    assert now == TWO32 * (now / TWO32) + now % TWO32;
    var k := (expire - now % TWO32) / TWO32;
    assert expire - now % TWO32 == TWO32 * k + (expire - now % TWO32) % TWO32;
  }

  // -------------------------------------------------------------- placement

  /** Where a timer due at `due` may be linked. `later[l]` is the level-l slot number
      that time has already passed: `now / Span(l)` normally. */
  predicate Placed(now: nat, slot: int, due: int) {
    if slot < ROOT_SIZE then
      (now <= due < now + ROOT_SIZE && due % ROOT_SIZE == slot) || (due < now && slot == now % ROOT_SIZE)
    else
      slot < SLOT_COUNT &&
      var l := (slot - ROOT_SIZE) / LEVEL_SIZE;
      PlacedLevel(now, l, (slot - ROOT_SIZE) % LEVEL_SIZE, due)
  }

  /** A timer on a level waits in a slot the clock has yet to enter, at most one turn ahead. */
  predicate PlacedLevel(now: int, l: int, i: int, due: int) {
    0 <= l < 4 && due / Span(l) % LEVEL_SIZE == i && now / Span(l) < due / Span(l) <= now / Span(l) + LEVEL_SIZE
  }

  /** The same just after `now` was reached, when only the levels below `done` have been cascaded. */
  predicate PlacedMid(now: nat, done: int, slot: int, due: int) {
    if slot < ROOT_SIZE then
      now <= due < now + ROOT_SIZE && due % ROOT_SIZE == slot
    else
      slot < SLOT_COUNT &&
      var l := (slot - ROOT_SIZE) / LEVEL_SIZE;
      PlacedLevel(if l < done then now else now - 1, l, (slot - ROOT_SIZE) % LEVEL_SIZE, due)
  }

  lemma LevelSlotSplit(level: int, i: int)
    requires 0 <= level < 4 && 0 <= i < LEVEL_SIZE
    ensures ROOT_SIZE <= LevelSlot(level, i) < SLOT_COUNT
    ensures (LevelSlot(level, i) - ROOT_SIZE) / LEVEL_SIZE == level
    ensures (LevelSlot(level, i) - ROOT_SIZE) % LEVEL_SIZE == i
  {
  }

  /** Slot numbers read off a wrapped tick agree with those of the absolute tick. */
  lemma WrappedIndex(tick: nat, level: int)
    requires 0 <= level < 4
    ensures tick % TWO32 / Span(level) % LEVEL_SIZE == tick / Span(level) % LEVEL_SIZE
  {
    SpanOfWrapped(tick, level);
    hide Span;
    Mod64(tick / Span(level));
    SpanCount(level);
  }

  lemma SpanCount(level: int)
    requires 0 <= level < 4
    ensures TWO32 / Span(level) in {0x100_0000, 0x4_0000, 0x1000, 0x40}
  {
  }

  lemma Mod64(x: nat)
    ensures x % 0x100_0000 % 64 == x % 64
    ensures x % 0x4_0000 % 64 == x % 64
    ensures x % 0x1000 % 64 == x % 64
  {
    Mod64Of(x, 0x100_0000, 0x4_0000);
    Mod64Of(x, 0x4_0000, 0x1000);
    Mod64Of(x, 0x1000, 0x40);
  }

  lemma Mod64Of(x: nat, m: nat, k: nat)
    requires m > 0 && m == 64 * k
    ensures x % m % 64 == x % 64
  {
    var q, r := x / m, x % m;
    assert x == 64 * (k * q) + r;
  }

  lemma WrappedRoot(tick: nat)
    ensures tick % TWO32 % ROOT_SIZE == tick % ROOT_SIZE
  {
  }

  lemma SpanOfWrapped(tick: nat, level: int)
    requires 0 <= level < 4
    ensures tick % TWO32 / Span(level) == tick / Span(level) % (TWO32 / Span(level))
  {
    var s, w := Span(level), tick / TWO32;
    assert tick == tick % TWO32 + TWO32 * w;
    if level == 0 { assert tick / s == tick % TWO32 / s + 0x100_0000 * w; }
    else if level == 1 { assert tick / s == tick % TWO32 / s + 0x4_0000 * w; }
    else if level == 2 { assert tick / s == tick % TWO32 / s + 0x1000 * w; }
    else { assert tick / s == tick % TWO32 / s + 0x40 * w; }
  }

  /** The level the search in `AddNode` picks is one whose slot lies ahead of the clock. */
  lemma LevelIsAhead(now: nat, due: int, level: int)
    requires 0 <= level < 4
    requires Span(level) <= due - now < LEVEL_SIZE * Span(level)
    ensures PlacedLevel(now, level, due / Span(level) % LEVEL_SIZE, due)
  {
  }

  /** Entering a tick: what was placed for the previous tick is placed mid-way for this one. */
  lemma EnterTick(now: nat, slot: int, due: int)
    requires 0 <= slot && Placed(now, slot, due) && slot != now % ROOT_SIZE
    ensures PlacedMid(now + 1, 0, slot, due)
  {
    if slot < ROOT_SIZE {
      assert due != now;
    }
  }

  lemma {:induction false} SameSlotAsBefore(now: nat, done: int, l: int)
    requires 0 <= done <= l < 4 && now % Span(done) != 0
    ensures now % Span(l) != 0
    decreases l
  {
    if done < l {
      SameSlotAsBefore(now, done, l - 1);
      if now % Span(l) == 0 { FinerMultiple(now, l - 1); }
    }
  }

  lemma FinerMultiple(now: nat, l: int)
    requires 0 <= l < 3 && now % Span(l + 1) == 0
    ensures now % Span(l) == 0
  {
    var q := now / Span(l + 1);
    if l == 0 { Multiple8(q); } else if l == 1 { Multiple14(q); } else { Multiple20(q); }
  }

  lemma Multiple8(q: nat)
    ensures 0x4000 * q % 0x100 == 0
  {
    assert 0x4000 * q == 0x100 * (64 * q);
  }

  lemma Multiple14(q: nat)
    ensures 0x10_0000 * q % 0x4000 == 0
  {
    assert 0x10_0000 * q == 0x4000 * (64 * q);
  }

  lemma Multiple20(q: nat)
    ensures 0x400_0000 * q % 0x10_0000 == 0
  {
    assert 0x400_0000 * q == 0x10_0000 * (64 * q);
  }

  /** Levels whose current slot did not change need no cascade. */
  lemma NothingToCascade(now: nat, done: int, slot: int, due: int)
    requires 0 <= slot && 0 <= done <= 4 && now > 0
    requires PlacedMid(now, done, slot, due)
    requires done < 4 ==> now % Span(done) != 0
    ensures Placed(now, slot, due)
  {
    if slot >= ROOT_SIZE {
      var l := (slot - ROOT_SIZE) / LEVEL_SIZE;
      if done <= l {
        SameSlotAsBefore(now, done, l);
        assert now / Span(l) == (now - 1) / Span(l);
      }
    }
  }

  /** Cascading a level moves out exactly the timers whose slot the clock has entered. */
  lemma CascadeSplit(now: nat, level: int, slot: int, due: int)
    requires 0 <= slot && 0 <= level < 4 && now > 0 && now % Span(level) == 0
    requires PlacedMid(now, level, slot, due)
    ensures slot == LevelSlot(level, now / Span(level) % LEVEL_SIZE)
            ==> due / Span(level) == now / Span(level) && now <= due < now + Span(level)
    ensures slot != LevelSlot(level, now / Span(level) % LEVEL_SIZE) ==> PlacedMid(now, level + 1, slot, due)
  {
    var s := Span(level);
    assert (now - 1) / s == now / s - 1;
  }

  /** The next level turns over exactly when the index just cascaded is 0. */
  lemma NextLevelTurns(now: nat, level: int)
    requires 0 <= level < 3 && now % Span(level) == 0
    ensures now / Span(level) % LEVEL_SIZE == 0 <==> now % Span(level + 1) == 0
  {
    if level == 0 {
      Turns8(now / 256);
    } else if level == 1 {
      Turns14(now / 16384);
    } else {
      Turns20(now / 1048576);
    }
  }

  lemma Turns8(q: nat)
    ensures q % 64 == 0 <==> 256 * q % 16384 == 0
  {
    assert 256 * q == 16384 * (q / 64) + 256 * (q % 64);
  }

  lemma Turns14(q: nat)
    ensures q % 64 == 0 <==> 16384 * q % 1048576 == 0
  {
    assert 16384 * q == 1048576 * (q / 64) + 16384 * (q % 64);
  }

  lemma Turns20(q: nat)
    ensures q % 64 == 0 <==> 1048576 * q % 67108864 == 0
  {
    assert 1048576 * q == 67108864 * (q / 64) + 1048576 * (q % 64);
  }

  /** Everything in the current root slot is due. */
  lemma CurrentSlotIsDue(now: nat, slot: int, due: int)
    requires Placed(now, slot, due)
    ensures slot == now % ROOT_SIZE ==> due <= now
    ensures 0 <= slot != now % ROOT_SIZE ==> due > now
  {
    if 0 <= slot != now % ROOT_SIZE && slot >= ROOT_SIZE {
      var l := (slot - ROOT_SIZE) / LEVEL_SIZE;
      assert now / Span(l) < due / Span(l);
    }
  }

  ghost predicate AllPlaced(now: nat, home: map<Timer, int>) {
    forall t :: t in home ==> 0 <= home[t] < SLOT_COUNT && Placed(now, home[t], Due(now, t.expire))
  }

  ghost predicate AllMid(now: nat, done: int, home: map<Timer, int>) {
    forall t :: t in home ==> 0 <= home[t] < SLOT_COUNT && PlacedMid(now, done, home[t], Due(now, t.expire))
  }

  lemma CurrentSlotsAreDue(now: nat, home: map<Timer, int>)
    requires AllPlaced(now, home)
    ensures forall t :: t in home ==> (home[t] == now % ROOT_SIZE <==> Due(now, t.expire) <= now)
  {
    forall t | t in home ensures home[t] == now % ROOT_SIZE <==> Due(now, t.expire) <= now {
      CurrentSlotIsDue(now, home[t], Due(now, t.expire));
    }
  }

  lemma EnterTickAll(now: nat, home: map<Timer, int>)
    requires AllPlaced(now, home)
    requires forall t :: t in home ==> home[t] != now % ROOT_SIZE
    ensures AllMid(now + 1, 0, home)
    ensures forall t :: t in home ==> Due(now + 1, t.expire) == Due(now, t.expire)
  {
    forall t | t in home
      ensures Due(now + 1, t.expire) == Due(now, t.expire)
      ensures PlacedMid(now + 1, 0, home[t], Due(now + 1, t.expire))
    {
      EnterTick(now, home[t], Due(now, t.expire));
      CurrentSlotIsDue(now, home[t], Due(now, t.expire));
      DueIsStable(now, t.expire);
    }
  }

  lemma LeaveTickAll(now: nat, done: int, home: map<Timer, int>)
    requires 0 <= done <= 4 && now > 0 && AllMid(now, done, home)
    requires done < 4 ==> now % Span(done) != 0
    ensures AllPlaced(now, home)
  {
    forall t | t in home ensures Placed(now, home[t], Due(now, t.expire)) {
      NothingToCascade(now, done, home[t], Due(now, t.expire));
    }
  }

  /** What a cascade leaves in place, and where the moved timers lie. */
  lemma CascadeSplitAll(now: nat, level: int, home: map<Timer, int>)
    requires 0 <= level < 4 && now > 0 && now % Span(level) == 0 && AllMid(now, level, home)
    ensures var slot := LevelSlot(level, now / Span(level) % LEVEL_SIZE);
            && AllMid(now, level + 1, map t | t in home && home[t] != slot :: home[t])
            && forall t :: t in home && home[t] == slot ==> Entered(now, level, Due(now, t.expire))
  {
    forall t | t in home ensures home[t] == LevelSlot(level, now / Span(level) % LEVEL_SIZE)
                                 ==> Entered(now, level, Due(now, t.expire)) {
      CascadeSplit(now, level, home[t], Due(now, t.expire));
    }
    forall t | t in home && home[t] != LevelSlot(level, now / Span(level) % LEVEL_SIZE)
      ensures PlacedMid(now, level + 1, home[t], Due(now, t.expire))
    {
      CascadeSplit(now, level, home[t], Due(now, t.expire));
    }
  }

  /** The clock is in the level slot that holds `due`. */
  predicate Entered(now: nat, level: int, due: int)
    requires 0 <= level < 4
  {
    due / Span(level) == now / Span(level) && now <= due < now + Span(level)
  }

  /** A timer filed by its lead is placed for any stage of a cascade it does not outrun. */
  lemma PlacedIsMid(now: nat, done: int, slot: int, due: int)
    requires 1 <= done <= 4 && now > 0 && now <= due < now + Span(done - 1)
    requires 0 <= slot && Placed(now, slot, due)
    ensures PlacedMid(now, done, slot, due)
  {
    if slot >= ROOT_SIZE {
      var l := (slot - ROOT_SIZE) / LEVEL_SIZE;
      if done <= l {
        assert due / Span(l) >= now / Span(l) + 1;
      }
    }
  }

  // -------------------------------------------------------------- the wheel

  predicate NoDup(s: seq<Timer>) {
    forall a, b :: 0 <= a < b < |s| ==> s[a] != s[b]
  }

  type Slots = s: seq<seq<Timer>> | |s| == SLOT_COUNT witness seq(SLOT_COUNT, _ => [])

  /** A list holds the timers whose home it is, each once. */
  ghost predicate Holds(list: seq<Timer>, home: map<Timer, int>, i: int) {
    NoDup(list) && forall t :: t in list <==> t in home && home[t] == i
  }

  ghost predicate AllHold(slots: Slots, home: map<Timer, int>) {
    && (forall t :: t in home ==> 0 <= home[t] < SLOT_COUNT)
    && (forall i :: 0 <= i < SLOT_COUNT ==> Holds(slots[i], home, i))
  }

  lemma HoldsLink(slots: Slots, home: map<Timer, int>, i: int, t: Timer)
    requires AllHold(slots, home) && t !in home && 0 <= i < SLOT_COUNT
    ensures AllHold(slots[i := [t] + slots[i]], home[t := i])
  {
    var slots', home' := slots[i := [t] + slots[i]], home[t := i];
    forall k | 0 <= k < SLOT_COUNT ensures Holds(slots'[k], home', k) {
      assert Holds(slots[k], home, k);
    }
  }

  lemma HoldsTake(slots: Slots, home: map<Timer, int>, i: int)
    requires AllHold(slots, home) && 0 <= i < SLOT_COUNT
    ensures AllHold(slots[i := []], map t | t in home && home[t] != i :: home[t])
  {
    var slots', home' := slots[i := []], map t | t in home && home[t] != i :: home[t];
    forall k | 0 <= k < SLOT_COUNT ensures Holds(slots'[k], home', k) {
      assert Holds(slots[k], home, k);
    }
  }

  /** The list without a timer, the others in their order. */
  function Without(list: seq<Timer>, t: Timer): seq<Timer> {
    if list == [] then [] else if list[0] == t then list[1..] else [list[0]] + Without(list[1..], t)
  }

  lemma {:induction false} WithoutOne(list: seq<Timer>, t: Timer)
    requires NoDup(list)
    ensures NoDup(Without(list, t)) && forall x :: x in Without(list, t) <==> x in list && x != t
  {
    if list != [] {
      WithoutOne(list[1..], t);
      assert list == [list[0]] + list[1..];
      assert list[0] !in list[1..];
    }
  }

  /** What is in front of the timer and what is behind it stay as they are. */
  lemma {:induction false} WithoutJoins(a: seq<Timer>, t: Timer, b: seq<Timer>)
    requires t !in a
    ensures Without(a + [t] + b, t) == a + b
  {
    var list := a + [t] + b;
    if a == [] {
      assert list[0] == t && list[1..] == b && a + b == b;
    } else {
      WithoutJoins(a[1..], t, b);
      assert list[0] == a[0] && list[1..] == a[1..] + [t] + b;
      assert [a[0]] + (a[1..] + b) == a + b;
    }
  }

  lemma HoldsUnlink(slots: Slots, home: map<Timer, int>, t: Timer)
    requires AllHold(slots, home) && t in home
    ensures AllHold(slots[home[t] := Without(slots[home[t]], t)], home - {t})
  {
    hide Without, NoDup;
    var i := home[t];
    var slots', home' := slots[i := Without(slots[i], t)], home - {t};
    assert Holds(slots[i], home, i);
    WithoutOne(slots[i], t);
    forall k | 0 <= k < SLOT_COUNT ensures Holds(slots'[k], home', k) {
      assert Holds(slots[k], home, k);
    }
  }

  class Wheel {
    var jiffies: U32
    var slots: Slots          // 256 root slots, then four levels of 64
    var home: map<Timer, int> // the list every linked timer is in, as its back link tells
    ghost var now: nat        // the unwrapped tick count

    ghost predicate Linked()
      reads `slots, `home
    {
      AllHold(slots, home)
    }

    ghost predicate Valid()
      reads this
    {
      jiffies == now % TWO32 && Linked() && AllPlaced(now, home)
    }

    lemma SlotMembers(i: int)
      requires Linked() && 0 <= i < SLOT_COUNT
      ensures NoDup(slots[i]) && forall t :: t in slots[i] <==> t in home && home[t] == i
    {
      assert Holds(slots[i], home, i);
    }

    ghost function Abs(): Bag
      reads this
    {
      Bag(now, map t | t in home :: Due(now, t.expire))
    }

    constructor (ghost start: nat, jiffies: U32)
      requires jiffies == start % TWO32
      ensures Valid() && Abs() == Bag(start, map[])
    {
      this.jiffies := jiffies;
      slots := seq(SLOT_COUNT, _ => []);
      now := start;
      home := map[];
    }

    /** Links a timer into the slot list at `i`, at its head. */
    method Link(i: int, t: Timer)
      requires Linked() && t !in home && 0 <= i < SLOT_COUNT
      modifies this
      ensures Linked() && now == old(now) && jiffies == old(jiffies)
      ensures slots == old(slots)[i := [t] + old(slots)[i]]
      ensures home == old(home)[t := i]
    {
      hide AllHold;
      HoldsLink(slots, home, i, t);
      slots := slots[i := [t] + slots[i]];
      home := home[t := i];
    }

    /** Takes the whole list out of slot `i`. */
    method Take(i: int) returns (list: seq<Timer>)
      requires Linked() && 0 <= i < SLOT_COUNT
      modifies this
      ensures Linked() && now == old(now) && jiffies == old(jiffies)
      ensures list == old(slots)[i] && slots == old(slots)[i := []] && NoDup(list)
      ensures forall t :: t in list <==> t in old(home) && old(home)[t] == i
      ensures home == map t | t in old(home) && old(home)[t] != i :: old(home)[t]
    {
      SlotMembers(i);
      HoldsTake(slots, home, i);
      hide AllHold, NoDup;
      list := slots[i];
      slots := slots[i := []];
      home := map t | t in home && home[t] != i :: home[t];
    }

    /** Unlinks a cancelled timer from the list it is in. */
    method Unlink(t: Timer)
      requires Valid() && t in home
      modifies this
      ensures Valid() && now == old(now) && jiffies == old(jiffies)
      ensures slots == old(slots)[old(home)[t] := Without(old(slots)[old(home)[t]], t)] && home == old(home) - {t}
      ensures Abs() == BagCancel(old(Abs()), t)
    {
      hide AllHold, Without, Placed, Due;
      HoldsUnlink(slots, home, t);
      assert 0 <= home[t] < SLOT_COUNT by { assert t in home; }
      slots := slots[home[t] := Without(slots[home[t]], t)];
      home := home - {t};
      assert Abs().due == BagCancel(old(Abs()), t).due;
    }

    /** The slot a timer is filed in, by its lead over the clock. Every 32-bit expire is
        accepted; a late one goes to the slot that expires next. */
    method SlotFor(expire: U32) returns (slot: int)
      requires jiffies == now % TWO32
      ensures 0 <= slot < SLOT_COUNT && Placed(now, slot, Due(now, expire))
    {
      var idx := Lead(expire, jiffies);
      ghost var due := Due(now, expire);
      DueModulo(now, expire);
      if idx < 0 {
        WrappedRoot(now);
        slot := jiffies % ROOT_SIZE;
      } else if idx < ROOT_SIZE {
        WrappedRoot(due);
        slot := expire % ROOT_SIZE;
      } else {
        var i := 0;
        while i < 3 && idx >= LEVEL_SIZE * Span(i)
          invariant 0 <= i <= 3 && Span(i) <= idx
        {
          i := i + 1;
        }
        WrappedIndex(due, i);
        LevelIsAhead(now, due, i);
        slot := expire / Span(i) % LEVEL_SIZE;
        LevelSlotSplit(i, slot);
        slot := LevelSlot(i, slot);
      }
    }

    method AddNode(t: Timer)
      requires jiffies == now % TWO32 && Linked() && t !in home
      modifies this
      ensures Linked() && now == old(now) && jiffies == old(jiffies)
      ensures t in home && home == old(home)[t := home[t]]
      ensures 0 <= home[t] < SLOT_COUNT && Placed(now, home[t], Due(now, t.expire))
      ensures old(Valid()) ==> Valid() && Abs() == BagAdd(old(Abs()), t)
    {
      hide Linked, Placed, Due;
      var slot := SlotFor(t.expire);
      Link(slot, t);
      assert Abs().due == BagAdd(old(Abs()), t).due;
    }

    /** Fires everything in the current root slot. Nothing there is early. */
    method ExpireTimer() returns (fired: seq<Timer>)
      requires Valid()
      modifies this
      ensures Valid() && now == old(now) && jiffies == old(jiffies)
      ensures NoDup(fired) && forall t :: t in fired ==> Lead(t.expire, jiffies) <= 0
      ensures forall t :: t in fired <==> t in old(home) && Due(now, t.expire) <= now
      ensures forall t :: t in home <==> t in old(home) && Due(now, t.expire) > now
      ensures forall t :: t in home ==> home[t] != now % ROOT_SIZE
    {
      hide Linked, Placed, Due;
      CurrentSlotsAreDue(now, home);
      WrappedRoot(now);
      var idx := jiffies % ROOT_SIZE;
      SlotMembers(idx);
      fired := [];
      while slots[idx] != []
        invariant Valid() && now == old(now) && jiffies == old(jiffies) && idx == now % ROOT_SIZE
        invariant if slots[idx] == [] then fired == old(slots)[idx] else fired == [] && slots == old(slots)
        invariant home == map t | t in old(home) && t !in fired :: old(home)[t]
        invariant forall t :: t in fired ==> Lead(t.expire, jiffies) <= 0
        decreases |slots[idx]|
      {
        var list := Take(idx);
        forall t | t in list ensures Lead(t.expire, jiffies) <= 0 { NotEarly(now, t); }
        var k := 0;
        while k < |list|
          invariant 0 <= k <= |list| && fired == list[..k]
        {
          assert list[k] in list;
          assert Lead(list[k].expire, jiffies) <= 0; // as asserted at src/timer.c:410
          fired := fired + [list[k]];
          k := k + 1;
        }
        assert fired == list;
      }
    }

    /** Files one timer of an entered level slot again; it lands below that level. */
    method Refile(level: int, t: Timer)
      requires 0 <= level < 4 && jiffies == now % TWO32 && Linked() && t !in home && now > 0
      requires AllMid(now, level + 1, home) && Entered(now, level, Due(now, t.expire))
      modifies this
      ensures Linked() && AllMid(now, level + 1, home) && now == old(now) && jiffies == old(jiffies)
      ensures home.Keys == old(home.Keys) + {t}
    {
      CascadeOne(now, level, t, jiffies); // the assertion at src/timer.c:428
      AddNode(t);
      PlacedIsMid(now, level + 1, home[t], Due(now, t.expire));
    }

    /** Empties the level slot the clock has entered and files its timers again. */
    method CascadeTimer(level: int) returns (idx: int)
      requires 0 <= level < 4 && now > 0 && now % Span(level) == 0
      requires jiffies == now % TWO32 && Linked() && AllMid(now, level, home)
      modifies this
      ensures Linked() && AllMid(now, level + 1, home) && now == old(now) && jiffies == old(jiffies)
      ensures home.Keys == old(home.Keys)
      ensures idx == now / Span(level) % LEVEL_SIZE
    {
      WrappedIndex(now, level);
      idx := jiffies / Span(level) % LEVEL_SIZE;
      LevelSlotSplit(level, idx);
      CascadeSplitAll(now, level, home);
      hide Linked, PlacedMid, Entered, Due, NoDup;
      var list := Take(LevelSlot(level, idx));
      RefileAll(level, list);
    }

    method RefileAll(level: int, list: seq<Timer>)
      requires 0 <= level < 4 && jiffies == now % TWO32 && Linked() && now > 0 && AllMid(now, level + 1, home)
      requires NoDup(list) && forall t :: t in list ==> t !in home && Entered(now, level, Due(now, t.expire))
      modifies this
      ensures Linked() && AllMid(now, level + 1, home) && now == old(now) && jiffies == old(jiffies)
      ensures forall t :: t in home <==> t in old(home) || t in list
    {
      hide Linked, AllMid, Entered, Due, NoDup;
      var k := 0;
      while k < |list|
        invariant 0 <= k <= |list|
        invariant Linked() && AllMid(now, level + 1, home) && now == old(now) && jiffies == old(jiffies)
        invariant forall t :: t in home <==> t in old(home) || t in list[..k]
      {
        ListStep(list, k);
        Refile(level, list[k]);
        k := k + 1;
      }
    }

    /** Advances the clock by one tick and cascades the levels that turned over. */
    method Advance()
      requires Valid() && forall t :: t in home ==> home[t] != now % ROOT_SIZE
      modifies this
      ensures Valid() && now == old(now) + 1 && home.Keys == old(home.Keys)
      ensures forall t :: t in home ==> Due(now, t.expire) == Due(old(now), t.expire)
    {
      hide Linked, AllPlaced, AllMid, Due;
      EnterTickAll(now, home);
      ghost var now0 := now;
      jiffies := (jiffies + 1) % TWO32;
      now := now + 1;
      NextTick(now0, jiffies);
      WrappedRoot(now);
      if jiffies % ROOT_SIZE == 0 {
        Cascades();
      } else {
        LeaveTickAll(now, 0, home);
      }
    }

    /** Cascades level by level until one has not come round. */
    method Cascades()
      requires now > 0 && jiffies == now % TWO32 && now % ROOT_SIZE == 0 && Linked() && AllMid(now, 0, home)
      modifies this
      ensures Valid() && now == old(now) && home.Keys == old(home.Keys)
    {
      hide Linked, AllPlaced, AllMid, Due;
      var i := 0;
      while i < 4
        invariant 0 <= i <= 4
        invariant Linked() && AllMid(now, i, home) && now == old(now) && jiffies == now % TWO32
        invariant home.Keys == old(home.Keys)
        invariant i < 4 ==> now % Span(i) == 0
      {
        var idx := CascadeTimer(i);
        if i < 3 { NextLevelTurns(now, i); }
        i := i + 1;
        if idx != 0 { break; }
      }
      LeaveTickAll(now, i, home);
    }

    /** One tick: fires exactly the timers due by the new time and keeps the rest. */
    method UpdateTimer() returns (fired: seq<Timer>)
      requires Valid()
      modifies this
      ensures Valid()
      ensures Abs() == BagTick(old(Abs()))
      ensures NoDup(fired) && (set t | t in fired) == BagFired(old(Abs()))
    {
      hide Valid, Due;
      var late := ExpireTimer();
      ghost var kept := home.Keys;
      Advance();
      var onTime := ExpireTimer();
      fired := late + onTime;
      TickRefines(old(now), old(home.Keys), kept, home.Keys, late, onTime);
    }

    /** A run of the wheel: adds, cancels and ticks, with the timers fired in every tick. It goes as the bag does, and
        every timer fires at the times the bag says. */
    method Run(es: seq<Event>) returns (log: seq<seq<Timer>>)
      requires Valid() && Allowed(Abs(), es)
      modifies this
      ensures Valid() && Abs() == BagRun(old(Abs()), es)
      ensures |log| == Ticks(es) && forall t :: TimesIn(log, old(now), t) == FireTimes(old(Abs()), es, t)
      decreases es
    {
      hide Linked, AllPlaced, BagFired, NoDup, Due;
      if es == [] { return []; }
      ghost var b := Abs();
      match es[0] {
        case Add(t) =>
          AddNode(t);
          log := Run(es[1..]);
        case Cancel(t) =>
          Unlink(t);
          log := Run(es[1..]);
        case Tick =>
          var fired := UpdateTimer();
          assert forall t :: t in fired <==> t in BagFired(b);
          ghost var b1 := Abs();
          var rest := Run(es[1..]);
          log := [fired] + rest;
          forall t ensures TimesIn(log, old(now), t) == FireTimes(b, es, t) {
            assert log[0] == fired && log[1..] == rest;
          }
      }
    }
  }

  /** The two sweeps of one tick together fire what the bag fires. */
  lemma TickRefines(now: nat, before: set<Timer>, kept: set<Timer>, after: set<Timer>,
                    late: seq<Timer>, onTime: seq<Timer>)
    requires NoDup(late) && NoDup(onTime)
    requires forall t :: t in late <==> t in before && Due(now, t.expire) <= now
    requires forall t :: t in kept <==> t in before && Due(now, t.expire) > now
    requires forall t :: t in kept ==> Due(now + 1, t.expire) == Due(now, t.expire)
    requires forall t :: t in onTime <==> t in kept && Due(now + 1, t.expire) <= now + 1
    requires forall t :: t in after <==> t in kept && Due(now + 1, t.expire) > now + 1
    ensures var b := Bag(now, map t | t in before :: Due(now, t.expire));
            && (set t | t in late + onTime) == BagFired(b)
            && Bag(now + 1, map t | t in after :: Due(now + 1, t.expire)) == BagTick(b)
    ensures NoDup(late + onTime)
  {
    var b := Bag(now, map t | t in before :: Due(now, t.expire));
    assert forall t :: t in BagFired(b) <==> t in late || t in onTime;
    assert forall t :: t in late ==> t !in onTime;
    assert (map t | t in after :: Due(now + 1, t.expire)) == BagTick(b).due;
  }

  lemma NextTick(now: nat, jiffies: U32)
    requires jiffies == (now % TWO32 + 1) % TWO32
    ensures jiffies == (now + 1) % TWO32
  {
  }

  lemma ListStep(list: seq<Timer>, k: nat)
    requires k < |list| && NoDup(list)
    ensures list[k] in list && list[k] !in list[..k] && list[..k + 1] == list[..k] + [list[k]]
  {
  }

  lemma NotEarly(now: nat, t: Timer)
    requires Due(now, t.expire) <= now
    ensures Lead(t.expire, now % TWO32) <= 0
  {
  }

  lemma CascadeOne(now: nat, level: int, t: Timer, jiffies: U32)
    requires 0 <= level < 4 && jiffies == now % TWO32 && Entered(now, level, Due(now, t.expire))
    ensures t.expire / Span(level) == jiffies / Span(level)
  {
    DueModulo(now, t.expire);
    SpanOfWrapped(Due(now, t.expire), level);
    SpanOfWrapped(now, level);
  }
}
