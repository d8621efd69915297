/** The compressed line table of a Lua function: one signed byte per instruction relative to the line before,
    with absolute entries where that does not fit and at least every 128 instructions. */
module LineTable {
  const LIMIT_DIFF: int := 128
  const ABS_MARK: int := -128
  const MAX_WITHOUT_ABS: nat := 128

  datatype AbsInfo = AbsInfo(pc: nat, line: int)

  /** `stripped` when the function carries no debug information. */
  datatype Proto = Proto(defined: int, stripped: bool, info: seq<int>, abs: seq<AbsInfo>)

  function Before(defined: int, lines: seq<int>, pc: nat): int
    requires pc <= |lines|
  {
    if pc == 0 then defined else lines[pc - 1]
  }

  /** The byte for an instruction is the mark, or the difference to the line before. */
  ghost predicate ByteOk(defined: int, lines: seq<int>, info: seq<int>, pc: nat)
    requires pc < |lines| == |info|
  {
    info[pc] == ABS_MARK || (info[pc] == lines[pc] - Before(defined, lines, pc) && -LIMIT_DIFF < info[pc] < LIMIT_DIFF)
  }

  /** The absolute entries are marked instructions with their lines, in order. */
  ghost predicate AbsOk(lines: seq<int>, info: seq<int>, abs: seq<AbsInfo>)
    requires |lines| == |info|
  {
    && (forall k :: 0 <= k < |abs| ==> abs[k].pc < |info| && info[abs[k].pc] == ABS_MARK && abs[k].line == lines[abs[k].pc])
    && (forall j, k :: 0 <= j < k < |abs| ==> abs[j].pc < abs[k].pc)
  }

  /** They are never more than 128 apart. */
  ghost predicate Dense(abs: seq<AbsInfo>) {
    && (abs != [] ==> abs[0].pc <= MAX_WITHOUT_ABS)
    && (forall j, k :: 0 <= j < k < |abs| && k == j + 1 ==> abs[k].pc <= abs[j].pc + MAX_WITHOUT_ABS)
    && (forall k :: 0 <= k < |abs| ==> abs[k].pc <= MAX_WITHOUT_ABS * (k + 1))
  }

  /** Every marked instruction is among them. */
  ghost predicate AllListed(info: seq<int>, abs: seq<AbsInfo>) {
    forall pc :: 0 <= pc < |info| && info[pc] == ABS_MARK ==> Listed(abs, pc)
  }

  ghost predicate Listed(abs: seq<AbsInfo>, pc: nat) { exists k :: 0 <= k < |abs| && abs[k].pc == pc }

  /** The instruction the current run of relative entries starts at. */
  function Base(abs: seq<AbsInfo>): nat { if abs == [] then 0 else abs[|abs| - 1].pc }

  /** The table is a compressed form of `lines`. */
  ghost predicate Encodes(p: Proto, lines: seq<int>) {
    && |p.info| == |lines|
    && (forall pc :: 0 <= pc < |lines| ==> ByteOk(p.defined, lines, p.info, pc))
    && AbsOk(lines, p.info, p.abs) && Dense(p.abs) && AllListed(p.info, p.abs)
    && |p.info| - Base(p.abs) <= MAX_WITHOUT_ABS
  }

  // -------------------------------------------------------------------- saving lines

  /** The table with what the saver remembers: a line, and how many instructions it believes it has saved since the
      last absolute entry. */
  datatype Saver = Saver(p: Proto, previous: int, iwthabs: int)

  function Fresh(defined: int): Saver { Saver(Proto(defined, false, [], []), defined, 0) }

  predicate Absolute(s: Saver, line: int) {
    line - s.previous >= LIMIT_DIFF || s.previous - line >= LIMIT_DIFF || s.iwthabs >= MAX_WITHOUT_ABS
  }

  function Saved(s: Saver, line: int): Saver {
    if Absolute(s, line)
    then Saver(s.p.(info := s.p.info + [ABS_MARK], abs := s.p.abs + [AbsInfo(|s.p.info|, line)]), line, 1)
    else Saver(s.p.(info := s.p.info + [line - s.previous]), line, s.iwthabs + 1)
  }

  /** The last instruction goes; when its entry was absolute the next one is to be, too. */
  function Removed(s: Saver): Saver
    requires s.p.info != [] && (s.p.info[|s.p.info| - 1] == ABS_MARK ==> s.p.abs != [])
  {
    var pc := |s.p.info| - 1;
    if s.p.info[pc] != ABS_MARK
    then Saver(s.p.(info := s.p.info[..pc]), s.previous - s.p.info[pc], s.iwthabs - 1)
    else Saver(s.p.(info := s.p.info[..pc], abs := s.p.abs[..|s.p.abs| - 1]), s.previous, MAX_WITHOUT_ABS + 1)
  }

  /** The table shows these lines, and the saver does not put off an absolute entry for too long. */
  ghost predicate Shows(s: Saver, lines: seq<int>) {
    Encodes(s.p, lines) && !s.p.stripped && |lines| - Base(s.p.abs) <= s.iwthabs <= MAX_WITHOUT_ABS + 1
  }

  /** The line a reader will see for the next instruction: relative entries build on the line before. */
  function Seen(s: Saver, lines: seq<int>, line: int): int {
    if Absolute(s, line) then line else Before(s.p.defined, lines, |lines|) + (line - s.previous)
  }

  lemma SavedShows(s: Saver, lines: seq<int>, line: int)
    requires Shows(s, lines)
    ensures Shows(Saved(s, line), lines + [Seen(s, lines, line)])
  {
    hide AbsOk, ByteOk, Dense, AllListed;
    if Absolute(s, line) {
      AddAbsolute(s.p, lines, line);
    } else {
      AddRelative(s.p, lines, Seen(s, lines, line), line - s.previous);
    }
  }

  lemma RemovedShows(s: Saver, lines: seq<int>)
    requires Shows(s, lines) && lines != []
    ensures s.p.info[|lines| - 1] == ABS_MARK ==> s.p.abs != [] && s.p.abs[|s.p.abs| - 1].pc == |lines| - 1
    ensures Shows(Removed(s), lines[..|lines| - 1])
  {
    hide AbsOk, ByteOk, Dense, AllListed;
    if s.p.info[|lines| - 1] != ABS_MARK { RemoveRelative(s.p, lines); } else { RemoveAbsolute(s.p, lines); }
  }

  /** A table is a compressed form of one list of lines only. */
  lemma {:induction false} OneReading(p: Proto, a: seq<int>, b: seq<int>, n: nat)
    requires Encodes(p, a) && Encodes(p, b) && n <= |a|
    ensures |a| == |b| && forall pc :: 0 <= pc < n ==> a[pc] == b[pc]
  {
    if n > 0 {
      OneReading(p, a, b, n - 1);
      var pc := n - 1;
      assert ByteOk(p.defined, a, p.info, pc) && ByteOk(p.defined, b, p.info, pc);
      if p.info[pc] == ABS_MARK {
        assert Listed(p.abs, pc);
        var k :| 0 <= k < |p.abs| && p.abs[k].pc == pc;
        assert p.abs[k].line == a[pc] && p.abs[k].line == b[pc];
      }
    }
  }

  lemma SameLast(p: Proto, lines: seq<int>, a: int, b: int)
    requires Encodes(p, lines + [a]) && Encodes(p, lines + [b])
    ensures a == b
  {
    hide Encodes;
    OneReading(p, lines + [a], lines + [b], |lines| + 1);
    assert (lines + [a])[|lines|] == a && (lines + [b])[|lines|] == b;
  }

  /** The saver remembers the line before. */
  ghost predicate Synced(s: Saver, lines: seq<int>) { s.previous == Before(s.p.defined, lines, |lines|) }

  /** The next line is encoded exactly if the saver remembers the line before or the entry will be absolute: because
      one is due, or because the difference from the line remembered does not fit. */
  lemma SavesExactly(s: Saver, lines: seq<int>, line: int)
    requires Shows(s, lines)
    ensures Encodes(Saved(s, line).p, lines + [line])
            <==> || s.previous == Before(s.p.defined, lines, |lines|)
                 || s.iwthabs >= MAX_WITHOUT_ABS
                 || line - s.previous >= LIMIT_DIFF || s.previous - line >= LIMIT_DIFF
  {
    SavedShows(s, lines, line);
    hide Encodes, Saved, Before, Base;
    if Encodes(Saved(s, line).p, lines + [line]) { SameLast(Saved(s, line).p, lines, line, Seen(s, lines, line)); }
    assert Seen(s, lines, line) == line <==> (Absolute(s, line) || s.previous == Before(s.p.defined, lines, |lines|));
  }

  // --------------------------------------------------------------- runs of the saver

  datatype Event = Emit(line: int) | Undo

  predicate Can(s: Saver, e: Event) {
    e.Undo? ==> s.p.info != [] && (s.p.info[|s.p.info| - 1] == ABS_MARK ==> s.p.abs != [])
  }

  function Did(s: Saver, e: Event): Saver
    requires Can(s, e)
  {
    if e.Emit? then Saved(s, e.line) else Removed(s)
  }

  /** The lines meant: an instruction has the line it was emitted with. */
  function Meant(lines: seq<int>, e: Event): seq<int>
    requires e.Undo? ==> lines != []
  {
    if e.Emit? then lines + [e.line] else lines[..|lines| - 1]
  }

  /** At no time does the table encode anything but the lines meant. */
  ghost predicate AlwaysRight(s: Saver, lines: seq<int>, es: seq<Event>)
    decreases |es|
  {
    && Encodes(s.p, lines)
    && (es == [] || (Can(s, es[0]) && (es[0].Undo? ==> lines != []) && AlwaysRight(Did(s, es[0]), Meant(lines, es[0]), es[1..])))
  }

  /** Every line is saved while the saver remembers the line before or will write an absolute entry. */
  ghost predicate Careful(s: Saver, lines: seq<int>, es: seq<Event>)
    decreases |es|
  {
    es == [] ||
    (&& Can(s, es[0]) && (es[0].Undo? ==> lines != [])
     && (es[0].Emit? ==> Synced(s, lines) || Absolute(s, es[0].line))
     && Careful(Did(s, es[0]), Meant(lines, es[0]), es[1..]))
  }

  lemma EventShows(s: Saver, lines: seq<int>, e: Event)
    requires Shows(s, lines) && (e.Undo? ==> lines != [])
    requires e.Emit? ==> Synced(s, lines) || Absolute(s, e.line)
    ensures Can(s, e) && Shows(Did(s, e), Meant(lines, e))
  {
    hide Shows, Saved, Absolute;
    if e.Emit? {
      SavedShows(s, lines, e.line);
    } else {
      assert |s.p.info| == |lines| by { hide *; ShowsLength(s, lines); }
      RemovedShows(s, lines);
    }
  }

  lemma ShowsLength(s: Saver, lines: seq<int>)
    requires Shows(s, lines)
    ensures |s.p.info| == |lines| && Encodes(s.p, lines)
  {
  }

  /** A run of saves and removals keeps the table right exactly if every save is careful. */
  lemma {:induction false} RightExactly(s: Saver, lines: seq<int>, es: seq<Event>)
    requires Shows(s, lines)
    ensures AlwaysRight(s, lines, es) <==> Careful(s, lines, es)
    decreases |es|
  {
    hide Shows, Encodes, Can, Saved, Removed, Absolute, Synced;
    ShowsLength(s, lines);
    if es != [] {
      var e := es[0];
      if e.Emit? && !Synced(s, lines) && !Absolute(s, e.line) {
        NotRight(s, lines, e.line);
      } else if e.Emit? || lines != [] {
        EventShows(s, lines, e);
        RightExactly(Did(s, e), Meant(lines, e), es[1..]);
      }
    }
  }

  lemma NotRight(s: Saver, lines: seq<int>, line: int)
    requires Shows(s, lines) && !Synced(s, lines) && !Absolute(s, line)
    ensures !Encodes(Saved(s, line).p, lines + [line])
  {
    hide Encodes, Shows, Saved;
    SavesExactly(s, lines, line);
  }

  /** No more instructions are removed than there are, and never three in a row; `k` are gone since the last save. */
  predicate TwoAtMost(n: nat, k: nat, es: seq<Event>)
    decreases |es|
  {
    es == [] ||
    if es[0].Emit? then TwoAtMost(n + 1, 0, es[1..]) else n > 0 && k < 2 && TwoAtMost(n - 1, k + 1, es[1..])
  }

  /** After an absolute entry has gone, the counter still forces the next entry to be absolute. */
  ghost predicate Ready(s: Saver, lines: seq<int>, k: nat) {
    Synced(s, lines) || (1 <= k <= 2 && s.iwthabs >= MAX_WITHOUT_ABS + 2 - k)
  }

  lemma UndoReady(s: Saver, lines: seq<int>, k: nat)
    requires Shows(s, lines) && lines != [] && Ready(s, lines, k) && k < 2
    ensures Can(s, Undo) && Ready(Removed(s), lines[..|lines| - 1], k + 1)
  {
    RemovedShows(s, lines);
    assert ByteOk(s.p.defined, lines, s.p.info, |lines| - 1);
    hide AbsOk, Dense, AllListed;
  }

  /** Two removals in a row never lose a line, whatever was saved before. */
  lemma {:induction false} TwoAreSafe(s: Saver, lines: seq<int>, k: nat, es: seq<Event>)
    requires Shows(s, lines) && Ready(s, lines, k) && TwoAtMost(|lines|, k, es)
    ensures AlwaysRight(s, lines, es)
    decreases |es|
  {
    hide Shows, Encodes, Saved, Removed, Can;
    ShowsLength(s, lines);
    if es != [] {
      var e := es[0];
      if e.Emit? {
        EventShows(s, lines, e);
        SavedSynced(s, lines, e.line);
        TwoAreSafe(Did(s, e), Meant(lines, e), 0, es[1..]);
      } else {
        EventShows(s, lines, e);
        UndoReady(s, lines, k);
        TwoAreSafe(Did(s, e), Meant(lines, e), k + 1, es[1..]);
      }
    }
  }

  lemma SavedSynced(s: Saver, lines: seq<int>, line: int)
    ensures Synced(Saved(s, line), lines + [line])
  {
  }

  /** Three can: the entry written is relative to a line that is no longer there, and 1000 reads as 11. */
  lemma ThreeAreNot()
    ensures Shows(Fresh(0), [])
    ensures !AlwaysRight(Fresh(0), [], [Emit(10), Emit(11), Emit(1000), Undo, Undo, Undo, Emit(1000)])
  {
    hide Encodes, Saved, Removed, AlwaysRight;
    var one := Saver(Proto(0, false, [10], []), 10, 1);
    var two := Saver(Proto(0, false, [10, 1], []), 11, 2);
    var three := Saver(Proto(0, false, [10, 1, ABS_MARK], [AbsInfo(2, 1000)]), 1000, 1);
    GoesUp(one, two, three);
    GoesDown(three);
    var r6 := [Emit(1000)] + [];
    WrongAgain(Saver(Proto(0, false, [], []), 989, 127), [], Emit(1000), []);
    var r5 := [Undo] + r6;
    WrongAgain(Saver(Proto(0, false, [10], []), 999, 128), [10], Undo, r6);
    var r4 := [Undo] + r5;
    WrongAgain(Saver(Proto(0, false, [10, 1], []), 1000, 129), [10, 11], Undo, r5);
    var r3 := [Undo] + r4;
    WrongAgain(three, [10, 11, 1000], Undo, r4);
    var r2 := [Emit(1000)] + r3;
    WrongAgain(two, [10, 11], Emit(1000), r3);
    var r1 := [Emit(11)] + r2;
    WrongAgain(one, [10], Emit(11), r2);
    WrongAgain(Fresh(0), [], Emit(10), r1);
    assert [Emit(10)] + r1 == [Emit(10), Emit(11), Emit(1000), Undo, Undo, Undo, Emit(1000)];
    FreshShows();
  }

  lemma FreshShows()
    ensures Shows(Fresh(0), [])
  {
  }

  lemma GoesUp(one: Saver, two: Saver, three: Saver)
    requires one == Saver(Proto(0, false, [10], []), 10, 1)
    requires two == Saver(Proto(0, false, [10, 1], []), 11, 2)
    requires three == Saver(Proto(0, false, [10, 1, ABS_MARK], [AbsInfo(2, 1000)]), 1000, 1)
    ensures one == Saved(Fresh(0), 10) && two == Saved(one, 11) && three == Saved(two, 1000)
    ensures [] + [10] == [10] && [10] + [11] == [10, 11] && [10, 11] + [1000] == [10, 11, 1000]
  {
    assert [10] + [1] == [10, 1] && [10, 1] + [ABS_MARK] == [10, 1, ABS_MARK];
  }

  lemma GoesDown(three: Saver)
    requires three == Saver(Proto(0, false, [10, 1, ABS_MARK], [AbsInfo(2, 1000)]), 1000, 1)
    ensures var d, e, f := Saver(Proto(0, false, [10, 1], []), 1000, 129), Saver(Proto(0, false, [10], []), 999, 128),
                           Saver(Proto(0, false, [], []), 989, 127);
            && Can(three, Undo) && d == Removed(three) && Can(d, Undo) && e == Removed(d) && Can(e, Undo) && f == Removed(e)
            && Can(f, Emit(1000)) && !AlwaysRight(Saved(f, 1000), [1000], [])
    ensures [10, 11, 1000][..2] == [10, 11] && [10, 11][..1] == [10] && [10][..0] == [] && [] + [1000] == [1000]
  {
    hide AlwaysRight;
    assert [10, 1, ABS_MARK][..2] == [10, 1] && [10, 1][..1] == [10] && [AbsInfo(2, 1000)][..0] == [];
    assert [10, 1, ABS_MARK][2] == ABS_MARK && [10, 1][1] == 1;
    var g := Saved(Saver(Proto(0, false, [], []), 989, 127), 1000);
    assert [] + [11] == [11];
    assert g.p == Proto(0, false, [11], []);
    ReadsEleven(g);
  }

  lemma ReadsEleven(g: Saver)
    requires g.p == Proto(0, false, [11], [])
    ensures !AlwaysRight(g, [1000], [])
  {
    assert !ByteOk(0, [1000], [11], 0);
  }

  lemma WrongAgain(s: Saver, lines: seq<int>, e: Event, rest: seq<Event>)
    requires Can(s, e) && (e.Undo? ==> lines != [])
    requires !AlwaysRight(Did(s, e), Meant(lines, e), rest)
    ensures !AlwaysRight(s, lines, [e] + rest)
  {
    hide Encodes, Can, Did, Meant;
    var es := [e] + rest;
    assert es[0] == e && es[1..] == rest;
  }

  lemma Fixed(s: Saver, lines: seq<int>, line: int)
    requires Shows(s, lines) && lines != []
    ensures Can(s, Undo)
    ensures Synced(s, lines) ==>
              var n := |lines| - 1;
              && lines[..n] + [Seen(Removed(s), lines[..n], line)] == lines[n := line]
              && Synced(Saved(Removed(s), line), lines[n := line])
  {
    hide Shows, Saved, Removed;
    var n := |lines| - 1;
    EventShows(s, lines, Undo);
    if Synced(s, lines) {
      UndoReady(s, lines, 0);
      SavedSynced(Removed(s), lines[..n], line);
      assert lines[..n] + [line] == lines[n := line];
    }
  }

  class FuncState {
    var p: Proto
    var previousLine: int
    var iwthabs: int // instructions since the last absolute entry
    ghost var lines: seq<int> // what a reader of the table sees

    ghost function State(): Saver
      reads this
    {
      Saver(p, previousLine, iwthabs)
    }

    ghost predicate Valid()
      reads this
    {
      Shows(State(), lines)
    }

    constructor (defined: int)
      ensures Valid() && State() == Fresh(defined) && lines == []
    {
      p := Proto(defined, false, [], []);
      previousLine, iwthabs, lines := defined, 0, [];
    }

    /** Saves the line of a new instruction. */
    method SaveLineInfo(line: int)
      requires Valid()
      modifies this
      ensures State() == Saved(old(State()), line)
      ensures Valid() && lines == old(lines) + [Seen(old(State()), old(lines), line)]
    {
      hide Shows;
      SavedShows(State(), lines, line);
      lines := lines + [Seen(State(), lines, line)];
      var diff, pc := line - previousLine, |p.info|;
      var absolute := diff >= LIMIT_DIFF || -diff >= LIMIT_DIFF;
      if !absolute {
        absolute := iwthabs >= MAX_WITHOUT_ABS;
        iwthabs := iwthabs + 1;
      }
      if absolute {
        p := p.(abs := p.abs + [AbsInfo(pc, line)]);
        diff := ABS_MARK;
        iwthabs := 1;
      }
      p := p.(info := p.info + [diff]);
      previousLine := line;
    }

    /** Removes the line of the last instruction. */
    method RemoveLast()
      requires Valid() && lines != []
      modifies this
      ensures old(Can(State(), Undo)) && State() == Removed(old(State()))
      ensures Valid() && lines == old(lines)[..|old(lines)| - 1]
    {
      hide Shows, Encodes, Before, Base;
      RemovedShows(State(), lines);
      ShowsLength(State(), lines);
      var pc := |p.info| - 1;
      lines := lines[..pc];
      if p.info[pc] != ABS_MARK {
        previousLine := previousLine - p.info[pc];
        iwthabs := iwthabs - 1;
      } else {
        assert p.abs[|p.abs| - 1].pc == pc;
        p := p.(abs := p.abs[..|p.abs| - 1]);
        iwthabs := MAX_WITHOUT_ABS + 1;
      }
      p := p.(info := p.info[..pc]);
    }

    /** Gives the last instruction another line. */
    method FixLine(line: int)
      requires Valid() && lines != []
      modifies this
      ensures Valid() && old(Can(State(), Undo)) && State() == Saved(Removed(old(State())), line)
      ensures old(Synced(State(), lines)) ==> lines == old(lines)[|old(lines)| - 1 := line] && Synced(State(), lines)
    {
      hide Shows, Can, Saved, Removed, Seen, Synced;
      Fixed(State(), lines, line);
      RemoveLast();
      SaveLineInfo(line);
    }
  }

  lemma BytesStay(defined: int, lines: seq<int>, info: seq<int>, lines': seq<int>, info': seq<int>, n: nat)
    requires |info| == |lines| && |info'| == |lines'| && n <= |lines| && n <= |lines'|
    requires lines[..n] == lines'[..n] && info[..n] == info'[..n]
    requires forall pc :: 0 <= pc < n ==> ByteOk(defined, lines, info, pc)
    ensures forall pc :: 0 <= pc < n ==> ByteOk(defined, lines', info', pc)
  {
    forall pc | 0 <= pc < n ensures ByteOk(defined, lines', info', pc) {
      assert ByteOk(defined, lines, info, pc);
      assert lines[..n][pc] == lines'[..n][pc] && info[..n][pc] == info'[..n][pc];
      assert pc > 0 ==> lines[..n][pc - 1] == lines'[..n][pc - 1];
    }
  }

  lemma AddAbsolute(p: Proto, lines: seq<int>, line: int)
    requires Encodes(p, lines)
    ensures Encodes(p.(info := p.info + [ABS_MARK], abs := p.abs + [AbsInfo(|p.info|, line)]), lines + [line])
  {
    var n, info', abs' := |lines|, p.info + [ABS_MARK], p.abs + [AbsInfo(|p.info|, line)];
    hide ByteOk, AbsOk, Dense, AllListed;
    BytesStay(p.defined, lines, p.info, lines + [line], info', n);
    IsMark(p.defined, lines + [line], info', n);
    ListedAdd(p.info, p.abs, line);
    DenseAdd(p.abs, AbsInfo(n, line));
    AbsAdd(lines, p.info, p.abs, line);
  }

  lemma ListedAdd(info: seq<int>, abs: seq<AbsInfo>, line: int)
    requires AllListed(info, abs)
    ensures AllListed(info + [ABS_MARK], abs + [AbsInfo(|info|, line)])
  {
    var abs' := abs + [AbsInfo(|info|, line)];
    ListedStay(info, info + [ABS_MARK], abs, abs', |info|);
    assert abs'[|abs|].pc == |info|;
    assert Listed(abs', |info|);
    hide Listed;
  }

  lemma DenseAdd(abs: seq<AbsInfo>, a: AbsInfo)
    requires Dense(abs) && a.pc <= Base(abs) + MAX_WITHOUT_ABS
    ensures Dense(abs + [a])
  {
    var n := |abs|;
    assert n > 0 ==> abs[n - 1].pc <= MAX_WITHOUT_ABS * n;
  }

  lemma AbsAdd(lines: seq<int>, info: seq<int>, abs: seq<AbsInfo>, line: int)
    requires |lines| == |info| && AbsOk(lines, info, abs)
    ensures AbsOk(lines + [line], info + [ABS_MARK], abs + [AbsInfo(|info|, line)])
  {
  }

  lemma AbsDrop(lines: seq<int>, info: seq<int>, abs: seq<AbsInfo>, n: nat, m: nat)
    requires |lines| == |info| && AbsOk(lines, info, abs) && Dense(abs) && n <= |info| && m <= |abs|
    requires forall k :: 0 <= k < m ==> abs[k].pc < n
    ensures AbsOk(lines[..n], info[..n], abs[..m]) && Dense(abs[..m])
  {
  }

  /** Marks before `n` stay listed when the list keeps the entries for them. */
  lemma ListedStay(info: seq<int>, info': seq<int>, abs: seq<AbsInfo>, abs': seq<AbsInfo>, n: nat)
    requires AllListed(info, abs) && n <= |info| && n <= |info'| && info[..n] == info'[..n]
    requires (|abs| <= |abs'| && abs'[..|abs|] == abs) || (|abs'| + 1 == |abs| && abs' == abs[..|abs'|] && abs[|abs'|].pc >= n)
    ensures forall pc :: 0 <= pc < n && info'[pc] == ABS_MARK ==> Listed(abs', pc)
  {
    forall pc | 0 <= pc < n && info'[pc] == ABS_MARK ensures Listed(abs', pc) {
      assert info[..n][pc] == info'[..n][pc];
      assert Listed(abs, pc);
      var k :| 0 <= k < |abs| && abs[k].pc == pc;
      assert |abs| <= |abs'| ==> abs'[..|abs|][k] == abs[k];
      assert abs'[k].pc == pc;
    }
  }

  lemma IsMark(defined: int, lines: seq<int>, info: seq<int>, pc: nat)
    requires pc < |lines| == |info| && info[pc] == ABS_MARK
    ensures ByteOk(defined, lines, info, pc)
  {
  }

  lemma AddRelative(p: Proto, lines: seq<int>, line: int, diff: int)
    requires Encodes(p, lines) && |lines| - Base(p.abs) < MAX_WITHOUT_ABS
    requires diff == line - Before(p.defined, lines, |lines|) && -LIMIT_DIFF < diff < LIMIT_DIFF
    ensures Encodes(p.(info := p.info + [diff]), lines + [line])
  {
    var n, info' := |lines|, p.info + [diff];
    assert ByteOk(p.defined, lines + [line], info', n);
    hide ByteOk, AbsOk, Dense, AllListed;
    BytesStay(p.defined, lines, p.info, lines + [line], info', n);
    MoreRelative(lines, p.info, p.abs, line, diff);
  }

  lemma MoreRelative(lines: seq<int>, info: seq<int>, abs: seq<AbsInfo>, line: int, diff: int)
    requires |lines| == |info| && AbsOk(lines, info, abs) && AllListed(info, abs) && diff != ABS_MARK
    ensures AbsOk(lines + [line], info + [diff], abs) && AllListed(info + [diff], abs)
  {
    assert abs[..|abs|] == abs;
    ListedStay(info, info + [diff], abs, abs, |info|);
    hide Listed;
  }

  lemma RemoveRelative(p: Proto, lines: seq<int>)
    requires Encodes(p, lines) && lines != [] && p.info[|lines| - 1] != ABS_MARK
    ensures Encodes(p.(info := p.info[..|lines| - 1]), lines[..|lines| - 1])
  {
    var n := |lines| - 1;
    BytesStay(p.defined, lines, p.info, lines[..n], p.info[..n], n);
    LastListed(lines, p.info, p.abs);
    hide ByteOk, AbsOk, Dense;
    assert p.abs[..|p.abs|] == p.abs;
    ListedStay(p.info, p.info[..n], p.abs, p.abs, n);
    AbsDrop(lines, p.info, p.abs, n, |p.abs|);
    hide Listed;
  }

  lemma RemoveAbsolute(p: Proto, lines: seq<int>)
    requires Encodes(p, lines) && lines != [] && p.info[|lines| - 1] == ABS_MARK
    ensures p.abs != [] && p.abs[|p.abs| - 1].pc == |lines| - 1
    ensures Encodes(p.(info := p.info[..|lines| - 1], abs := p.abs[..|p.abs| - 1]), lines[..|lines| - 1])
  {
    var n, k := |lines| - 1, |p.abs| - 1;
    BytesStay(p.defined, lines, p.info, lines[..n], p.info[..n], n);
    LastListed(lines, p.info, p.abs);
    DenseBase(p.abs);
    hide ByteOk, AbsOk, Dense, Base;
    ListedStay(p.info, p.info[..n], p.abs, p.abs[..k], n);
    AbsDrop(lines, p.info, p.abs, n, k);
    hide Listed;
  }

  lemma DenseBase(abs: seq<AbsInfo>)
    requires Dense(abs) && abs != []
    ensures abs[|abs| - 1].pc <= Base(abs[..|abs| - 1]) + MAX_WITHOUT_ABS
  {
    var n := |abs| - 1;
    assert n > 0 ==> abs[..n][n - 1] == abs[n - 1];
  }

  lemma LastListed(lines: seq<int>, info: seq<int>, abs: seq<AbsInfo>)
    requires |lines| == |info| && AbsOk(lines, info, abs) && AllListed(info, abs) && info != []
    ensures var n := |info| - 1;
            if info[n] == ABS_MARK
            then abs != [] && abs[|abs| - 1].pc == n && forall k :: 0 <= k < |abs| - 1 ==> abs[k].pc < n
            else forall k :: 0 <= k < |abs| ==> abs[k].pc < n
  {
    var n := |info| - 1;
    if info[n] == ABS_MARK {
      assert Listed(abs, n);
    }
  }

  // ----------------------------------------------------------------- finding a line

  /** The last absolute entry at or before an instruction, found from an estimate that is never too high. */
  method GetBaseLine(p: Proto, ghost lines: seq<int>, pc: nat) returns (line: int, basepc: int)
    requires Encodes(p, lines) && pc < |lines|
    ensures -1 <= basepc <= pc && line == Before(p.defined, lines, basepc + 1)
    ensures forall k :: basepc < k <= pc ==> p.info[k] != ABS_MARK
  {
    if |p.abs| == 0 || pc < p.abs[0].pc {
      NoneBetween(p, lines, -1, pc);
      return p.defined, -1;
    }
    var i := pc / MAX_WITHOUT_ABS - 1;
    EstimateIsLow(p, lines, pc);
    hide AbsOk, ByteOk, Dense, AllListed;
    while i + 1 < |p.abs| && pc >= p.abs[i + 1].pc
      invariant -1 <= i < |p.abs| && (i >= 0 ==> p.abs[i].pc <= pc)
    {
      i := i + 1;
    }
    NoneBetween(p, lines, i, pc);
    return p.abs[i].line, p.abs[i].pc;
  }

  /** Between an absolute entry and the next one no instruction is marked. */
  lemma NoneBetween(p: Proto, lines: seq<int>, i: int, pc: nat)
    requires Encodes(p, lines) && pc < |lines| && -1 <= i < |p.abs|
    requires i + 1 < |p.abs| ==> pc < p.abs[i + 1].pc
    ensures forall k :: (if i < 0 then -1 else p.abs[i].pc) < k <= pc ==> p.info[k] != ABS_MARK
    ensures i >= 0 ==> p.abs[i].line == Before(p.defined, lines, p.abs[i].pc + 1)
  {
    hide ByteOk, Dense;
    forall k | (if i < 0 then -1 else p.abs[i].pc) < k <= pc ensures p.info[k] != ABS_MARK {
      assert !Listed(p.abs, k);
    }
  }

  lemma EstimateIsLow(p: Proto, lines: seq<int>, pc: nat)
    requires Encodes(p, lines) && pc < |lines|
    ensures var i := pc / MAX_WITHOUT_ABS - 1; i < 0 || (i < |p.abs| && p.abs[i].pc <= pc)
  {
    hide ByteOk;
  }

  method GetFuncLine(p: Proto, ghost lines: seq<int>, pc: nat) returns (line: int)
    requires !p.stripped ==> Encodes(p, lines) && pc < |lines|
    ensures line == if p.stripped then -1 else lines[pc]
  {
    if p.stripped { return -1; }
    var basepc;
    line, basepc := GetBaseLine(p, lines, pc);
    while basepc < pc
      invariant -1 <= basepc <= pc && line == Before(p.defined, lines, basepc + 1)
      invariant forall k :: basepc < k <= pc ==> p.info[k] != ABS_MARK
    {
      basepc := basepc + 1;
      assert ByteOk(p.defined, lines, p.info, basepc);
      line := line + p.info[basepc];
    }
  }

  /** Whether two instructions are on different lines, without looking the lines up when they are close. */
  method ChangedLine(p: Proto, ghost lines: seq<int>, oldpc: nat, newpc: nat) returns (changed: bool)
    requires oldpc < newpc && (!p.stripped ==> Encodes(p, lines) && newpc < |lines|)
    ensures changed <==> !p.stripped && lines[oldpc] != lines[newpc]
  {
    if p.stripped { return false; }
    if newpc - oldpc < MAX_WITHOUT_ABS / 2 {
      var delta, pc := 0, oldpc;
      while true
        invariant oldpc <= pc < newpc && delta == lines[pc] - lines[oldpc]
        decreases newpc - pc
      {
        pc := pc + 1;
        if p.info[pc] == ABS_MARK { break; }
        assert ByteOk(p.defined, lines, p.info, pc);
        delta := delta + p.info[pc];
        if pc == newpc { return delta != 0; }
      }
    }
    var a := GetFuncLine(p, lines, oldpc);
    var b := GetFuncLine(p, lines, newpc);
    return a != b;
  }
}
