/** The incremental mark-and-sweep collector of the vendored Lua core, for strong references:
    two whites, gray lists, forward and backward write barriers, threads without barriers,
    the atomic step and the sweep. */
module Gc {

  type Obj = nat

  /** What marking does with an object. Strings are leaves. A slim userdata has only a
      metatable, which is a table; a closed upvalue has one value, never an upvalue. */
  datatype Kind = Leaf | Slim | Upval | Node | Thread

  datatype Color = White(w: bool) | Gray | Black

  datatype State = Propagate | EnterAtomic | Atomic | SwpAllgc | SwpFinobj | SwpTobefnz | SwpEnd | CallFin | Pause

  /** The sweep pointer: none, a place in 'allgc', or one of the lists with finalizers, which
      are empty here. */
  datatype Sweep = None | At(i: nat) | AtEmpty

  function Depth(k: Kind): nat { if k == Upval then 2 else if k == Slim then 1 else 0 }

  predicate MayRefer(k: Kind, v: Kind) {
    match k
    case Leaf => false
    case Slim => v == Node
    case Upval => v != Upval
    case Node => true
    case Thread => true
  }

  // ------------------------------------------------------------------ the graph

  ghost predicate Graph(kind: map<Obj, Kind>, refs: map<Obj, seq<Obj>>) {
    && refs.Keys == kind.Keys
    && forall o, v :: o in refs && v in refs[o] ==> v in kind && MayRefer(kind[o], kind[v])
  }

  /** `s` is closed under references. */
  ghost predicate Closed(refs: map<Obj, seq<Obj>>, s: set<Obj>) {
    forall o, v :: o in s && o in refs && v in refs[o] ==> v in s
  }

  /** In every closed set that holds the roots. */
  ghost predicate Reachable(refs: map<Obj, seq<Obj>>, roots: set<Obj>, o: Obj) {
    forall s: set<Obj> :: Closed(refs, s) && roots <= s ==> o in s
  }

  /** A path of references. */
  ghost predicate Path(refs: map<Obj, seq<Obj>>, p: seq<Obj>) {
    |p| > 0 && forall i :: 0 <= i < |p| - 1 ==> p[i] in refs && p[i + 1] in refs[p[i]]
  }

  ghost predicate Leads(refs: map<Obj, seq<Obj>>, roots: set<Obj>, p: seq<Obj>, o: Obj) {
    Path(refs, p) && p[0] in roots && p[|p| - 1] == o
  }

  /** Reachability is the existence of a path from a root. */
  lemma ReachableByPath(kind: map<Obj, Kind>, refs: map<Obj, seq<Obj>>, roots: set<Obj>, o: Obj)
    requires Graph(kind, refs) && roots <= kind.Keys
    ensures Reachable(refs, roots, o) <==> exists p :: Leads(refs, roots, p, o)
  {
    hide Leads;
    if Reachable(refs, roots, o) {
      var s := set x | x in kind && exists p :: Leads(refs, roots, p, x);
      forall x, v | x in s && x in refs && v in refs[x] ensures v in s {
        var p :| Leads(refs, roots, p, x);
        LeadsOn(refs, roots, p, x, v);
      }
      forall r | r in roots ensures r in s { LeadsTo(refs, roots, r); }
      assert Closed(refs, s) && roots <= s;
    }
    forall p | Leads(refs, roots, p, o) ensures Reachable(refs, roots, o) { LeadsReach(refs, roots, p, o); }
  }

  lemma LeadsTo(refs: map<Obj, seq<Obj>>, roots: set<Obj>, r: Obj)
    requires r in roots
    ensures Leads(refs, roots, [r], r)
  {
  }

  lemma LeadsOn(refs: map<Obj, seq<Obj>>, roots: set<Obj>, p: seq<Obj>, x: Obj, v: Obj)
    requires Leads(refs, roots, p, x) && x in refs && v in refs[x]
    ensures Leads(refs, roots, p + [v], v)
  {
    var q := p + [v];
    forall i | 0 <= i < |q| - 1 ensures q[i] in refs && q[i + 1] in refs[q[i]] {
      if i < |p| - 1 { assert p[i] in refs && p[i + 1] in refs[p[i]]; }
    }
  }

  lemma LeadsReach(refs: map<Obj, seq<Obj>>, roots: set<Obj>, p: seq<Obj>, o: Obj)
    requires Leads(refs, roots, p, o)
    ensures Reachable(refs, roots, o)
  {
    forall s: set<Obj> | Closed(refs, s) && roots <= s ensures o in s { PathStays(refs, s, p); }
  }

  lemma {:induction false} PathStays(refs: map<Obj, seq<Obj>>, s: set<Obj>, p: seq<Obj>)
    requires Closed(refs, s) && Path(refs, p) && p[0] in s
    ensures p[|p| - 1] in s
  {
    if |p| > 1 {
      assert p[1] in refs[p[0]];
      assert Path(refs, p[1..]);
      PathStays(refs, s, p[1..]);
    }
  }

  // ------------------------------------------------------------------ the colors

  predicate NoDup(s: seq<Obj>) {
    forall a, b :: 0 <= a < b < |s| ==> s[a] != s[b]
  }

  /** All references of `o` are marked. */
  ghost predicate Visited(refs: map<Obj, seq<Obj>>, color: map<Obj, Color>, o: Obj)
    requires o in refs
  {
    forall v :: v in refs[o] ==> v in color && !color[v].White?
  }

  /** The main invariant: a black object points to no white one. `exempt` is being traversed. */
  ghost predicate BlackVisited(refs: map<Obj, seq<Obj>>, color: map<Obj, Color>, exempt: set<Obj>) {
    forall o :: o in color && o in refs && color[o].Black? && o !in exempt ==> Visited(refs, color, o)
  }

  /** Every gray object is in a gray list, once, and only gray objects are. */
  ghost predicate GrayListed(color: map<Obj, Color>, lists: seq<Obj>) {
    && NoDup(lists)
    && (forall o :: o in lists ==> o in color && color[o].Gray?)
    && (forall o :: o in color && color[o].Gray? ==> o in lists)
  }

  /** Leaves, slim userdata and upvalues are never gray; threads are never black while the
      mutator can still run before the atomic step. */
  ghost predicate KindColors(kind: map<Obj, Kind>, color: map<Obj, Color>, atomic: bool) {
    forall o :: o in color && o in kind ==>
      && (color[o].Gray? ==> kind[o] in {Node, Thread})
      && (color[o].Black? && !atomic ==> kind[o] != Thread)
  }

  /** Whites are all of the current white. */
  ghost predicate OneWhite(color: map<Obj, Color>, white: bool) {
    forall o :: o in color && color[o].White? ==> color[o].w == white
  }

  /** Marking only adds marks, and only inside any closed set that holds what was marked before. */
  ghost predicate Marks(refs: map<Obj, seq<Obj>>, color: map<Obj, Color>, color': map<Obj, Color>, from: set<Obj>) {
    && color'.Keys == color.Keys
    && (forall o :: o in color && !color[o].White? ==> !color'[o].White?)
    && (forall s: set<Obj> :: Closed(refs, s) && MarkedIn(color, s) && from <= s ==> MarkedIn(color', s))
  }

  ghost predicate MarkedIn(color: map<Obj, Color>, s: set<Obj>) {
    forall o :: o in color && !color[o].White? ==> o in s
  }

  ghost predicate BlacksKept(color: map<Obj, Color>, color': map<Obj, Color>) {
    forall o :: o in color && color[o].Black? ==> o in color' && color'[o].Black?
  }

  ghost function Elems(s: seq<Obj>): set<Obj> { set o | o in s }

  /** The marking invariant over all of it. */
  ghost predicate Tri(kind: map<Obj, Kind>, refs: map<Obj, seq<Obj>>, color: map<Obj, Color>,
                      lists: seq<Obj>, atomic: bool, white: bool, exempt: set<Obj>) {
    && Graph(kind, refs) && color.Keys == kind.Keys
    && BlackVisited(refs, color, exempt)
    && GrayListed(color, lists)
    && KindColors(kind, color, atomic)
    && OneWhite(color, white)
  }

  lemma MarksTrans(refs: map<Obj, seq<Obj>>, c0: map<Obj, Color>, c1: map<Obj, Color>, c2: map<Obj, Color>,
                   a: set<Obj>, b: set<Obj>)
    requires Marks(refs, c0, c1, a) && Marks(refs, c1, c2, b)
    ensures Marks(refs, c0, c2, a + b)
  {
  }

  lemma MarksTransNone(refs: map<Obj, seq<Obj>>, c0: map<Obj, Color>, c1: map<Obj, Color>, c2: map<Obj, Color>)
    requires Marks(refs, c0, c1, {}) && Marks(refs, c1, c2, {})
    ensures Marks(refs, c0, c2, {})
  {
  }

  /** A white object whose references are all marked turns black. */
  lemma TurnBlack(kind: map<Obj, Kind>, refs: map<Obj, seq<Obj>>, color: map<Obj, Color>, lists: seq<Obj>,
                  atomic: bool, white: bool, exempt: set<Obj>, o: Obj)
    requires Tri(kind, refs, color, lists, atomic, white, exempt)
    requires o in color && color[o].White? && kind[o] != Thread && (Visited(refs, color, o) || o in exempt)
    ensures Tri(kind, refs, color[o := Black], lists, atomic, white, exempt)
    ensures Marks(refs, color, color[o := Black], {o}) && BlacksKept(color, color[o := Black])
  {
    Repaint(refs, color, o, Black, exempt);
    hide Visited, BlackVisited, Graph, Marks, MarkedIn, Closed, GrayListed, KindColors, OneWhite, BlacksKept;
    PaintMarks(refs, color, o, Black);
    BlackOnes(kind, color, lists, atomic, white, o);
  }

  lemma BlackOnes(kind: map<Obj, Kind>, color: map<Obj, Color>, lists: seq<Obj>, atomic: bool, white: bool, o: Obj)
    requires GrayListed(color, lists) && KindColors(kind, color, atomic) && OneWhite(color, white)
    requires o in color && color[o].White? && o in kind && kind[o] != Thread
    ensures GrayListed(color[o := Black], lists) && KindColors(kind, color[o := Black], atomic) && OneWhite(color[o := Black], white)
  {
  }

  /** Painting an object marks it and nothing else. */
  lemma PaintMarks(refs: map<Obj, seq<Obj>>, color: map<Obj, Color>, o: Obj, c: Color)
    requires o in color && !color[o].Black? && !c.White?
    ensures Marks(refs, color, color[o := c], {o}) && BlacksKept(color, color[o := c])
    ensures color[o].Gray? ==> Marks(refs, color, color[o := c], {})
  {
  }

  /** Painting an object gray or black keeps the main invariant, unless it turns black unvisited. */
  lemma Repaint(refs: map<Obj, seq<Obj>>, color: map<Obj, Color>, o: Obj, c: Color, exempt: set<Obj>)
    requires BlackVisited(refs, color, exempt) && o in color && !c.White?
    requires c.Black? && o in refs && o !in exempt ==> Visited(refs, color, o)
    ensures BlackVisited(refs, color[o := c], exempt)
  {
    var color' := color[o := c];
    forall x | x in color' && x in refs && color'[x].Black? && x !in exempt ensures Visited(refs, color', x) {
      assert Visited(refs, color, x);
    }
  }

  /** A white table, closure or thread is put in front of the gray list. */
  lemma TurnGray(kind: map<Obj, Kind>, refs: map<Obj, seq<Obj>>, color: map<Obj, Color>, lists: seq<Obj>,
                 atomic: bool, white: bool, exempt: set<Obj>, o: Obj)
    requires Tri(kind, refs, color, lists, atomic, white, exempt)
    requires o in color && color[o].White? && kind[o] in {Node, Thread}
    ensures Tri(kind, refs, color[o := Gray], [o] + lists, atomic, white, exempt)
    ensures Marks(refs, color, color[o := Gray], {o}) && BlacksKept(color, color[o := Gray])
  {
    Repaint(refs, color, o, Gray, exempt);
    PaintMarks(refs, color, o, Gray);
    hide Visited, BlackVisited, Graph, Marks, MarkedIn, Closed;
    assert o !in lists;
    ConsNoDup(o, lists);
  }

  lemma ConsNoDup(o: Obj, s: seq<Obj>)
    requires NoDup(s) && o !in s
    ensures NoDup([o] + s)
  {
    forall a, b | 0 <= a < b < |[o] + s| ensures ([o] + s)[a] != ([o] + s)[b] {
      assert ([o] + s)[b] == s[b - 1];
      if a > 0 { assert ([o] + s)[a] == s[a - 1]; }
    }
  }

  /** Exempting an object more is no restriction; dropping a visited one from the exempt is none either. */
  lemma Exempt(kind: map<Obj, Kind>, refs: map<Obj, seq<Obj>>, color: map<Obj, Color>, lists: seq<Obj>,
               atomic: bool, white: bool, exempt: set<Obj>, o: Obj)
    ensures Tri(kind, refs, color, lists, atomic, white, exempt) ==> Tri(kind, refs, color, lists, atomic, white, exempt + {o})
    ensures Tri(kind, refs, color, lists, atomic, white, exempt + {o}) && (o in refs ==> Visited(refs, color, o))
            ==> Tri(kind, refs, color, lists, atomic, white, exempt)
  {
  }

  /** Marking what `o` refers to marks nothing beyond what marking `o` may mark. */
  lemma MarksThrough(refs: map<Obj, seq<Obj>>, c0: map<Obj, Color>, c1: map<Obj, Color>, o: Obj)
    requires o in refs && Marks(refs, c0, c1, Elems(refs[o]))
    ensures Marks(refs, c0, c1, {o})
  {
    forall s: set<Obj> | Closed(refs, s) && MarkedIn(c0, s) && {o} <= s ensures MarkedIn(c1, s) {
      assert o in s;
      assert Elems(refs[o]) <= s;
    }
  }

  class Collector {
    const mainthread: Obj
    var kind: map<Obj, Kind>
    var refs: map<Obj, seq<Obj>>
    var color: map<Obj, Color>
    var white: bool
    var state: State
    var gray: seq<Obj>
    var grayagain: seq<Obj>
    var allgc: seq<Obj>
    var sweep: Sweep
    var globals: seq<Obj>     // registry and metatables of the basic types
    var running: Obj          // the running thread

    /** A fresh state: the main thread alone, white, between two cycles. */
    constructor (main: Obj)
      ensures Valid() && state == Pause && mainthread == main && kind == map[main := Thread]
    {
      mainthread, running, globals := main, main, [];
      kind, refs, color, white := map[main := Thread], map[main := []], map[main := White(false)], false;
      state, sweep, gray, grayagain, allgc := Pause, None, [], [], [main];
    }

    ghost predicate Marking(exempt: set<Obj>, extra: seq<Obj>)
      reads this
    {
      Tri(kind, refs, color, gray + grayagain + extra, state == Atomic, white, exempt)
    }

    /** Marks a white object: at once when there is nothing to traverse later, else by
        linking it into the gray list. The recursion is at most two levels deep. */
    method ReallyMarkObject(o: Obj, ghost exempt: set<Obj>, ghost extra: seq<Obj>)
      requires Marking(exempt, extra) && o in color && color[o].White?
      modifies `color, `gray
      ensures Marking(exempt, extra) && o in color && !color[o].White?
      ensures Marks(refs, old(color), color, {o}) && BlacksKept(old(color), color)
      decreases Depth(kind[o]), 1
    {
      hide Tri, Marks, BlacksKept;
      RefsKinds(o, exempt, extra);
      ghost var c0 := color;
      match kind[o] {
        case Leaf =>
          TurnBlack(kind, refs, color, gray + grayagain + extra, state == Atomic, white, exempt, o);
          color := color[o := Black];
        case Upval =>
          Exempt(kind, refs, color, gray + grayagain + extra, state == Atomic, white, exempt, o);
          TurnBlack(kind, refs, color, gray + grayagain + extra, state == Atomic, white, exempt + {o}, o);
          color := color[o := Black];
          ghost var c1 := color;
          MarkAll(refs[o], Depth(kind[o]), exempt + {o}, extra);
          Exempt(kind, refs, color, gray + grayagain + extra, state == Atomic, white, exempt, o);
          MarksThrough(refs, c1, color, o);
          MarksTrans(refs, c0, c1, color, {o}, {o});
          assert {o} + {o} == {o};
          BlacksTrans(c0, c1, color);
        case Slim =>
          ghost var c1 := color;
          MarkAll(refs[o], Depth(kind[o]), exempt, extra);
          MarksThrough(refs, c0, color, o);
          c1 := color;
          if color[o].White? {
            TurnBlack(kind, refs, color, gray + grayagain + extra, state == Atomic, white, exempt, o);
            color := color[o := Black];
            MarksTrans(refs, c0, c1, color, {o}, {o});
            assert {o} + {o} == {o};
            BlacksTrans(c0, c1, color);
          }
        case _ =>
          TurnGray(kind, refs, color, gray + grayagain + extra, state == Atomic, white, exempt, o);
          assert [o] + (gray + grayagain + extra) == ([o] + gray) + grayagain + extra;
          gray := [o] + gray;
          color := color[o := Gray];
      }
    }

    lemma RefsKinds(o: Obj, exempt: set<Obj>, extra: seq<Obj>)
      requires Marking(exempt, extra) && o in color
      ensures o in kind && o in refs && (kind[o] == Leaf ==> forall v :: v !in refs[o])
      ensures forall v :: v in refs[o] ==> v in color && v in kind
      ensures kind[o] in {Slim, Upval} ==> forall v :: v in refs[o] ==> Depth(kind[v]) < Depth(kind[o])
      ensures forall v :: v in refs[o] ==> Depth(kind[v]) < 3
    {
      forall v | v in refs[o] ensures v in kind && MayRefer(kind[o], kind[v]) { }
    }

    /** Marks every white object of a list. */
    method MarkAll(list: seq<Obj>, ghost depth: nat, ghost exempt: set<Obj>, ghost extra: seq<Obj>)
      requires Marking(exempt, extra) && forall v :: v in list ==> v in color && v in kind && Depth(kind[v]) < depth
      modifies `color, `gray
      ensures Marking(exempt, extra) && forall v :: v in list ==> v in color && !color[v].White?
      ensures Marks(refs, old(color), color, Elems(list)) && BlacksKept(old(color), color)
      decreases depth, 0
    {
      hide Marking, BlacksKept, Marks;
      var i := 0;
      MarksNothing(refs, color);
      while i < |list|
        invariant 0 <= i <= |list|
        invariant Marking(exempt, extra) && Marks(refs, old(color), color, Elems(list[..i]))
        invariant BlacksKept(old(color), color)
        invariant forall v :: v in list ==> v in color
        invariant forall j :: 0 <= j < i ==> !color[list[j]].White?
      {
        ghost var c1 := color;
        ElemsStep(list, i);
        MarksNothing(refs, color);
        MarksNothingFrom(refs, color, {list[i]});
        if color[list[i]].White? {
          ReallyMarkObject(list[i], exempt, extra);
        }
        MarksTrans(refs, old(color), c1, color, Elems(list[..i]), {list[i]});
        BlacksTrans(old(color), c1, color);
        MarksKeep(refs, c1, color, {list[i]});
        i := i + 1;
      }
      assert list[..i] == list;
    }

    /** `o` was traversed: it is black, or a thread that waits for the atomic step. */
    ghost predicate Traversed(o: Obj, again: seq<Obj>)
      reads this
    {
      if o in kind && kind[o] == Thread && state == Propagate then grayagain == [o] + again
      else grayagain == again && o in color && color[o].Black?
    }

    /** Traverses the first gray object. A thread met while the mutator still runs stays
        gray, to be visited again in the atomic step; everything else turns black. */
    method PropagateMark(ghost extra: seq<Obj>)
      requires Marking({}, extra) && gray != [] && state in {Propagate, Atomic}
      modifies `color, `gray, `grayagain
      ensures Marking({}, extra)
      ensures Marks(refs, old(color), color, {}) && BlacksKept(old(color), color)
      ensures state == Atomic ==> old(gray)[0] in color && color[old(gray)[0]].Black? && !old(color)[old(gray)[0]].Black?
      ensures Traversed(old(gray)[0], old(grayagain))
    {
      hide Tri, Marks, BlacksKept;
      var o := gray[0];
      ghost var c0 := color;
      assert gray + grayagain + extra == [o] + (gray[1..] + grayagain + extra);
      GrayHead(kind, refs, color, o, gray[1..] + grayagain + extra, state == Atomic, white);
      RefsKinds(o, {}, extra);
      if kind[o] == Thread && state == Propagate {
        Relink(kind, refs, color, o, gray[1..], grayagain, extra, white);
        gray := gray[1..];
        grayagain := [o] + grayagain; // black for a moment, then gray in 'grayagain'
        MarkAll(refs[o], 3, {}, extra);
        MarksOfGray(refs, c0, color, o);
      } else {
        Blacken(kind, refs, color, o, gray[1..] + grayagain + extra, state == Atomic, white);
        color := color[o := Black];
        gray := gray[1..];
        ghost var c1 := color;
        MarkAll(refs[o], 3, {o}, extra);
        Exempt(kind, refs, color, gray + grayagain + extra, state == Atomic, white, {}, o);
        assert {} + {o} == {o};
        MarksOfGray(refs, c1, color, o);
        MarksTransNone(refs, c0, c1, color);
        BlacksTrans(c0, c1, color);
        KeptBlack(c1, color, o);
      }
    }

    /** Empties the gray list. */
    method PropagateAll(ghost extra: seq<Obj>)
      requires Marking({}, extra) && state == Atomic
      modifies `color, `gray, `grayagain
      ensures Marking({}, extra) && gray == [] && grayagain == old(grayagain)
      ensures Marks(refs, old(color), color, {})
    {
      hide Marking, Marks, BlacksKept;
      MarksNothingFrom(refs, color, {});
      while gray != []
        invariant Marking({}, extra) && grayagain == old(grayagain)
        invariant Marks(refs, old(color), color, {})
        decreases |NonBlack(color)|
      {
        ghost var c1, o := color, gray[0];
        PropagateMark(extra);
        MarksTransNone(refs, old(color), c1, color);
        MarksKeep(refs, c1, color, {});
        FewerNonBlack(refs, c1, color, o);
      }
    }

    ghost function Roots(): set<Obj>
      reads `running, `globals
    {
      {mainthread, running} + Elems(globals)
    }

    lemma RootsList()
      ensures Roots() == Elems([running] + globals) + {mainthread}
    {
    }

    /** The first half of the atomic step: marks the roots and finishes the traversal. */
    method AtomicRoots(ghost saved: seq<Obj>)
      requires state == Atomic && Marking({}, saved) && grayagain == [] && Roots() <= color.Keys
      requires color.Keys == kind.Keys && forall o :: o in kind ==> Depth(kind[o]) < 3
      modifies `color, `gray, `grayagain
      ensures Marking({}, saved) && gray == [] && grayagain == []
      ensures Marks(refs, old(color), color, Elems([running] + globals))
      ensures forall v :: v in [running] + globals ==> v in color && !color[v].White?
    {
      hide Marking, Marks, BlacksKept, Elems, Roots, Depth;
      RootsList();
      var list := [running] + globals;
      ElemsIn(list, {mainthread}, color.Keys);
      MarkAll(list, 3, {}, saved);
      ghost var c1 := color;
      PropagateAll(saved);
      MarksTrans(refs, old(color), c1, color, Elems(list), {});
      assert Elems(list) + {} == Elems(list);
      forall v | v in list ensures v in color && !color[v].White? { MarkedStays(refs, c1, color, {}, v); }
    }

    /** The atomic step: marks what the mutator may have changed without a barrier, finishes
        the traversal, visits 'grayagain' and flips the current white. Afterwards the marked
        objects are black, hold the roots and are closed under references; nothing outside a
        closed set that holds the roots and the earlier marks got marked. */
    method AtomicStep()
      requires state == EnterAtomic && Marking({}, []) && Roots() <= color.Keys
      requires !color[mainthread].White?
      modifies `color, `gray, `grayagain, `state, `white
      ensures state == Atomic && white == !old(white) && color.Keys == old(color.Keys)
      ensures Finished(refs, color, !white) && Roots() <= Blacks(color)
      ensures forall s: set<Obj> :: Closed(refs, s) && MarkedIn(old(color), s) && Roots() <= s ==> Blacks(color) <= s
    {
      hide Tri, Marks, BlacksKept, MarkedIn, Closed, Finished, Blacks, Elems, Roots, Depth;
      var saved := grayagain;
      grayagain := [];
      assert gray + saved + [] == gray + [] + saved;
      ToAtomic(kind, refs, color, gray + [] + saved, white);
      state := Atomic;
      ghost var c0 := color;
      AtomicRoots(saved);
      ghost var c1 := color;
      gray := saved;
      assert [] + [] + saved == saved + [] + [];
      PropagateAll([]);
      RootsList();
      AtomicMarks(refs, c0, c1, color, [running] + globals, Roots(), mainthread);
      assert gray + grayagain + [] == [];
      AtomicFinished(kind, refs, color, white);
      RootsBlack(refs, color, Roots(), white);
      white := !white;
    }

    // ---------------------------------------------------------------- validity

    ghost predicate Listed()
      reads `allgc, `kind
    {
      NoDup(allgc) && Elems(allgc) == kind.Keys
    }

    ghost predicate Threads()
      reads `kind, `running
    {
      mainthread in kind && kind[mainthread] == Thread && running in kind && kind[running] == Thread
    }

    ghost predicate PhaseOk()
      reads this
    {
      Phase(state, kind, refs, color, white, gray + grayagain + [], allgc, sweep, mainthread)
    }

    /** What holds between any two actions of collector and mutator. */
    ghost predicate Valid()
      reads this
    {
      Live(kind, refs, color, white, Roots()) && Listed() && Threads() && PhaseOk()
    }

    // ------------------------------------------------------------------- sweep

    lemma SweepFacts(i: nat)
      requires Live(kind, refs, color, white, Roots()) && Listed() && i < |allgc|
      ensures allgc[i] in color && allgc[i] in kind
      ensures color[allgc[i]] == White(!white) ==> allgc[i] != mainthread && allgc[i] != running
    {
      assert allgc[i] in Elems(allgc);
    }

    /** Frees the object at the sweep pointer when it is dead, else makes it white again. */
    method SweepOne() returns (ghost freed: set<Obj>)
      requires Valid() && state == SwpAllgc && sweep.At? && sweep.i < |allgc|
      modifies `color, `kind, `refs, `allgc, `sweep
      ensures Valid() && sweep.At? && |allgc| - sweep.i == old(|allgc| - sweep.i) - 1
      ensures kind == old(kind) - freed && refs == old(refs) - freed && Alive(color, white) == old(Alive(color, white))
      ensures freed <= old(kind.Keys) && freed !! Alive(old(color), white)
      ensures freed == old(kind.Keys) - kind.Keys
    {
      hide Live, Alive, SweptTo, NoDup, Elems, AllWhite, Tri, Roots;
      var curr := allgc[sweep.i];
      SweepFacts(sweep.i);
      if color[curr] == White(!white) {
        freed := {curr};
        FreeOne(kind, refs, color, white, Roots(), curr);
        DropAt(allgc, color, white, sweep.i, kind);
        allgc := allgc[..sweep.i] + allgc[sweep.i + 1..];
        kind, refs, color := kind - {curr}, refs - {curr}, color - {curr};
      } else {
        freed := {};
        WhitenOne(kind, refs, color, white, Roots(), curr);
        WhiteAt(allgc, color, white, sweep.i);
        color := color[curr := White(white)];
        sweep := At(sweep.i + 1);
        NoneFreed(kind, refs);
      }
    }

    lemma SweepInRange()
      requires Valid() && state == SwpAllgc && sweep.At?
      ensures sweep.i <= |allgc|
    {
    }

    /** Sweeps at most `count` objects and drops the pointer at the end of the list. */
    method SweepList(count: nat) returns (ghost freed: set<Obj>)
      requires Valid() && state == SwpAllgc && sweep.At?
      modifies `color, `kind, `refs, `allgc, `sweep
      ensures Valid() && !sweep.AtEmpty?
      ensures kind == old(kind) - freed && refs == old(refs) - freed && Alive(color, white) == old(Alive(color, white))
      ensures freed <= old(kind.Keys) && freed !! Alive(old(color), white)
      ensures count >= old(|allgc|) ==> sweep == None
      ensures sweep.At? ==> |allgc| - sweep.i == old(|allgc| - sweep.i) - count
    {
      hide Valid, Alive, AllWhite, SweptTo, Live;
      freed := {};
      NoneFreed(kind, refs);
      SweepInRange();
      var n := count;
      while sweep.i < |allgc| && n > 0
        invariant Valid() && state == SwpAllgc && sweep.At? && sweep.i <= |allgc|
        invariant kind == old(kind) - freed && refs == old(refs) - freed && Alive(color, white) == old(Alive(color, white))
        invariant freed <= old(kind.Keys) && freed !! Alive(old(color), white)
        invariant 0 <= n == count - (old(|allgc| - sweep.i) - (|allgc| - sweep.i))
        decreases |allgc| - sweep.i
      {
        ghost var more := SweepOne();
        FreedMore(old(kind), old(refs), freed, more);
        freed := freed + more;
        n := n - 1;
      }
      if sweep.i == |allgc| { EndOfList(); }
    }

    /** At the end of the list everything is white again. */
    method EndOfList()
      requires Valid() && state == SwpAllgc && sweep.At? && sweep.i == |allgc|
      modifies `sweep
      ensures Valid() && sweep == None
    {
      hide Live, Alive, NoDup, Tri, Roots;
      SweptAll(allgc, kind, color, white);
      KeysAgree(kind, refs, color, white, Roots());
      sweep := None;
    }

    /** Starts the sweep: frees up to the first live object, so that the pointer is inside the
        list and objects created from now on are not met by the sweep. */
    method EnterSweep() returns (ghost freed: set<Obj>)
      requires Live(kind, refs, color, white, Roots()) && Listed() && Threads()
      modifies `color, `kind, `refs, `allgc, `sweep, `state
      ensures Valid() && state == SwpAllgc
      ensures kind == old(kind) - freed && refs == old(refs) - freed && Alive(color, white) == old(Alive(color, white))
      ensures freed <= old(kind.Keys) && freed !! Alive(old(color), white)
      ensures sweep.At? ==> 0 < sweep.i < |allgc|
    {
      hide Alive, AllWhite, Live, Tri, Roots, NoDup, Elems;
      state := SwpAllgc;
      sweep := At(0);
      freed := {};
      NoneFreed(kind, refs);
      while sweep.i == 0 && |allgc| > 0
        invariant Valid() && state == SwpAllgc && sweep.At? && sweep.i <= |allgc|
        invariant kind == old(kind) - freed && refs == old(refs) - freed && Alive(color, white) == old(Alive(color, white))
        invariant freed <= old(kind.Keys) && freed !! Alive(old(color), white)
        decreases |allgc| - sweep.i
      {
        ghost var more := SweepOne();
        FreedMore(old(kind), old(refs), freed, more);
        freed := freed + more;
      }
      if sweep.i == |allgc| { EndOfList(); }
    }

    // ------------------------------------------------------------------- steps

    /** Starts a cycle: clears the gray lists and marks the roots. */
    method RestartCollection()
      requires Valid() && state == Pause
      modifies `color, `gray, `grayagain
      ensures Marking({}, []) && mainthread in color && !color[mainthread].White?
      ensures color.Keys == old(color.Keys)
      ensures forall s: set<Obj> :: Closed(refs, s) && Roots() <= s ==> MarkedIn(color, s)
    {
      hide Alive, Live, Tri, Roots, NoDup, Elems, Marks, BlacksKept, MarkedIn, Closed, Depth, AllWhite;
      gray, grayagain := [], [];
      assert gray + grayagain + [] == [];
      FreshTri(kind, refs, color, white, Roots());
      RestartList();
      ElemsIn([mainthread] + globals, {running}, color.Keys);
      ghost var c0 := color;
      MarkAll([mainthread] + globals, 3, {}, []);
      MarksKeep(refs, c0, color, Elems([mainthread] + globals));
      RestartMarks(refs, c0, color, white, [mainthread] + globals, Roots());
    }

    lemma RestartList()
      ensures Roots() == Elems([mainthread] + globals) + {running}
    {
    }

    /** How far the objects kept so far are known to lie inside `s`. */
    ghost predicate Within(s: set<Obj>)
      reads this
    {
      match state
      case Propagate => MarkedIn(color, s)
      case EnterAtomic => MarkedIn(color, s)
      case Pause => true
      case _ => Alive(color, white) <= s
    }

    /** Steps left before the pause when every phase is finished at once. */
    ghost function Rank(): nat
      reads `state, `sweep
    {
      match state
      case Pause => 0
      case CallFin => 1
      case SwpEnd => 2
      case SwpTobefnz => if sweep == None then 3 else 4
      case SwpFinobj => if sweep == None then 5 else 6
      case SwpAllgc => if sweep == None then 7 else 8
      case Atomic => 9
      case EnterAtomic => 10
      case Propagate => 11
    }

    lemma AtomicReady()
      requires Valid() && state == EnterAtomic
      ensures Marking({}, []) && Roots() <= color.Keys && mainthread in color && !color[mainthread].White?
      ensures Graph(kind, refs) && color.Keys == kind.Keys && Listed() && Threads()
    {
    }

    /** The atomic step and the start of the sweep, as one indivisible action. */
    method FinishMarking() returns (ghost freed: set<Obj>)
      requires Valid() && state == EnterAtomic
      modifies `color, `kind, `refs, `allgc, `sweep, `state, `gray, `grayagain, `white
      ensures Valid() && state == SwpAllgc
      ensures kind == old(kind) - freed && refs == old(refs) - freed && freed <= old(kind.Keys)
      ensures forall f :: f in freed ==> !Reachable(old(refs), Roots(), f)
      ensures forall s: set<Obj> :: Closed(old(refs), s) && Roots() <= s && MarkedIn(old(color), s) ==> Alive(color, white) <= s
    {
      hide *;
      AtomicReady();
      AtomicStep();
      AfterAtomic(kind, refs, color, white, Roots());
      ghost var c1 := color;
      freed := EnterSweep();
      FreedUnreachable(old(kind), old(refs), c1, white, Roots(), freed);
    }

    /** One step of a sweep phase. */
    method SweepStep(next: State, ptr: Sweep, fast: bool) returns (ghost freed: set<Obj>)
      requires Valid() && state in {SwpAllgc, SwpFinobj, SwpTobefnz} && !ptr.At?
      requires next in {SwpFinobj, SwpTobefnz, SwpEnd} && (next == SwpEnd ==> ptr == None)
      modifies `color, `kind, `refs, `allgc, `sweep, `state
      ensures Valid() && (if old(sweep) == None then state == next && sweep == ptr else state == old(state))
      ensures fast && old(sweep) != None ==> sweep == None
      ensures old(sweep).At? && sweep.At? ==> |allgc| - sweep.i == old(|allgc| - sweep.i) - GCSWEEPMAX
      ensures kind == old(kind) - freed && refs == old(refs) - freed && Alive(color, white) == old(Alive(color, white))
      ensures freed <= old(kind.Keys) && freed !! Alive(old(color), white)
    {
      hide Alive, Live, Tri, Roots, NoDup, Elems, AllWhite;
      freed := {};
      NoneFreed(kind, refs);
      if sweep == None {
        state, sweep := next, ptr;
      } else if sweep.AtEmpty? {
        sweep := None; // the lists of objects with finalizers are empty
      } else {
        freed := SweepList(if fast then |allgc| else GCSWEEPMAX);
      }
    }

    /** One incremental step. Only unreachable objects are ever freed; what stays keeps its
        references; and between restart and the end of the sweep nothing outside a closed set
        that holds the roots is kept because of this step. */
    method SingleStep(fast: bool) returns (ghost freed: set<Obj>)
      requires Valid()
      modifies `color, `kind, `refs, `allgc, `sweep, `state, `gray, `grayagain, `white
      ensures Valid()
      ensures kind == old(kind) - freed && refs == old(refs) - freed && freed <= old(kind.Keys)
      ensures forall f :: f in freed ==> !Reachable(old(refs), Roots(), f)
      ensures forall s: set<Obj> :: Closed(old(refs), s) && Roots() <= s && old(Within(s)) ==> Within(s)
      ensures fast && old(state) != Pause ==> Rank() < old(Rank())
      ensures old(state) == Pause ==> state == Propagate
      ensures state == Pause <==> old(state) == CallFin
      ensures state == Pause ==> freed == {}
      ensures old(state) == Propagate ==> state == if fast || old(gray) == [] then EnterAtomic else Propagate
      ensures old(state) == Propagate && state == Propagate ==> Traversed(old(gray)[0], old(grayagain))
      ensures old(state) == SwpAllgc && old(sweep).At? && sweep.At? ==> |allgc| - sweep.i == old(|allgc| - sweep.i) - GCSWEEPMAX
    {
      hide Valid, Alive, Roots, AllWhite, Reachable, MarkedIn, Closed, Within;
      freed := {};
      NoneFreed(kind, refs);
      match state {
        case Pause => Restart();
        case Propagate => StepPropagate(fast);
        case EnterAtomic => freed := StepAtomic();
        case SwpAllgc => freed := StepSweep(SwpFinobj, AtEmpty, fast);
        case SwpFinobj => freed := StepSweep(SwpTobefnz, AtEmpty, fast);
        case SwpTobefnz => freed := StepSweep(SwpEnd, None, fast);
        case SwpEnd => Advance(CallFin);
        case CallFin => Advance(Pause); // no finalizers to call
        case Atomic => NeverAtomic();
      }
    }

    lemma NeverAtomic()
      requires Valid()
      ensures state != Atomic
    {
    }

    method Restart()
      requires Valid() && state == Pause
      modifies `color, `gray, `grayagain, `state
      ensures Valid() && state == Propagate
      ensures forall s: set<Obj> :: Closed(refs, s) && Roots() <= s ==> Within(s)
    {
      hide Alive, Live, Tri, Roots, NoDup, Elems, AllWhite, MarkedIn, Closed;
      RootsKnown(kind, refs, color, white, Roots());
      KeysAgree(kind, refs, color, white, Roots());
      RestartCollection();
      GraphLive(kind, refs, color, gray + grayagain + [], white, Roots());
      state := Propagate;
    }

    method StepPropagate(fast: bool)
      requires Valid() && state == Propagate
      modifies `color, `gray, `grayagain, `state
      ensures Valid() && state == (if fast || old(gray) == [] then EnterAtomic else Propagate)
      ensures state == Propagate ==> Traversed(old(gray)[0], old(grayagain))
      ensures forall s: set<Obj> :: Closed(refs, s) && old(Within(s)) ==> Within(s)
    {
      hide Alive, Live, Tri, Roots, NoDup, Elems, MarkedIn, Closed, Marks, BlacksKept;
      if fast || gray == [] {
        state := EnterAtomic;
      } else {
        RootsKnown(kind, refs, color, white, Roots());
        ghost var c0 := color;
        PropagateMark([]);
        MarksKeep(refs, c0, color, {});
        MarksWithin(refs, c0, color);
        GraphLive(kind, refs, color, gray + grayagain + [], white, Roots());
      }
    }

    method StepAtomic() returns (ghost freed: set<Obj>)
      requires Valid() && state == EnterAtomic
      modifies `color, `kind, `refs, `allgc, `sweep, `state, `gray, `grayagain, `white
      ensures Valid() && state == SwpAllgc
      ensures kind == old(kind) - freed && refs == old(refs) - freed && freed <= old(kind.Keys)
      ensures forall f :: f in freed ==> !Reachable(old(refs), Roots(), f)
      ensures forall s: set<Obj> :: Closed(old(refs), s) && Roots() <= s && old(Within(s)) ==> Within(s)
    {
      hide Valid, Alive, Roots, MarkedIn, Closed, Reachable;
      freed := FinishMarking();
    }

    method StepSweep(next: State, ptr: Sweep, fast: bool) returns (ghost freed: set<Obj>)
      requires Valid() && state in {SwpAllgc, SwpFinobj, SwpTobefnz} && !ptr.At?
      requires next in {SwpFinobj, SwpTobefnz, SwpEnd} && (next == SwpEnd ==> ptr == None)
      modifies `color, `kind, `refs, `allgc, `sweep, `state
      ensures Valid() && (if old(sweep) == None then state == next && sweep == ptr else state == old(state))
      ensures fast && old(sweep) != None ==> sweep == None
      ensures old(sweep).At? && sweep.At? ==> |allgc| - sweep.i == old(|allgc| - sweep.i) - GCSWEEPMAX
      ensures kind == old(kind) - freed && refs == old(refs) - freed && freed <= old(kind.Keys)
      ensures forall f :: f in freed ==> !Reachable(old(refs), Roots(), f)
      ensures forall s: set<Obj> :: old(Within(s)) ==> Within(s)
    {
      hide Live, Alive, Roots, AllWhite, Tri, SweptTo, Listed, Threads, Reachable;
      ghost var c0, k0, r0 := color, kind, refs;
      freed := SweepStep(next, ptr, fast);
      FreedUnreachable(k0, r0, c0, white, Roots(), freed);
    }

    method Advance(next: State)
      requires Valid() && (state, next) in {(SwpEnd, CallFin), (CallFin, Pause)}
      modifies `state
      ensures Valid() && state == next
      ensures forall s: set<Obj> :: old(Within(s)) ==> Within(s)
    {
      hide Live, Alive, Roots, AllWhite, Tri, SweptTo;
      state := next;
    }

    // ----------------------------------------------------------------- mutator

    /** `o` may be handed to the mutator: it can be reached. */
    ghost predicate Held(o: Obj)
      reads this
    {
      Reachable(refs, Roots(), o)
    }

    lemma HeldIsLive(o: Obj)
      requires Live(kind, refs, color, white, Roots()) && Held(o)
      ensures o in kind && o in color && o in refs && o in Alive(color, white)
    {
      assert Closed(refs, Alive(color, white));
    }

    /** Barrier moving the collector forward: marks the white object a black one now points
        to; in a sweep phase it whitens the black object instead. */
    method BarrierForward(o: Obj, v: Obj)
      requires Stored(o, v) && o in color && v in color && color[o].Black? && color[v].White?
      modifies `color, `gray
      ensures Valid() && o in color && v in color
      ensures if state in {Propagate, EnterAtomic} then !color[v].White? && color[o].Black?
              else color == old(color)[o := White(white)] && gray == old(gray)
    {
      hide Tri, Marks, BlacksKept, Live, Alive, Listed, Threads, Roots, SweptTo, AlmostVisited, Elems, NoDup,
        Valid, Stored, HalfMarked, Closed, AllWhite;
      StoredPhase(o, v);
      if state in {Propagate, EnterAtomic} {
        ghost var c0 := color;
        ReallyMarkObject(v, {o}, []);
        StillBlack(c0, color, o);
        ForwardDone(kind, refs, c0, color, gray + grayagain + [], white, Roots(), o, v);
        MarkedStays(refs, c0, color, {v}, mainthread);
        MarkingValid();
      } else {
        WhitenOne(kind, refs, color, white, Roots(), o);
        SweptStays(allgc, color, white, sweep, o, White(white));
        color := color[o := White(white)];
        SweepingValid();
      }
    }

    /** Barrier moving the collector backward: the black object becomes gray again, to be
        visited once more in the atomic step. */
    method BarrierBack(o: Obj, v: Obj)
      requires Stored(o, v) && o in color && v in color && color[o].Black? && color[v].White? && kind[o] == Node
      modifies `color, `grayagain
      ensures Valid() && color == old(color)[o := Gray] && grayagain == [o] + old(grayagain)
    {
      hide Tri, Marks, BlacksKept, Live, Alive, Listed, Threads, Roots, SweptTo, AlmostVisited, Elems, NoDup,
        Valid, Stored, HalfMarked, Closed, AllWhite;
      StoredPhase(o, v);
      if state in {Propagate, EnterAtomic} {
        BackDone(kind, refs, color, gray, grayagain, white, Roots(), o);
        color := color[o := Gray];
        grayagain := [o] + grayagain;
        MarkingValid();
      } else {
        GrayOne(kind, refs, color, white, Roots(), o);
        SweptStays(allgc, color, white, sweep, o, Gray);
        color := color[o := Gray];
        grayagain := [o] + grayagain;
        SweepingValid();
      }
    }

    /** The state just after a store of `v` into `o` and before the barrier. */
    ghost predicate Stored(o: Obj, v: Obj)
      reads this
    {
      && o in kind && v in kind && kind[o] != Thread
      && Live(kind, refs, color, white, Roots()) && Listed() && Threads()
      && match state
         case Propagate => HalfMarked(o, v)
         case EnterAtomic => HalfMarked(o, v)
         case Atomic => false
         case SwpAllgc => SweptTo(allgc, color, white, sweep)
         case SwpFinobj => AllWhite(color, white) && !sweep.At?
         case SwpTobefnz => AllWhite(color, white) && !sweep.At?
         case _ => AllWhite(color, white) && sweep == None
    }

    ghost predicate HalfMarked(o: Obj, v: Obj)
      reads this
    {
      && Marking({o}, []) && mainthread in color && !color[mainthread].White? && sweep == None
      && o in refs && AlmostVisited(refs, color, o, v)
    }

    lemma StoredPhase(o: Obj, v: Obj)
      requires Stored(o, v) && o in color && color[o].Black?
      ensures state in {Propagate, EnterAtomic} || state == SwpAllgc
      ensures state in {Propagate, EnterAtomic} ==>
                && HalfMarked(o, v) && Marking({o}, []) && mainthread in color && !color[mainthread].White?
                && o in refs && AlmostVisited(refs, color, o, v) && sweep == None
      ensures state == SwpAllgc ==> SweptTo(allgc, color, white, sweep)
      ensures Live(kind, refs, color, white, Roots()) && Listed() && Threads() && v in color && color.Keys == kind.Keys
      ensures kind[o] != Thread && Roots() <= color.Keys && color[o] != White(!white)
    {
    }

    lemma MarkingValid()
      requires state in {Propagate, EnterAtomic} && Listed() && Threads() && sweep == None
      requires Live(kind, refs, color, white, Roots())
      requires Tri(kind, refs, color, gray + grayagain + [], false, white, {})
      requires mainthread in color && !color[mainthread].White?
      ensures Valid()
    {
    }

    lemma SweepingValid()
      requires state == SwpAllgc && Listed() && Threads() && SweptTo(allgc, color, white, sweep)
      requires Live(kind, refs, color, white, Roots())
      ensures Valid()
    {
    }

    lemma NoBarrier(o: Obj, v: Obj)
      requires Stored(o, v) && o in color && v in color && !(color[o].Black? && color[v].White?)
      ensures Valid()
    {
      hide Live, Alive, Tri, Roots, NoDup, Elems, AllWhite, SweptTo, AlmostVisited;
      if state in {Propagate, EnterAtomic} {
        UnneededBarrier(kind, refs, color, gray + grayagain + [], white, o, v);
      }
    }

    /** A store into a table, closure, userdata, prototype or closed upvalue, followed by one
        of the two barriers. `values` are the references the object holds afterwards: some it
        already had, and `v`. */
    method Write(o: Obj, values: seq<Obj>, v: Obj, back: bool)
      requires Valid() && Held(o) && Held(v) && o in kind && kind[o] != Thread
      requires v in kind && MayRefer(kind[o], kind[v]) && (back ==> kind[o] == Node)
      requires o in refs && forall x :: x in values ==> x in refs[o] || x == v
      modifies `refs, `color, `gray, `grayagain
      ensures Valid() && refs == old(refs)[o := values] && o in old(color) && v in old(color) && o in color && v in color
      ensures if !(old(color)[o].Black? && old(color)[v].White?)
              then color == old(color) && gray == old(gray) && grayagain == old(grayagain)
              else if back then color == old(color)[o := Gray] && grayagain == [o] + old(grayagain)
              else if state in {Propagate, EnterAtomic} then !color[v].White? && color[o].Black?
              else color == old(color)[o := White(white)]
    {
      hide Live, Alive, Tri, Roots, NoDup, Elems, AllWhite, SweptTo, AlmostVisited, Reachable;
      HeldIsLive(o);
      HeldIsLive(v);
      StoreLive(kind, refs, color, white, Roots(), o, values, v);
      if state in {Propagate, EnterAtomic} {
        StoreTri(kind, refs, color, gray + grayagain + [], white, o, values, v);
      }
      refs := refs[o := values];
      if o in color && color[o].Black? && color[v].White? {
        if back { BarrierBack(o, v); } else { BarrierForward(o, v); }
      } else {
        NoBarrier(o, v);
      }
    }

    /** Stores to a thread's stack need no barrier: a thread stays gray until the atomic step. */
    method StoreStack(th: Obj, values: seq<Obj>)
      requires Valid() && th in kind && kind[th] == Thread && th in refs && th in Alive(color, white)
      requires forall x :: x in values ==> x in Alive(color, white)
      modifies `refs
      ensures Valid() && refs == old(refs)[th := values]
    {
      hide Live, Alive, Tri, Roots, NoDup, Elems, AllWhite, SweptTo;
      StackLive(kind, refs, color, white, Roots(), th, values);
      if state in {Propagate, EnterAtomic} {
        AliveKnown(color, white);
        KeysAgree(kind, refs, color, white, Roots());
        StackTri(kind, refs, color, gray + grayagain + [], white, th, values);
      }
      refs := refs[th := values];
    }

    method WriteStack(th: Obj, values: seq<Obj>)
      requires Valid() && Held(th) && th in kind && kind[th] == Thread
      requires forall x :: x in values ==> Held(x)
      modifies `refs
      ensures Valid() && refs == old(refs)[th := values]
    {
      hide Valid, Alive, Reachable;
      ValidLive();
      HeldIsLive(th);
      forall x | x in values ensures x in Alive(color, white) { HeldIsLive(x); }
      StoreStack(th, values);
    }

    lemma ValidLive()
      requires Valid()
      ensures Live(kind, refs, color, white, Roots())
    {
    }

    lemma MainIsLive()
      requires Live(kind, refs, color, white, Roots())
      ensures mainthread in Alive(color, white) && running in Alive(color, white) && running in Roots()
      ensures LiveGraph(kind, refs, color, white)
    {
    }

    lemma NewRootsLive()
      requires LiveGraph(kind, refs, color, white) && mainthread in Alive(color, white) && running in Alive(color, white)
      requires forall x :: x in globals ==> x in Alive(color, white)
      ensures Live(kind, refs, color, white, Roots())
    {
    }

    /** The registry, the metatables of the basic types and the running thread change without a
        barrier too; the atomic step marks them again. */
    method SetRoots(list: seq<Obj>, th: Obj)
      requires Valid() && Held(th) && th in kind && kind[th] == Thread && forall x :: x in list ==> Held(x)
      modifies `globals, `running
      ensures Valid() && globals == list && running == th
    {
      hide Live, Alive, Tri, Elems, AllWhite, SweptTo, Reachable, Listed;
      forall x | x in list ensures x in Alive(color, white) { HeldIsLive(x); }
      HeldIsLive(th);
      MainIsLive();
      globals, running := list, th;
      NewRootsLive();
    }

    /** A new object is of the current white and goes to the front of the list, ahead of any sweep. */
    method LinkNew(o: Obj, k: Kind)
      requires Valid() && o !in kind
      modifies `kind, `refs, `color, `allgc, `sweep
      ensures Valid() && kind == old(kind)[o := k] && color == old(color)[o := White(white)]
      ensures refs == old(refs)[o := []]
    {
      hide Live, Alive, Phase, Roots, NoDup, Elems;
      AddLive(kind, refs, color, white, Roots(), o, k);
      KeysAgree(kind, refs, color, white, Roots());
      AddPhase(state, kind, refs, color, white, gray + grayagain + [], allgc, sweep, mainthread, o, k);
      kind, refs, color := kind[o := k], refs[o := []], color[o := White(white)];
      allgc := [o] + allgc;
      if sweep.At? { sweep := At(sweep.i + 1); }
    }

    /** Creates an object and anchors it on the running thread's stack. */
    method NewObject(o: Obj, k: Kind)
      requires Valid() && o !in kind
      modifies `kind, `refs, `color, `allgc, `sweep
      ensures Valid() && kind == old(kind)[o := k] && color == old(color)[o := White(white)]
      ensures running in old(refs) && refs == old(refs)[o := []][running := old(refs)[running] + [o]]
    {
      hide Valid, Live, Alive, Roots;
      ValidThreads();
      LinkNew(o, k);
      ValidThreads();
      Anchored(kind, refs, color, white, Roots(), running, o);
      StoreStack(running, refs[running] + [o]);
    }

    lemma ValidThreads()
      requires Valid()
      ensures Live(kind, refs, color, white, Roots()) && running in Roots()
      ensures running in kind && kind[running] == Thread && running in refs
    {
    }

    /** A step taken as quickly as possible, with what it must not free. */
    method FastStep(ghost k0: map<Obj, Kind>, ghost r0: map<Obj, seq<Obj>>, ghost gone: set<Obj>, ghost keep: set<Obj>)
      returns (ghost gone': set<Obj>)
      requires Valid() && Keeping(k0, r0, Roots(), keep)
      requires kind == k0 - gone && refs == r0 - gone && gone !! keep
      modifies `color, `kind, `refs, `allgc, `sweep, `state, `gray, `grayagain, `white
      ensures Valid() && kind == k0 - gone' && refs == r0 - gone' && gone' !! keep
      ensures old(Within(keep)) ==> Within(keep)
      ensures old(state) != Pause ==> Rank() < old(Rank())
      ensures old(state) == Pause ==> state == Propagate
      ensures state == Pause ==> old(state) == CallFin && kind == old(kind) && refs == old(refs)
      ensures old(state) == CallFin ==> state == Pause
    {
      hide Valid, Roots, Reachable, Closed, Within, Keeping;
      KeepClosed(k0, r0, Roots(), gone, keep);
      ghost var more := SingleStep(true);
      FreedMore(k0, r0, gone, more);
      NotKept(k0, r0, Roots(), gone, keep, more);
      NoneFreed(old(kind), old(refs));
      gone' := gone + more;
    }

    /** Finishes the pending cycle, if any. In a marking phase there may be black objects: they
        are swept white first; nothing is freed by that, as the white has not flipped. */
    method FinishCycle(ghost keep: set<Obj>) returns (ghost gone: set<Obj>)
      requires Valid() && Keeping(kind, refs, Roots(), keep)
      modifies `color, `kind, `refs, `allgc, `sweep, `state, `gray, `grayagain, `white
      ensures Valid() && state == Pause && kind == old(kind) - gone && refs == old(refs) - gone && gone !! keep
    {
      hide Valid, Alive, Roots, Reachable, Closed, Within, Live, Keeping, ReachSet;
      NoneFreed(kind, refs);
      ghost var r0, k0 := refs, kind;
      gone := {};
      if state in {Propagate, EnterAtomic} {
        SweepParts();
        gone := EnterSweep();
        NothingDead(k0, r0, old(color), white, Roots(), gone, keep);
      }
      while state != Pause
        invariant Valid() && kind == k0 - gone && refs == r0 - gone && gone !! keep
        decreases Rank()
      {
        gone := FastStep(k0, r0, gone, keep);
      }
    }

    /** A full collection with no mutator in between keeps exactly the reachable objects. */
    method FullInc()
      requires Valid()
      modifies `color, `kind, `refs, `allgc, `sweep, `state, `gray, `grayagain, `white
      ensures Valid() && state == Pause
      ensures forall o :: o in kind <==> o in old(kind) && Reachable(old(refs), Roots(), o)
      ensures forall o :: o in kind ==> kind[o] == old(kind)[o] && o in refs && refs[o] == old(refs)[o]
    {
      hide Valid, Alive, Roots, Reachable, Closed, Within, Live, Keeping, ReachSet;
      ghost var r0, k0, keep := refs, kind, ReachSet(kind, refs, Roots());
      ValidLive();
      KeysAgree(kind, refs, color, white, Roots());
      ReachSetKept(kind, refs, color, white, Roots());
      ghost var gone := FinishCycle(keep);
      WithinAtPause(keep);
      gone := FastStep(k0, r0, gone, keep);
      while state != CallFin
        invariant Valid() && kind == k0 - gone && refs == r0 - gone && gone !! keep && state != Pause && Within(keep)
        decreases Rank()
      {
        gone := FastStep(k0, r0, gone, keep);
      }
      KeptOnly(keep);
      gone := FastStep(k0, r0, gone, keep);
      ExactlyReachable(k0, r0, Roots(), gone);
    }

    lemma SweepParts()
      requires Valid()
      ensures Live(kind, refs, color, white, Roots()) && Listed() && Threads()
      ensures state in {Propagate, EnterAtomic} ==> Alive(color, white) == color.Keys
    {
    }

    lemma WithinAtPause(s: set<Obj>)
      requires state == Pause
      ensures Within(s)
    {
    }

    lemma KeptOnly(s: set<Obj>)
      requires Valid() && state == CallFin && Within(s)
      ensures kind.Keys <= s
    {
      assert Alive(color, white) == kind.Keys;
    }
  }

  ghost function NonBlack(color: map<Obj, Color>): set<Obj> { set o | o in color && !color[o].Black? }

  ghost function Blacks(color: map<Obj, Color>): set<Obj> { set o | o in color && color[o].Black? }

  /** Marking is over: every object is black or of white `w`, and the black ones are closed. */
  ghost predicate Finished(refs: map<Obj, seq<Obj>>, color: map<Obj, Color>, w: bool) {
    (forall o :: o in color ==> color[o] in {Black, White(w)}) && Closed(refs, Blacks(color))
  }

  lemma FewerNonBlack(refs: map<Obj, seq<Obj>>, c0: map<Obj, Color>, c1: map<Obj, Color>, o: Obj)
    requires c0.Keys == c1.Keys && BlacksKept(c0, c1) && o in c0 && !c0[o].Black? && c1[o].Black?
    ensures |NonBlack(c1)| < |NonBlack(c0)|
  {
    Smaller(NonBlack(c1), NonBlack(c0), o);
  }

  lemma {:induction false} Smaller(a: set<Obj>, b: set<Obj>, x: Obj)
    requires a <= b && x in b && x !in a
    ensures |a| < |b|
  {
    if a != {} {
      var y :| y in a;
      Smaller(a - {y}, b - {y}, x);
    }
  }

  lemma ToAtomic(kind: map<Obj, Kind>, refs: map<Obj, seq<Obj>>, color: map<Obj, Color>, lists: seq<Obj>, white: bool)
    requires Tri(kind, refs, color, lists, false, white, {})
    ensures Tri(kind, refs, color, lists, true, white, {})
    ensures color.Keys == kind.Keys && forall o :: o in kind ==> Depth(kind[o]) < 3
  {
  }

  lemma ElemsIn(s: seq<Obj>, more: set<Obj>, all: set<Obj>)
    requires Elems(s) + more <= all
    ensures forall v :: v in s ==> v in all
  {
    forall v | v in s ensures v in all { assert v in Elems(s); }
  }

  lemma RootsBlack(refs: map<Obj, seq<Obj>>, color: map<Obj, Color>, roots: set<Obj>, w: bool)
    requires Finished(refs, color, w) && forall r :: r in roots ==> r in color && !color[r].White?
    ensures roots <= Blacks(color)
  {
  }

  lemma AtomicFinished(kind: map<Obj, Kind>, refs: map<Obj, seq<Obj>>, color: map<Obj, Color>, white: bool)
    requires Tri(kind, refs, color, [], true, white, {})
    ensures Finished(refs, color, white)
  {
    forall o, v | o in Blacks(color) && o in refs && v in refs[o] ensures v in Blacks(color) {
      assert Visited(refs, color, o);
    }
  }

  lemma AtomicMarks(refs: map<Obj, seq<Obj>>, c0: map<Obj, Color>, c1: map<Obj, Color>, c2: map<Obj, Color>,
                    list: seq<Obj>, roots: set<Obj>, main: Obj)
    requires Marks(refs, c0, c1, Elems(list)) && Marks(refs, c1, c2, {})
    requires roots == Elems(list) + {main} && roots <= c0.Keys && !c0[main].White?
    requires forall v :: v in list ==> v in c1 && !c1[v].White?
    ensures c2.Keys == c0.Keys && forall r :: r in roots ==> r in c2 && !c2[r].White?
    ensures forall s: set<Obj> :: Closed(refs, s) && MarkedIn(c0, s) && roots <= s ==> Blacks(c2) <= s
  {
    forall s: set<Obj> | Closed(refs, s) && MarkedIn(c0, s) && roots <= s ensures Blacks(c2) <= s {
      assert MarkedIn(c1, s) && MarkedIn(c2, s);
    }
  }

  /** Everything but the dead: the objects of the white that is not the current one. */
  ghost function Alive(color: map<Obj, Color>, white: bool): set<Obj> {
    set o | o in color && color[o] != White(!white)
  }

  /** The live objects hold the roots, refer only to live objects, and those references are sound.
      What a dead object refers to may already be gone. */
  ghost predicate Live(kind: map<Obj, Kind>, refs: map<Obj, seq<Obj>>, color: map<Obj, Color>, white: bool, roots: set<Obj>) {
    LiveGraph(kind, refs, color, white) && roots <= Alive(color, white)
  }

  ghost predicate LiveGraph(kind: map<Obj, Kind>, refs: map<Obj, seq<Obj>>, color: map<Obj, Color>, white: bool) {
    && refs.Keys == kind.Keys == color.Keys
    && forall o, v :: o in refs && o in Alive(color, white) && v in refs[o]
                      ==> v in Alive(color, white) && MayRefer(kind[o], kind[v])
  }

  ghost predicate AllWhite(color: map<Obj, Color>, white: bool) {
    forall o :: o in color ==> color[o] == White(white)
  }

  /** Everything before the sweep pointer is white again. */
  ghost predicate SweptTo(allgc: seq<Obj>, color: map<Obj, Color>, white: bool, sweep: Sweep) {
    match sweep
    case None => AllWhite(color, white)
    case AtEmpty => false
    case At(i) => i <= |allgc| && forall j :: 0 <= j < i ==> allgc[j] in color && color[allgc[j]] == White(white)
  }

  /** What each state of the collector promises. */
  ghost predicate Phase(state: State, kind: map<Obj, Kind>, refs: map<Obj, seq<Obj>>, color: map<Obj, Color>, white: bool,
                        lists: seq<Obj>, allgc: seq<Obj>, sweep: Sweep, main: Obj) {
    match state
    case Propagate => Tri(kind, refs, color, lists, false, white, {}) && main in color && !color[main].White? && sweep == None
    case EnterAtomic => Tri(kind, refs, color, lists, false, white, {}) && main in color && !color[main].White? && sweep == None
    case Atomic => false // never seen by the mutator
    case SwpAllgc => SweptTo(allgc, color, white, sweep)
    case SwpFinobj => AllWhite(color, white) && !sweep.At?
    case SwpTobefnz => AllWhite(color, white) && !sweep.At?
    case _ => AllWhite(color, white) && sweep == None
  }

  /** A new white object at the front of the list disturbs no phase. */
  lemma AddPhase(state: State, kind: map<Obj, Kind>, refs: map<Obj, seq<Obj>>, color: map<Obj, Color>, white: bool,
                 lists: seq<Obj>, allgc: seq<Obj>, sweep: Sweep, main: Obj, o: Obj, k: Kind)
    requires Phase(state, kind, refs, color, white, lists, allgc, sweep, main)
    requires NoDup(allgc) && Elems(allgc) == kind.Keys == color.Keys && o !in kind
    ensures Phase(state, kind[o := k], refs[o := []], color[o := White(white)], white, lists, [o] + allgc,
                  if sweep.At? then At(sweep.i + 1) else sweep, main)
    ensures NoDup([o] + allgc) && Elems([o] + allgc) == kind[o := k].Keys
  {
    hide Tri, NoDup, Elems, AllWhite, SweptTo;
    AddListed(allgc, kind, color, white, sweep, o, k);
    AddWhite(color, white, o);
    if state in {Propagate, EnterAtomic} {
      AddTri(kind, refs, color, lists, white, o, k);
    }
  }

  /** Nothing dead is reachable. */
  lemma DeadIsUnreachable(kind: map<Obj, Kind>, refs: map<Obj, seq<Obj>>, color: map<Obj, Color>, white: bool,
                          roots: set<Obj>, o: Obj)
    requires Live(kind, refs, color, white, roots) && o !in Alive(color, white)
    ensures !Reachable(refs, roots, o)
  {
    assert Closed(refs, Alive(color, white));
  }

  /** Freeing dead objects changes reachability for no object. */
  lemma FreeKeepsReachable(kind: map<Obj, Kind>, refs: map<Obj, seq<Obj>>, color: map<Obj, Color>, white: bool,
                           roots: set<Obj>, freed: set<Obj>, o: Obj)
    requires Live(kind, refs, color, white, roots) && freed !! Alive(color, white)
    ensures Reachable(refs - freed, roots, o) <==> Reachable(refs, roots, o)
  {
    var alive := Alive(color, white);
    if Reachable(refs, roots, o) {
      forall s: set<Obj> | Closed(refs - freed, s) && roots <= s ensures o in s {
        assert Closed(refs, s * alive);
      }
    }
    if Reachable(refs - freed, roots, o) {
      forall s: set<Obj> | Closed(refs, s) && roots <= s ensures o in s {
        assert Closed(refs - freed, s);
      }
    }
  }

  lemma FreeOne(kind: map<Obj, Kind>, refs: map<Obj, seq<Obj>>, color: map<Obj, Color>, white: bool, roots: set<Obj>, o: Obj)
    requires Live(kind, refs, color, white, roots) && o in color && color[o] == White(!white)
    ensures Live(kind - {o}, refs - {o}, color - {o}, white, roots)
    ensures Alive(color - {o}, white) == Alive(color, white) && o !in Alive(color, white)
  {
    assert Alive(color - {o}, white) == Alive(color, white);
    forall x, v | x in refs - {o} && x in Alive(color, white) && v in refs[x]
      ensures v in Alive(color, white) && v in kind - {o} && MayRefer(kind[x], kind[v]) {
    }
  }

  lemma WhitenOne(kind: map<Obj, Kind>, refs: map<Obj, seq<Obj>>, color: map<Obj, Color>, white: bool, roots: set<Obj>, o: Obj)
    requires Live(kind, refs, color, white, roots) && o in color && color[o] != White(!white)
    ensures Live(kind, refs, color[o := White(white)], white, roots)
    ensures Alive(color[o := White(white)], white) == Alive(color, white)
  {
    assert Alive(color[o := White(white)], white) == Alive(color, white);
  }

  lemma DropAt(allgc: seq<Obj>, color: map<Obj, Color>, white: bool, i: nat, kind: map<Obj, Kind>)
    requires NoDup(allgc) && i < |allgc| && SweptTo(allgc, color, white, At(i)) && Elems(allgc) == kind.Keys
    ensures var rest := allgc[..i] + allgc[i + 1..];
            NoDup(rest) && SweptTo(rest, color - {allgc[i]}, white, At(i)) && Elems(rest) == (kind - {allgc[i]}).Keys
  {
    var rest := allgc[..i] + allgc[i + 1..];
    forall a, b | 0 <= a < b < |rest| ensures rest[a] != rest[b] {
      assert rest[a] == allgc[if a < i then a else a + 1] && rest[b] == allgc[if b < i then b else b + 1];
    }
    DropElems(allgc, i);
  }

  lemma DropElems(allgc: seq<Obj>, i: nat)
    requires NoDup(allgc) && i < |allgc|
    ensures Elems(allgc[..i] + allgc[i + 1..]) == Elems(allgc) - {allgc[i]}
  {
    var rest := allgc[..i] + allgc[i + 1..];
    forall x | x in allgc && x != allgc[i] ensures x in rest {
      var k :| 0 <= k < |allgc| && allgc[k] == x;
      assert rest[if k < i then k else k - 1] == x;
    }
    forall x | x in rest ensures x in allgc && x != allgc[i] {
      var k :| 0 <= k < |rest| && rest[k] == x;
      assert x == allgc[if k < i then k else k + 1];
    }
  }

  lemma WhiteAt(allgc: seq<Obj>, color: map<Obj, Color>, white: bool, i: nat)
    requires i < |allgc| && SweptTo(allgc, color, white, At(i))
    ensures SweptTo(allgc, color[allgc[i] := White(white)], white, At(i + 1))
  {
  }

  lemma NoneFreed(kind: map<Obj, Kind>, refs: map<Obj, seq<Obj>>)
    ensures kind - {} == kind && refs - {} == refs && kind.Keys - kind.Keys == {}
  {
  }

  lemma FreedMore(kind: map<Obj, Kind>, refs: map<Obj, seq<Obj>>, a: set<Obj>, b: set<Obj>)
    ensures kind - a - b == kind - (a + b) && refs - a - b == refs - (a + b)
  {
  }

  lemma SweptAll(allgc: seq<Obj>, kind: map<Obj, Kind>, color: map<Obj, Color>, white: bool)
    requires SweptTo(allgc, color, white, At(|allgc|)) && Elems(allgc) == kind.Keys
    ensures color.Keys == kind.Keys ==> AllWhite(color, white)
  {
    if color.Keys == kind.Keys {
      forall o | o in color ensures color[o] == White(white) {
        assert o in Elems(allgc);
      }
    }
  }

  lemma KeysAgree(kind: map<Obj, Kind>, refs: map<Obj, seq<Obj>>, color: map<Obj, Color>, white: bool, roots: set<Obj>)
    requires Live(kind, refs, color, white, roots)
    ensures refs.Keys == kind.Keys == color.Keys
  {
  }

  const GCSWEEPMAX: nat := 20

  lemma FreshTri(kind: map<Obj, Kind>, refs: map<Obj, seq<Obj>>, color: map<Obj, Color>, white: bool, roots: set<Obj>)
    requires Live(kind, refs, color, white, roots) && AllWhite(color, white)
    ensures Tri(kind, refs, color, [], false, white, {}) && roots <= color.Keys && color.Keys == kind.Keys
    ensures forall o :: o in kind ==> Depth(kind[o]) < 3
  {
    forall o, v | o in refs && v in refs[o] ensures v in kind && MayRefer(kind[o], kind[v]) {
      assert o in Alive(color, white);
      assert v in Alive(color, white) && v in color;
    }
  }

  lemma RestartMarks(refs: map<Obj, seq<Obj>>, c0: map<Obj, Color>, c1: map<Obj, Color>, white: bool,
                     list: seq<Obj>, roots: set<Obj>)
    requires AllWhite(c0, white) && Marks(refs, c0, c1, Elems(list)) && Elems(list) <= roots
    ensures forall s: set<Obj> :: Closed(refs, s) && roots <= s ==> MarkedIn(c1, s)
  {
  }

  lemma MarksWithin(refs: map<Obj, seq<Obj>>, c0: map<Obj, Color>, c1: map<Obj, Color>)
    requires Marks(refs, c0, c1, {})
    ensures forall s: set<Obj> :: Closed(refs, s) && MarkedIn(c0, s) ==> MarkedIn(c1, s)
  {
  }

  lemma RootsKnown(kind: map<Obj, Kind>, refs: map<Obj, seq<Obj>>, color: map<Obj, Color>, white: bool, roots: set<Obj>)
    requires Live(kind, refs, color, white, roots)
    ensures roots <= color.Keys
  {
  }

  /** While marking, nothing is dead. */
  lemma GraphLive(kind: map<Obj, Kind>, refs: map<Obj, seq<Obj>>, color: map<Obj, Color>, lists: seq<Obj>,
                  white: bool, roots: set<Obj>)
    requires Tri(kind, refs, color, lists, false, white, {}) && roots <= color.Keys
    ensures Live(kind, refs, color, white, roots)
  {
  }

  /** Once marking is over and the white flipped, the black objects are the live ones. */
  lemma AfterAtomic(kind: map<Obj, Kind>, refs: map<Obj, seq<Obj>>, color: map<Obj, Color>, white: bool, roots: set<Obj>)
    requires Graph(kind, refs) && color.Keys == kind.Keys && Finished(refs, color, !white) && roots <= Blacks(color)
    ensures Alive(color, white) == Blacks(color) && Live(kind, refs, color, white, roots)
  {
    assert Alive(color, white) == Blacks(color);
  }

  lemma FreedUnreachable(kind: map<Obj, Kind>, refs: map<Obj, seq<Obj>>, color: map<Obj, Color>, white: bool,
                         roots: set<Obj>, freed: set<Obj>)
    requires Live(kind, refs, color, white, roots) && freed !! Alive(color, white)
    ensures forall f :: f in freed ==> !Reachable(refs, roots, f)
  {
    forall f | f in freed ensures !Reachable(refs, roots, f) {
      DeadIsUnreachable(kind, refs, color, white, roots, f);
    }
  }

  /** All references of `o` are marked, except possibly to `v`. */
  ghost predicate AlmostVisited(refs: map<Obj, seq<Obj>>, color: map<Obj, Color>, o: Obj, v: Obj)
    requires o in refs
  {
    o in color && color[o].Black? ==> forall x :: x in refs[o] && x != v ==> x in color && !color[x].White?
  }

  lemma AliveKnown(color: map<Obj, Color>, white: bool)
    ensures forall x :: x in Alive(color, white) ==> x in color
  {
  }

  lemma StackLive(kind: map<Obj, Kind>, refs: map<Obj, seq<Obj>>, color: map<Obj, Color>, white: bool, roots: set<Obj>,
                  th: Obj, values: seq<Obj>)
    requires Live(kind, refs, color, white, roots) && th in kind && kind[th] == Thread && th in refs
    requires forall x :: x in values ==> x in Alive(color, white)
    ensures Live(kind, refs[th := values], color, white, roots)
  {
  }

  lemma StackTri(kind: map<Obj, Kind>, refs: map<Obj, seq<Obj>>, color: map<Obj, Color>, lists: seq<Obj>, white: bool,
                 th: Obj, values: seq<Obj>)
    requires Tri(kind, refs, color, lists, false, white, {}) && th in kind && kind[th] == Thread && th in refs
    requires forall x :: x in values ==> x in kind
    ensures Tri(kind, refs[th := values], color, lists, false, white, {})
  {
    var refs' := refs[th := values];
    assert BlackVisited(refs', color, {}) by {
      forall x | x in color && x in refs' && color[x].Black? ensures Visited(refs', color, x) {
        assert Visited(refs, color, x);
      }
    }
  }

  lemma AddLive(kind: map<Obj, Kind>, refs: map<Obj, seq<Obj>>, color: map<Obj, Color>, white: bool, roots: set<Obj>,
                o: Obj, k: Kind)
    requires Live(kind, refs, color, white, roots) && o !in kind
    ensures Live(kind[o := k], refs[o := []], color[o := White(white)], white, roots)
  {
    assert Alive(color[o := White(white)], white) == Alive(color, white) + {o};
  }

  lemma AddListed(allgc: seq<Obj>, kind: map<Obj, Kind>, color: map<Obj, Color>, white: bool, sweep: Sweep, o: Obj, k: Kind)
    requires NoDup(allgc) && Elems(allgc) == kind.Keys == color.Keys && o !in kind
    ensures NoDup([o] + allgc) && Elems([o] + allgc) == kind[o := k].Keys
    ensures SweptTo(allgc, color, white, sweep)
            ==> SweptTo([o] + allgc, color[o := White(white)], white, if sweep.At? then At(sweep.i + 1) else sweep)
  {
    assert o !in Elems(allgc);
    assert o !in allgc;
    ConsNoDup(o, allgc);
    if SweptTo(allgc, color, white, sweep) && sweep.At? {
      forall j | 0 <= j < sweep.i + 1
        ensures ([o] + allgc)[j] in color[o := White(white)] && color[o := White(white)][([o] + allgc)[j]] == White(white)
      {
        if j > 0 { assert ([o] + allgc)[j] == allgc[j - 1]; }
      }
    }
  }

  lemma AddTri(kind: map<Obj, Kind>, refs: map<Obj, seq<Obj>>, color: map<Obj, Color>, lists: seq<Obj>, white: bool,
               o: Obj, k: Kind)
    requires Tri(kind, refs, color, lists, false, white, {}) && o !in kind
    ensures Tri(kind[o := k], refs[o := []], color[o := White(white)], lists, false, white, {})
  {
    hide BlackVisited, Graph, GrayListed, KindColors, OneWhite;
    AddVisited(kind, refs, color, white, o);
    AddGraph(kind, refs, o, k);
    AddColors(kind, color, lists, white, o, k);
  }

  lemma AddVisited(kind: map<Obj, Kind>, refs: map<Obj, seq<Obj>>, color: map<Obj, Color>, white: bool, o: Obj)
    requires Graph(kind, refs) && color.Keys == kind.Keys && BlackVisited(refs, color, {}) && o !in kind
    ensures BlackVisited(refs[o := []], color[o := White(white)], {})
  {
    var refs', color' := refs[o := []], color[o := White(white)];
    forall x | x in color' && x in refs' && color'[x].Black? ensures Visited(refs', color', x) {
      assert Visited(refs, color, x);
      forall v | v in refs'[x] ensures v in color' && !color'[v].White? { assert v in refs[x]; }
    }
  }

  lemma AddGraph(kind: map<Obj, Kind>, refs: map<Obj, seq<Obj>>, o: Obj, k: Kind)
    requires Graph(kind, refs) && o !in kind
    ensures Graph(kind[o := k], refs[o := []])
  {
    hide MayRefer;
  }

  lemma AddColors(kind: map<Obj, Kind>, color: map<Obj, Color>, lists: seq<Obj>, white: bool, o: Obj, k: Kind)
    requires color.Keys == kind.Keys && GrayListed(color, lists) && KindColors(kind, color, false) && OneWhite(color, white) && o !in kind
    ensures var color' := color[o := White(white)];
            GrayListed(color', lists) && KindColors(kind[o := k], color', false) && OneWhite(color', white)
  {
    hide NoDup;
  }

  lemma AddWhite(color: map<Obj, Color>, white: bool, o: Obj)
    ensures AllWhite(color, white) ==> AllWhite(color[o := White(white)], white)
  {
  }

  lemma Anchored(kind: map<Obj, Kind>, refs: map<Obj, seq<Obj>>, color: map<Obj, Color>, white: bool, roots: set<Obj>,
                 th: Obj, o: Obj)
    requires Live(kind, refs, color, white, roots) && th in roots && o in color && color[o] == White(white)
    ensures th in refs && th in Alive(color, white) && forall x :: x in refs[th] + [o] ==> x in Alive(color, white)
  {
  }

  /** The reachable objects. */
  ghost function ReachSet(kind: map<Obj, Kind>, refs: map<Obj, seq<Obj>>, roots: set<Obj>): set<Obj> {
    set o | o in kind && Reachable(refs, roots, o)
  }

  /** `keep` is the set of reachable objects of the graph `r0`. */
  ghost predicate Keeping(k0: map<Obj, Kind>, r0: map<Obj, seq<Obj>>, roots: set<Obj>, keep: set<Obj>) {
    Closed(r0, keep) && roots <= keep && keep == ReachSet(k0, r0, roots)
  }

  lemma ReachSetKept(kind: map<Obj, Kind>, refs: map<Obj, seq<Obj>>, color: map<Obj, Color>, white: bool, roots: set<Obj>)
    requires Live(kind, refs, color, white, roots)
    ensures Keeping(kind, refs, roots, ReachSet(kind, refs, roots))
  {
    assert Closed(refs, Alive(color, white));
    forall o, v | o in ReachSet(kind, refs, roots) && o in refs && v in refs[o] ensures v in ReachSet(kind, refs, roots) {
      forall s: set<Obj> | Closed(refs, s) && roots <= s ensures v in s { assert o in s; }
      assert v in Alive(color, white);
    }
  }

  lemma KeepClosed(k0: map<Obj, Kind>, r0: map<Obj, seq<Obj>>, roots: set<Obj>, gone: set<Obj>, keep: set<Obj>)
    requires Keeping(k0, r0, roots, keep)
    ensures Closed(r0 - gone, keep) && roots <= keep
  {
  }

  /** Reachable objects stay reachable when only unreachable ones are gone, so none is freed. */
  lemma NotKept(k0: map<Obj, Kind>, r0: map<Obj, seq<Obj>>, roots: set<Obj>, gone: set<Obj>, keep: set<Obj>, more: set<Obj>)
    requires Keeping(k0, r0, roots, keep) && gone !! keep
    requires forall f :: f in more ==> !Reachable(r0 - gone, roots, f)
    ensures gone + more !! keep
  {
    forall f | f in more ensures f !in keep {
      if f in keep {
        forall s: set<Obj> | Closed(r0 - gone, s) && roots <= s ensures f in s {
          assert Closed(r0, s * keep);
          assert f in s * keep;
        }
        assert Reachable(r0 - gone, roots, f);
      }
    }
  }

  lemma NothingDead(kind: map<Obj, Kind>, refs: map<Obj, seq<Obj>>, color: map<Obj, Color>, white: bool, roots: set<Obj>,
                    freed: set<Obj>, keep: set<Obj>)
    requires Live(kind, refs, color, white, roots) && freed !! Alive(color, white) && Keeping(kind, refs, roots, keep)
    ensures freed !! keep
  {
    FreedUnreachable(kind, refs, color, white, roots, freed);
  }

  lemma ExactlyReachable(k0: map<Obj, Kind>, r0: map<Obj, seq<Obj>>, roots: set<Obj>, gone: set<Obj>)
    requires r0.Keys == k0.Keys && gone !! ReachSet(k0, r0, roots) && (k0 - gone).Keys <= ReachSet(k0, r0, roots)
    ensures forall o :: o in k0 - gone <==> o in k0 && Reachable(r0, roots, o)
    ensures forall o :: o in k0 - gone ==> (k0 - gone)[o] == k0[o] && o in r0 - gone && (r0 - gone)[o] == r0[o]
  {
  }

  lemma StoreLive(kind: map<Obj, Kind>, refs: map<Obj, seq<Obj>>, color: map<Obj, Color>, white: bool, roots: set<Obj>,
                  o: Obj, values: seq<Obj>, v: Obj)
    requires Live(kind, refs, color, white, roots) && o in kind && v in kind && MayRefer(kind[o], kind[v])
    requires o in refs && v in Alive(color, white) && o in Alive(color, white)
    requires forall x :: x in values ==> x in refs[o] || x == v
    ensures Live(kind, refs[o := values], color, white, roots)
  {
  }

  lemma StoreTri(kind: map<Obj, Kind>, refs: map<Obj, seq<Obj>>, color: map<Obj, Color>, lists: seq<Obj>, white: bool,
                 o: Obj, values: seq<Obj>, v: Obj)
    requires Tri(kind, refs, color, lists, false, white, {}) && o in kind && v in kind && MayRefer(kind[o], kind[v])
    requires o in refs && forall x :: x in values ==> x in refs[o] || x == v
    ensures Tri(kind, refs[o := values], color, lists, false, white, {o})
    ensures AlmostVisited(refs[o := values], color, o, v)
  {
    var refs' := refs[o := values];
    assert BlackVisited(refs', color, {o}) by {
      forall x | x in color && x in refs' && color[x].Black? && x != o ensures Visited(refs', color, x) {
        assert Visited(refs, color, x);
      }
    }
    if o in color && color[o].Black? { assert Visited(refs, color, o); }
  }

  lemma UnneededBarrier(kind: map<Obj, Kind>, refs: map<Obj, seq<Obj>>, color: map<Obj, Color>, lists: seq<Obj>,
                        white: bool, o: Obj, v: Obj)
    requires Tri(kind, refs, color, lists, false, white, {o}) && o in refs && AlmostVisited(refs, color, o, v)
    requires o in color && v in color && !(color[o].Black? && color[v].White?)
    ensures Tri(kind, refs, color, lists, false, white, {})
  {
    assert color[o].Black? ==> Visited(refs, color, o);
    assert BlackVisited(refs, color, {});
  }

  lemma ForwardDone(kind: map<Obj, Kind>, refs: map<Obj, seq<Obj>>, c0: map<Obj, Color>, color: map<Obj, Color>,
                    lists: seq<Obj>, white: bool, roots: set<Obj>, o: Obj, v: Obj)
    requires Tri(kind, refs, color, lists, false, white, {o}) && Marks(refs, c0, color, {v}) && roots <= c0.Keys
    requires o in refs && o in c0 && c0[o].Black? && AlmostVisited(refs, c0, o, v) && v in color && !color[v].White?
    ensures Tri(kind, refs, color, lists, false, white, {}) && Live(kind, refs, color, white, roots)
  {
    assert Visited(refs, color, o);
    assert {} + {o} == {o};
    Exempt(kind, refs, color, lists, false, white, {}, o);
    GraphLive(kind, refs, color, lists, white, roots);
  }

  lemma StillBlack(c0: map<Obj, Color>, color: map<Obj, Color>, o: Obj)
    requires BlacksKept(c0, color) && o in c0 && c0[o].Black?
    ensures o in color && color[o].Black?
  {
  }

  lemma MarkedStays(refs: map<Obj, seq<Obj>>, c0: map<Obj, Color>, color: map<Obj, Color>, from: set<Obj>, m: Obj)
    requires Marks(refs, c0, color, from) && m in c0 && !c0[m].White?
    ensures m in color && !color[m].White?
  {
  }

  lemma SweptStays(allgc: seq<Obj>, color: map<Obj, Color>, white: bool, sweep: Sweep, o: Obj, c: Color)
    requires SweptTo(allgc, color, white, sweep) && o in color && color[o].Black?
    ensures SweptTo(allgc, color[o := c], white, sweep)
  {
  }

  lemma GrayOne(kind: map<Obj, Kind>, refs: map<Obj, seq<Obj>>, color: map<Obj, Color>, white: bool, roots: set<Obj>, o: Obj)
    requires Live(kind, refs, color, white, roots) && o in color && color[o].Black?
    ensures Live(kind, refs, color[o := Gray], white, roots)
  {
    assert Alive(color[o := Gray], white) == Alive(color, white) && color[o := Gray].Keys == color.Keys;
    hide Alive, MayRefer;
  }

  lemma BackDone(kind: map<Obj, Kind>, refs: map<Obj, seq<Obj>>, color: map<Obj, Color>, gray: seq<Obj>, again: seq<Obj>,
                 white: bool, roots: set<Obj>, o: Obj)
    requires Tri(kind, refs, color, gray + again + [], false, white, {o}) && roots <= color.Keys
    requires o in color && color[o].Black? && o in kind && kind[o] == Node
    ensures Tri(kind, refs, color[o := Gray], gray + ([o] + again) + [], false, white, {})
    ensures Live(kind, refs, color[o := Gray], white, roots)
  {
    var color', lists := color[o := Gray], gray + ([o] + again) + [];
    assert BlackVisited(refs, color', {}) by {
      forall x | x in color' && x in refs && color'[x].Black? ensures Visited(refs, color', x) {
        assert Visited(refs, color, x);
      }
    }
    assert GrayListed(color', lists) by {
      hide Graph, BlackVisited, KindColors, OneWhite;
      assert gray + again + [] == gray + again && o !in gray + again;
      ConsNoDup(o, gray + again);
      MovedNoDup(o, gray, again);
      assert lists == gray + ([o] + again);
      assert forall x :: x in lists <==> x == o || x in gray + again;
    }
    hide Visited, BlackVisited, GrayListed;
    GraphLive(kind, refs, color', lists, white, roots);
  }

  lemma GrayHead(kind: map<Obj, Kind>, refs: map<Obj, seq<Obj>>, color: map<Obj, Color>, o: Obj, rest: seq<Obj>,
                 atomic: bool, white: bool)
    requires Tri(kind, refs, color, [o] + rest, atomic, white, {})
    ensures o in color && color[o].Gray?
  {
    assert o in [o] + rest;
  }

  /** The object taken from the gray list turns black; it is exempt until its references are marked. */
  lemma Blacken(kind: map<Obj, Kind>, refs: map<Obj, seq<Obj>>, color: map<Obj, Color>, o: Obj, rest: seq<Obj>,
                atomic: bool, white: bool)
    requires Tri(kind, refs, color, [o] + rest, atomic, white, {})
    requires o in color && color[o].Gray? && o in kind && (atomic || kind[o] != Thread)
    ensures Tri(kind, refs, color[o := Black], rest, atomic, white, {o})
    ensures Marks(refs, color, color[o := Black], {}) && BlacksKept(color, color[o := Black])
  {
    assert BlackVisited(refs, color, {o});
    Repaint(refs, color, o, Black, {o});
    PaintMarks(refs, color, o, Black);
    hide Visited, BlackVisited, Graph, Marks, MarkedIn, Closed, GrayListed, KindColors, OneWhite, BlacksKept;
    FirstBlack(kind, color, o, rest, atomic, white);
  }

  lemma FirstBlack(kind: map<Obj, Kind>, color: map<Obj, Color>, o: Obj, rest: seq<Obj>, atomic: bool, white: bool)
    requires GrayListed(color, [o] + rest) && KindColors(kind, color, atomic) && OneWhite(color, white)
    requires o in color && color[o].Gray? && o in kind && (atomic || kind[o] != Thread)
    ensures var color' := color[o := Black]; GrayListed(color', rest) && KindColors(kind, color', atomic) && OneWhite(color', white)
  {
    TailNoDup(o, rest);
    hide NoDup;
    assert forall x :: x in [o] + rest <==> x == o || x in rest;
  }

  lemma TailNoDup(o: Obj, s: seq<Obj>)
    requires NoDup([o] + s)
    ensures NoDup(s) && o !in s
  {
    forall a, b | 0 <= a < b < |s| ensures s[a] != s[b] {
      assert ([o] + s)[a + 1] == s[a] && ([o] + s)[b + 1] == s[b];
    }
    forall b | 0 <= b < |s| ensures s[b] != o {
      assert ([o] + s)[0] == o && ([o] + s)[b + 1] == s[b];
    }
  }

  /** Moving a gray object from one gray list to another changes nothing. */
  lemma Relink(kind: map<Obj, Kind>, refs: map<Obj, seq<Obj>>, color: map<Obj, Color>, o: Obj,
               gray: seq<Obj>, again: seq<Obj>, extra: seq<Obj>, white: bool)
    requires Tri(kind, refs, color, [o] + (gray + again + extra), false, white, {})
    ensures Tri(kind, refs, color, gray + ([o] + again) + extra, false, white, {})
  {
    hide Visited, BlackVisited, Graph, KindColors, OneWhite;
    var l, l' := [o] + (gray + again + extra), gray + ([o] + again) + extra;
    assert forall x :: x in l <==> x == o || x in gray || x in again || x in extra;
    assert forall x :: x in l' <==> x == o || x in gray || x in again || x in extra;
    assert l == [o] + (gray + (again + extra));
    assert l' == gray + ([o] + (again + extra));
    MovedNoDup(o, gray, again + extra);
  }

  lemma MovedNoDup(o: Obj, a: seq<Obj>, b: seq<Obj>)
    requires NoDup([o] + (a + b))
    ensures NoDup(a + ([o] + b))
  {
    var s, s' := [o] + (a + b), a + ([o] + b);
    forall i, j | 0 <= i < j < |s'| ensures s'[i] != s'[j] {
      var i' := if i < |a| then i + 1 else if i == |a| then 0 else i;
      var j' := if j < |a| then j + 1 else if j == |a| then 0 else j;
      assert s[i'] == s'[i] && s[j'] == s'[j] && i' != j';
    }
  }

  /** Marking what a marked object refers to stays inside every closed set that holds the marks. */
  lemma MarksOfGray(refs: map<Obj, seq<Obj>>, c0: map<Obj, Color>, c1: map<Obj, Color>, o: Obj)
    requires o in refs && o in c0 && !c0[o].White? && Marks(refs, c0, c1, Elems(refs[o]))
    ensures Marks(refs, c0, c1, {})
  {
    forall s: set<Obj> | Closed(refs, s) && MarkedIn(c0, s) ensures MarkedIn(c1, s) {
      assert o in s;
      assert Elems(refs[o]) <= s;
    }
  }

  lemma KeptBlack(c0: map<Obj, Color>, c1: map<Obj, Color>, o: Obj)
    requires BlacksKept(c0, c1) && o in c0 && c0[o].Black?
    ensures o in c1 && c1[o].Black?
  {
  }

  lemma BlacksTrans(a: map<Obj, Color>, b: map<Obj, Color>, c: map<Obj, Color>)
    ensures BlacksKept(a, b) && BlacksKept(b, c) ==> BlacksKept(a, c)
  {
  }

  lemma MarksNothing(refs: map<Obj, seq<Obj>>, c: map<Obj, Color>)
    ensures Marks(refs, c, c, Elems([])) && BlacksKept(c, c)
  {
  }

  lemma MarksNothingFrom(refs: map<Obj, seq<Obj>>, c: map<Obj, Color>, from: set<Obj>)
    ensures Marks(refs, c, c, from)
  {
  }

  lemma MarksKeep(refs: map<Obj, seq<Obj>>, c0: map<Obj, Color>, c1: map<Obj, Color>, from: set<Obj>)
    requires Marks(refs, c0, c1, from)
    ensures c0.Keys == c1.Keys
    ensures forall o :: o in c0 && !c0[o].White? ==> !c1[o].White?
  {
  }

  lemma ElemsStep(s: seq<Obj>, i: nat)
    requires i < |s|
    ensures Elems(s[..i + 1]) == Elems(s[..i]) + {s[i]} && s[i] in s
  {
    assert s[..i + 1] == s[..i] + [s[i]];
  }
}
