/** Domain names in DNS messages: which names are valid (section 2.3.4 of RFC 1035), how they are written,
    and reading them back through compression pointers (section 4.1.4 of RFC 1035). */
module DnsNames {
  type Byte = x: int | 0 <= x < 256

  type Text = seq<Byte>

  const DOT: Byte := 46
  const MAX_STEPS: nat := 128
  const OUT_SIZE: nat := 256

  datatype Option<T> = None | Some(value: T)

  function Lower(c: Byte): (r: Byte)
    ensures !(65 <= r <= 90) && (r == c || (65 <= c <= 90 && 97 <= r <= 122 && r - 97 == c - 65))
  {
    if 65 <= c <= 90 then c + 32 else c
  }

  function LowerAll(s: Text): (r: Text)
    ensures |r| == |s|
  {
    seq(|s|, i requires 0 <= i < |s| => Lower(s[i]))
  }

  lemma LowerConcat(a: Text, b: Text)
    ensures LowerAll(a + b) == LowerAll(a) + LowerAll(b)
  {
  }

  lemma NoCapitals(s: Text)
    ensures forall k :: 0 <= k < |s| ==> !(65 <= LowerAll(s)[k] <= 90)
  {
  }

  // ------------------------------------------------------------------------ labels

  /** The first dot from `i` on, or the end. */
  function DotAt(s: Text, i: nat): (d: nat)
    requires i <= |s|
    ensures i <= d <= |s| && (d < |s| ==> s[d] == DOT) && forall k :: i <= k < d ==> s[k] != DOT
    decreases |s| - i
  {
    if i == |s| || s[i] == DOT then i else DotAt(s, i + 1)
  }

  /** Where the label after the one at `i` starts. */
  function NextLabel(s: Text, i: nat): (n: nat)
    requires i < |s|
    ensures i < n <= |s|
  {
    if DotAt(s, i) == |s| then |s| else DotAt(s, i) + 1
  }

  /** Labels of 1 to 63 bytes, separated by dots, with at most one more dot at the end. */
  predicate LabelsOk(s: Text, i: nat)
    requires i <= |s|
    decreases |s| - i
  {
    i == |s| || (1 <= DotAt(s, i) - i <= 63 && LabelsOk(s, NextLabel(s, i)))
  }

  predicate Valid(s: Text) { 1 <= |s| <= 253 && LabelsOk(s, 0) }

  /** Scanning from `i` with `len` bytes of the current label behind. */
  ghost predicate Scan(s: Text, i: nat, len: nat)
    requires i <= |s|
    decreases |s| - i
  {
    if i == |s| then len <= 63
    else if s[i] == DOT then 1 <= len <= 63 && Scan(s, i + 1, 0)
    else Scan(s, i + 1, len + 1)
  }

  lemma {:induction false} ScanIsLabels(s: Text, j: nat, i: nat)
    requires j <= i <= |s|
    ensures var d := DotAt(s, i);
            Scan(s, i, i - j) <==> if d == |s| then d - j <= 63 else 1 <= d - j <= 63 && LabelsOk(s, d + 1)
    decreases |s| - i
  {
    if i < |s| { ScanIsLabels(s, if s[i] == DOT then i + 1 else j, i + 1); }
  }

  lemma ScanWhole(s: Text)
    requires s != []
    ensures Scan(s, 0, 0) <==> LabelsOk(s, 0)
  {
    ScanIsLabels(s, 0, 0);
    assert LabelsOk(s, |s|);
    hide Scan, DotAt;
  }

  method ValidName(name: Text) returns (ok: bool)
    ensures ok <==> Valid(name)
  {
    if |name| == 0 || |name| > 253 { return false; }
    ScanWhole(name);
    var len, i := 0, 0;
    while i < |name|
      invariant 0 <= i <= |name| && len >= 0 && (Scan(name, 0, 0) <==> Scan(name, i, len))
    {
      if name[i] == DOT {
        if len == 0 || len > 63 { return false; }
        len := 0;
      } else {
        len := len + 1;
      }
      i := i + 1;
    }
    return len <= 63;
  }

  // ------------------------------------------------------------------------ writing

  /** A name on the wire: each label behind its length, then a zero. */
  function Wire(s: Text, i: nat): (w: Text)
    requires i <= |s|
    ensures w != []
    decreases |s| - i
  {
    if i == |s| then [0]
    else
      var d := DotAt(s, i);
      (if d > i then [(d - i) % 256] + s[i..d] else []) + Wire(s, NextLabel(s, i))
  }

  method FindDot(s: Text, from: nat) returns (d: nat)
    requires from <= |s|
    ensures d == DotAt(s, from)
  {
    d := from;
    while d < |s| && s[d] != DOT
      invariant from <= d <= |s| && DotAt(s, from) == DotAt(s, d)
    {
      d := d + 1;
    }
  }

  method WriteName(name: Text) returns (out: Text)
    ensures out == Wire(name, 0)
  {
    hide DotAt, Written;
    out := [];
    var p := 0;
    WrittenStart(name);
    while p < |name|
      invariant 0 <= p <= |name| + 1 && Written(name, p, out)
    {
      var dot := FindDot(name, p);
      WrittenStep(name, p, out);
      if dot > p { out := out + ([(dot - p) % 256] + name[p..dot]); }
      p := dot + 1;
    }
    WrittenEnd(name, p, out);
    out := out + [0];
  }

  /** `out` is what comes before the label at `p`. */
  ghost predicate Written(s: Text, p: nat, out: Text) { out + Wire(s, if p <= |s| then p else |s|) == Wire(s, 0) }

  lemma WrittenStart(s: Text)
    ensures Written(s, 0, [])
  {
  }

  lemma WrittenEnd(s: Text, p: nat, out: Text)
    requires Written(s, p, out) && p >= |s|
    ensures out + [0] == Wire(s, 0)
  {
    WireEnd(s);
  }

  lemma WrittenStep(s: Text, p: nat, out: Text)
    requires Written(s, p, out) && p < |s|
    ensures var d := DotAt(s, p);
            Written(s, d + 1, if d > p then out + ([(d - p) % 256] + s[p..d]) else out)
  {
    hide Wire;
    WireStep(s, p, out);
    hide DotAt;
  }

  lemma WireEnd(s: Text)
    ensures Wire(s, |s|) == [0]
  {
  }

  lemma WireStep(s: Text, i: nat, out: Text)
    requires i < |s|
    ensures var d := DotAt(s, i);
            out + Wire(s, i) == (if d > i then out + ([(d - i) % 256] + s[i..d]) else out) + Wire(s, NextLabel(s, i))
  {
    hide Wire, DotAt;
    var d, w := DotAt(s, i), Wire(s, NextLabel(s, i));
    var part: Text := if d > i then [(d - i) % 256] + s[i..d] else [];
    WireUnfolds(s, i);
    Assoc(out, part, w);
    assert out + [] == out;
  }

  lemma WireUnfolds(s: Text, i: nat)
    requires i < |s|
    ensures var d := DotAt(s, i);
            Wire(s, i) == (if d > i then [(d - i) % 256] + s[i..d] else []) + Wire(s, NextLabel(s, i))
  {
    hide DotAt;
  }

  lemma Assoc(a: Text, b: Text, c: Text)
    ensures a + (b + c) == (a + b) + c
  {
  }

  // ------------------------------------------------------------------------ reading

  function Pointer(msg: Text, pos: nat): nat
    requires pos + 1 < |msg|
  {
    (msg[pos] as int) % 64 * 256 + msg[pos + 1] as int
  }

  /** The labels at `pos`, each followed by a dot, with pointers followed; they must lead backward, and the zero must
      come within `steps` labels and pointers. */
  function Expand(msg: Text, pos: nat, steps: nat): Option<Text>
    decreases steps
  {
    if steps == 0 || pos >= |msg| then None
    else if msg[pos] == 0 then Some([])
    else if msg[pos] >= 192 then
      if pos + 1 >= |msg| || Pointer(msg, pos) >= pos then None else Expand(msg, Pointer(msg, pos), steps - 1)
    else if msg[pos] > 63 || pos + 1 + msg[pos] > |msg| then None
    else
      match Expand(msg, pos + 1 + msg[pos], steps - 1)
      case None => None
      case Some(rest) => Some(msg[pos + 1..pos + 1 + msg[pos]] + [DOT] + rest)
  }

  /** Where the name field itself ends: behind its zero or its first pointer. */
  function FieldEnd(msg: Text, pos: nat): nat
    decreases |msg| - pos
  {
    if pos >= |msg| then pos
    else if msg[pos] == 0 then pos + 1
    else if msg[pos] >= 192 then pos + 2
    else FieldEnd(msg, pos + 1 + msg[pos])
  }

  function Trimmed(t: Text): Text { if t == [] then [] else t[..|t| - 1] }

  /** A name found within some number of steps is found within more. */
  lemma {:induction false} MoreSteps(msg: Text, pos: nat, n: nat, m: nat)
    requires n <= m && Expand(msg, pos, n).Some?
    ensures Expand(msg, pos, m) == Expand(msg, pos, n)
    decreases n
  {
    if msg[pos] >= 192 {
      MoreSteps(msg, Pointer(msg, pos), n - 1, m - 1);
    } else if msg[pos] > 0 {
      MoreSteps(msg, pos + 1 + msg[pos], n - 1, m - 1);
    }
  }

  /** Backward pointers alone do not end: a label and a pointer back to it never expand. */
  lemma {:induction false} Endless(msg: Text, pos: nat, n: nat)
    requires pos + 3 < |msg| && msg[pos] == 1 && msg[pos + 2] >= 192 && Pointer(msg, pos + 2) == pos
    ensures Expand(msg, pos, n) == None
    decreases n
  {
    if n >= 2 { Endless(msg, pos, n - 2); }
  }

  function Prepend(t: Text, e: Option<Text>): Option<Text> {
    match e
    case None => None
    case Some(r) => Some(t + r)
  }

  /** With `text` read, what is left to read at `pos` within `m` steps completes the name at `start`. */
  ghost predicate Reads(msg: Text, start: nat, n: nat, text: Text, pos: nat, m: nat) {
    Expand(msg, start, n) == Prepend(text, Expand(msg, pos, m))
  }

  lemma Begin(msg: Text, start: nat)
    ensures Reads(msg, start, MAX_STEPS, [], start, MAX_STEPS) && LowerAll([]) == []
  {
    var e := Expand(msg, start, MAX_STEPS);
    if e.Some? { assert [] + e.value == e.value; }
  }

  lemma ReadsEnd(msg: Text, start: nat, n: nat, text: Text, pos: nat, m: nat)
    requires Reads(msg, start, n, text, pos, m) && (m == 0 || pos >= |msg|)
    ensures Expand(msg, start, n) == None
  {
  }

  lemma ReadsStep(msg: Text, start: nat, n: nat, text: Text, pos: nat, m: nat)
    requires Reads(msg, start, n, text, pos, m) && m > 0 && pos < |msg|
    ensures var c, e := msg[pos], Expand(msg, start, n);
            if c == 0 then e == Some(text) && FieldEnd(msg, pos) == pos + 1
            else if c >= 192 then
              FieldEnd(msg, pos) == pos + 2 &&
              (if pos + 1 >= |msg| || Pointer(msg, pos) >= pos then e == None
               else Reads(msg, start, n, text, Pointer(msg, pos), m - 1))
            else
              FieldEnd(msg, pos) == FieldEnd(msg, pos + 1 + c) &&
              (if c > 63 || pos + 1 + c > |msg| then e == None
               else Reads(msg, start, n, text + (msg[pos + 1..pos + 1 + c] + [DOT]), pos + 1 + c, m - 1)
                    && (e.Some? ==> |e.value| >= |text| + c + 1))
  {
    var c := msg[pos];
    if c == 0 {
      assert text + [] == text;
    } else if 0 < c <= 63 && pos + 1 + c <= |msg| {
      var part := msg[pos + 1..pos + 1 + c];
      var r := Expand(msg, pos + 1 + c, m - 1);
      if r.Some? { assert text + (part + [DOT] + r.value) == text + (part + [DOT]) + r.value; }
    }
  }

  /** Copies a label in lower case and puts a dot behind it. */
  method LowerLabel(part: Text) returns (r: Text)
    ensures r == LowerAll(part + [DOT])
  {
    r := [];
    var i := 0;
    while i < |part|
      invariant 0 <= i <= |part| && |r| == i && forall k :: 0 <= k < i ==> r[k] == Lower(part[k])
    {
      r := r + [Lower(part[i])];
      i := i + 1;
    }
    r := r + [DOT];
  }

  /** Reads the name at `pos`: it is accepted exactly if it expands within 128 steps to less than the buffer, and then
      comes out in lower case without its last dot, together with where the field ends. */
  method ReadName(msg: Text, start: nat) returns (next: nat, out: Text)
    ensures var e := Expand(msg, start, MAX_STEPS);
            && (next > 0 <==> e.Some? && |e.value| < OUT_SIZE)
            && (next > 0 ==> next == FieldEnd(msg, start) && next <= |msg| && out == Trimmed(LowerAll(e.value)))
    ensures forall k :: 0 <= k < |out| ==> !(65 <= out[k] <= 90)
  {
    out := [];
    var pos, depth, saved, done := start, 0, 0, false;
    ghost var text: Text := []; // what has been expanded so far
    Begin(msg, start);
    hide Expand, FieldEnd, LowerAll;
    while depth < MAX_STEPS && pos < |msg|
      invariant 0 <= pos && 0 <= depth <= MAX_STEPS && |text| < OUT_SIZE && out == LowerAll(text)
      invariant Reads(msg, start, MAX_STEPS, text, pos, MAX_STEPS - depth)
      invariant if saved == 0 then FieldEnd(msg, start) == FieldEnd(msg, pos) else saved == FieldEnd(msg, start) <= |msg|
    {
      var c := msg[pos];
      ReadsStep(msg, start, MAX_STEPS, text, pos, MAX_STEPS - depth);
      depth := depth + 1;
      pos := pos + 1;
      if c == 0 {
        done := true;
        break;
      } else if c >= 192 {
        if pos >= |msg| { return 0, []; }
        var off := Pointer(msg, pos - 1);
        if off >= pos - 1 { return 0, []; }
        if saved == 0 { saved := pos + 1; }
        pos := off;
      } else {
        if c > 63 { return 0, []; }
        if pos + c > |msg| || |out| + c + 1 >= OUT_SIZE {
          return 0, [];
        }
        var part := msg[pos..pos + c];
        LowerConcat(text, part + [DOT]);
        var lower := LowerLabel(part);
        out := out + lower;
        text := text + (part + [DOT]);
        pos := pos + c;
      }
    }
    if !done {
      ReadsEnd(msg, start, MAX_STEPS, text, pos, MAX_STEPS - depth);
      return 0, [];
    }
    if saved == 0 { saved := pos; }
    assert |out| < OUT_SIZE;
    NoCapitals(text);
    next := saved;
    out := Trimmed(out);
  }

  // --------------------------------------------------------------------- round trip

  /** A name with a dot behind every label. */
  function Dotted(s: Text, i: nat): Text
    requires i <= |s|
    decreases |s| - i
  {
    if i == |s| then [] else s[i..DotAt(s, i)] + [DOT] + Dotted(s, NextLabel(s, i))
  }

  function Labels(s: Text, i: nat): nat
    requires i <= |s|
    decreases |s| - i
  {
    if i == |s| then 0 else 1 + Labels(s, NextLabel(s, i))
  }

  lemma {:induction false} DottedIs(s: Text, i: nat)
    requires i <= |s|
    ensures Dotted(s, i) == if i == |s| || s[|s| - 1] == DOT then s[i..] else s[i..] + [DOT]
    decreases |s| - i
  {
    if i < |s| {
      var d, n := DotAt(s, i), NextLabel(s, i);
      DottedIs(s, n);
      Pieces(s, i, d);
      LastByte(s, i);
      assert Dotted(s, i) == s[i..d] + [DOT] + Dotted(s, n);
      hide Dotted, DotAt;
    }
  }

  lemma Pieces(s: Text, i: nat, d: nat)
    requires i <= d <= |s| && (d < |s| ==> s[d] == DOT)
    ensures d < |s| ==> s[i..] == s[i..d] + [DOT] + s[d + 1..]
    ensures d == |s| ==> s[i..d] == s[i..]
  {
  }

  lemma LastByte(s: Text, i: nat)
    requires i < |s|
    ensures DotAt(s, i) == |s| ==> s[|s| - 1] != DOT
    decreases |s| - i
  {
    if i + 1 < |s| && s[i] != DOT { LastByte(s, i + 1); }
  }

  lemma {:induction false} FewLabels(s: Text, i: nat)
    requires i <= |s| && LabelsOk(s, i)
    ensures 2 * Labels(s, i) <= |Dotted(s, i)|
    decreases |s| - i
  {
    if i < |s| { FewLabels(s, NextLabel(s, i)); }
  }

  /** The labels of a name on the wire, without what ends them. */
  function LabelBytes(s: Text, i: nat): Text
    requires i <= |s|
  {
    Wire(s, i)[..|Wire(s, i)| - 1]
  }

  /** Labels, and then whatever comes behind them: as many steps as there are labels, and then what that takes. */
  lemma {:induction false} ExpandLabels(msg: Text, pos: nat, s: Text, i: nat, n: nat)
    requires i <= |s| && LabelsOk(s, i)
    requires pos + |LabelBytes(s, i)| <= |msg| && msg[pos..pos + |LabelBytes(s, i)|] == LabelBytes(s, i)
    ensures var q := pos + |LabelBytes(s, i)|;
            && FieldEnd(msg, pos) == FieldEnd(msg, q)
            && Expand(msg, pos, n) == if n < Labels(s, i) then None else Prepend(Dotted(s, i), Expand(msg, q, n - Labels(s, i)))
    decreases |s| - i
  {
    hide *;
    if i == |s| {
      NothingLeft(s);
      NoLabels(msg, pos, n, s);
      assert Labels(s, i) == 0 && Dotted(s, i) == [] && pos + |LabelBytes(s, i)| == pos;
    } else {
      var d, m := DotAt(s, i), NextLabel(s, i);
      BytesLabel(s, i);
      Inside(msg, pos, [d - i], s[i..d], LabelBytes(s, m));
      ExpandLabels(msg, pos + 1 + (d - i), s, m, if n == 0 then 0 else n - 1);
      OneLabel(msg, pos, n);
      DottedStep(s, i);
      PrependNothing(s[i..d] + [DOT]);
      PrependTwice(s[i..d] + [DOT], Dotted(s, m), Expand(msg, pos + |LabelBytes(s, i)|, if n < Labels(s, i) then 0 else n - Labels(s, i)));
    }
  }

  lemma NoLabels(msg: Text, pos: nat, n: nat, s: Text)
    ensures |LabelBytes(s, |s|)| == 0 && Expand(msg, pos, n) == Prepend([], Expand(msg, pos, n))
  {
    var e := Expand(msg, pos, n);
    if e.Some? { assert [] + e.value == e.value; }
  }

  lemma PrependTwice(a: Text, b: Text, e: Option<Text>)
    ensures Prepend(a, Prepend(b, e)) == Prepend(a + b, e)
  {
    if e.Some? { assert a + (b + e.value) == a + b + e.value; }
  }

  lemma BytesLabel(s: Text, i: nat)
    requires i < |s| && LabelsOk(s, i)
    ensures var d, n := DotAt(s, i), NextLabel(s, i);
            1 <= d - i <= 63 && LabelsOk(s, n) && LabelBytes(s, i) == [d - i] + s[i..d] + LabelBytes(s, n)
  {
    hide DotAt, Wire, LabelsOk;
    WireLabel(s, i);
  }

  /** Two bytes that point to an earlier place go on there. */
  lemma FollowPointer(msg: Text, q: nat, off: nat, n: nat)
    requires off < 0x4000 && off < q && q + 2 <= |msg| && msg[q] == 192 + off / 256 && msg[q + 1] == off % 256
    ensures FieldEnd(msg, q) == q + 2 && Expand(msg, q, n) == if n == 0 then None else Expand(msg, off, n - 1)
  {
  }

  /** The name written at `pos` expands to its dotted form in one step a label and one for the zero. */
  lemma ExpandWire(msg: Text, pos: nat, s: Text, n: nat)
    requires LabelsOk(s, 0) && pos + |Wire(s, 0)| <= |msg| && msg[pos..pos + |Wire(s, 0)|] == Wire(s, 0)
    ensures Expand(msg, pos, n) == (if n < Labels(s, 0) + 1 then None else Some(Dotted(s, 0)))
    ensures FieldEnd(msg, pos) == pos + |Wire(s, 0)|
  {
    hide *;
    EndsInZero(s, 0);
    Inside(msg, pos, LabelBytes(s, 0), [0], []);
    ExpandLabels(msg, pos, s, 0, n);
    var q := pos + |LabelBytes(s, 0)|;
    assert msg[q..q + 1][0] == 0;
    ZeroEnds(msg, q, if n < Labels(s, 0) then 0 else n - Labels(s, 0));
    PrependNothing(Dotted(s, 0));
  }

  lemma PrependNothing(t: Text)
    ensures Prepend(t, Some([])) == Some(t) && Prepend(t, None) == None
  {
    assert t + [] == t;
  }

  lemma {:induction false} EndsInZero(s: Text, i: nat)
    requires i <= |s|
    ensures Wire(s, i) == LabelBytes(s, i) + [0] + []
    decreases |s| - i
  {
    if i < |s| { EndsInZero(s, NextLabel(s, i)); }
    var w := Wire(s, i);
    assert w[|w| - 1] == 0;
  }

  lemma NothingLeft(s: Text)
    ensures Wire(s, |s|) == [0] && Labels(s, |s|) == 0 && Dotted(s, |s|) == []
  {
  }

  lemma ZeroEnds(msg: Text, pos: nat, n: nat)
    requires pos < |msg| && msg[pos] == 0
    ensures Expand(msg, pos, n) == (if n == 0 then None else Some([])) && FieldEnd(msg, pos) == pos + 1
  {
  }

  lemma DottedStep(s: Text, i: nat)
    requires i < |s|
    ensures Labels(s, i) == 1 + Labels(s, NextLabel(s, i))
    ensures Dotted(s, i) == s[i..DotAt(s, i)] + [DOT] + Dotted(s, NextLabel(s, i))
  {
  }

  lemma WireLabel(s: Text, i: nat)
    requires i < |s| && LabelsOk(s, i)
    ensures var d, n := DotAt(s, i), NextLabel(s, i);
            1 <= d - i <= 63 && LabelsOk(s, n) && Wire(s, i) == [d - i] + s[i..d] + Wire(s, n)
  {
    hide DotAt, Wire;
    var d, n := DotAt(s, i), NextLabel(s, i);
    assert LabelsOk(s, n) && 1 <= d - i <= 63;
    hide LabelsOk;
    WireUnfolds(s, i);
    assert (d - i) % 256 == d - i;
  }

  lemma OneLabel(msg: Text, pos: nat, n: nat)
    requires pos < |msg| && 1 <= msg[pos] <= 63 && pos + 1 + msg[pos] <= |msg|
    ensures Expand(msg, pos, n)
            == if n == 0 then None
               else Prepend(msg[pos + 1..pos + 1 + msg[pos]] + [DOT], Expand(msg, pos + 1 + msg[pos], n - 1))
    ensures FieldEnd(msg, pos) == FieldEnd(msg, pos + 1 + msg[pos])
  {
  }

  lemma Inside(msg: Text, pos: nat, a: Text, b: Text, c: Text)
    requires pos + |a + b + c| <= |msg| && msg[pos..pos + |a + b + c|] == a + b + c
    ensures msg[pos..pos + |a|] == a && msg[pos + |a|..pos + |a| + |b|] == b
    ensures msg[pos + |a| + |b|..pos + |a| + |b| + |c|] == c
    ensures a != [] ==> msg[pos] == a[0]
  {
    var w := a + b + c;
    Sub(msg, pos, |w|, 0, |a|);
    Sub(msg, pos, |w|, |a|, |a| + |b|);
    Sub(msg, pos, |w|, |a| + |b|, |w|);
    assert w[..|a|] == a && w[|a|..|a| + |b|] == b && w[|a| + |b|..|w|] == c;
    assert a != [] ==> msg[pos..pos + |a|][0] == a[0];
  }

  lemma Sub(msg: Text, pos: nat, n: nat, x: nat, y: nat)
    requires pos + n <= |msg| && x <= y <= n
    ensures msg[pos..pos + n][x..y] == msg[pos + x..pos + y]
  {
    var a, b := msg[pos..pos + n][x..y], msg[pos + x..pos + y];
    forall k | 0 <= k < y - x ensures a[k] == b[k] { assert a[k] == msg[pos..pos + n][x + k]; }
  }

  /** Reading a valid name where it was written gives it back in lower case without a dot at the end, and stops
      right behind it. */
  lemma NameRoundTrip(msg: Text, pos: nat, s: Text)
    requires Valid(s) && pos + |Wire(s, 0)| <= |msg| && msg[pos..pos + |Wire(s, 0)|] == Wire(s, 0)
    ensures var e := Expand(msg, pos, MAX_STEPS);
            && e.Some? && |e.value| < OUT_SIZE && FieldEnd(msg, pos) == pos + |Wire(s, 0)|
            && Trimmed(LowerAll(e.value)) == LowerAll(if s[|s| - 1] == DOT then s[..|s| - 1] else s)
  {
    hide Expand, Dotted, LabelsOk, Labels, Wire, FieldEnd, LowerAll, Trimmed;
    ExpandWire(msg, pos, s, MAX_STEPS);
    DottedBare(s);
    FewLabels(s, 0);
    TrimLower(Bare(s));
  }

  /** A name without a dot at its end. */
  function Bare(s: Text): Text { if s != [] && s[|s| - 1] == DOT then s[..|s| - 1] else s }

  lemma DottedBare(s: Text)
    ensures s != [] ==> Dotted(s, 0) == Bare(s) + [DOT]
  {
    hide Dotted;
    DottedIs(s, 0);
    assert s[0..] == s;
  }

  /** The name whose first labels are in front of another name. */
  function Under(pre: Text, s: Text): Text { if pre == [] then Bare(s) else Bare(pre) + [DOT] + Bare(s) }

  /** Compressed names. Labels followed by a pointer to a valid name written earlier are read as those labels under that
      name, and the field ends behind the pointer; with no labels this is the name itself. It is read exactly if the
      labels, the pointer and the zero take no more than 128 steps. */
  lemma CompressedRoundTrip(msg: Text, off: nat, pos: nat, pre: Text, s: Text)
    requires Valid(s) && LabelsOk(pre, 0) && off < 0x4000 && off < pos
    requires off + |Wire(s, 0)| <= |msg| && msg[off..off + |Wire(s, 0)|] == Wire(s, 0)
    requires pos + |LabelBytes(pre, 0)| + 2 <= |msg| && msg[pos..pos + |LabelBytes(pre, 0)|] == LabelBytes(pre, 0)
    requires var q := pos + |LabelBytes(pre, 0)|; msg[q] == 192 + off / 256 && msg[q + 1] == off % 256
    ensures var e := Expand(msg, pos, MAX_STEPS);
            && (e.Some? <==> Labels(pre, 0) + Labels(s, 0) + 2 <= MAX_STEPS)
            && (e.Some? ==> |e.value| == |Under(pre, s)| + 1 && Trimmed(LowerAll(e.value)) == LowerAll(Under(pre, s)))
    ensures FieldEnd(msg, pos) == pos + |LabelBytes(pre, 0)| + 2
  {
    hide Expand, Dotted, LabelsOk, Labels, Wire, FieldEnd, LowerAll, Trimmed, LabelBytes, Prepend, Bare;
    var q := pos + |LabelBytes(pre, 0)|;
    var n := Labels(pre, 0);
    ExpandLabels(msg, pos, pre, 0, MAX_STEPS);
    var m := if MAX_STEPS < n then 0 else MAX_STEPS - n;
    FollowPointer(msg, q, off, m);
    ExpandWire(msg, off, s, if m == 0 then 0 else m - 1);
    DottedBare(s);
    DottedBare(pre);
    PrependIs(Dotted(pre, 0), Dotted(s, 0));
    DottedNone(pre);
    assert pre != [] ==> Bare(pre) + [DOT] + (Bare(s) + [DOT]) == Under(pre, s) + [DOT];
    assert pre == [] ==> [] + (Bare(s) + [DOT]) == Under(pre, s) + [DOT];
    TrimLower(Under(pre, s));
  }

  lemma PrependIs(a: Text, b: Text)
    ensures Prepend(a, Some(b)) == Some(a + b) && Prepend(a, None) == None
  {
  }

  lemma DottedNone(s: Text)
    ensures s == [] ==> Dotted(s, 0) == [] && Labels(s, 0) == 0
  {
  }

  // ------------------------------------------------------------- the bound on the steps

  /** A name of k labels of one byte. */
  function OneByte(k: nat): Text
    requires k > 0
  {
    seq(2 * k - 1, i => if i % 2 == 0 then 97 else DOT)
  }

  lemma {:induction false} OneByteLabels(k: nat, j: nat)
    requires 0 < k && j < k
    ensures LabelsOk(OneByte(k), 2 * j) && Labels(OneByte(k), 2 * j) == k - j
    decreases k - j
  {
    var s, i := OneByte(k), 2 * j;
    assert s[i] == 97 && DotAt(s, i) == DotAt(s, i + 1) == i + 1;
    if j + 1 < k { OneByteLabels(k, j + 1); } else { assert LabelsOk(s, |s|) && Labels(s, |s|) == 0; }
  }

  /** The longest valid name of all, 127 labels, is read where it is written but not through a pointer. */
  lemma TooManyLabels()
    ensures var s := OneByte(127);
            && Valid(s) && Expand(Wire(s, 0), 0, MAX_STEPS).Some?
            && Expand(Wire(s, 0) + [192, 0], |Wire(s, 0)|, MAX_STEPS) == None
  {
    var s := OneByte(127);
    OneByteLabels(127, 0);
    assert Valid(s) && Labels(s, 0) == 127;
    hide *;
    PointedTo(s, Wire(s, 0));
  }

  lemma PointedTo(s: Text, w: Text)
    requires Valid(s) && Labels(s, 0) == 127 && w == Wire(s, 0)
    ensures Expand(w, 0, MAX_STEPS).Some? && Expand(w + [192, 0], |w|, MAX_STEPS) == None
  {
    hide Expand, LabelsOk, Labels, Wire, LabelBytes, Dotted, FieldEnd;
    var msg := w + [192, 0];
    assert w[0..|w|] == w && msg[0..|w|] == w;
    ExpandWire(w, 0, s, MAX_STEPS);
    Nothing();
    assert msg[|w|..|w|] == [];
    CompressedRoundTrip(msg, 0, |w|, [], s);
  }

  lemma Nothing()
    ensures LabelsOk([], 0) && LabelBytes([], 0) == [] && Labels([], 0) == 0
  {
  }

  lemma TrimLower(s: Text)
    ensures Trimmed(LowerAll(s + [DOT])) == LowerAll(s)
  {
    var a, b := LowerAll(s + [DOT]), LowerAll(s);
    forall k | 0 <= k < |s| ensures a[k] == b[k] { assert (s + [DOT])[k] == s[k]; }
    assert a[..|a| - 1] == b;
  }
}
