/** The write list of a connection: buffers in push order, the first of them partly sent. */
module WriteList {
  type Byte = x: int | 0 <= x < 256

  /** A buffer handed over by a worker, told apart from all others by its number. */
  datatype Buf = Buf(id: nat, data: seq<Byte>)

  const MAX_IOV: nat := 64

  function Concat(parts: seq<seq<Byte>>): seq<Byte> {
    if parts == [] then [] else Concat(parts[..|parts| - 1]) + parts[|parts| - 1]
  }

  function Payload(wl: seq<Buf>): seq<Byte> {
    if wl == [] then [] else Payload(wl[..|wl| - 1]) + wl[|wl| - 1].data
  }

  /** Buffers are never empty, and the first one is not sent completely. */
  ghost predicate ListOk(wl: seq<Buf>, offset: nat) {
    && (forall k :: 0 <= k < |wl| ==> wl[k].data != [])
    && (wl == [] ==> offset == 0)
    && (wl != [] ==> offset < |wl[0].data|)
  }

  lemma {:induction false} PayloadConcat(a: seq<Buf>, b: seq<Buf>)
    ensures Payload(a + b) == Payload(a) + Payload(b)
  {
    if b == [] {
      assert a + b == a;
      assert Payload(b) == [];
    } else {
      var c, x := b[..|b| - 1], b[|b| - 1];
      PayloadConcat(a, c);
      assert (a + b)[..|a + b| - 1] == a + c && (a + b)[|a + b| - 1] == x;
      assert Payload(a + b) == Payload(a + c) + x.data;
      assert Payload(b) == Payload(c) + x.data;
      hide Payload;
      assert Payload(a) + Payload(c) + x.data == Payload(a) + (Payload(c) + x.data);
    }
  }

  lemma PayloadSplit(wl: seq<Buf>)
    requires wl != []
    ensures Payload(wl) == wl[0].data + Payload(wl[1..])
  {
    PayloadConcat([wl[0]], wl[1..]);
    assert [wl[0]] + wl[1..] == wl;
    assert Payload([wl[0]]) == wl[0].data by { assert [wl[0]][..0] == []; assert Payload([]) == []; }
  }

  /** What has not been sent yet. */
  function Unsent(wl: seq<Buf>, offset: nat): (u: seq<Byte>)
    requires ListOk(wl, offset)
    ensures wl == [] ==> u == []
    ensures wl != [] ==> u == wl[0].data[offset..] + Payload(wl[1..])
  {
    assert wl != [] ==> offset <= |Payload(wl)| && Payload(wl)[offset..] == wl[0].data[offset..] + Payload(wl[1..]) by {
      if wl != [] { PayloadSplit(wl); }
    }
    Payload(wl)[offset..]
  }

  lemma Appended(wl: seq<Buf>, offset: nat, b: Buf)
    requires ListOk(wl, offset) && b.data != []
    ensures ListOk(wl + [b], offset) && Unsent(wl + [b], offset) == Unsent(wl, offset) + b.data
  {
    PayloadConcat(wl, [b]);
    PayloadSplit([b]);
    assert [b][1..] == [];
    if wl != [] { PayloadSplit(wl); }
  }

  /** The payload of the buffers that do not fit one call of writev. */
  function Beyond(wl: seq<Buf>): seq<Byte> { if |wl| <= MAX_IOV then [] else Payload(wl[MAX_IOV..]) }

  lemma BeyondFits(wl: seq<Buf>, offset: nat)
    requires ListOk(wl, offset)
    ensures |Beyond(wl)| <= |Unsent(wl, offset)|
  {
    if |wl| > MAX_IOV {
      PayloadConcat(wl[1..MAX_IOV], wl[MAX_IOV..]);
      assert wl[1..MAX_IOV] + wl[MAX_IOV..] == wl[1..];
      assert |Unsent(wl, offset)| >= |Payload(wl[1..])|;
      assert |Payload(wl[1..])| >= |Payload(wl[MAX_IOV..])|;
      hide Payload, Unsent;
    }
  }

  /** How many unsent bytes one call of writev takes when the kernel has room for `room`. */
  function Taken(wl: seq<Buf>, offset: nat, room: nat): (n: nat)
    requires ListOk(wl, offset)
    ensures n <= |Unsent(wl, offset)|
  {
    BeyondFits(wl, offset);
    var window := |Unsent(wl, offset)| - |Beyond(wl)|;
    if room < window then room else window
  }

  /** The pieces given to writev: the unsent bytes of the first buffers, in order. */
  method Gather(wl: seq<Buf>, offset: nat) returns (iov: seq<seq<Byte>>)
    requires ListOk(wl, offset)
    ensures |iov| <= MAX_IOV && Concat(iov) + Beyond(wl) == Unsent(wl, offset)
    ensures wl != [] ==> Concat(iov) != []
  {
    iov := [];
    assert Concat(iov) == [];
    var k, skip := 0, offset;
    assert wl[0..] == wl;
    hide Concat, Payload, Unsent;
    while k < |wl| && |iov| < MAX_IOV
      invariant 0 <= k <= |wl| && |iov| == k <= MAX_IOV && skip == if k == 0 then offset else 0
      invariant ListOk(wl[k..], skip) && Concat(iov) + Unsent(wl[k..], skip) == Unsent(wl, offset)
      invariant k > 0 ==> Concat(iov) != []
    {
      var piece := wl[k].data[skip..];
      GatherOne(wl, offset, k, skip, iov);
      iov := iov + [piece];
      k := k + 1;
      skip := 0;
    }
    BeyondIs(wl, offset, k, skip);
  }

  lemma BeyondIs(wl: seq<Buf>, offset: nat, k: nat, skip: nat)
    requires ListOk(wl, offset) && k <= |wl| && k <= MAX_IOV && (k == |wl| || k == MAX_IOV) && ListOk(wl[k..], skip) && (k > 0 ==> skip == 0)
    ensures Unsent(wl[k..], skip) == Beyond(wl)
  {
  }

  lemma GatherOne(wl: seq<Buf>, offset: nat, k: nat, skip: nat, iov: seq<seq<Byte>>)
    requires k < |wl| && ListOk(wl, offset) && ListOk(wl[k..], skip)
    requires Concat(iov) + Unsent(wl[k..], skip) == Unsent(wl, offset)
    ensures ListOk(wl[k + 1..], 0)
    ensures Concat(iov + [wl[k].data[skip..]]) + Unsent(wl[k + 1..], 0) == Unsent(wl, offset)
    ensures Concat(iov + [wl[k].data[skip..]]) != []
  {
    var rest := wl[k..];
    assert rest[0] == wl[k] && rest[1..] == wl[k + 1..];
    var piece := wl[k].data[skip..];
    assert (iov + [piece])[..|iov|] == iov;
    assert Unsent(wl[k + 1..], 0) == Payload(wl[k + 1..]);
    assert Concat(iov) + (piece + Payload(rest[1..])) == Concat(iov) + piece + Payload(rest[1..]);
  }

  lemma ConsumeStep(wl: seq<Buf>, offset: nat, n: nat)
    requires ListOk(wl, offset) && wl != [] && n <= |Unsent(wl, offset)|
    ensures var avail := |wl[0].data| - offset;
            if n < avail
            then ListOk(wl, offset + n) && Unsent(wl, offset + n) == Unsent(wl, offset)[n..]
            else ListOk(wl[1..], 0) && n - avail <= |Unsent(wl[1..], 0)| && Unsent(wl[1..], 0)[n - avail..] == Unsent(wl, offset)[n..]
  {
    hide Payload;
    var head, rest := wl[0].data[offset..], Payload(wl[1..]);
    assert Unsent(wl, offset) == head + rest;
    if n < |head| {
      assert (head + rest)[n..] == head[n..] + rest;
      assert head[n..] == wl[0].data[offset + n..];
    } else {
      assert Unsent(wl[1..], 0) == rest;
      assert (head + rest)[n..] == rest[n - |head|..];
    }
  }

  /** Takes `total` written bytes off the list; buffers that are sent completely are freed in order. */
  method Consume(wl: seq<Buf>, offset: nat, total: nat) returns (left: seq<Buf>, offset': nat, freed: seq<Buf>)
    requires ListOk(wl, offset) && total <= |Unsent(wl, offset)|
    ensures ListOk(left, offset') && wl == freed + left
    ensures Unsent(left, offset') == Unsent(wl, offset)[total..]
  {
    hide Payload, Unsent;
    left, offset', freed := wl, offset, [];
    var todo := total;
    while left != [] && todo > 0
      invariant ListOk(left, offset') && wl == freed + left && 0 <= todo <= |Unsent(left, offset')|
      invariant Unsent(left, offset')[todo..] == Unsent(wl, offset)[total..]
      decreases |left|
    {
      var avail := |left[0].data| - offset';
      ConsumeStep(left, offset', todo);
      if todo < avail {
        offset' := offset' + todo;
        todo := 0;
        break;
      }
      todo := todo - avail;
      offset' := 0;
      freed := freed + [left[0]];
      left := left[1..];
    }
  }
}
