/** Cluster packets on the wire: a little-endian length, then a request or a response. Parsing a stream is
    independent of how it was cut into chunks. */
module ClusterFraming {
  type Byte = x: int | 0 <= x < 256

  type Bytes = seq<Byte>

  datatype Option<T> = None | Some(value: T)

  datatype Error = HardLimit | PacketSize

  // --------------------------------------------------------------- little endian

  function Le(n: nat, v: nat): (b: Bytes)
    ensures |b| == n
  {
    if n == 0 then [] else [v % 256] + Le(n - 1, v / 256)
  }

  function FromLe(b: Bytes): nat {
    if b == [] then 0 else b[0] + 256 * FromLe(b[1..])
  }

  function Pow256(n: nat): nat { if n == 0 then 1 else 256 * Pow256(n - 1) }

  lemma {:induction false} LeRoundTrip(n: nat, v: nat)
    requires v < Pow256(n)
    ensures FromLe(Le(n, v)) == v
  {
    if n > 0 {
      LeRoundTrip(n - 1, v / 256);
      assert Le(n, v)[1..] == Le(n - 1, v / 256);
    }
  }

  // ------------------------------------------------------------------ whole streams

  const ACK: nat := 0x8000_0000

  /** The body of a packet is a response, or a request with its whole header. */
  predicate BodyOk(body: Bytes)
    requires |body| >= 4
  {
    FromLe(body[..4]) >= ACK || |body| >= 16
  }

  function SizeError(limit: nat, size: nat): Option<Error> {
    if size < 4 then Some(PacketSize) else if size > limit then Some(HardLimit) else None
  }

  /** The packets of a stream, the bytes left over, and the error that stopped it if there was one. */
  datatype Parsed = Parsed(packets: seq<Bytes>, rest: Bytes, error: Option<Error>)

  function Parse(limit: nat, b: Bytes): Parsed
    decreases |b|
  {
    if |b| < 4 then Parsed([], b, None)
    else
      var size := FromLe(b[..4]);
      if SizeError(limit, size).Some? then Parsed([], [], SizeError(limit, size))
      else if |b| < 4 + size then Parsed([], b, None)
      else
        var body := b[4..4 + size];
        if !BodyOk(body) then Parsed([], [], Some(PacketSize))
        else
          var p := Parse(limit, b[4 + size..]);
          Parsed([body] + p.packets, p.rest, p.error)
  }

  /** The start of a packet that is not complete and not wrong so far. */
  ghost predicate Partial(limit: nat, b: Bytes) {
    |b| < 4 || (SizeError(limit, FromLe(b[..4])).None? && |b| < 4 + FromLe(b[..4]))
  }

  lemma {:induction false} RestIsPartial(limit: nat, b: Bytes)
    ensures Partial(limit, Parse(limit, b).rest)
    decreases |b|
  {
    hide FromLe;
    if |b| >= 4 {
      var size := FromLe(b[..4]);
      if SizeError(limit, size).None? && |b| >= 4 + size && BodyOk(b[4..4 + size]) { RestIsPartial(limit, b[4 + size..]); }
    }
  }

  /** What a stream parses to, from what its first part parsed to. */
  function Resume(limit: nat, p: Parsed, more: Bytes): Parsed {
    if p.error.Some? then p
    else
      var q := Parse(limit, p.rest + more);
      Parsed(p.packets + q.packets, q.rest, q.error)
  }

  /** A stream may be cut anywhere. */
  lemma {:induction false} ParseSplit(limit: nat, a: Bytes, b: Bytes)
    ensures Parse(limit, a + b) == Resume(limit, Parse(limit, a), b)
    decreases |a|
  {
    hide FromLe, BodyOk;
    if |a| >= 4 {
      var size := FromLe(a[..4]);
      assert (a + b)[..4] == a[..4];
      if SizeError(limit, size).None? && |a| >= 4 + size {
        assert (a + b)[4..4 + size] == a[4..4 + size];
        assert (a + b)[4 + size..] == a[4 + size..] + b;
        ParseSplit(limit, a[4 + size..], b);
        var p := Parse(limit, a[4 + size..]);
        assert [a[4..4 + size]] + (p.packets + Parse(limit, p.rest + b).packets) == [a[4..4 + size]] + p.packets + Parse(limit, p.rest + b).packets;
      }
    }
  }

  // -------------------------------------------------------- what a stream stands for

  /** The number in four bytes from i on, the lowest byte first. */
  function U32(b: Bytes, i: nat): nat
    requires i + 4 <= |b|
  {
    (b[i] as int) + 256 * (b[i + 1] as int) + 65536 * (b[i + 2] as int) + 16777216 * (b[i + 3] as int)
  }

  /** One packet in the stream: the four bytes of its length, then its body. */
  predicate IsFrame(f: Bytes, body: Bytes) {
    |f| == 4 + |body| && U32(f, 0) == |body| && f[4..] == body
  }

  /** The stream is a frame for each of the packets, then the tail. */
  ghost predicate Frames(b: Bytes, packets: seq<Bytes>, tail: Bytes)
    decreases |packets|
  {
    if packets == [] then b == tail
    else
      var n := 4 + |packets[0]|;
      n <= |b| && IsFrame(b[..n], packets[0]) && Frames(b[n..], packets[1..], tail)
  }

  /** A body is complete: at least a session, and a whole request header unless the top bit marks a response. */
  predicate Whole(limit: nat, body: Bytes) { 4 <= |body| <= limit && (body[3] >= 128 || |body| >= 16) }

  /** The next length is over the limit. */
  predicate TooLong(limit: nat, tail: Bytes) { |tail| >= 4 && U32(tail, 0) >= 4 && U32(tail, 0) > limit }

  /** The next length is too short for a session, or the packet, now complete, too short for a request. */
  predicate TooShort(limit: nat, tail: Bytes) {
    |tail| >= 4 && (U32(tail, 0) < 4 || (U32(tail, 0) <= limit && |tail| >= 4 + U32(tail, 0) && tail[7] < 128 && U32(tail, 0) < 16))
  }

  /** More bytes are needed to tell. */
  predicate Unfinished(limit: nat, tail: Bytes) {
    |tail| < 4 || (4 <= U32(tail, 0) <= limit && |tail| < 4 + U32(tail, 0))
  }

  lemma FourBytes(b: Bytes)
    requires |b| == 4
    ensures FromLe(b) == U32(b, 0)
  {
    assert b[1..][1..] == b[2..] && b[2..][1..] == b[3..] && b[3..][1..] == [];
    assert FromLe(b[3..]) == b[3];
    assert FromLe(b[2..]) == (b[2] as int) + 256 * FromLe(b[3..]);
    assert FromLe(b[1..]) == (b[1] as int) + 256 * FromLe(b[2..]);
  }

  lemma LengthIs(b: Bytes, i: nat)
    requires i + 4 <= |b|
    ensures FromLe(b[i..i + 4]) == U32(b, i)
  {
    FourBytes(b[i..i + 4]);
  }

  /** What parsing means: the stream is one frame for each packet, in order, and every packet is complete and within
      the limit; the parse stops with an error exactly if the length behind them is too long, or the packet behind them
      too short, and otherwise exactly where more bytes are needed. */
  lemma {:induction false} ParseMeans(limit: nat, b: Bytes) returns (tail: Bytes)
    ensures var p := Parse(limit, b);
            && Frames(b, p.packets, tail) && (forall i :: 0 <= i < |p.packets| ==> Whole(limit, p.packets[i]))
            && (p.error == Some(HardLimit) <==> TooLong(limit, tail))
            && (p.error == Some(PacketSize) <==> TooShort(limit, tail))
            && (p.error == None <==> Unfinished(limit, tail))
            && p.rest == (if p.error == None then tail else [])
    decreases |b|
  {
    hide FromLe, Frames, U32, BodyOk;
    tail := b;
    NoFrames(b);
    if |b| >= 4 {
      LengthIs(b, 0);
      var size := U32(b, 0);
      if 4 <= size <= limit && |b| >= 4 + size {
        var body := b[4..4 + size];
        BodyMeans(body);
        assert body[3] == b[7];
        if BodyOk(body) {
          tail := ParseMeans(limit, b[4 + size..]);
          OneFrame(b, body, Parse(limit, b[4 + size..]).packets, tail);
        }
      }
    }
  }

  lemma BodyMeans(body: Bytes)
    requires |body| >= 4
    ensures BodyOk(body) <==> body[3] >= 128 || |body| >= 16
  {
    LengthIs(body, 0);
    TopBit(body);
    hide FromLe, U32;
  }

  lemma TopBit(body: Bytes)
    requires |body| >= 4
    ensures U32(body, 0) >= ACK <==> body[3] >= 128
  {
  }

  lemma NoFrames(b: Bytes)
    ensures Frames(b, [], b)
  {
  }

  lemma OneFrame(b: Bytes, body: Bytes, packets: seq<Bytes>, tail: Bytes)
    requires |b| >= 4 + |body| && U32(b, 0) == |body| && b[4..4 + |body|] == body && Frames(b[4 + |body|..], packets, tail)
    ensures Frames(b, [body] + packets, tail)
  {
    var n := 4 + |body|;
    assert b[..n][4..] == body;
    assert ([body] + packets)[1..] == packets;
  }

  /** No more than one packet and its length is held back. */
  lemma RestFits(limit: nat, b: Bytes)
    ensures |Parse(limit, b).rest| <= 4 + limit
  {
    var _ := ParseMeans(limit, b);
  }

  function Concat(chunks: seq<Bytes>): Bytes {
    if chunks == [] then [] else Concat(chunks[..|chunks| - 1]) + chunks[|chunks| - 1]
  }

  /** A stream parsed chunk by chunk, each chunk going on from what the one before left. */
  function ParseChunks(limit: nat, chunks: seq<Bytes>): Parsed {
    if chunks == [] then Parsed([], [], None)
    else Resume(limit, ParseChunks(limit, chunks[..|chunks| - 1]), chunks[|chunks| - 1])
  }

  /** Every chunking gives what the whole stream gives. */
  lemma {:induction false} ChunkingDoesNotMatter(limit: nat, chunks: seq<Bytes>)
    ensures ParseChunks(limit, chunks) == Parse(limit, Concat(chunks))
  {
    if chunks != [] {
      ChunkingDoesNotMatter(limit, chunks[..|chunks| - 1]);
      ParseSplit(limit, Concat(chunks[..|chunks| - 1]), chunks[|chunks| - 1]);
    }
  }

  // ------------------------------------------------------------ requests and responses

  datatype Message = Request(session: nat, cmd: nat, traceid: nat, payload: Bytes) | Response(session: nat, payload: Bytes)

  predicate Fields(m: Message) {
    match m
    case Request(s, c, t, _) => s < ACK && c < 0x1_0000_0000 && t < 0x1_0000_0000_0000_0000
    case Response(s, _) => s < ACK
  }

  function Body(m: Message): (b: Bytes)
    ensures |b| == |m.payload| + if m.Request? then 16 else 4
  {
    match m
    case Request(s, c, t, p) => Le(4, s) + Le(4, c) + Le(8, t) + p
    case Response(s, p) => Le(4, s + ACK) + p
  }

  /** A packed message, unless it is over the limit. */
  function Pack(limit: nat, m: Message): Option<Bytes> {
    if |Body(m)| > limit then None else Some(Le(4, |Body(m)|) + Body(m))
  }

  /** What is popped: which kind it is shows in the top bit of the session. */
  function Unpack(body: Bytes): Message
    requires |body| >= 4 && BodyOk(body)
  {
    var session := FromLe(body[..4]);
    if session >= ACK then Response(session - ACK, body[4..])
    else Request(session, FromLe(body[4..8]), FromLe(body[8..16]), body[16..])
  }

  lemma Powers()
    ensures Pow256(4) == 0x1_0000_0000 && Pow256(8) == 0x1_0000_0000_0000_0000
  {
  }

  lemma BodyRoundTrip(m: Message)
    requires Fields(m)
    ensures BodyOk(Body(m)) && Unpack(Body(m)) == m
  {
    Powers();
    hide Le, FromLe, Pow256;
    var b := Body(m);
    match m
    case Request(s, c, t, p) =>
      LeRoundTrip(4, s);
      LeRoundTrip(4, c);
      LeRoundTrip(8, t);
      assert b[..4] == Le(4, s) && b[4..8] == Le(4, c) && b[8..16] == Le(8, t) && b[16..] == p;
    case Response(s, p) =>
      LeRoundTrip(4, s + ACK);
      assert b[..4] == Le(4, s + ACK) && b[4..] == p;
  }

  lemma {:induction false} FromLeConcat(a: Bytes, b: Bytes)
    ensures FromLe(a + b) == FromLe(a) + Pow256(|a|) * FromLe(b)
  {
    if a == [] {
      assert a + b == b;
    } else {
      FromLeConcat(a[1..], b);
      assert (a + b)[1..] == a[1..] + b;
      assert Pow256(|a|) * FromLe(b) == 256 * (Pow256(|a[1..]|) * FromLe(b));
    }
  }

  /** Where the fields are: session, command and trace id of a request, session with its top bit of a response. */
  lemma Layout(m: Message)
    requires Fields(m)
    ensures var b := Body(m);
            if m.Request?
            then && U32(b, 0) == m.session && U32(b, 4) == m.cmd && b[16..] == m.payload
                 && U32(b, 8) + 0x1_0000_0000 * U32(b, 12) == m.traceid
            else U32(b, 0) == m.session + 0x8000_0000 && b[4..] == m.payload
  {
    Powers();
    hide Le, FromLe, Pow256, U32;
    var b := Body(m);
    LengthIs(b, 0);
    match m
    case Request(s, c, t, p) =>
      LeRoundTrip(4, s);
      LeRoundTrip(4, c);
      LeRoundTrip(8, t);
      LengthIs(b, 4);
      LengthIs(b, 8);
      LengthIs(b, 12);
      assert b[..4] == Le(4, s) && b[4..8] == Le(4, c) && b[8..16] == Le(8, t) && b[16..] == p;
      FromLeConcat(b[8..12], b[12..16]);
      assert b[8..12] + b[12..16] == b[8..16];
    case Response(s, p) =>
      LeRoundTrip(4, s + ACK);
      assert b[..4] == Le(4, s + ACK) && b[4..] == p;
  }

  /** A packed message is one frame. */
  lemma PackIsFrame(limit: nat, m: Message)
    requires limit < 0x1_0000_0000
    ensures Pack(limit, m).None? <==> |Body(m)| > limit
    ensures Pack(limit, m).Some? ==> IsFrame(Pack(limit, m).value, Body(m))
  {
    Powers();
    hide Le, FromLe, Pow256, U32, Body;
    if |Body(m)| <= limit {
      var f := Pack(limit, m).value;
      LeRoundTrip(4, |Body(m)|);
      LengthIs(f, 0);
      assert f[0..4] == Le(4, |Body(m)|) && f[4..] == Body(m);
    }
  }

  /** A packed message arrives as one packet that unpacks to it, with any stream behind it. */
  lemma MessageRoundTrip(limit: nat, m: Message, more: Bytes)
    requires Fields(m) && limit < 0x1_0000_0000 && Pack(limit, m).Some?
    ensures var p := Parse(limit, Pack(limit, m).value + more);
            && p.packets != [] && p.packets[0] == Body(m) && BodyOk(p.packets[0]) && Unpack(p.packets[0]) == m
            && p.packets[1..] == Parse(limit, more).packets && p.rest == Parse(limit, more).rest
            && p.error == Parse(limit, more).error
  {
    Powers();
    BodyRoundTrip(m);
    hide Le, FromLe, Pow256, BodyOk, Unpack;
    var body := Body(m);
    LeRoundTrip(4, |body|);
    var b := Pack(limit, m).value + more;
    assert b[..4] == Le(4, |body|) && b[4..4 + |body|] == body && b[4 + |body|..] == more;
    hide Body;
  }
}
