/**
 Datagrams: the publisher packs messages greedily, the network loses what it likes, and
 the receiver unpacks each arrival from one reused buffer.
 */
module Datagrams {
  import opened Protocol
  import opened Framing
  import opened Packing
  import opened Scanning

  /** The messages of one datagram, each as its struct. */
  function Records(g: seq<Msg>): (rs: seq<seq<Byte>>)
    ensures |rs| == |g|
  {
    seq(|g|, i requires 0 <= i < |g| => Encode(g[i]))
  }

  function Payload(g: seq<Msg>): seq<Byte> {
    Join(Records(g))
  }

  /** A datagram: a 16-bit count, then the messages back to back. */
  function Wire(g: seq<Msg>): seq<Byte> {
    Bytes(|g|, HEADER_BYTES) + Payload(g)
  }

  function Wires(gs: seq<seq<Msg>>): (ds: seq<seq<Byte>>)
    ensures |ds| == |gs|
  {
    seq(|gs|, i requires 0 <= i < |gs| => Wire(gs[i]))
  }

  /** What is left of the payload limit after the packet header. */
  const ROOM: nat := MAX_PAYLOAD - HEADER_BYTES

  /** The runs of messages that the publisher puts into one datagram each. */
  function Runs(ms: seq<Msg>): seq<seq<Msg>> {
    Groups(ms, MsgSize, ROOM)
  }

  lemma SizesBounded(m: Msg)
    ensures 19 <= MsgSize(m) <= LARGEST && |Encode(m)| == MsgSize(m)
  {
  }

  lemma RecordsSnoc(g: seq<Msg>, m: Msg)
    ensures Records(g + [m]) == Records(g) + [Encode(m)]
  {
  }

  lemma PayloadSnoc(g: seq<Msg>, m: Msg)
    ensures Payload(g + [m]) == Payload(g) + Encode(m)
  {
    RecordsSnoc(g, m);
    JoinSnoc(Records(g), Encode(m));
  }

  /** The weight that the packing counts is the length of the payload. */
  lemma {:induction false} PayloadLength(g: seq<Msg>)
    ensures |Payload(g)| == Weight(g, MsgSize)
  {
    if g == [] {
    } else {
      var rest, m := g[..|g| - 1], g[|g| - 1];
      assert g == rest + [m];
      PayloadLength(rest);
      PayloadSnoc(rest, m);
      SizesBounded(m);
    }
  }

  lemma {:induction false} WeightAtLeast(g: seq<Msg>)
    ensures Weight(g, MsgSize) >= 19 * |g|
  {
    if g == [] {
    } else {
      WeightAtLeast(g[..|g| - 1]);
    }
  }

  /** A datagram the publisher may send. */
  predicate Sendable(g: seq<Msg>) {
    g != [] && |g| <= 63 && |Wire(g)| <= MAX_PAYLOAD
  }

  lemma RoomIsSendable(g: seq<Msg>)
    requires WithinRoom(g, MsgSize, ROOM)
    ensures Sendable(g) && |Wire(g)| == HEADER_BYTES + Weight(g, MsgSize)
  {
    PayloadLength(g);
    WeightAtLeast(g);
  }

  /** Packing keeps every message in order; every datagram is non-empty, at most 1200
      bytes, and counts at most 63 messages; none had room for its successor's first. */
  lemma RunsAreExact(ms: seq<Msg>)
    ensures Join(Runs(ms)) == ms
    ensures forall g :: g in Runs(ms) ==> Sendable(g) && 0 < |g| <= 63 && |Wire(g)| <= 1200
    ensures forall k :: 0 < k < |Runs(ms)| ==>
              Runs(ms)[k] != [] && |Wire(Runs(ms)[k - 1])| + |Encode(Runs(ms)[k][0])| > 1200
  {
    var gs := Runs(ms);
    GroupsJoin(ms, MsgSize, ROOM);
    GroupsFit(ms, MsgSize, ROOM);
    GroupsAreGreedy(ms, MsgSize, ROOM);
    forall g | g in gs ensures Sendable(g) && |Wire(g)| == 2 + Weight(g, MsgSize) {
      RoomIsSendable(g);
    }
    forall k | 0 < k < |gs| ensures gs[k] != [] && |Wire(gs[k - 1])| + |Encode(gs[k][0])| > 1200 {
      assert gs[k - 1] in gs && Overflows(gs[k - 1], gs[k][0], MsgSize, ROOM);
    }
  }

  /** A datagram is two bytes of count, least significant first, and then its messages. */
  lemma WireLayout(g: seq<Msg>)
    requires |g| < 0x1_0000
    ensures |Wire(g)| >= 2 && Wire(g)[0] == |g| % 256 && Wire(g)[1] == |g| / 256
    ensures Wire(g)[2..] == Join(Records(g))
  {
    HeaderBytes(|g|);
  }

  // ----- unpacking -----

  /** One record; a byte that is no type reads as no message. */
  function Understood(r: seq<Byte>): Option<Msg> {
    if r == [] || SizeOf(r[0]) == 0 || SizeOf(r[0]) > |r| then None else Decode(r)
  }

  /** The message count that a buffer's packet header announces. */
  function Count(buf: seq<Byte>): nat {
    if |buf| < HEADER_BYTES then 0 else Number(buf[..HEADER_BYTES])
  }

  /** What the receiver makes of the first `n` bytes of its buffer. */
  function Unpack(buf: seq<Byte>, n: nat): seq<Option<Msg>> {
    Scan(buf, n, HEADER_BYTES, Count(buf), SizeOf, Understood)
  }

  /** Where it stops reading. */
  function UnpackEnd(buf: seq<Byte>, n: nat): nat {
    ScanEnd(buf, n, HEADER_BYTES, Count(buf), SizeOf)
  }

  /** Every message understood. */
  function Known(g: seq<Msg>): (r: seq<Option<Msg>>)
    ensures |r| == |g|
  {
    seq(|g|, i requires 0 <= i < |g| => Some(g[i]))
  }

  ghost predicate AllFit(g: seq<Msg>) {
    forall m :: m in g ==> Fits(m)
  }

  lemma RecordsCarry(g: seq<Msg>)
    requires AllFit(g)
    ensures AllCarry(Records(g), Known(g), SizeOf, Understood)
  {
    forall i | 0 <= i < |g| ensures Carries(Records(g)[i], Known(g)[i], SizeOf, Understood) {
      SizesBounded(g[i]);
      RoundTrip(g[i]);
    }
  }

  lemma CountReads(count: nat)
    requires count < TWO_16
    ensures Number(Bytes(count, HEADER_BYTES)) == count
  {
    NumberOfBytes(count, HEADER_BYTES);
    Widths();
  }

  /** Records behind a count of them. */
  lemma UnpackRecords(buf: seq<Byte>, h: seq<Byte>, rs: seq<seq<Byte>>, ts: seq<Option<Msg>>)
    requires AllCarry(rs, ts, SizeOf, Understood) && |h| == HEADER_BYTES && Number(h) == |ts|
    requires |h + Join(rs)| <= |buf| && buf[..|h + Join(rs)|] == h + Join(rs)
    ensures Unpack(buf, |h + Join(rs)|) == ts && UnpackEnd(buf, |h + Join(rs)|) == |h + Join(rs)|
  {
    SplitAt(buf, 0, h, Join(rs));
    ScanReads(buf, |h + Join(rs)|, HEADER_BYTES, rs, ts, SizeOf, Understood);
  }

  /** A datagram unpacks to its messages and is consumed exactly to its end, whatever
      earlier datagrams left in the buffer behind it. */
  lemma UnpackReads(buf: seq<Byte>, g: seq<Msg>)
    requires AllFit(g) && |g| < TWO_16 && |Wire(g)| <= |buf| && buf[..|Wire(g)|] == Wire(g)
    ensures Unpack(buf, |Wire(g)|) == Known(g) && UnpackEnd(buf, |Wire(g)|) == |Wire(g)|
  {
    CountReads(|g|);
    RecordsCarry(g);
    UnpackRecords(buf, Bytes(|g|, HEADER_BYTES), Records(g), Known(g));
  }

  /** Records behind any count: the announced number of them, and never one that starts past
      the received bytes. */
  lemma AnnouncedRecords(buf: seq<Byte>, h: seq<Byte>, rs: seq<seq<Byte>>, ts: seq<Option<Msg>>)
    requires AllCarry(rs, ts, SizeOf, Understood) && |h| == HEADER_BYTES
    requires |h + Join(rs)| <= |buf| && buf[..|h + Join(rs)|] == h + Join(rs)
    ensures Unpack(buf, |h + Join(rs)|) == UpTo(ts, Number(h))
  {
    SplitAt(buf, 0, h, Join(rs));
    ScanReadsUpTo(buf, |h + Join(rs)|, HEADER_BYTES, Number(h), rs, ts, SizeOf, Understood);
  }

  /** Whatever count a datagram announces, at most that many of its messages are read, and
      none from beyond its end. */
  lemma MiscountedDatagram(buf: seq<Byte>, g: seq<Msg>, count: nat)
    requires AllFit(g) && count < 0x1_0000 && |Bytes(count, 2) + Payload(g)| <= |buf|
    requires buf[..|Bytes(count, 2) + Payload(g)|] == Bytes(count, 2) + Payload(g)
    ensures Unpack(buf, |Bytes(count, 2) + Payload(g)|) == Known(UpTo(g, count))
  {
    CountReads(count);
    RecordsCarry(g);
    AnnouncedRecords(buf, Bytes(count, HEADER_BYTES), Records(g), Known(g));
    assert UpTo(Known(g), count) == Known(UpTo(g, count));
  }

  // ----- a whole session -----

  ghost predicate Deliverable(gs: seq<seq<Msg>>) {
    forall g :: g in gs ==> Sendable(g) && AllFit(g)
  }

  function Knowns(gs: seq<seq<Msg>>): (r: seq<seq<Option<Msg>>>)
    ensures |r| == |gs|
  {
    seq(|gs|, i requires 0 <= i < |gs| => Known(gs[i]))
  }

  lemma KnownConcat(x: seq<Msg>, y: seq<Msg>)
    ensures Known(x + y) == Known(x) + Known(y)
  {
  }

  lemma {:induction false} KnownsJoin(gs: seq<seq<Msg>>)
    ensures Join(Knowns(gs)) == Known(Join(gs))
  {
    if gs == [] {
    } else {
      var rest, g := gs[..|gs| - 1], gs[|gs| - 1];
      KnownsJoin(rest);
      assert Knowns(gs)[..|gs| - 1] == Knowns(rest);
      KnownConcat(Join(rest), g);
    }
  }

  lemma WireReadsAs(g: seq<Msg>, length: nat)
    requires Sendable(g) && AllFit(g) && length >= MAX_PAYLOAD
    ensures ReadsAs(Wire(g), Known(g), length, Unpack)
  {
    forall b: seq<Byte> | |b| == length && b[..|Wire(g)|] == Wire(g) ensures Unpack(b, |Wire(g)|) == Known(g) {
      UnpackReads(b, g);
    }
  }

  lemma WiresReadAs(gs: seq<seq<Msg>>, length: nat)
    requires Deliverable(gs) && length >= MAX_PAYLOAD
    ensures AllReadAs(Wires(gs), Knowns(gs), length, Unpack)
  {
    forall i | 0 <= i < |gs| ensures ReadsAs(Wires(gs)[i], Knowns(gs)[i], length, Unpack) {
      assert gs[i] in gs;
      WireReadsAs(gs[i], length);
    }
  }

  /** Whatever list of datagrams arrives, in whatever order and however often, the
      receiver dispatches exactly their messages, field for field. */
  lemma ArrivalsAreHeard(buf: seq<Byte>, gs: seq<seq<Msg>>)
    requires Deliverable(gs) && |buf| >= MAX_PAYLOAD
    ensures Heard(buf, Wires(gs), Unpack) == Known(Join(gs))
  {
    WiresReadAs(gs, |buf|);
    ArrivalsRead(buf, Wires(gs), Knowns(gs), Unpack);
    KnownsJoin(gs);
  }

  lemma {:induction false} KeptWires(gs: seq<seq<Msg>>, arrived: set<nat>)
    ensures Kept(Wires(gs), arrived) == Wires(Kept(gs, arrived))
  {
    if gs == [] {
    } else {
      KeptWires(gs[..|gs| - 1], arrived);
      assert Wires(gs)[..|gs| - 1] == Wires(gs[..|gs| - 1]);
    }
  }

  lemma RunsDeliverable(ms: seq<Msg>)
    requires AllFit(ms)
    ensures Deliverable(Runs(ms))
  {
    RunsAreExact(ms);
    forall g | g in Runs(ms) ensures AllFit(g) {
      forall m | m in g ensures Fits(m) {
        JoinMembers(Runs(ms), g, m);
      }
    }
  }

  lemma KeptDeliverable(gs: seq<seq<Msg>>, arrived: set<nat>)
    requires Deliverable(gs)
    ensures Deliverable(Kept(gs, arrived))
  {
    KeptMembers(gs, arrived);
  }

  /** The session: whatever subset of the datagrams arrives, and whatever the buffer held,
      the receiver dispatches exactly the concatenation of the surviving runs. */
  lemma LossIsWholeRuns(ms: seq<Msg>, arrived: set<nat>, buf: seq<Byte>)
    requires AllFit(ms) && |buf| >= MAX_PAYLOAD
    ensures Heard(buf, Kept(Wires(Runs(ms)), arrived), Unpack) == Known(Join(Kept(Runs(ms), arrived)))
  {
    RunsDeliverable(ms);
    KeptWires(Runs(ms), arrived);
    KeptDeliverable(Runs(ms), arrived);
    ArrivalsAreHeard(buf, Kept(Runs(ms), arrived));
  }

  /** When nothing is lost the receiver dispatches the publisher's stream, field for field. */
  lemma LosslessSession(ms: seq<Msg>, buf: seq<Byte>)
    requires AllFit(ms) && |buf| >= MAX_PAYLOAD
    ensures Heard(buf, Wires(Runs(ms)), Unpack) == Known(ms)
  {
    RunsDeliverable(ms);
    RunsAreExact(ms);
    ArrivalsAreHeard(buf, Runs(ms));
  }

  // ----- the program -----

  /** The packet holds the open group behind its header. */
  ghost predicate Loaded(packet: seq<Byte>, offset: nat, count: nat, open: seq<Msg>) {
    && |packet| == MAX_PAYLOAD + LARGEST
    && HEADER_BYTES <= offset <= MAX_PAYLOAD && offset == HEADER_BYTES + Weight(open, MsgSize)
    && count == |open|
    && packet[HEADER_BYTES..offset] == Payload(open)
  }

  lemma HeaderBytes(count: nat)
    requires count < TWO_16
    ensures Bytes(count, HEADER_BYTES) == [count % 256, count / 256]
  {
    assert Bytes(count, 2) == [count % 256] + Bytes(count / 256, 1);
    assert Bytes(count / 256, 1) == [count / 256] + Bytes(0, 0);
  }

  lemma WiresSnoc(gs: seq<seq<Msg>>, g: seq<Msg>)
    ensures Wires(gs + [g]) == Wires(gs) + [Wire(g)]
  {
  }

  lemma EmptyPayload()
    ensures Payload([]) == []
  {
    assert Records([]) == [];
  }

  /** Send the packet, if it holds anything, and start the next. */
  method Flush(packet: array<Byte>, offset: nat, count: nat, sent: seq<seq<Byte>>, ghost p: Bin<Msg>)
    returns (offset': nat, count': nat, sent': seq<seq<Byte>>)
    requires Loaded(packet[..], offset, count, p.open) && sent == Wires(p.closed)
    modifies packet
    ensures Loaded(packet[..], offset', count', Flushed(p).open) && sent' == Wires(Flushed(p).closed)
  {
    if count == 0 { return offset, count, sent; }
    WeightAtLeast(p.open);
    HeaderBytes(count);
    WiresSnoc(p.closed, p.open);
    EmptyPayload();
    packet[0], packet[1] := count % 256, count / 256;
    assert packet[..HEADER_BYTES] == Bytes(count, HEADER_BYTES);
    assert packet[..offset] == packet[..HEADER_BYTES] + packet[HEADER_BYTES..offset];
    return HEADER_BYTES, 0, sent + [packet[..offset]];
  }

  /** Append one message to the packet. */
  method Put(packet: array<Byte>, offset: nat, count: nat, m: Msg, ghost open: seq<Msg>)
    returns (offset': nat, count': nat)
    requires Loaded(packet[..], offset, count, open) && !Overflows(open, m, MsgSize, ROOM)
    modifies packet
    ensures Loaded(packet[..], offset', count', open + [m])
  {
    var bytes := Encode(m);
    SizesBounded(m);
    PayloadSnoc(open, m);
    WeightSnoc(open, m, MsgSize);
    WeightAtLeast(open);
    ghost var before := packet[..];
    Copy(packet, offset, bytes);
    Appended(before, packet[..], offset, bytes);
    offset', count' := offset + |bytes|, (count + 1) % TWO_16;
  }

  lemma Appended(before: seq<Byte>, after: seq<Byte>, offset: nat, bytes: seq<Byte>)
    requires HEADER_BYTES <= offset && offset + |bytes| <= |before|
    requires after == before[..offset] + bytes + before[offset + |bytes|..]
    ensures after[HEADER_BYTES..offset + |bytes|] == before[HEADER_BYTES..offset] + bytes
  {
  }

  /** `memcpy` into a buffer. */
  method Copy(dest: array<Byte>, offset: nat, bytes: seq<Byte>)
    requires offset + |bytes| <= dest.Length
    modifies dest
    ensures dest[..] == old(dest[..])[..offset] + bytes + old(dest[..])[offset + |bytes|..]
  {
    forall b | 0 <= b < |bytes| { dest[offset + b] := bytes[b]; }
  }

  /** The publish loop, on messages that already carry their send time. */
  method Publish(ms: seq<Msg>) returns (sent: seq<seq<Byte>>)
    ensures sent == Wires(Runs(ms))
  {
    var packet := new Byte[MAX_PAYLOAD + LARGEST](_ => 0);
    var offset: nat, count: nat := HEADER_BYTES, 0;
    sent := [];
    EmptyPayload();
    for i := 0 to |ms|
      invariant Loaded(packet[..], offset, count, Pack(ms[..i], MsgSize, ROOM).open)
      invariant sent == Wires(Pack(ms[..i], MsgSize, ROOM).closed)
    {
      assert ms[..i + 1][..i] == ms[..i];
      ghost var p := Pack(ms[..i], MsgSize, ROOM);
      SizesBounded(ms[i]);
      if offset + MsgSize(ms[i]) > MAX_PAYLOAD {
        offset, count, sent := Flush(packet, offset, count, sent, p);
        p := Flushed(p);
      }
      offset, count := Put(packet, offset, count, ms[i], p.open);
    }
    assert ms[..|ms|] == ms;
    offset, count, sent := Flush(packet, offset, count, sent, Pack(ms, MsgSize, ROOM));
  }

  /** The datagram in the buffer announces nothing that would be read past the buffer. */
  ghost predicate Readable(buf: seq<Byte>, n: nat) {
    HEADER_BYTES <= |buf| && n <= |buf| && InBuffer(buf, n, HEADER_BYTES, Count(buf), SizeOf)
  }

  /** That holds of every datagram that leaves room for one more message. */
  lemma ShortIsReadable(buf: seq<Byte>, n: nat)
    requires n + LARGEST <= |buf|
    ensures Readable(buf, n)
  {
    RoomIsEnough(buf, n, HEADER_BYTES, Count(buf), SizeOf, LARGEST);
  }

  /** The receiver has `heard` so far and has at most `left` messages to go. */
  ghost predicate Reading(bytes: seq<Byte>, n: nat, offset: nat, left: nat, heard: seq<Option<Msg>>) {
    && n <= |bytes| && InBuffer(bytes, n, offset, left, SizeOf)
    && heard + Scan(bytes, n, offset, left, SizeOf, Understood) == Unpack(bytes, n)
    && ScanEnd(bytes, n, offset, left, SizeOf) == UnpackEnd(bytes, n)
  }

  lemma ReadingStarts(bytes: seq<Byte>, n: nat)
    requires Readable(bytes, n)
    ensures Reading(bytes, n, HEADER_BYTES, Count(bytes), [])
  {
  }

  lemma ReadingMoves(bytes: seq<Byte>, n: nat, offset: nat, left: nat, heard: seq<Option<Msg>>)
    requires Reading(bytes, n, offset, left, heard) && left > 0 && offset < n
    ensures var next := offset + SizeOf(bytes[offset]);
            next <= |bytes| && Reading(bytes, n, next, left - 1, heard + [Understood(bytes[offset..next])])
  {
    var next := offset + SizeOf(bytes[offset]);
    Associates(heard, [Understood(bytes[offset..next])], Scan(bytes, n, next, left - 1, SizeOf, Understood));
  }

  lemma ReadingEnds(bytes: seq<Byte>, n: nat, offset: nat, left: nat, heard: seq<Option<Msg>>)
    requires Reading(bytes, n, offset, left, heard) && (left == 0 || offset >= n)
    ensures heard == Unpack(bytes, n) && offset == UnpackEnd(bytes, n)
  {
  }

  /** Unpack one arrival from the buffer. */
  method Receive(buf: array<Byte>, n: nat) returns (heard: seq<Option<Msg>>, end: nat)
    requires Readable(buf[..], n)
    ensures heard == Unpack(buf[..], n) && end == UnpackEnd(buf[..], n)
  {
    var left := Announced(buf);
    end := HEADER_BYTES;
    heard := [];
    ReadingStarts(buf[..], n);
    while left > 0 && end < n
      invariant Reading(buf[..], n, end, left, heard)
      decreases left
    {
      heard, end := ReadNext(buf, n, end, left, heard);
      left := left - 1;
    }
    ReadingEnds(buf[..], n, end, left, heard);
  }

  /** The packet header of the buffer. */
  method Announced(buf: array<Byte>) returns (count: nat)
    requires HEADER_BYTES <= buf.Length
    ensures count == Count(buf[..])
  {
    assert buf[..][..HEADER_BYTES] == buf[..HEADER_BYTES];
    count := Number(buf[..HEADER_BYTES]);
  }

  /** Copy out and decode the message at the offset. */
  method ReadNext(buf: array<Byte>, n: nat, offset: nat, ghost left: nat, heard: seq<Option<Msg>>)
    returns (heard': seq<Option<Msg>>, next: nat)
    requires offset < n && left > 0
    requires Reading(buf[..], n, offset, left, heard)
    ensures Reading(buf[..], n, next, left - 1, heard')
  {
    ReadingMoves(buf[..], n, offset, left, heard);
    next := offset + SizeOf(buf[offset]);
    assert buf[offset..next] == buf[..][offset..next];
    heard' := heard + [if next == offset then None else Decode(buf[offset..next])];
  }

  lemma Overwrites(before: seq<Byte>, d: seq<Byte>)
    requires |d| <= |before|
    ensures before[..0] + d + before[0 + |d|..] == Landed(before, d)
  {
  }

  /** One call of `recv`: what it brought, if anything, and whether the publisher's done
      flag is seen when it brought nothing. */
  datatype Reception = Reception(bytes: seq<Byte>, done: bool)

  /** The arrivals of a session: up to the first call that brings nothing with the flag up. */
  function Taken(calls: seq<Reception>): seq<seq<Byte>> {
    if calls == [] then []
    else if calls[0].bytes != [] then [calls[0].bytes] + Taken(calls[1..])
    else if calls[0].done then [] else Taken(calls[1..])
  }

  /** What the calls brought, whatever the flag said. */
  function Brought(calls: seq<Reception>): seq<seq<Byte>> {
    if calls == [] then [] else
    Brought(calls[..|calls| - 1]) + if calls[|calls| - 1].bytes == [] then [] else [calls[|calls| - 1].bytes]
  }

  /** Nothing is brought with the flag up. */
  predicate Ends(call: Reception) {
    call.bytes == [] && call.done
  }

  lemma {:induction false} BroughtFront(calls: seq<Reception>)
    requires calls != []
    ensures Brought(calls) == (if calls[0].bytes == [] then [] else [calls[0].bytes]) + Brought(calls[1..])
    decreases |calls|
  {
    if |calls| == 1 {
    } else {
      var init := calls[..|calls| - 1];
      BroughtFront(init);
      assert init[1..] == calls[1..][..|calls| - 2];
    }
  }

  /** A session takes all that its calls brought up to the first that ends it, and nothing after. */
  lemma {:induction false} TakenUntilDone(calls: seq<Reception>, e: nat)
    requires e <= |calls| && (forall c :: 0 <= c < e ==> !Ends(calls[c])) && (e < |calls| ==> Ends(calls[e]))
    ensures Taken(calls) == Brought(calls[..e])
    decreases e
  {
    if e == 0 {
    } else {
      assert !Ends(calls[0]) && forall c :: 0 <= c < e - 1 ==> calls[1..][c] == calls[c + 1];
      TakenUntilDone(calls[1..], e - 1);
      BroughtFront(calls[..e]);
      assert calls[..e][1..] == calls[1..][..e - 1];
    }
  }

  /** Every arrival fits the buffer and is readable in it once it has landed. */
  ghost predicate Receivable(start: seq<Byte>, arrivals: seq<seq<Byte>>) {
    forall a :: 0 <= a < |arrivals| ==>
      |arrivals[a]| <= |start| && Readable(BufferAfter(start, arrivals[..a + 1]), |arrivals[a]|)
  }

  /** The session so far: `t` arrivals have landed and been unpacked. */
  ghost predicate After(buf: seq<Byte>, heard: seq<Option<Msg>>, start: seq<Byte>, arrivals: seq<seq<Byte>>, t: nat) {
    t <= |arrivals| && buf == BufferAfter(start, arrivals[..t]) && heard == Heard(start, arrivals[..t], Unpack)
  }

  /** One arrival lands in the buffer and is unpacked. */
  method ReceiveOne(d: seq<Byte>, buf: array<Byte>, before: seq<Option<Msg>>,
                    ghost start: seq<Byte>, ghost arrivals: seq<seq<Byte>>, ghost t: nat)
    returns (heard: seq<Option<Msg>>, count: nat)
    requires t < |arrivals| && d == arrivals[t] && |start| == buf.Length
    requires Receivable(start, arrivals) && After(buf[..], before, start, arrivals, t)
    modifies buf
    ensures After(buf[..], heard, start, arrivals, t + 1) && |heard| == |before| + count
  {
    HeardNext(start, arrivals, t, Unpack);
    Overwrites(buf[..], d);
    Copy(buf, 0, d);
    var part, _ := Receive(buf, |d|);
    heard, count := before + part, |part|;
  }

  lemma TakenNext(calls: seq<Reception>, c: nat, arrivals: seq<seq<Byte>>, t: nat)
    requires c < |calls| && t <= |arrivals| && arrivals[t..] == Taken(calls[c..])
    ensures calls[c].bytes != [] ==>
              t < |arrivals| && arrivals[t] == calls[c].bytes && arrivals[t + 1..] == Taken(calls[c + 1..])
    ensures calls[c].bytes == [] && !calls[c].done ==> arrivals[t..] == Taken(calls[c + 1..])
    ensures calls[c].bytes == [] && calls[c].done ==> t == |arrivals|
  {
    assert calls[c..][0] == calls[c] && calls[c..][1..] == calls[c + 1..];
    if calls[c].bytes != [] {
      assert arrivals[t..][0] == arrivals[t] && arrivals[t..][1..] == arrivals[t + 1..];
    }
  }

  /** The receive loop: every arrival lands in the same buffer; a call that brings nothing
      counts for nothing, and ends the loop once the publisher is done. */
  method ReceiveAll(calls: seq<Reception>, buf: array<Byte>)
    returns (heard: seq<Option<Msg>>, datagrams: nat, received: nat)
    requires Receivable(buf[..], Taken(calls))
    modifies buf
    ensures heard == Heard(old(buf[..]), Taken(calls), Unpack)
    ensures datagrams == |Taken(calls)| && received == |heard|
  {
    ghost var start, arrivals := buf[..], Taken(calls);
    heard, datagrams, received := [], 0, 0;
    var c: nat := 0;
    assert calls[0..] == calls && arrivals[0..] == arrivals;
    while c < |calls|
      invariant c <= |calls| && datagrams <= |arrivals| && arrivals[datagrams..] == Taken(calls[c..])
      invariant received == |heard| && After(buf[..], heard, start, arrivals, datagrams)
    {
      TakenNext(calls, c, arrivals, datagrams);
      var d := calls[c].bytes;
      if |d| > 0 {
        var count: nat;
        heard, count := ReceiveOne(d, buf, heard, start, arrivals, datagrams);
        datagrams, received := datagrams + 1, received + count;
      } else if calls[c].done {
        break;
      }
      c := c + 1;
    }
    assert arrivals[..datagrams] == arrivals;
  }
}
