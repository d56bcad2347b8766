/** The loops on both ends of a UDP-over-TCP connection, and what one end gets of the other's datagrams. */
module UdpTunnel {
  import opened Bytes
  import opened Net
  import opened UdpFraming

  // ---- Congestion ------------------------------------------------------

  /** UDPConnectionHandler replaces an unmeasured round-trip time. */
  function Rtt(rtt: int): int { if rtt == 0 then 100 else rtt }

  /** The age computed from two clock readings reduced to the window. */
  function PacketAge(now: nat, stamp: nat): int { now % WINDOW - stamp }

  predicate Late(now: nat, stamp: nat, rtt: int) { PacketAge(now, stamp) > 3 * Rtt(rtt) }

  /** The test in numbers: three round trips, or 300 ms where none was measured. */
  lemma LateIff(now: nat, stamp: nat, rtt: int)
    ensures rtt != 0 ==> (Late(now, stamp, rtt) <==> now % 600_000 - stamp > 3 * rtt)
    ensures rtt == 0 ==> (Late(now, stamp, rtt) <==> now % 600_000 - stamp > 300)
  {
  }

  lemma WindowParts(t: nat)
    ensures t == t / WINDOW * WINDOW + t % WINDOW && 0 <= t % WINDOW < WINDOW
  {
  }

  /** The computed age is the true one, less ten minutes for every window boundary in between. */
  lemma AgeIs(sent: nat, now: nat)
    requires sent <= now
    ensures sent / 600_000 <= now / 600_000
    ensures now % 600_000 - sent % 600_000 == (now - sent) - 600_000 * (now / 600_000 - sent / 600_000)
    ensures PacketAge(now, sent % 600_000) == now % 600_000 - sent % 600_000
  {
    WindowParts(sent);
    WindowParts(now);
  }

  /** It is exact if and only if both readings fall into the same ten-minute window. */
  lemma AgeExactIff(sent: nat, now: nat)
    requires sent <= now
    ensures PacketAge(now, sent % 600_000) == now - sent <==> sent / 600_000 == now / 600_000
    ensures PacketAge(now, sent % 600_000) <= now - sent
  {
    AgeIs(sent, now);
  }

  /** A packet sets the flag only if it is truly too old, whatever the number of wraps. */
  lemma FlagIsSound(sent: nat, now: nat, rtt: int)
    requires sent <= now && Late(now, sent % 600_000, rtt)
    ensures now - sent > if rtt == 0 then 300 else 3 * rtt
  {
    AgeExactIff(sent, now);
    LateIff(now, sent % 600_000, rtt);
  }

  /** A packet that is too old is missed exactly when the wraps in between hide the excess. */
  lemma FlagMissedIff(sent: nat, now: nat, rtt: int)
    requires sent <= now && now - sent > if rtt == 0 then 300 else 3 * rtt
    ensures !Late(now, sent % 600_000, rtt) <==>
      now - sent - (if rtt == 0 then 300 else 3 * rtt) <= 600_000 * (now / 600_000 - sent / 600_000)
    ensures sent / 600_000 == now / 600_000 ==> Late(now, sent % 600_000, rtt)
  {
    AgeIs(sent, now);
    LateIff(now, sent % 600_000, rtt);
  }

  // ---- Sending ---------------------------------------------------------

  lemma {:induction false} EncodeSnoc(ps: seq<Packet>, p: Packet)
    ensures EncodeAll(ps + [p]) == EncodeAll(ps) + Encode(p)
  {
    hide Encode;
    if ps == [] {
      assert ps + [p] == [p];
      EncodeOne(p);
    } else {
      EncodeSnoc(ps[1..], p);
      assert (ps + [p])[1..] == ps[1..] + [p];
    }
  }

  /** The front of a sequence is encoded to the front of the encoding, and the next frame follows it. */
  lemma FrameAt(ps: seq<Packet>, i: nat)
    requires i < |ps|
    ensures EncodeAll(ps[..i + 1]) == EncodeAll(ps[..i]) + Encode(ps[i])
    ensures |EncodeAll(ps[..i + 1])| <= |EncodeAll(ps)|
    ensures Encode(ps[i]) <= EncodeAll(ps)[|EncodeAll(ps[..i])|..]
  {
    hide Encode, EncodeAll;
    assert ps[..i + 1] == ps[..i] + [ps[i]];
    EncodeSnoc(ps[..i], ps[i]);
    EncodeSplit(ps, i + 1);
  }

  lemma {:induction false} EncodeSplit(ps: seq<Packet>, i: nat)
    requires i <= |ps|
    ensures EncodeAll(ps) == EncodeAll(ps[..i]) + EncodeAll(ps[i..])
  {
    hide Encode;
    if i > 0 {
      EncodeSplit(ps[1..], i - 1);
      assert ps[..i][1..] == ps[1..][..i - 1] && ps[1..][i - 1..] == ps[i..];
    } else {
      assert ps[0..] == ps && ps[..0] == [];
    }
  }

  /**
   * Of a sender whose connection accepts n bytes in all, k is the number of frames it starts to
   * write: all before the k-th went out whole, and the k-th did not unless it is the last.
   */
  ghost predicate Started(ps: seq<Packet>, n: nat, k: nat) {
    && k <= |ps|
    && (k > 0 ==> |EncodeAll(ps[..k - 1])| <= n)
    && (k < |ps| ==> k > 0 && n < |EncodeAll(ps[..k])|)
  }

  /** The frames a client makes of these datagrams, with the clock's readings from u on. */
  function StampAll(datagrams: seq<bytes>, at: nat -> nat, u: nat): (ps: seq<Packet>)
    ensures |ps| == |datagrams|
    ensures forall i :: 0 <= i < |ps| ==>
      ps[i] == Packet(PutU32(at(u + i) % 600_000), Cut(datagrams[i], 16378))
  {
    seq(|datagrams|, i requires 0 <= i < |datagrams| =>
      Packet(PutU32(at(u + i) % WINDOW), Cut(datagrams[i], BUFFER_SIZE - 6)))
  }

  /**
   * The client's udpToTCP: until the socket or the connection fails, each datagram is stamped,
   * framed and written. The connection gets as much of all the frames as it accepts; one datagram
   * and one clock reading is used up for each frame started.
   */
  method ClientUdpToTCP(tcp: Conn, udp: Udp, clock: Clock) returns (ghost k: nat)
    modifies tcp`written, tcp`room, udp`incoming, clock`used
    ensures var ps := StampAll(old(udp.incoming), clock.at, old(clock.used));
      && tcp.written == old(tcp.written) + EncodeAll(ps)[..old(tcp.Accepts(|EncodeAll(ps)|))]
      && Started(ps, old(tcp.Accepts(|EncodeAll(ps)|)), k)
    ensures udp.incoming == old(udp.incoming)[k..] && clock.used == old(clock.used) + k
  {
    hide Sending, EncodeAll, StampAll, Started;
    var buf, header, timestampHeader := new byte[BUFFER_SIZE - 6], new byte[2], new byte[4];
    ghost var front, datagrams, u := tcp.written, udp.incoming, clock.used;
    ghost var most := tcp.Accepts(|EncodeAll(StampAll(datagrams, clock.at, u))|);
    k := 0;
    NothingSent(tcp, udp, clock);
    var stop := false;
    while !stop
      invariant !stop ==> Sending(tcp, udp, clock, front, datagrams, u, most, k)
      invariant stop ==> SendingEnded(tcp, udp, clock, front, datagrams, u, most, k)
      decreases !stop, |udp.incoming|
    {
      stop, k := ClientTurn(tcp, udp, clock, buf, header, timestampHeader, front, datagrams, u, most, k);
    }
  }

  /** The first k datagrams went out whole; the connection accepts `most` bytes in all. */
  ghost predicate Sending(
      tcp: Conn, udp: Udp, clock: Clock, front: bytes, datagrams: seq<bytes>, u: nat, most: nat, k: nat)
    reads tcp, udp, clock
  {
    && k <= |datagrams| && udp.incoming == datagrams[k..] && clock.used == u + k
    && var ps := StampAll(datagrams, clock.at, u);
       var whole, done := EncodeAll(ps), |EncodeAll(ps[..k])|;
       && done <= |whole| && tcp.written == front + whole[..done]
       && done + tcp.Accepts(|whole| - done) == most
  }

  ghost predicate SendingEnded(
      tcp: Conn, udp: Udp, clock: Clock, front: bytes, datagrams: seq<bytes>, u: nat, most: nat, k: nat)
    reads tcp, udp, clock
  {
    && k <= |datagrams| && udp.incoming == datagrams[k..] && clock.used == u + k
    && var ps := StampAll(datagrams, clock.at, u);
       most <= |EncodeAll(ps)| && tcp.written == front + EncodeAll(ps)[..most] && Started(ps, most, k)
  }

  lemma NothingSent(tcp: Conn, udp: Udp, clock: Clock)
    ensures var datagrams, u := udp.incoming, clock.used;
      Sending(tcp, udp, clock, tcp.written, datagrams, u, tcp.Accepts(|EncodeAll(StampAll(datagrams, clock.at, u))|), 0)
  {
    hide StampAll;
    EncodeNone();
  }

  /** One turn of its loop: a datagram is read, stamped, framed and written, or the loop ends. */
  method ClientTurn(
      tcp: Conn, udp: Udp, clock: Clock, buf: array<byte>, header: array<byte>, timestampHeader: array<byte>,
      ghost front: bytes, ghost datagrams: seq<bytes>, ghost u: nat, ghost most: nat, ghost k: nat)
      returns (stop: bool, ghost next: nat)
    requires timestampHeader.Length == 4 && header.Length == 2 && buf.Length == 16378
    requires timestampHeader != buf && header != buf && timestampHeader != header
    requires Sending(tcp, udp, clock, front, datagrams, u, most, k)
    modifies tcp`written, tcp`room, udp`incoming, clock`used, buf, header, timestampHeader
    ensures !stop ==> Sending(tcp, udp, clock, front, datagrams, u, most, next)
    ensures !stop ==> |udp.incoming| < |old(udp.incoming)|
    ensures stop ==> SendingEnded(tcp, udp, clock, front, datagrams, u, most, next)
  {
    hide EncodeAll, Encode, StampAll, Started, UpTo, Less, Cut;
    ghost var ps := StampAll(datagrams, clock.at, u);
    ghost var whole, done := EncodeAll(ps), |EncodeAll(ps[..k])|;
    next := k;
    var r, err := udp.Read(buf);
    if err {
      assert ps[..k] == ps;
      AllStarted(ps, k, most);
      return true, next;
    }
    var timestamp := clock.UnixMilli();
    var packet := StampedPacket(timestampHeader, header, buf, r, timestamp);
    FrameAt(ps, k);
    assert done + tcp.Accepts(|whole| - done) == most;
    stop := WriteNext(tcp, packet, front, whole, done);
    next := k + 1;
    if stop {
      JustStarted(ps, k + 1, most);
    }
  }

  lemma JustStarted(ps: seq<Packet>, k: nat, n: nat)
    requires 0 < k <= |ps| && |EncodeAll(ps[..k - 1])| <= n < |EncodeAll(ps[..k])|
    ensures Started(ps, n, k)
  {
  }

  lemma AllStarted(ps: seq<Packet>, k: nat, n: nat)
    requires k == |ps| && n == |EncodeAll(ps[..k])|
    ensures Started(ps, n, k)
  {
    hide EncodeAll, Encode;
    if k > 0 {
      FrameAt(ps, k - 1);
    }
  }

  /** The headers and the data of one frame, put together in the reused buffers. */
  method StampedPacket(timestampHeader: array<byte>, header: array<byte>, buf: array<byte>, r: nat, timestamp: nat)
      returns (packet: bytes)
    requires timestampHeader.Length == 4 && header.Length == 2 && r <= buf.Length
    requires timestampHeader != buf && header != buf && timestampHeader != header
    modifies timestampHeader, header
    ensures packet == Encode(Packet(PutU32(timestamp % 600_000), buf[..r]))
  {
    WindowParts(timestamp);
    PutUint32(timestampHeader, timestamp % WINDOW);
    PutUint16(header, r);
    packet := timestampHeader[..] + header[..] + buf[..r];
    EncodeIs(timestampHeader[..], header[..], buf[..r]);
  }

  lemma EncodeNone()
    ensures EncodeAll([]) == []
  {
  }

  lemma EncodeIs(stamp: bytes, header: bytes, data: bytes)
    requires header == PutU16(|data|)
    ensures stamp + header + data == Encode(Packet(stamp, data))
  {
  }

  /** The queued datagrams whose length the header can hold. */
  function Sendable(payload: seq<bytes>): seq<Packet> {
    if payload == [] then []
    else
      var front, last := Sendable(payload[..|payload| - 1]), payload[|payload| - 1];
      if |last| > 65535 then front else front + [Packet([], last)]
  }

  lemma SendableNext(payload: seq<bytes>, i: nat)
    requires i < |payload|
    ensures |payload[i]| > 65535 ==> Sendable(payload[..i + 1]) == Sendable(payload[..i])
    ensures |payload[i]| <= 65535 ==> Sendable(payload[..i + 1]) == Sendable(payload[..i]) + [Packet([], payload[i])]
  {
    assert payload[..i + 1][..i] == payload[..i];
  }

  lemma {:induction false} SendableFront(payload: seq<bytes>, i: nat)
    requires i <= |payload|
    ensures Sendable(payload[..i]) <= Sendable(payload)
    decreases |payload|
  {
    if i < |payload| {
      SendableFront(payload[..|payload| - 1], i);
      assert payload[..|payload| - 1][..i] == payload[..i];
    } else {
      assert payload[..i] == payload;
    }
  }

  /**
   * The server's udpToTCP, until the payload channel stays empty or the connection fails: the
   * connection gets as much of all the frames as it accepts.
   */
  method ServerUdpToTCP(tcp: Conn, payload: seq<bytes>)
    modifies tcp`written, tcp`room
    ensures var whole := EncodeAll(Sendable(payload));
      tcp.written == old(tcp.written) + whole[..old(tcp.Accepts(|whole|))]
  {
    hide EncodeAll, Encode, Sendable;
    var header := new byte[2];
    ghost var front, ps := tcp.written, Sendable(payload);
    ghost var whole, done := EncodeAll(ps), 0;
    ghost var most := tcp.Accepts(|whole|);
    SendableNone(payload);
    for i := 0 to |payload|
      invariant done == |EncodeAll(Sendable(payload[..i]))| <= |whole| && tcp.written == front + whole[..done]
      invariant done + tcp.Accepts(|whole| - done) == most
    {
      var data := payload[i];
      SendableNext(payload, i);
      if |data| > 65535 {
        continue;
      }
      PutUint16(header, |data|);
      EncodeIs([], header[..], data);
      var packet := header[..] + data;
      assert packet == [] + header[..] + data;
      ghost var n := |Sendable(payload[..i])|;
      SendableFront(payload, i);
      SendableFront(payload, i + 1);
      assert ps[..n] == Sendable(payload[..i]) && ps[..n + 1] == Sendable(payload[..i + 1]);
      FrameAt(ps, n);
      assert done + tcp.Accepts(|whole| - done) == most;
      var werr := WriteNext(tcp, packet, front, whole, done);
      if werr {
        return;
      }
      done := done + |packet|;
    }
    assert payload[..|payload|] == payload;
  }

  lemma SendableNone(payload: seq<bytes>)
    ensures Sendable(payload[..0]) == [] && EncodeAll(Sendable(payload[..0])) == []
  {
  }

  // ---- Receiving -------------------------------------------------------

  /** The bytes that can still be read. */
  ghost function Ahead(tcp: Conn): bytes
    reads tcp
  {
    tcp.incoming[..tcp.Reach()]
  }

  lemma AheadAfter(stream: bytes, reach: nat, n: nat)
    requires n <= reach <= |stream|
    ensures stream[..reach][..n] == stream[..n]
    ensures stream[..reach][n..] == stream[n..][..reach - n]
  {
  }

  /** io.ReadFull, said about the bytes ahead. */
  method Fill(tcp: Conn, buf: array<byte>, size: nat) returns (err: bool)
    requires size <= buf.Length
    modifies tcp`incoming, tcp`inTime, buf
    ensures err <==> |old(Ahead(tcp))| < size
    ensures !err ==> buf[..size] == old(Ahead(tcp))[..size] && Ahead(tcp) == old(Ahead(tcp))[size..]
  {
    ghost var stream, reach := tcp.incoming, tcp.Reach();
    var n;
    n, err := ReadFull(tcp, buf, size);
    if !err {
      AheadAfter(stream, reach, size);
    }
  }

  /** The length, the check against the buffer and the data: the part both receivers share. */
  method ReadSized(tcp: Conn, lenBuf: array<byte>, buf: array<byte>) returns (size: nat, err: bool)
    requires lenBuf.Length == 2 && buf.Length == BUFFER_SIZE && lenBuf != buf
    modifies tcp`incoming, tcp`inTime, lenBuf, buf
    ensures !err <==> Whole(0, old(Ahead(tcp)))
    ensures !err ==>
      && size <= buf.Length && size == Len(0, old(Ahead(tcp))) && buf[..size] == First(0, old(Ahead(tcp))).data
      && Ahead(tcp) == Rest(0, old(Ahead(tcp)))
  {
    ghost var b := Ahead(tcp);
    size := 0;
    err := Fill(tcp, lenBuf, 2);
    if err {
      return;
    }
    assert lenBuf[..2] == lenBuf[..] == b[..2];
    size := U16(lenBuf[0], lenBuf[1]);
    if size > buf.Length {
      err := true;
      return;
    }
    err := Fill(tcp, buf, size);
    if !err {
      Behind(b, 2, size);
    }
  }

  lemma Behind(b: bytes, i: nat, n: nat)
    requires i + n <= |b|
    ensures b[i..][..n] == b[i..i + n] && b[i..][n..] == b[i + n..]
  {
  }

  /** The datagrams that come out: empty ones are not sent on. */
  function Forwarded(ps: seq<Packet>): seq<bytes> {
    if ps == [] then []
    else
      var front, last := Forwarded(ps[..|ps| - 1]), ps[|ps| - 1].data;
      if last == [] then front else front + [last]
  }

  lemma ForwardedSnoc(ps: seq<Packet>, p: Packet)
    ensures p.data == [] ==> Forwarded(ps + [p]) == Forwarded(ps)
    ensures p.data != [] ==> Forwarded(ps + [p]) == Forwarded(ps) + [p.data]
  {
    assert (ps + [p])[..|ps|] == ps;
  }

  lemma DecodeOn(h: nat, b: bytes, done: seq<Packet>, rest: bytes)
    requires Decode(h, b) == done + Decode(h, rest) && Whole(h, rest)
    ensures Decode(h, b) == (done + [First(h, rest)]) + Decode(h, Rest(h, rest))
    ensures done + [First(h, rest)] <= Decode(h, b)
  {
    hide Decode, Whole, First, Rest;
    DecodeStep(h, rest);
    Regroup(done, First(h, rest), Decode(h, Rest(h, rest)));
  }

  lemma DecodeStep(h: nat, b: bytes)
    requires Whole(h, b)
    ensures Decode(h, b) == [First(h, b)] + Decode(h, Rest(h, b))
  {
  }

  lemma Regroup(done: seq<Packet>, p: Packet, more: seq<Packet>)
    ensures done + ([p] + more) == (done + [p]) + more && done + [p] <= done + ([p] + more)
  {
  }

  /** `for totalWritten < packetSize { udp.Write(...) }`: nothing to do for an empty datagram. */
  method Forward(udp: Udp, data: bytes) returns (err: bool)
    modifies udp`sent, udp`room
    ensures err <==> data != [] && old(udp.room) == Some(0)
    ensures err ==> udp.sent == old(udp.sent) && udp.room == old(udp.room)
    ensures !err && data == [] ==> udp.sent == old(udp.sent) && udp.room == old(udp.room)
    ensures !err && data != [] ==> udp.sent == old(udp.sent) + [data] && udp.room == Less(old(udp.room), 1)
  {
    var totalWritten := 0;
    err := false;
    if totalWritten < |data| {
      totalWritten, err := udp.Write(data);
    }
  }

  /** As many of these as a socket sends. */
  function Cap(ds: seq<bytes>, room: Option<nat>): (r: seq<bytes>)
    ensures r <= ds && (room.None? ==> r == ds)
    ensures room.Some? ==> |r| <= room.value && (r == ds || |r| == room.value)
  {
    ds[..UpTo(room, |ds|)]
  }

  lemma {:induction false} ForwardedFront(ps: seq<Packet>, i: nat)
    requires i <= |ps|
    ensures Forwarded(ps[..i]) <= Forwarded(ps)
    decreases |ps|
  {
    if i < |ps| {
      ForwardedFront(ps[..|ps| - 1], i);
      assert ps[..|ps| - 1][..i] == ps[..i];
    } else {
      assert ps[..i] == ps;
    }
  }

  /** The sends of a receiver that has forwarded `got` of `all`, and what the next packet does to them. */
  ghost predicate Passed(udp: Udp, front: seq<bytes>, room: Option<nat>, got: seq<Packet>)
    reads udp
  {
    && udp.sent == front + Forwarded(got)
    && UpTo(room, |Forwarded(got)|) == |Forwarded(got)| && udp.room == Less(room, |Forwarded(got)|)
  }

  /** A failing send has used up the room; what was sent is all that any longer sequence would send. */
  lemma CapReached(all: seq<Packet>, got: seq<Packet>, p: Packet, room: Option<nat>)
    requires got + [p] <= all && p.data != []
    requires UpTo(room, |Forwarded(got)|) == |Forwarded(got)| && Less(room, |Forwarded(got)|) == Some(0)
    ensures Cap(Forwarded(all), room) == Forwarded(got)
  {
    hide Forwarded;
    assert all[..|got| + 1] == got + [p];
    ForwardedSnoc(got, p);
    ForwardedFront(all, |got| + 1);
  }

  lemma CapAll(ds: seq<bytes>, room: Option<nat>)
    requires UpTo(room, |ds|) == |ds|
    ensures Cap(ds, room) == ds
  {
  }

  method ForwardNext(
      udp: Udp, data: bytes, ghost front: seq<bytes>, ghost room: Option<nat>, ghost got: seq<Packet>, ghost p: Packet)
      returns (err: bool)
    requires Passed(udp, front, room, got) && p.data == data
    modifies udp`sent, udp`room
    ensures err <==> data != [] && old(udp.room) == Some(0)
    ensures err ==> Less(room, |Forwarded(got)|) == Some(0) && udp.sent == front + Forwarded(got)
    ensures !err ==> Passed(udp, front, room, got + [p])
    ensures udp.room == if err || data == [] then old(udp.room) else Less(old(udp.room), 1)
  {
    hide Forwarded;
    ForwardedSnoc(got, p);
    err := Forward(udp, data);
  }

  /**
   * The client's tcpToUDP: sends on the non-empty datagrams that arrive whole, in order, as many as
   * the socket sends.
   */
  method ClientTcpToUDP(tcp: Conn, udp: Udp)
    modifies tcp`incoming, tcp`inTime, udp`sent, udp`room
    ensures udp.sent == old(udp.sent) + Cap(Forwarded(Decode(0, old(Ahead(tcp)))), old(udp.room))
  {
    hide Decode, Whole, Len, First, Rest, Forwarded, Cap, UpTo, Less;
    var buf, lenBuf := new byte[BUFFER_SIZE], new byte[2];
    ghost var b, front, room := Ahead(tcp), udp.sent, udp.room;
    ghost var all, got: seq<Packet> := Decode(0, b), [];
    NonePassed(udp);
    while true
      invariant all == got + Decode(0, Ahead(tcp))
      invariant Passed(udp, front, room, got)
      decreases |Ahead(tcp)|
    {
      ghost var cur := Ahead(tcp);
      var size, err := ReadSized(tcp, lenBuf, buf);
      if err {
        DecodeStops(0, cur);
        assert all == got;
        CapAll(Forwarded(got), room);
        return;
      }
      DecodeOn(0, b, got, cur);
      RestShorter(0, cur);
      err := ForwardNext(udp, buf[..size], front, room, got, First(0, cur));
      if err {
        CapReached(all, got, First(0, cur), room);
        return;
      }
      got := got + [First(0, cur)];
    }
  }

  lemma NonePassed(udp: Udp)
    ensures Passed(udp, udp.sent, udp.room, [])
  {
  }

  lemma DecodeStops(h: nat, b: bytes)
    requires !Whole(h, b)
    ensures Decode(h, b) == []
  {
  }

  lemma RestShorter(h: nat, b: bytes)
    requires Whole(h, b)
    ensures |Rest(h, b)| < |b|
  {
  }

  /** The timestamps a receiver reads: one per frame, and one of a frame that does not come whole. */
  function Stamps(b: bytes): seq<nat>
    decreases |b|
  {
    if |b| < 4 then [] else [U32(b[..4])] + if Whole(4, b) then Stamps(Rest(4, b)) else []
  }

  lemma StampsStep(b: bytes)
    ensures |b| >= 4 ==> |Stamps(b)| > 0 && Stamps(b)[0] == U32(b[..4])
    ensures Whole(4, b) ==> Stamps(b) == [U32(b[..4])] + Stamps(Rest(4, b))
    ensures Whole(4, b) ==> |b| >= 4
  {
  }

  /** A frame with a timestamp is the timestamp and a frame without one. */
  lemma WholeBehind(b: bytes)
    requires |b| >= 4
    ensures Whole(4, b) <==> Whole(0, b[4..])
    ensures Whole(4, b) ==> First(4, b) == Packet(b[..4], First(0, b[4..]).data) && Rest(4, b) == Rest(0, b[4..])
  {
  }

  /** How many timestamps a receiver reads before it stops, with a socket that sends this much. */
  function StampsRead(b: bytes, room: Option<nat>): (r: nat)
    ensures r <= |Stamps(b)|
    decreases |b|
  {
    if |b| < 4 then 0
    else if !Whole(4, b) then 1
    else if First(4, b).data == [] then 1 + StampsRead(Rest(4, b), room)
    else if room == Some(0) then 1
    else 1 + StampsRead(Rest(4, b), Less(room, 1))
  }

  /** Every timestamp is read when no send fails. */
  lemma {:induction false} AllStampsRead(b: bytes, room: Option<nat>)
    requires UpTo(room, |Decode(4, b)|) == |Decode(4, b)|
    ensures StampsRead(b, room) == |Stamps(b)| && |Decode(4, b)| <= |Stamps(b)| <= |Decode(4, b)| + 1
    decreases |b|
  {
    hide First, Rest, Whole;
    StampsStep(b);
    if |b| < 4 {
      StampsNone(b);
      DecodeStops(4, b);
    } else if !Whole(4, b) {
      StampsLast(b);
      DecodeStops(4, b);
    } else {
      DecodeStep(4, b);
      RestShorter(4, b);
      AllStampsRead(Rest(4, b), if First(4, b).data == [] then room else Less(room, 1));
    }
  }

  /** The i-th timestamp of the bytes was too old for the clock reading that followed it. */
  ghost predicate LateAt(b: bytes, at: nat -> nat, u: nat, rtt: int, i: nat) {
    i < |Stamps(b)| && at(u + i) % 600_000 - Stamps(b)[i] > if rtt == 0 then 300 else 3 * rtt
  }

  /** One of the first r was. */
  ghost predicate SomeLate(b: bytes, at: nat -> nat, u: nat, rtt: int, r: nat) {
    exists i: nat :: i < r && LateAt(b, at, u, rtt, i)
  }

  class UdpSession {
    var isCongested: bool

    constructor ()
      ensures !isCongested
    {
      isCongested := false;
    }
  }

  lemma SomeLateNext(b: bytes, at: nat -> nat, u: nat, rtt: int, r: nat)
    ensures SomeLate(b, at, u, rtt, r + 1) <==> SomeLate(b, at, u, rtt, r) || LateAt(b, at, u, rtt, r)
    ensures !SomeLate(b, at, u, rtt, 0)
  {
    hide LateAt;
  }

  /** The timestamp of a frame and the test that may flag the session. */
  method ReadStamp(tcp: Conn, timestampBuf: array<byte>, clock: Clock, rtt: int, session: UdpSession)
      returns (err: bool)
    requires timestampBuf.Length == 4
    modifies tcp`incoming, tcp`inTime, timestampBuf, clock`used, session
    ensures err <==> |old(Ahead(tcp))| < 4
    ensures err ==> session.isCongested == old(session.isCongested) && clock.used == old(clock.used)
    ensures !err ==>
      && Ahead(tcp) == old(Ahead(tcp))[4..] && clock.used == old(clock.used) + 1
      && var age := clock.at(old(clock.used)) % 600_000 - U32(old(Ahead(tcp))[..4]);
         session.isCongested == (old(session.isCongested) || age > if rtt == 0 then 300 else 3 * rtt)
  {
    ghost var b := Ahead(tcp);
    err := Fill(tcp, timestampBuf, 4);
    if err {
      return;
    }
    assert timestampBuf[..] == timestampBuf[..4] == b[..4];
    var timestamp := clock.UnixMilli();
    if Late(timestamp, U32(timestampBuf[..]), rtt) {
      session.isCongested := true;
    }
  }

  /** The state of the server's receiving loop after r stamps and the packets `got`. */
  ghost predicate Receiving(
      tcp: Conn, udp: Udp, clock: Clock, session: UdpSession, b: bytes, front: seq<bytes>, room: Option<nat>, u: nat,
      rtt: int, flagged: bool, got: seq<Packet>, r: nat)
    reads tcp, udp, clock, session
  {
    && Decode(4, b) == got + Decode(4, Ahead(tcp))
    && r <= |Stamps(b)| && Stamps(b)[r..] == Stamps(Ahead(tcp))
    && r + StampsRead(Ahead(tcp), udp.room) == StampsRead(b, room)
    && Passed(udp, front, room, got)
    && clock.used == u + r
    && (session.isCongested <==> flagged || SomeLate(b, clock.at, u, rtt, r))
  }

  ghost predicate ReceivingEnded(
      udp: Udp, clock: Clock, session: UdpSession, b: bytes, front: seq<bytes>, room: Option<nat>, u: nat, rtt: int,
      flagged: bool)
    reads udp, clock, session
  {
    && udp.sent == front + Cap(Forwarded(Decode(4, b)), room)
    && clock.used == u + StampsRead(b, room)
    && (session.isCongested <==> flagged || SomeLate(b, clock.at, u, rtt, StampsRead(b, room)))
  }

  lemma NothingReceived(tcp: Conn, udp: Udp, clock: Clock, session: UdpSession, rtt: int)
    ensures Receiving(
      tcp, udp, clock, session, Ahead(tcp), udp.sent, udp.room, clock.used, rtt, session.isCongested, [], 0)
  {
    hide Decode, StampsRead, Stamps, LateAt;
    SomeLateNext(Ahead(tcp), clock.at, clock.used, rtt, 0);
  }

  /**
   * The server's tcpToUDP: as the client's, and the session is flagged exactly if one of the
   * timestamps it read was too old at that moment.
   */
  method ServerTcpToUDP(tcp: Conn, udp: Udp, clock: Clock, rtt: int, session: UdpSession)
    modifies tcp`incoming, tcp`inTime, udp`sent, udp`room, clock`used, session
    ensures udp.sent == old(udp.sent) + Cap(Forwarded(Decode(4, old(Ahead(tcp)))), old(udp.room))
    ensures clock.used == old(clock.used) + StampsRead(old(Ahead(tcp)), old(udp.room))
    ensures session.isCongested <==>
      || old(session.isCongested)
      || SomeLate(old(Ahead(tcp)), clock.at, old(clock.used), rtt, StampsRead(old(Ahead(tcp)), old(udp.room)))
  {
    hide Receiving, Decode, Forwarded, SomeLate, StampsRead, Cap;
    var buf, lenBuf, timestampBuf := new byte[BUFFER_SIZE], new byte[2], new byte[4];
    ghost var b, front, room, u, flagged := Ahead(tcp), udp.sent, udp.room, clock.used, session.isCongested;
    ghost var got: seq<Packet>, r: nat := [], 0;
    NothingReceived(tcp, udp, clock, session, rtt);
    var stop := false;
    while !stop
      invariant !stop ==> Receiving(tcp, udp, clock, session, b, front, room, u, rtt, flagged, got, r)
      invariant stop ==> ReceivingEnded(udp, clock, session, b, front, room, u, rtt, flagged)
      decreases !stop, |Ahead(tcp)|
    {
      stop, got, r :=
        ServerTurn(tcp, udp, clock, rtt, session, buf, lenBuf, timestampBuf, b, front, room, u, flagged, got, r);
    }
  }

  /** One turn of its loop: a timestamp, then a packet that is sent on, or the loop ends. */
  method ServerTurn(
      tcp: Conn, udp: Udp, clock: Clock, rtt: int, session: UdpSession, buf: array<byte>, lenBuf: array<byte>,
      timestampBuf: array<byte>, ghost b: bytes, ghost front: seq<bytes>, ghost room: Option<nat>, ghost u: nat,
      ghost flagged: bool, ghost got: seq<Packet>, ghost r: nat)
      returns (stop: bool, ghost more: seq<Packet>, ghost next: nat)
    requires lenBuf.Length == 2 && buf.Length == BUFFER_SIZE && lenBuf != buf && timestampBuf.Length == 4
    requires Receiving(tcp, udp, clock, session, b, front, room, u, rtt, flagged, got, r)
    modifies tcp`incoming, tcp`inTime, udp`sent, udp`room, clock`used, session, buf, lenBuf, timestampBuf
    ensures !stop ==> Receiving(tcp, udp, clock, session, b, front, room, u, rtt, flagged, more, next)
    ensures !stop ==> |Ahead(tcp)| < |old(Ahead(tcp))|
    ensures stop ==> ReceivingEnded(udp, clock, session, b, front, room, u, rtt, flagged)
  {
    hide Decode, Whole, Len, First, Rest, Forwarded, Stamps, Late, SomeLate, StampsRead, Cap, UpTo, Less;
    ghost var cur := Ahead(tcp);
    stop, more, next := true, got, r;
    StampsStep(cur);
    ReadsStep(cur, udp.room);
    var err := ReadStamp(tcp, timestampBuf, clock, rtt, session);
    if err {
      StampsNone(cur);
      DecodeStops(4, cur);
      assert Decode(4, b) == got;
      CapAll(Forwarded(got), room);
      return;
    }
    assert Stamps(b)[r] == Stamps(b)[r..][0];
    LateIff(clock.at(u + r), Stamps(b)[r], rtt);
    SomeLateNext(b, clock.at, u, rtt, r);
    next := r + 1;
    WholeBehind(cur);
    var size;
    size, err := ReadSized(tcp, lenBuf, buf);
    if err {
      StampsLast(cur);
      DecodeStops(4, cur);
      assert Decode(4, b) == got;
      CapAll(Forwarded(got), room);
      return;
    }
    DecodeOn(4, b, got, cur);
    RestShorter(4, cur);
    stop := ForwardNext(udp, buf[..size], front, room, got, First(4, cur));
    if stop {
      CapReached(Decode(4, b), got, First(4, cur), room);
      return;
    }
    more := got + [First(4, cur)];
  }

  lemma ReadsStep(b: bytes, room: Option<nat>)
    ensures |b| < 4 ==> StampsRead(b, room) == 0
    ensures |b| >= 4 && !Whole(4, b) ==> StampsRead(b, room) == 1
    ensures Whole(4, b) ==>
      StampsRead(b, room) ==
        if First(4, b).data == [] then 1 + StampsRead(Rest(4, b), room)
        else if room == Some(0) then 1
        else 1 + StampsRead(Rest(4, b), Less(room, 1))
  {
  }

  lemma StampsNone(b: bytes)
    requires |b| < 4
    ensures Stamps(b) == [] && !Whole(4, b)
  {
  }

  lemma StampsLast(b: bytes)
    requires |b| >= 4 && !Whole(4, b)
    ensures |Stamps(b)| == 1
  {
  }

  // ---- Both ends -------------------------------------------------------

  lemma {:induction false} StampsCut(ps: seq<Packet>, n: nat)
    requires Framed(4, ps) && Fits(ps) && n <= |EncodeAll(ps)|
    ensures var b := EncodeAll(ps)[..n];
      |Stamps(b)| <= |ps| && forall i :: 0 <= i < |Stamps(b)| ==> Stamps(b)[i] == U32(ps[i].stamp)
  {
    hide Encode, Stamps, Whole, First, Rest;
    var b := EncodeAll(ps)[..n];
    if |b| < 4 {
      StampsNone(b);
      return;
    }
    StampsStep(b);
    var rest, size := EncodeAll(ps[1..]), 6 + |ps[0].data|;
    EncodeParts(4, ps[0], rest);
    assert b[..4] == EncodeAll(ps)[..4];
    FrontWhole(ps[0], rest, n);
    if Whole(4, b) {
      StampsCut(ps[1..], n - size);
    } else {
      StampsLast(b);
    }
  }

  lemma FrontWhole(p: Packet, rest: bytes, n: nat)
    requires |p.stamp| == 4 && |p.data| <= BUFFER_SIZE && n <= |Encode(p) + rest|
    ensures var b, size := (Encode(p) + rest)[..n], 6 + |p.data|;
      && |Encode(p)| == size
      && (Whole(4, b) <==> n >= size)
      && (Whole(4, b) ==> n - size <= |rest| && Rest(4, b) == rest[..n - size])
  {
    hide Encode;
    var all := Encode(p) + rest;
    var b, size := all[..n], 6 + |p.data|;
    EncodeParts(4, p, rest);
    EncodeParts(4, p, []);
    if |b| >= 6 {
      assert b[4] == all[4] && b[5] == all[5];
    }
    if n >= size {
      assert b[size..] == all[size..][..n - size];
    }
  }

  /** The datagrams that a sender with a buffer of this size passes on. */
  function CutAll(datagrams: seq<bytes>, size: nat): seq<bytes> {
    if datagrams == [] then []
    else
      var front, last := CutAll(datagrams[..|datagrams| - 1], size), datagrams[|datagrams| - 1];
      if last == [] || size == 0 then front else front + [Cut(last, size)]
  }

  /** None is empty, and all fit the buffer. */
  ghost predicate Fitting(datagrams: seq<bytes>, size: nat) {
    forall i :: 0 <= i < |datagrams| ==> 0 < |datagrams[i]| <= size
  }

  lemma FrontKept(datagrams: seq<bytes>, size: nat, k: nat)
    requires Fitting(datagrams, size) && k <= |datagrams|
    ensures CutAll(datagrams[..k], size) == datagrams[..k]
  {
    CutAllKeeps(datagrams[..k], size);
  }

  /** Datagrams that are not empty and fit the buffer are passed on as they are. */
  lemma {:induction false} CutAllKeeps(datagrams: seq<bytes>, size: nat)
    requires Fitting(datagrams, size)
    ensures CutAll(datagrams, size) == datagrams
  {
    hide Cut;
    if datagrams != [] {
      CutAllKeeps(datagrams[..|datagrams| - 1], size);
    }
  }

  /** One datagram at a time: an empty one is not passed on, any other as far as it fits. */
  lemma {:induction false} CutAllAppends(a: seq<bytes>, b: seq<bytes>, d: bytes, size: nat)
    ensures CutAll([[]], size) == []
    ensures d != [] && size > 0 ==> CutAll([d], size) == [if |d| <= size then d else d[..size]]
    ensures CutAll(a + b, size) == CutAll(a, size) + CutAll(b, size)
    decreases |b|
  {
    var empty: bytes := [];
    assert [d][..0] == [] && [empty][..0] == [];
    if b == [] {
      assert a + b == a;
    } else {
      var n := |b| - 1;
      CutAllAppends(a, b[..n], d, size);
      assert (a + b)[..|a + b| - 1] == a + b[..n];
    }
  }

  lemma {:induction false} ForwardedIsCut(ps: seq<Packet>, datagrams: seq<bytes>, size: nat)
    requires |ps| == |datagrams| && forall i :: 0 <= i < |ps| ==> ps[i].data == Cut(datagrams[i], size)
    ensures Forwarded(ps) == CutAll(datagrams, size)
  {
    if ps != [] {
      var n := |ps| - 1;
      ForwardedIsCut(ps[..n], datagrams[..n], size);
    }
  }

  lemma StampedFits(datagrams: seq<bytes>, at: nat -> nat, u: nat)
    ensures var ps := StampAll(datagrams, at, u);
      && Framed(4, ps) && Fits(ps)
      && forall i :: 0 <= i < |ps| ==> U32(ps[i].stamp) == at(u + i) % WINDOW
  {
    var ps := StampAll(datagrams, at, u);
    forall i | 0 <= i < |ps| ensures |ps[i].stamp| == 4 && U32(ps[i].stamp) == at(u + i) % WINDOW {
      WindowParts(at(u + i));
      U32RoundTrip(at(u + i) % WINDOW);
    }
  }

  /** k is the number of whole frames in the first n bytes. */
  ghost predicate Complete(ps: seq<Packet>, n: nat, k: nat) {
    k <= |ps| && |EncodeAll(ps[..k])| <= n && (k < |ps| ==> n < |EncodeAll(ps[..k + 1])|)
  }

  /** What a receiver of the first n bytes sends on, in terms of the sender's datagrams. */
  lemma PassedOn(h: nat, ps: seq<Packet>, n: nat, datagrams: seq<bytes>, size: nat) returns (k: nat)
    requires Framed(h, ps) && Fits(ps) && n <= |EncodeAll(ps)|
    requires |ps| == |datagrams| && forall i :: 0 <= i < |ps| ==> ps[i].data == Cut(datagrams[i], size)
    ensures Complete(ps, n, k) && |Decode(h, EncodeAll(ps)[..n])| == k
    ensures Forwarded(Decode(h, EncodeAll(ps)[..n])) == CutAll(datagrams[..k], size)
    ensures n == |EncodeAll(ps)| ==> k == |ps|
  {
    hide Decode, EncodeAll, Forwarded, CutAll, Cut;
    DecodeCut(h, ps, n);
    k := |Decode(h, EncodeAll(ps)[..n])|;
    ForwardedIsCut(ps[..k], datagrams[..k], size);
    if n == |EncodeAll(ps)| && k < |ps| {
      FrameAt(ps, k);
    }
  }

  /** The i-th stamp, sent at one end's reading u + i, is too old for the other's reading v + i. */
  predicate PairLate(sent: nat -> nat, u: nat, read: nat -> nat, v: nat, rtt: int, i: nat) {
    read(v + i) % 600_000 - sent(u + i) % 600_000 > if rtt == 0 then 300 else 3 * rtt
  }

  /** The other end reads the clock for the i-th packet no earlier than the first one did. */
  predicate ReadLater(sent: nat -> nat, u: nat, read: nat -> nat, v: nat, i: nat) { sent(u + i) <= read(v + i) }

  /** A late stamp in the first n bytes is that of a packet that was truly too old. */
  lemma LateIsOld(
      datagrams: seq<bytes>, sent: nat -> nat, u: nat, n: nat, read: nat -> nat, v: nat, rtt: int, r: nat)
    requires forall i: nat :: i < |datagrams| ==> ReadLater(sent, u, read, v, i)
    requires var whole := EncodeAll(StampAll(datagrams, sent, u)); n <= |whole| && r <= |Stamps(whole[..n])|
    ensures r <= |datagrams|
    ensures SomeLate(EncodeAll(StampAll(datagrams, sent, u))[..n], read, v, rtt, r) <==>
      exists i: nat :: i < r && PairLate(sent, u, read, v, rtt, i)
    ensures forall i: nat :: i < r && PairLate(sent, u, read, v, rtt, i) ==>
        read(v + i) - sent(u + i) > if rtt == 0 then 300 else 3 * rtt
  {
    hide Stamps, Late, EncodeAll, Rtt, StampAll;
    var ps := StampAll(datagrams, sent, u);
    var b := EncodeAll(ps)[..n];
    StampedFits(datagrams, sent, u);
    StampsCut(ps, n);
    forall i: nat | i < r
      ensures LateAt(b, read, v, rtt, i) <==> PairLate(sent, u, read, v, rtt, i)
      ensures PairLate(sent, u, read, v, rtt, i) ==>
        read(v + i) - sent(u + i) > if rtt == 0 then 300 else 3 * rtt
    {
      assert ReadLater(sent, u, read, v, i);
      LateIff(read(v + i), sent(u + i) % 600_000, rtt);
      if PairLate(sent, u, read, v, rtt, i) {
        FlagIsSound(sent(u + i), read(v + i), rtt);
      }
    }
  }

  function Min(a: nat, b: nat): nat { if a < b then a else b }

  /**
   * From the client's UDP socket through the tunnel to the server's. Of all the frames the client
   * makes, n bytes get through: those its connection accepts, as far as they arrive. The server's
   * socket sends the non-empty datagrams of the k frames that are whole, each with its boundaries
   * and cut to 16378 bytes, as many as it sends at all; with every byte through, k is all of them.
   * The client reads the clock once for each of the m frames it starts, the server once for each of
   * the r stamps it reads, at any time after the client did for that packet. The session is flagged
   * exactly if it was before or one of these pairs of readings is too far apart for the wrapping
   * stamp; then it truly is too far.
   */
  method ClientToServer(
      near: Conn, client: Udp, clock: Clock, arrive: nat, server: Udp, serverClock: Clock, rtt: int,
      session: UdpSession)
      returns (ghost n: nat, ghost k: nat, ghost m: nat, ghost r: nat)
    requires client != server && clock != serverClock
    requires forall i: nat ::
      i < |client.incoming| ==> ReadLater(clock.at, clock.used, serverClock.at, serverClock.used, i)
    modifies near`written, near`room, client`incoming, clock`used
    modifies server`sent, server`room, serverClock`used, session
    ensures var datagrams, u, v := old(client.incoming), old(clock.used), old(serverClock.used);
      var ps := StampAll(datagrams, clock.at, u);
      var accepted := old(near.Accepts(|EncodeAll(ps)|));
      && near.written == old(near.written) + EncodeAll(ps)[..accepted] && Started(ps, accepted, m)
      && n == Min(arrive, accepted) && Complete(ps, n, k) && (n == |EncodeAll(ps)| ==> k == |datagrams|)
      && server.sent == old(server.sent) + Cap(CutAll(datagrams[..k], 16378), old(server.room))
      && r == StampsRead(EncodeAll(ps)[..n], old(server.room))
      && clock.used == u + m && serverClock.used == v + r
      && (session.isCongested <==>
          || old(session.isCongested)
          || exists i: nat :: i < r && PairLate(clock.at, u, serverClock.at, v, rtt, i))
      && (forall i: nat :: i < r && PairLate(clock.at, u, serverClock.at, v, rtt, i) ==>
          serverClock.at(v + i) - clock.at(u + i) > if rtt == 0 then 300 else 3 * rtt)
    ensures Fitting(old(client.incoming), 16378) && old(server.room).None? ==>
      server.sent == old(server.sent) + old(client.incoming)[..k]
    ensures client.incoming == old(client.incoming)[m..] && r <= k + 1
    ensures old(server.room).None? ==> k <= r
  {
    hide Decode, EncodeAll, Stamps, Forwarded, CutAll, Cut, Late, SomeLate, Rtt;
    hide StampAll, StampsRead, Started, Complete, PairLate, Fitting, Cap;
    ghost var datagrams, u, v := client.incoming, clock.used, serverClock.used;
    ghost var ps := StampAll(datagrams, clock.at, u);
    ghost var whole := EncodeAll(ps);
    var before := |near.written|;
    m := ClientUdpToTCP(near, client, clock);
    var stream := near.written[before..];
    if arrive < |stream| {
      stream := stream[..arrive];
    }
    n := |stream|;
    assert stream == whole[..n];
    var far := new Conn(stream);
    assert Ahead(far) == stream;
    r := StampsRead(stream, server.room);
    ghost var room := server.room;
    ServerTcpToUDP(far, server, serverClock, rtt, session);
    StampedFits(datagrams, clock.at, u);
    k := PassedOn(4, ps, n, datagrams, BUFFER_SIZE - 6);
    LateIsOld(datagrams, clock.at, u, n, serverClock.at, v, rtt, r);
    CompleteBound(ps, n, k);
    if Fitting(datagrams, 16378) {
      FrontKept(datagrams, 16378, k);
    }
    AllStampsRead(stream, None);
    ReadsBound(stream, room);
  }

  lemma ReadsBound(b: bytes, room: Option<nat>)
    ensures StampsRead(b, room) <= |Stamps(b)|
  {
  }

  lemma {:induction false} SendableAll(payload: seq<bytes>)
    requires forall i :: 0 <= i < |payload| ==> |payload[i]| <= 65535
    ensures |Sendable(payload)| == |payload|
    ensures forall i :: 0 <= i < |payload| ==> Sendable(payload)[i] == Packet([], payload[i])
  {
    if payload != [] {
      SendableAll(payload[..|payload| - 1]);
    }
  }

  /** The listener reads into a buffer two bytes short of 16 KiB. */
  function Buffered(datagrams: seq<bytes>): seq<bytes> {
    seq(|datagrams|, i requires 0 <= i < |datagrams| => Cut(datagrams[i], BUFFER_SIZE - 2))
  }

  /**
   * The other way, from a session's payload channel to the client's UDP socket: the non-empty
   * datagrams of the k whole frames, cut to 16382 bytes, as many as the socket sends.
   */
  method ServerToClient(near: Conn, datagrams: seq<bytes>, arrive: nat, client: Udp)
      returns (ghost n: nat, ghost k: nat)
    modifies near`written, near`room, client`sent, client`room
    ensures var ps := Sendable(Buffered(datagrams));
      var accepted := old(near.Accepts(|EncodeAll(ps)|));
      && near.written == old(near.written) + EncodeAll(ps)[..accepted]
      && n == Min(arrive, accepted) && Complete(ps, n, k) && k <= |datagrams|
      && (n == |EncodeAll(ps)| ==> k == |datagrams|)
      && client.sent == old(client.sent) + Cap(CutAll(datagrams[..k], 16382), old(client.room))
    ensures Fitting(datagrams, 16382) && old(client.room).None? ==>
      client.sent == old(client.sent) + datagrams[..k]
  {
    hide Decode, EncodeAll, Forwarded, CutAll, Sendable, Complete;
    var payload := Buffered(datagrams);
    ghost var ps := Sendable(payload);
    var before := |near.written|;
    ServerUdpToTCP(near, payload);
    var stream := near.written[before..];
    if arrive < |stream| {
      stream := stream[..arrive];
    }
    n := |stream|;
    assert stream == EncodeAll(ps)[..n];
    SendableAll(payload);
    var far := new Conn(stream);
    assert Ahead(far) == stream;
    ClientTcpToUDP(far, client);
    k := PassedOn(0, ps, n, datagrams, BUFFER_SIZE - 2);
    CompleteBound(ps, n, k);
    if Fitting(datagrams, 16382) {
      FrontKept(datagrams, 16382, k);
    }
  }

  lemma CompleteBound(ps: seq<Packet>, n: nat, k: nat)
    requires Complete(ps, n, k)
    ensures k <= |ps|
  {
  }
}
