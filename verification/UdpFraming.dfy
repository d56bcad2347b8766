/**
 * Datagrams over a TCP stream. Towards the client of the tunnel a frame is a 2-byte length and the
 * data; towards the server a 4-byte timestamp comes first. Both ends reuse their buffers.
 */
module UdpFraming {
  import opened Bytes
  import opened Net

  const BUFFER_SIZE := 16 * 1024
  /** Timestamps are milliseconds within ten minutes. */
  const WINDOW := 600_000

  // ---- The format ------------------------------------------------------

  /** `stamp` holds the bytes in front of the length: none, or the timestamp. */
  datatype Packet = Packet(stamp: bytes, data: bytes)

  function Encode(p: Packet): bytes { p.stamp + (PutU16(|p.data|) + p.data) }

  function EncodeAll(ps: seq<Packet>): bytes {
    if ps == [] then [] else Encode(ps[0]) + EncodeAll(ps[1..])
  }

  /** On the wire: what is in front, the length with its high-order byte first, the data. */
  lemma FrameLayout(p: Packet)
    requires |p.data| < 65536
    ensures Encode(p) == p.stamp + [|p.data| / 256, |p.data| % 256] + p.data
  {
    BigEndian16(|p.data| / 256, |p.data| % 256);
  }

  /** The length field of a frame whose length is preceded by h bytes. */
  function Len(h: nat, b: bytes): nat
    requires |b| >= h + 2
  {
    U16(b[h], b[h + 1])
  }

  /** A complete frame the receiver's buffer can hold is at the front. */
  predicate Whole(h: nat, b: bytes) {
    |b| >= h + 2 && Len(h, b) <= BUFFER_SIZE && |b| >= h + 2 + Len(h, b)
  }

  function First(h: nat, b: bytes): Packet
    requires Whole(h, b)
  {
    Packet(b[..h], b[h + 2..h + 2 + Len(h, b)])
  }

  function Rest(h: nat, b: bytes): bytes
    requires Whole(h, b)
  {
    b[h + 2 + Len(h, b)..]
  }

  /** The frames a receiver gets out of the bytes that reach it. */
  function Decode(h: nat, b: bytes): seq<Packet>
    decreases |b|
  {
    if Whole(h, b) then [First(h, b)] + Decode(h, Rest(h, b)) else []
  }

  /** Frames the sender may produce: its length test keeps them below 64 KiB. */
  ghost predicate Framed(h: nat, ps: seq<Packet>) {
    forall i :: 0 <= i < |ps| ==> |ps[i].stamp| == h && |ps[i].data| < 0x1_0000
  }

  ghost predicate Fits(ps: seq<Packet>) { forall i :: 0 <= i < |ps| ==> |ps[i].data| <= 16384 }

  lemma EncodeParts(h: nat, p: Packet, rest: bytes)
    requires |p.stamp| == h && |p.data| < 0x1_0000
    ensures var b := Encode(p) + rest;
      && |b| == h + 2 + |p.data| + |rest| && b[..h] == p.stamp && Len(h, b) == |p.data|
      && b[h + 2..h + 2 + |p.data|] == p.data && b[h + 2 + |p.data|..] == rest
  {
    var b, len := Encode(p) + rest, PutU16(|p.data|);
    assert b == p.stamp + (len + (p.data + rest));
    assert b[h] == len[0] && b[h + 1] == len[1];
    U16RoundTrip(|p.data|);
    assert b[h + 2..] == p.data + rest;
  }

  /**
   * However much of the sender's bytes gets through, the receiver decodes the datagrams it has all
   * bytes of, unchanged and in order, and nothing else - unless one exceeds its buffer.
   */
  lemma {:induction false} DecodeCut(h: nat, ps: seq<Packet>, n: nat)
    requires Framed(h, ps) && Fits(ps) && n <= |EncodeAll(ps)|
    ensures |Decode(h, EncodeAll(ps)[..n])| <= |ps|
    ensures var k := |Decode(h, EncodeAll(ps)[..n])|;
      && Decode(h, EncodeAll(ps)[..n]) == ps[..k]
      && |EncodeAll(ps[..k])| <= n
      && (k < |ps| ==> n < |EncodeAll(ps[..k + 1])|)
  {
    hide Decode, Encode, Whole, Len, First, Rest;
    var b := EncodeAll(ps)[..n];
    if ps == [] {
      assert b == [];
      DecodeNone(h, b);
      return;
    }
    var size := h + 2 + |ps[0].data|;
    EncodeParts(h, ps[0], EncodeAll(ps[1..]));
    FrontFrame(h, ps[0], EncodeAll(ps[1..]), n);
    assert ps[..1] == [ps[0]];
    EncodeOne(ps[0]);
    if n < size {
      assert ps[..0] == [];
      return;
    }
    DecodeCut(h, ps[1..], n - size);
    var k := |Decode(h, b)|;
    EncodeFront(ps, k - 1);
    if k < |ps| {
      EncodeFront(ps, k);
    }
  }

  lemma DecodeNone(h: nat, b: bytes)
    requires |b| < h + 2
    ensures Decode(h, b) == []
  {
  }

  lemma EncodeOne(p: Packet)
    ensures EncodeAll([p]) == Encode(p)
  {
    assert [p][1..] == [];
  }

  lemma EncodeFront(ps: seq<Packet>, k: nat)
    requires k < |ps|
    ensures EncodeAll(ps[..k + 1]) == Encode(ps[0]) + EncodeAll(ps[1..][..k])
    ensures ps[..k + 1] == [ps[0]] + ps[1..][..k]
  {
    assert ps[..k + 1][0] == ps[0] && ps[..k + 1][1..] == ps[1..][..k];
  }

  /** What a receiver makes of the first n bytes of a frame and what follows it. */
  lemma FrontFrame(h: nat, p: Packet, rest: bytes, n: nat)
    requires |p.stamp| == h && |p.data| <= BUFFER_SIZE && n <= |Encode(p) + rest|
    ensures var b, size := (Encode(p) + rest)[..n], h + 2 + |p.data|;
      && size <= |Encode(p) + rest| && |Encode(p)| == size
      && (n < size ==> Decode(h, b) == [])
      && (n >= size ==> n - size <= |rest| && Decode(h, b) == [p] + Decode(h, rest[..n - size]))
  {
    hide Encode;
    var all := Encode(p) + rest;
    var b, size := all[..n], h + 2 + |p.data|;
    EncodeParts(h, p, rest);
    EncodeParts(h, p, []);
    if |b| >= h + 2 {
      assert b[h] == all[h] && b[h + 1] == all[h + 1];
    }
    if n >= size {
      assert b[..h] == all[..h];
      assert b[h + 2..size] == all[h + 2..size];
      assert b[size..] == all[size..][..n - size];
    }
  }

  /** Nothing lost: the whole stream decodes to the datagrams exactly if all fit the receiver. */
  lemma {:induction false} RoundTrip(h: nat, ps: seq<Packet>)
    requires Framed(h, ps)
    ensures Decode(h, EncodeAll(ps)) == ps <==> Fits(ps)
  {
    hide Encode;
    if ps != [] {
      var rest := EncodeAll(ps[1..]);
      EncodeParts(h, ps[0], rest);
      RoundTrip(h, ps[1..]);
      if |ps[0].data| <= BUFFER_SIZE {
        assert Decode(h, EncodeAll(ps))[1..] == Decode(h, rest);
      }
    }
  }

  /** An oversized datagram ends the exchange: what is in front of it is decoded, nothing behind it. */
  lemma {:induction false} OversizedStops(h: nat, front: seq<Packet>, big: Packet, back: seq<Packet>)
    requires Framed(h, front + [big] + back) && Fits(front) && |big.data| > 16384
    ensures Decode(h, EncodeAll(front + [big] + back)) == front
  {
    hide Encode;
    var ps := front + [big] + back;
    EncodeParts(h, ps[0], EncodeAll(ps[1..]));
    if front != [] {
      assert ps[1..] == front[1..] + [big] + back;
      OversizedStops(h, front[1..], big, back);
    } else {
      assert ps[0] == big;
    }
  }

  // ---- The sockets -----------------------------------------------------

  /**
   * A UDP socket: whole datagrams, a write sends all of one or fails. `room` is how many datagrams
   * it sends before writing fails, if it ever does.
   */
  class Udp {
    var incoming: seq<bytes>
    var sent: seq<bytes>
    var room: Option<nat>

    constructor (incoming: seq<bytes>)
      ensures this.incoming == incoming && sent == [] && room == None
    {
      this.incoming, sent, room := incoming, [], None;
    }

    /** udp.Read(buf): what does not fit the buffer is cut off. */
    method Read(buf: array<byte>) returns (n: nat, err: bool)
      modifies this`incoming, buf
      ensures err <==> old(incoming) == []
      ensures err ==> incoming == old(incoming)
      ensures !err ==>
        && n <= buf.Length && buf[..n] == Cut(old(incoming)[0], buf.Length) && incoming == old(incoming)[1..]
    {
      if incoming == [] {
        return 0, true;
      }
      var d := Cut(incoming[0], buf.Length);
      forall i | 0 <= i < |d| {
        buf[i] := d[i];
      }
      assert buf[..|d|] == d;
      incoming := incoming[1..];
      return |d|, false;
    }

    method Write(data: bytes) returns (w: nat, err: bool)
      modifies this`sent, this`room
      ensures err <==> old(room) == Some(0)
      ensures err ==> sent == old(sent) && room == old(room)
      ensures !err ==> sent == old(sent) + [data] && w == |data| && room == Less(old(room), 1)
    {
      if room == Some(0) {
        return 0, true;
      }
      sent, room := sent + [data], Less(room, 1);
      return |data|, false;
    }
  }

  function Cut(d: bytes, size: nat): (r: bytes)
    ensures |d| <= size ==> r == d
    ensures |d| > size ==> |r| == size && r <= d
  {
    if |d| <= size then d else d[..size]
  }

  /** How one end sees the common clock: `at` is what it shows at each of its readings, in order. */
  class Clock {
    const at: nat -> nat
    var used: nat

    constructor (at: nat -> nat)
      ensures this.at == at && used == 0
    {
      this.at, used := at, 0;
    }

    method UnixMilli() returns (t: nat)
      modifies this`used
      ensures t == at(old(used)) && used == old(used) + 1
    {
      t := at(used);
      used := used + 1;
    }
  }

  method PutUint16(b: array<byte>, n: nat)
    requires b.Length == 2
    modifies b
    ensures b[..] == PutU16(n)
  {
    var v := PutU16(n);
    b[0], b[1] := v[0], v[1];
    assert b[..] == v;
  }

  method PutUint32(b: array<byte>, n: nat)
    requires b.Length == 4 && n < 0x1_0000_0000
    modifies b
    ensures b[..] == PutU32(n)
  {
    var v := PutU32(n);
    b[0], b[1], b[2], b[3] := v[0], v[1], v[2], v[3];
    assert b[..] == v;
  }
}
