/**
 * Length-prefixed messages, and the probe that either turns a tunnel connection into an extra
 * control channel or gives it back as if it had never been read.
 */
module Probe {
  import opened Bytes
  import opened Net
  import opened Relay
  import opened ControlChannels

  const MAX_TOKEN_LEN := 512

  // ---- Messages --------------------------------------------------------

  /** What SendBinaryTransportString puts on the wire. */
  function Frame(msg: bytes, transport: byte): bytes {
    PutU16(|msg|) + [transport] + msg
  }

  /** One message at the front of a stream: its text, its transport byte and the bytes behind it. */
  function Unframe(b: bytes): Option<(bytes, byte, bytes)> {
    if |b| < 3 then None
    else
      var len := U16(b[0], b[1]);
      if |b| < 3 + len then None else Some((b[3..3 + len], b[2], b[3 + len..]))
  }

  /** On the wire: the length with its high-order byte first, the transport, the text. */
  lemma MessageLayout(msg: bytes, transport: byte)
    requires |msg| < 65536
    ensures Frame(msg, transport) == [|msg| / 256, |msg| % 256, transport] + msg
  {
    BigEndian16(|msg| / 256, |msg| % 256);
  }

  lemma FrameParts(msg: bytes, transport: byte, rest: bytes)
    ensures var b := Frame(msg, transport) + rest;
      && |b| == 3 + |msg| + |rest| && b[..2] == PutU16(|msg|) && b[2] == transport && b[3..] == msg + rest
      && U16(b[0], b[1]) == |msg| % 0x1_0000
  {
    var b := Frame(msg, transport) + rest;
    assert b == PutU16(|msg|) + ([transport] + (msg + rest));
    assert b[0] == PutU16(|msg|)[0] && b[1] == PutU16(|msg|)[1];
    U16RoundTrip(|msg|);
  }

  /**
   * A message comes back whole, with nothing behind it touched, exactly when its length fits the
   * header; a longer one comes back cut and its tail is taken for the next message.
   */
  lemma MessageRoundTrip(msg: bytes, transport: byte, rest: bytes)
    ensures Unframe(Frame(msg, transport) + rest) == Some((msg, transport, rest)) <==> |msg| < 0x1_0000
    ensures var len := |msg| % 0x1_0000;
      Unframe(Frame(msg, transport) + rest) == Some((msg[..len], transport, msg[len..] + rest))
  {
    var b, len := Frame(msg, transport) + rest, |msg| % 0x1_0000;
    FrameParts(msg, transport, rest);
    assert len <= |msg|;
    assert b[3..][..len] == msg[..len] && b[3..][len..] == msg[len..] + rest;
    assert b[3..3 + len] == msg[..len] && b[3 + len..] == msg[len..] + rest;
    if |msg| >= 0x1_0000 {
      assert |msg[..len]| < |msg|;
    }
  }

  /** Only Frame writes a message that reads back as this one. */
  lemma UnframeIsFrame(b: bytes)
    requires Unframe(b).Some?
    ensures var (msg, transport, rest) := Unframe(b).value; |msg| < 0x1_0000 && b == Frame(msg, transport) + rest
  {
    var len := U16(b[0], b[1]);
    PutBack(b[0], b[1]);
    assert b == [b[0], b[1]] + [b[2]] + b[3..3 + len] + b[3 + len..];
  }

  lemma PutBack(hi: byte, lo: byte)
    ensures PutU16(U16(hi, lo)) == [hi, lo]
  {
    var n := U16(hi, lo);
    assert n < 0x1_0000 && n / 256 == hi && n % 256 == lo;
  }

  /** SendBinaryTransportString */
  method SendBinaryTransportString(conn: Conn, msg: bytes, transport: byte) returns (err: bool)
    modifies conn`written, conn`room
    ensures err <==> old(conn.Accepts(|Frame(msg, transport)|)) < |Frame(msg, transport)|
    ensures conn.written == old(conn.written) + Frame(msg, transport)[..old(conn.Accepts(|Frame(msg, transport)|))]
  {
    err := conn.WriteWhole(Frame(msg, transport));
  }

  /** ReceiveBinaryTransportString: the message at the front of what can arrive, or an error. */
  method ReceiveBinaryTransportString(conn: Conn) returns (r: Option<(bytes, byte)>)
    modifies conn`incoming, conn`inTime
    ensures var m := Unframe(old(conn.incoming)[..old(conn.Reach())]);
      && (r.Some? <==> m.Some?)
      && (r.Some? ==> r.value == (m.value.0, m.value.1) && conn.incoming == old(conn.incoming)[3 + |m.value.0|..])
  {
    ghost var stream, reach := conn.incoming, conn.Reach();
    var lenBuf := new byte[3];
    var n, err := ReadFull(conn, lenBuf, 3);
    if err {
      return None;
    }
    assert lenBuf[..3] == stream[..3];
    var len := U16(lenBuf[0], lenBuf[1]);
    var messageBuf := new byte[len];
    n, err := ReadFull(conn, messageBuf, len);
    if err {
      return None;
    }
    assert messageBuf[..] == messageBuf[..len] == stream[3..][..len];
    assert stream[3..][..len] == stream[3..3 + len] == stream[..reach][3..3 + len];
    return Some((messageBuf[..], lenBuf[2]));
  }

  // ---- The probe -------------------------------------------------------

  /** The token a connection offers in the bytes that arrive in time, if it asks to be promoted. */
  function Offered(b: bytes): Option<bytes> {
    match Unframe(b)
    case None => None
    case Some((msg, transport, _)) =>
      if transport != SG_CHAN || !(1 <= |msg| <= MAX_TOKEN_LEN) then None else Some(msg)
  }

  /** A connection asks with a token exactly by starting with that token's message. */
  lemma OfferedIff(b: bytes, token: bytes)
    ensures Offered(b) == Some(token) <==> 1 <= |token| <= 512 && Frame(token, 1) <= b
  {
    if Offered(b) == Some(token) {
      UnframeIsFrame(b);
    }
    if 1 <= |token| <= MAX_TOKEN_LEN && Frame(token, SG_CHAN) <= b {
      var rest := b[|Frame(token, SG_CHAN)|..];
      assert b == Frame(token, SG_CHAN) + rest;
      MessageRoundTrip(token, SG_CHAN, rest);
    }
  }

  /** Where the outcome is settled by the first `n` bytes: a longer wait does not change it. */
  lemma OfferStands(b: bytes, n: nat)
    requires n <= |b| && Offered(b[..n]).Some?
    ensures Offered(b) == Offered(b[..n])
  {
    OfferedIff(b[..n], Offered(b[..n]).value);
    OfferedIff(b, Offered(b[..n]).value);
  }

  /** The first `arrive` bytes of a stream, or all of it. */
  function Timely(stream: bytes, arrive: nat): bytes {
    if arrive < |stream| then stream[..arrive] else stream
  }

  lemma TimelyPart(stream: bytes, arrive: nat, i: nat, n: nat)
    requires i + n <= |Timely(stream, arrive)|
    ensures i + n <= |stream| && Timely(stream, arrive)[i..i + n] == stream[i..i + n]
  {
  }

  /** What the header and then the body decide about the offer. */
  lemma OfferedParts(b: bytes)
    ensures |b| < 3 ==> Offered(b).None?
    ensures |b| >= 3 ==>
      var len := U16(b[0], b[1]);
      && (Offered(b).Some? <==> b[2] == SG_CHAN && 1 <= len <= MAX_TOKEN_LEN && 3 + len <= |b|)
      && (Offered(b).Some? ==> Offered(b).value == b[3..3 + len])
  {
  }

  lemma Rejoin(b: bytes, i: nat)
    requires i <= |b|
    ensures b[..i] + b[i..] == b
  {
  }

  lemma Onward(b: bytes, i: nat, n: nat)
    requires i + n <= |b|
    ensures b[i..][..n] == b[i..i + n] && b[i..][n..] == b[i + n..] && b[..i] + b[i..i + n] == b[..i + n]
  {
  }

  /**
   * The reads of tryPromoteExtraControlChannel: either the offered token, with the connection
   * read up to the end of the message, or the connection with its complete stream restored.
   */
  method ReadOffer(conn: Conn, arrive: nat) returns (offer: Option<bytes>, back: Option<NetConn>)
    requires !conn.closed
    modifies conn`incoming, conn`inTime
    ensures conn.inTime == None
    ensures offer == Offered(Timely(old(conn.incoming), arrive))
    ensures offer.Some? ==>
      && back.None?
      && 3 + |offer.value| <= |old(conn.incoming)| && conn.incoming == old(conn.incoming)[3 + |offer.value|..]
    ensures offer.None? ==>
      && back.Some? && back.value.Base() == conn && back.value.Valid()
      && back.value.Stream() == old(conn.incoming)
      && (back.value.Wrapped? ==> fresh(back.value.pre))
  {
    hide Offered;
    ghost var stream, timely := conn.incoming, Timely(conn.incoming, arrive);
    OfferedParts(timely);
    conn.SetReadDeadline(arrive);
    assert conn.Reach() == |timely|;
    hide Timely;
    var header := new byte[3];
    var n, err := ReadFull(conn, header, 3);
    if err {
      Rejoin(stream, n);
      conn.ClearReadDeadline();
      var c := NewPrefixedConn(conn, header[..n]);
      return None, Some(c);
    }
    TimelyPart(stream, arrive, 0, 3);
    assert header[..3] == header[..] == timely[0..3];
    var msgLen := U16(header[0], header[1]);
    if header[2] != SG_CHAN || msgLen < 1 || msgLen > MAX_TOKEN_LEN {
      Rejoin(stream, 3);
      conn.ClearReadDeadline();
      var c := NewPrefixedConn(conn, header[..]);
      return None, Some(c);
    }
    var body := new byte[msgLen];
    n, err := ReadFull(conn, body, msgLen);
    conn.ClearReadDeadline();
    Onward(stream, 3, n);
    if err {
      Rejoin(stream, 3 + n);
      var c := NewPrefixedConn(conn, header[..] + body[..n]);
      return None, Some(c);
    }
    TimelyPart(stream, arrive, 3, msgLen);
    assert body[..] == body[..msgLen];
    return Some(body[..]), None;
  }

  /**
   * tryPromoteExtraControlChannel. A connection that does not offer a token in time is given back
   * and still yields its complete stream. One that offers one is used up to the end of the
   * message: it becomes an extra control channel exactly if the token is right and the connection
   * accepts the whole acknowledgement, and is closed otherwise.
   */
  method TryPromoteExtraControlChannel(control: ControlSet<Conn>, conn: Conn, arrive: nat, token: bytes)
      returns (isCtrl: bool, probed: Option<NetConn>)
    requires control.Valid() && conn !in control.Channels()
    requires !conn.closed
    modifies control`extras, conn
    ensures control.Valid()
    ensures var offer := Offered(Timely(old(conn.incoming), arrive));
      var promoted := offer == Some(token) && old(conn.Accepts(|Frame(token, 1)|)) == |Frame(token, 1)|;
      && (isCtrl <==> offer.Some?) && (isCtrl <==> probed.None?)
      && (isCtrl ==> 3 + |offer.value| <= |old(conn.incoming)|)
      && (isCtrl ==> conn.incoming == old(conn.incoming)[3 + |offer.value|..])
      && (conn.closed <==> isCtrl && !promoted)
      && control.extras == (if promoted then old(control.extras) + [conn] else old(control.extras))
      && (promoted ==> conn.written == old(conn.written) + Frame(token, 1))
      && (offer != Some(token) ==> conn.written == old(conn.written))
    ensures conn.inTime == None
    ensures !isCtrl ==>
      && probed.value.Base() == conn && probed.value.Valid() && probed.value.Stream() == old(conn.incoming)
      && (probed.value.Wrapped? ==> fresh(probed.value.pre))
  {
    var offer;
    offer, probed := ReadOffer(conn, arrive);
    isCtrl := offer.Some?;
    if !isCtrl {
      return;
    }
    if offer.value != token {
      conn.Close();
      return;
    }
    var failed := SendBinaryTransportString(conn, token, SG_CHAN);
    if failed {
      conn.Close();
      return;
    }
    ControlSetGrows(control, conn);
    control.extras := control.extras + [conn];
  }

  lemma ControlSetGrows(control: ControlSet<Conn>, conn: Conn)
    requires control.Valid() && conn !in control.Channels()
    ensures Distinct(control.extras + [conn]) && (control.main.Some? ==> control.main.value !in control.extras + [conn])
  {
    assert conn !in control.extras;
    assert control.main.Some? ==> control.Channels()[0] == control.main.value;
  }
}
