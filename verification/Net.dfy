/** Connections as byte streams, the replaying wrapper put around inspected ones, and the copy loop. */
module Net {
  import opened Bytes

  /** The part of n that some room allows, and what is left of the room after n. */
  function UpTo(room: Option<nat>, n: nat): (r: nat)
    ensures r <= n && (room.None? ==> r == n)
    ensures room.Some? ==> r <= room.value && (r == n || r == room.value)
  {
    if room.Some? && room.value < n then room.value else n
  }

  function Less(room: Option<nat>, n: nat): Option<nat> {
    if room.None? then None else Some(if n <= room.value then room.value - n else 0)
  }

  /**
   * One TCP connection. `incoming` is what the peer will still deliver before its stream ends;
   * `written` is what was accepted for the peer. `inTime` bounds how many of the incoming bytes
   * arrive before the read deadline, when one is set, and `room` how many bytes the peer accepts
   * before writing fails, if it ever does.
   */
  class Conn {
    var incoming: bytes
    var inTime: Option<nat>
    var written: bytes
    var room: Option<nat>
    var closed: bool

    constructor (stream: bytes)
      ensures incoming == stream && written == [] && !closed && inTime == None && room == None
    {
      incoming, written, closed, inTime, room := stream, [], false, None, None;
    }

    /** How many bytes Read can still return before it fails. */
    ghost function Reach(): (r: nat)
      reads this
      ensures r <= |incoming|
    {
      if closed then 0
      else if inTime.Some? && inTime.value < |incoming| then inTime.value
      else |incoming|
    }

    /**
     * conn.Read(buf[lo:hi]). Where the stream is cut is not determined: any non-zero number of
     * the bytes that are there may be returned. It fails when none can arrive any more.
     */
    method Read(buf: array<byte>, lo: nat, hi: nat) returns (n: nat, err: bool)
      requires lo < hi <= buf.Length
      modifies this`incoming, this`inTime, buf
      ensures err <==> old(Reach()) == 0
      ensures err ==> n == 0 && incoming == old(incoming) && inTime == old(inTime)
      ensures !err ==> 1 <= n <= hi - lo && n <= old(Reach()) && Reach() == old(Reach()) - n
      ensures n <= |old(incoming)| && incoming == old(incoming)[n..]
      ensures buf[lo..lo + n] == old(incoming)[..n] && buf[..lo] == old(buf[..lo])
      ensures inTime.Some? <==> old(inTime).Some?
    {
      if closed || incoming == [] || (inTime.Some? && inTime.value == 0) {
        return 0, true;
      }
      var most := if inTime.Some? && inTime.value < |incoming| then inTime.value else |incoming|;
      var k: nat :| 1 <= k <= hi - lo && k <= most;
      forall i | 0 <= i < k {
        buf[lo + i] := incoming[i];
      }
      assert buf[lo..lo + k] == incoming[..k];
      incoming := incoming[k..];
      if inTime.Some? {
        inTime := Some(inTime.value - k);
      }
      return k, false;
    }

    /** How many of n more bytes are accepted before a write fails. */
    ghost function Accepts(n: nat): (r: nat)
      reads this
      ensures r <= n && (!closed && room.None? ==> r == n)
      ensures closed ==> r == 0
      ensures !closed && room.Some? ==> r <= room.value && (r == n || r == room.value)
    {
      if closed then 0 else UpTo(room, n)
    }

    /**
     * conn.Write(data). Part of the data may be accepted without an error; it fails only when not
     * all of it is accepted, and the caller is not told how much was.
     */
    method Write(data: bytes) returns (w: nat, err: bool)
      requires data != []
      modifies this`written, this`room
      ensures !err ==> 1 <= w <= old(Accepts(|data|))
      ensures !err ==> written == old(written) + data[..w] && room == Less(old(room), w)
      ensures err ==> old(Accepts(|data|)) < |data|
      ensures err ==> written == old(written) + data[..old(Accepts(|data|))]
      ensures err ==> room == Less(old(room), old(Accepts(|data|)))
    {
      var most := if closed then 0 else UpTo(room, |data|);
      var failed: bool :| (failed ==> most < |data|) && (!failed ==> most > 0);
      var k: nat :| k <= most && (if failed then k == most else k > 0);
      written, room := written + data[..k], Less(room, k);
      return if failed then 0 else k, failed;
    }

    /** conn.Write(data) for callers that rely on its contract: no error means all of data. */
    method WriteWhole(data: bytes) returns (err: bool)
      modifies this`written, this`room
      ensures err <==> old(Accepts(|data|)) < |data|
      ensures written == old(written) + data[..old(Accepts(|data|))]
      ensures room == Less(old(room), old(Accepts(|data|)))
    {
      var most := if closed then 0 else UpTo(room, |data|);
      written, room := written + data[..most], Less(room, most);
      return most < |data|;
    }

    method Close()
      modifies this`closed
      ensures closed
    {
      closed := true;
    }

    /** SetReadDeadline: `arrive` of the incoming bytes get here before it passes. */
    method SetReadDeadline(arrive: nat)
      modifies this`inTime
      ensures inTime == Some(arrive)
    {
      inTime := Some(arrive);
    }

    method ClearReadDeadline()
      modifies this`inTime
      ensures inTime == None
    {
      inTime := None;
    }
  }

  /** io.ReadFull(conn, buf[:size]): all the bytes or, after a failure, as many as there were. */
  method ReadFull(conn: Conn, buf: array<byte>, size: nat) returns (n: nat, err: bool)
    requires size <= buf.Length
    modifies conn`incoming, conn`inTime, buf
    ensures err <==> old(conn.Reach()) < size
    ensures n == if err then old(conn.Reach()) else size
    ensures conn.Reach() == old(conn.Reach()) - n
    ensures buf[..n] == old(conn.incoming)[..n] && conn.incoming == old(conn.incoming)[n..]
    ensures conn.inTime.Some? <==> old(conn.inTime).Some?
  {
    n, err := 0, false;
    ghost var stream := conn.incoming;
    while n < size
      invariant n <= size && n <= |stream|
      invariant buf[..n] == stream[..n] && conn.incoming == stream[n..]
      invariant conn.Reach() == old(conn.Reach()) - n
      invariant conn.inTime.Some? <==> old(conn.inTime).Some?
    {
      var k, e := conn.Read(buf, n, size);
      if e {
        err := true;
        return;
      }
      assert buf[..n + k] == buf[..n] + buf[n..n + k];
      assert stream[..n + k] == stream[..n] + stream[n..][..k];
      n := n + k;
    }
  }

  /** The `for totalWritten < len(packet)` loop that every copier runs around Write. */
  method WriteAll(conn: Conn, packet: bytes) returns (totalWritten: nat, err: bool)
    modifies conn`written, conn`room
    ensures err <==> old(conn.Accepts(|packet|)) < |packet|
    ensures conn.written == old(conn.written) + packet[..old(conn.Accepts(|packet|))]
    ensures conn.room == Less(old(conn.room), old(conn.Accepts(|packet|)))
    ensures !err ==> totalWritten == |packet|
  {
    totalWritten, err := 0, false;
    ghost var most := conn.Accepts(|packet|);
    while totalWritten < |packet|
      invariant totalWritten <= most
      invariant conn.Accepts(|packet| - totalWritten) == most - totalWritten
      invariant conn.written == old(conn.written) + packet[..totalWritten]
      invariant conn.room == Less(old(conn.room), totalWritten)
    {
      var rest := packet[totalWritten..];
      var w, e := conn.Write(rest);
      ghost var k := if e then most - totalWritten else w;
      assert packet[..totalWritten] + rest[..k] == packet[..totalWritten + k];
      if e {
        err := true;
        return;
      }
      totalWritten := totalWritten + w;
    }
  }

  /** WriteAll for the next part of a longer byte string of which `done` bytes were written behind `front`. */
  method WriteNext(conn: Conn, packet: bytes, ghost front: bytes, ghost whole: bytes, ghost done: nat)
      returns (err: bool)
    requires done <= |whole| && packet <= whole[done..] && conn.written == front + whole[..done]
    modifies conn`written, conn`room
    ensures err <==> old(conn.Accepts(|packet|)) < |packet|
    ensures conn.written == front + whole[..done + old(conn.Accepts(|packet|))]
    ensures forall n: nat :: |packet| <= n ==>
      old(conn.Accepts(n)) == if err then old(conn.Accepts(|packet|)) else |packet| + conn.Accepts(n - |packet|)
  {
    ghost var k := conn.Accepts(|packet|);
    var totalWritten;
    totalWritten, err := WriteAll(conn, packet);
    Onward(front, whole, done, packet, k);
  }

  lemma Onward(front: bytes, whole: bytes, done: nat, packet: bytes, k: nat)
    requires done <= |whole| && packet <= whole[done..] && k <= |packet|
    ensures (front + whole[..done]) + packet[..k] == front + whole[..done + k]
  {
    assert packet[..k] == whole[done..][..k] == whole[done..done + k];
  }
}
