/** Replaying inspected bytes (PrefixedConn) and copying one connection into another (transferData). */
module Relay {
  import opened Bytes
  import opened Net
  import opened UsageStore

  class PrefixedConn {
    const conn: Conn
    var prefix: bytes
    var off: nat

    ghost predicate Valid()
      reads this
    {
      if prefix == [] then off == 0 else off < |prefix|
    }

    /** What reading this connection to its end yields. */
    ghost function Stream(): bytes
      reads this, conn
      requires Valid()
    {
      prefix[off..] + conn.incoming
    }

    /** How many of those bytes can still be read. */
    ghost function Reach(): (r: nat)
      reads this, conn
      requires Valid()
      ensures r <= |Stream()|
    {
      |prefix| - off + conn.Reach()
    }

    constructor (conn: Conn, prefix: bytes)
      requires prefix != []
      ensures Valid() && this.conn == conn && Stream() == prefix + conn.incoming
    {
      this.conn, this.prefix, this.off := conn, prefix, 0;
    }

    /** Drains the prefix first, then reads the connection; an exhausted prefix is released. */
    method Read(buf: array<byte>, lo: nat, hi: nat) returns (n: nat, err: bool)
      requires Valid() && lo < hi <= buf.Length
      modifies this, conn`incoming, conn`inTime, buf
      ensures Valid() && n <= hi - lo
      ensures n <= |old(Stream())| && Stream() == old(Stream())[n..]
      ensures buf[lo..lo + n] == old(Stream())[..n]
      ensures err <==> old(Reach()) == 0
      ensures err <==> n == 0
      ensures n <= old(Reach()) && Reach() == old(Reach()) - n
      ensures conn.inTime.Some? <==> old(conn.inTime).Some?
    {
      if prefix != [] {
        n := if hi - lo < |prefix| - off then hi - lo else |prefix| - off;
        CopyInto(buf, lo, prefix[off..off + n]);
        Drained(prefix, off, n, conn.incoming);
        off := off + n;
        if off >= |prefix| {
          prefix, off := [], 0;
        }
        return n, false;
      }
      n, err := conn.Read(buf, lo, hi);
    }
  }

  /** copy(buf[lo:], data) */
  method CopyInto(buf: array<byte>, lo: nat, data: bytes)
    requires lo + |data| <= buf.Length
    modifies buf
    ensures buf[lo..lo + |data|] == data
  {
    forall i | 0 <= i < |data| {
      buf[lo + i] := data[i];
    }
  }

  lemma Drained(prefix: bytes, off: nat, n: nat, rest: bytes)
    requires off + n <= |prefix|
    ensures (prefix[off..] + rest)[..n] == prefix[off..off + n]
    ensures (prefix[off..] + rest)[n..] == prefix[off + n..] + rest
  {
  }

  /** A net.Conn as the tunnel sees it. */
  datatype NetConn = Raw(conn: Conn) | Wrapped(pre: PrefixedConn) {
    ghost function Base(): Conn {
      if Raw? then conn else pre.conn
    }

    /** The objects whose state makes up the stream. */
    ghost function Repr(): set<object> {
      if Raw? then {conn} else {pre, pre.conn}
    }

    ghost predicate Valid()
      reads Repr()
    {
      Wrapped? ==> pre.Valid()
    }

    ghost function Stream(): bytes
      reads Repr()
      requires Valid()
    {
      if Raw? then conn.incoming else pre.Stream()
    }

    /** How much of it can still be read. */
    ghost function Reach(): (r: nat)
      reads Repr()
      requires Valid()
      ensures r <= |Stream()|
      ensures Base().inTime.None? && !Base().closed ==> r == |Stream()|
    {
      if Raw? then conn.Reach() else pre.Reach()
    }

    method Read(buf: array<byte>, lo: nat, hi: nat) returns (n: nat, err: bool)
      requires Valid() && lo < hi <= buf.Length
      modifies Repr(), buf
      ensures Base().closed == old(Base().closed) && Base().written == old(Base().written)
      ensures Valid() && n <= hi - lo
      ensures n <= |old(Stream())| && Stream() == old(Stream())[n..]
      ensures buf[lo..lo + n] == old(Stream())[..n]
      ensures err <==> n == 0
      ensures err <==> old(Reach()) == 0
      ensures n <= old(Reach()) && Reach() == old(Reach()) - n
    {
      match this
      case Raw(c) => n, err := c.Read(buf, lo, hi);
      case Wrapped(p) => n, err := p.Read(buf, lo, hi);
    }

    method Close()
      modifies Base()`closed
      ensures Base().closed
    {
      match this
      case Raw(c) => c.Close();
      case Wrapped(p) => p.conn.Close();
    }
  }

  /** NewPrefixedConn: with nothing to replay the connection itself is returned. */
  method NewPrefixedConn(conn: Conn, prefix: bytes) returns (c: NetConn)
    ensures c.Valid() && c.Base() == conn
    ensures c.Stream() == prefix + conn.incoming
    ensures c.Wrapped? ==> fresh(c.pre)
    ensures c.Raw? <==> prefix == []
  {
    if prefix == [] {
      return Raw(conn);
    }
    var p := new PrefixedConn(conn, prefix);
    return Wrapped(p);
  }

  /** `after` is `before` with n more bytes on one port. */
  ghost predicate Credits(after: map<int, u64>, before: map<int, u64>, port: int, n: nat) {
    forall p :: At(after, p) == if p == port then Add64(At(before, p), n % TWO64) else At(before, p)
  }

  /** The store after chunks of these sizes were counted one by one. */
  ghost function AddMany(m: map<int, u64>, port: int, sizes: seq<nat>): map<int, u64> {
    if sizes == [] then m
    else AddTo(AddMany(m, port, sizes[..|sizes| - 1]), port, sizes[|sizes| - 1] % TWO64)
  }

  ghost function Sum(sizes: seq<nat>): nat {
    if sizes == [] then 0 else Sum(sizes[..|sizes| - 1]) + sizes[|sizes| - 1]
  }

  lemma {:induction false} ManyAreCredits(m: map<int, u64>, port: int, sizes: seq<nat>)
    ensures Credits(AddMany(m, port, sizes), m, port, Sum(sizes))
  {
    if sizes != [] {
      var last := |sizes| - 1;
      ManyAreCredits(m, port, sizes[..last]);
      ModSum(At(m, port), Sum(sizes[..last]), sizes[last]);
    }
  }

  lemma ModSum(a: u64, n: nat, more: nat)
    ensures Add64(Add64(a, n % TWO64), more % TWO64) == Add64(a, (n + more) % TWO64)
  {
    var x, y := n % TWO64, more % TWO64;
    assert n == n / TWO64 * TWO64 + x && more == more / TWO64 * TWO64 + y;
    WrapOnce(n / TWO64 + more / TWO64, x + y);
  }

  lemma WrapOnce(q: nat, r: nat)
    requires r < 2 * TWO64
    ensures (q * TWO64 + r) % TWO64 == if r < TWO64 then r else r - TWO64
  {
    var m := q * TWO64 + r;
    assert m / TWO64 == if r < TWO64 then q else q + 1;
  }

  function CopyBufferSize(configured: int): (r: nat)
    ensures r == if configured <= 0 then 16384 else configured
  {
    if configured <= 0 then 16 * 1024 else configured
  }

  /**
   * One turn of the copy loop: read a chunk into the buffer, write all of it. Here `whole` is the
   * stream the copying began with and `done` how much of it `to` got behind `front`.
   */
  method CopyChunk(from: NetConn, to: Conn, buf: array<byte>, ghost front: bytes, ghost whole: bytes, ghost done: nat)
      returns (r: nat, eof: bool, werr: bool)
    requires from.Valid() && from.Base() != to && buf.Length > 0 && done <= |whole|
    requires from.Stream() == whole[done..] && to.written == front + whole[..done]
    modifies from.Repr(), to`written, to`room, buf
    ensures from.Valid() && to.closed == old(to.closed)
    ensures r <= buf.Length && r <= old(from.Reach()) && from.Reach() == old(from.Reach()) - r
    ensures done + r <= |whole| && from.Stream() == whole[done + r..]
    ensures to.written == front + whole[..done + old(to.Accepts(r))]
    ensures to.room == Less(old(to.room), old(to.Accepts(r)))
    ensures eof <==> r == 0
    ensures eof <==> old(from.Reach()) == 0
    ensures werr <==> old(to.Accepts(r)) < r
  {
    werr := false;
    r, eof := from.Read(buf, 0, buf.Length);
    if eof {
      return;
    }
    assert buf[0..r] == whole[done..][..r];
    ghost var sent := to.Accepts(r);
    var totalWritten;
    totalWritten, werr := WriteAll(to, buf[0..r]);
    Advance(front, whole, done, r, sent);
  }

  /** The same turn with its count: a chunk that was not written completely is not counted. */
  method CopyTurn(
      from: NetConn, to: Conn, buf: array<byte>, usage: Usage, remotePort: int, sniffer: bool, ghost front: bytes,
      ghost whole: bytes, ghost done: nat, ghost before: map<int, u64>, ghost counted: seq<nat>)
      returns (stop: bool, ghost r: nat)
    requires from.Valid() && usage.Valid() && from.Base() != to && buf.Length > 0 && done <= |whole|
    requires from.Stream() == whole[done..] && to.written == front + whole[..done]
    requires usage.Memory() == AddMany(before, remotePort, if sniffer then counted else [])
    modifies from.Repr(), to`written, to`room, usage`dataStore, buf
    ensures from.Valid() && usage.Valid()
    ensures r <= buf.Length && r <= old(from.Reach()) && from.Reach() == old(from.Reach()) - r
    ensures done + r <= |whole| && from.Stream() == whole[done + r..]
    ensures stop <==> old(from.Reach()) == 0 || old(to.Accepts(r)) < r
    ensures old(from.Reach()) > 0 ==> r > 0
    ensures to.written == front + whole[..done + old(to.Accepts(r))]
    ensures forall n: nat :: r <= n ==>
      old(to.Accepts(n)) == if old(to.Accepts(r)) < r then old(to.Accepts(r)) else r + to.Accepts(n - r)
    ensures !stop ==>
      && Sum(counted + [r]) == Sum(counted) + r
      && usage.Memory() == AddMany(before, remotePort, if sniffer then counted + [r] else [])
    ensures stop ==> usage.Memory() == old(usage.Memory())
  {
    var n, eof, werr := CopyChunk(from, to, buf, front, whole, done);
    r, stop := n, eof || werr;
    assert (counted + [r])[..|counted|] == counted;
    if !stop && sniffer {
      usage.AddOrUpdatePort(remotePort, n % TWO64);
    }
  }

  /** The loop of transferData, up to the read or write that ends it. */
  method CopyLoop(from: NetConn, to: Conn, buf: array<byte>, usage: Usage, remotePort: int, sniffer: bool)
      returns (ghost counted: seq<nat>)
    requires from.Valid() && usage.Valid() && from.Base() != to && buf.Length > 0
    modifies from.Repr(), to`written, to`room, usage`dataStore, buf
    ensures from.Valid() && usage.Valid()
    ensures to.written == old(to.written) + old(from.Stream())[..old(to.Accepts(from.Reach()))]
    ensures var sent := old(to.Accepts(from.Reach()));
      Sum(counted) <= sent <= Sum(counted) + buf.Length && (sent == old(from.Reach()) ==> Sum(counted) == sent)
    ensures usage.Memory() == AddMany(old(usage.Memory()), remotePort, if sniffer then counted else [])
  {
    hide Sum, AddMany, UpTo, Less;
    counted := [];
    NoneCounted(usage.Memory(), remotePort);
    ghost var before, front, whole, reach := usage.Memory(), to.written, from.Stream(), from.Reach();
    ghost var done, most := 0, to.Accepts(reach);
    while true
      invariant from.Valid() && usage.Valid()
      invariant Sum(counted) == done <= reach && from.Reach() == reach - done
      invariant from.Stream() == whole[done..] && to.written == front + whole[..done]
      invariant done + to.Accepts(reach - done) == most
      invariant usage.Memory() == AddMany(before, remotePort, if sniffer then counted else [])
      decreases reach - done
    {
      var stop;
      ghost var r;
      stop, r := CopyTurn(from, to, buf, usage, remotePort, sniffer, front, whole, done, before, counted);
      if stop {
        return;
      }
      done, counted := done + r, counted + [r];
    }
  }

  lemma NoneCounted(m: map<int, u64>, port: int)
    ensures AddMany(m, port, []) == m && Sum([]) == 0
  {
  }

  lemma Advance(front: bytes, whole: bytes, i: nat, r: nat, n: nat)
    requires i + r <= |whole| && n <= r
    ensures whole[i..][..r] == whole[i..i + r] && whole[i..][r..] == whole[i + r..]
    ensures (front + whole[..i]) + whole[i..][..r][..n] == front + whole[..i + n]
  {
    assert whole[i..][..r][..n] == whole[i..][..n];
    assert (front + whole[..i]) + whole[i..][..n] == front + (whole[..i] + whole[i..][..n]);
    assert whole[..i] + whole[i..][..n] == whole[..i + n];
  }

  /**
   * One direction of TCPConnectionHandler. What `to` gets is exactly as much of what `from` can
   * still yield as it accepts - all of it if no write fails; both ends are closed on return, and
   * exactly the chunks that were written completely are counted.
   */
  method TransferData(from: NetConn, to: Conn, usage: Usage, remotePort: int, sniffer: bool, copyBufferSize: int)
      returns (ghost counted: nat)
    requires from.Valid() && usage.Valid() && from.Base() != to
    modifies from.Repr(), to`written, to`room, to`closed, usage`dataStore
    ensures from.Valid() && usage.Valid()
    ensures from.Base().closed && to.closed
    ensures to.written == old(to.written) + old(from.Stream())[..old(to.Accepts(from.Reach()))]
    ensures var sent := old(to.Accepts(from.Reach()));
      && counted <= sent <= counted + (if copyBufferSize <= 0 then 16384 else copyBufferSize)
      && (sent == old(from.Reach()) ==> counted == sent)
    ensures !old(to.closed) && old(to.room).None? && old(from.Base().inTime).None? && !old(from.Base().closed) ==>
      to.written == old(to.written) + old(from.Stream())
    ensures Credits(usage.Memory(), old(usage.Memory()), remotePort, if sniffer then counted else 0)
  {
    var buf := new byte[CopyBufferSize(copyBufferSize)];
    ghost var before := usage.Memory();
    ghost var sizes := CopyLoop(from, to, buf, usage, remotePort, sniffer);
    counted := Sum(sizes);
    ManyAreCredits(before, remotePort, if sniffer then sizes else []);
    from.Close();
    to.Close();
  }
}
