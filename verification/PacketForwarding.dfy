/** Packets of a TAP device carried over stream connections that come and go. */
module PacketForwarding {
  import opened Wrappers

  type Bytes = seq<int>

  const BUFFER_SIZE := 65536
  const HEADER_SIZE := 4

  predicate Octets(s: Bytes) {
    forall i | 0 <= i < |s| :: 0 <= s[i] < 256
  }

  /** What one read of the device can yield: its buffer leaves room for the header. */
  predicate Packet(p: Bytes) {
    Octets(p) && |p| <= BUFFER_SIZE - HEADER_SIZE
  }

  // ---------------------------------------------------------------- frames

  /** Thirty-two bits, most significant byte first. */
  function Header(n: nat): (h: Bytes)
    requires n < 0x1_0000_0000
    ensures |h| == HEADER_SIZE && Octets(h)
  {
    [n / 0x100_0000, n / 0x1_0000 % 0x100, n / 0x100 % 0x100, n % 0x100]
  }

  function Value(s: Bytes): nat
    requires |s| >= HEADER_SIZE && Octets(s)
  {
    ((s[0] * 0x100 + s[1]) * 0x100 + s[2]) * 0x100 + s[3]
  }

  function Frame(p: Bytes): Bytes
    requires Packet(p)
  {
    Header(|p|) + p
  }

  lemma HeaderValue(n: nat, rest: Bytes)
    requires n < 0x1_0000_0000 && Octets(rest)
    ensures Octets(Header(n) + rest) && Value(Header(n) + rest) == n
  {
    var s := Header(n) + rest;
    var a := n / 0x100;
    var b := a / 0x100;
    assert n / 0x1_0000 == b && n / 0x100_0000 == b / 0x100;
    assert s[0] == b / 0x100 && s[1] == b % 0x100 && s[2] == a % 0x100 && s[3] == n % 0x100;
  }

  function Stream(ps: seq<Bytes>): Bytes
    requires forall p | p in ps :: Packet(p)
  {
    if ps == [] then [] else Frame(ps[0]) + Stream(ps[1..])
  }

  datatype End = HeaderMissing | TooLarge | PayloadMissing

  datatype Decoded = Decoded(packets: seq<Bytes>, end: End)

  /** What a receiver makes of a stream of bytes that breaks off where `s` ends. */
  function Decode(s: Bytes): Decoded
    requires Octets(s)
    decreases |s|
  {
    if |s| < HEADER_SIZE then Decoded([], HeaderMissing)
    else
      var n := Value(s);
      if n > BUFFER_SIZE then Decoded([], TooLarge)
      else if |s| < HEADER_SIZE + n then Decoded([], PayloadMissing)
      else
        var d := Decode(s[HEADER_SIZE + n..]);
        Decoded([s[HEADER_SIZE..HEADER_SIZE + n]] + d.packets, d.end)
  }

  lemma DecodeFrame(p: Bytes, rest: Bytes)
    requires Packet(p) && Octets(rest)
    ensures Octets(Frame(p) + rest)
    ensures Decode(Frame(p) + rest) == Decoded([p] + Decode(rest).packets, Decode(rest).end)
  {
    var s := Frame(p) + rest;
    assert s == Header(|p|) + (p + rest);
    HeaderValue(|p|, p + rest);
    assert s[HEADER_SIZE..HEADER_SIZE + |p|] == p && s[HEADER_SIZE + |p|..] == rest;
  }

  predicate Torn(tail: Bytes, p: Bytes) {
    Packet(p) && tail < Frame(p)
  }

  /** A frame is the length of the packet in four bytes, the most significant one first, and the packet. */
  lemma FrameExactly(p: Bytes)
    requires Packet(p)
    ensures var f := Frame(p);
            && |f| == 4 + |p| && f[4..] == p
            && 0x100_0000 * f[0] + 0x1_0000 * f[1] + 0x100 * f[2] + f[3] == |p|
  {
    HeaderValue(|p|, []);
    assert forall i | 0 <= i < 4 :: (Header(|p|) + [])[i] == Frame(p)[i];
  }

  /** A length beyond the receiver's buffer, and only such a one, ends the connection as too large. */
  lemma TooLargeExactly(s: Bytes)
    requires Octets(s) && |s| >= 4 && Decode(s).packets == []
    ensures Decode(s).end == TooLarge <==> 0x100_0000 * s[0] + 0x1_0000 * s[1] + 0x100 * s[2] + s[3] > 65536
  {
  }

  /** A frame that broke off yields no packet and is not taken for one that is too large. */
  lemma DecodeTorn(tail: Bytes, p: Bytes)
    requires Torn(tail, p)
    ensures Octets(tail) && Decode(tail).packets == [] && Decode(tail).end != TooLarge
  {
    var f := Frame(p);
    assert forall i | 0 <= i < |tail| :: tail[i] == f[i];
    if |tail| >= HEADER_SIZE {
      HeaderValue(|p|, []);
      assert Value(tail) == Value(Header(|p|) + []);
    }
  }

  /** The tail of a stream: nothing, or a frame that broke off. */
  ghost predicate Tail(tail: Bytes) {
    tail == [] || exists p :: Torn(tail, p)
  }

  lemma PrefixBehind(f: Bytes, rest: Bytes, q: Bytes)
    requires q <= f + rest && |q| >= |f|
    ensures q == f + q[|f|..] && q[|f|..] <= rest
    ensures q == f + rest ==> q[|f|..] == rest
  {
    assert forall i | 0 <= i < |f| :: q[i] == f[i];
  }

  lemma PrefixWithin(f: Bytes, rest: Bytes, q: Bytes)
    requires q <= f + rest && |q| < |f|
    ensures q < f
  {
    assert forall i | 0 <= i < |q| :: q[i] == (f + rest)[i];
  }

  /** However far a stream has arrived, the receiver has delivered a prefix of its packets, and none of
      its frames is refused as too large. */
  lemma {:induction false} DecodePrefix(ps: seq<Bytes>, tail: Bytes, q: Bytes)
    requires (forall p | p in ps :: Packet(p)) && Tail(tail) && q <= Stream(ps) + tail
    ensures Octets(q) && Decode(q).packets <= ps && Decode(q).end != TooLarge
    ensures q == Stream(ps) + tail ==> Decode(q).packets == ps
    decreases |ps|
  {
    if ps == [] {
      assert Stream(ps) + tail == tail;
      if tail != [] {
        var p :| Torn(tail, p);
        DecodeTorn(q, p);
      }
    } else {
      var f, rest := Frame(ps[0]), Stream(ps[1..]) + tail;
      assert Stream(ps) + tail == f + rest;
      if |q| < |f| {
        PrefixWithin(f, rest, q);
        DecodeTorn(q, ps[0]);
      } else {
        var more := q[|f|..];
        PrefixBehind(f, rest, q);
        DecodePrefix(ps[1..], tail, more);
        DecodeOneMore(ps, more);
      }
    }
  }

  lemma DecodeOneMore(ps: seq<Bytes>, more: Bytes)
    requires ps != [] && Packet(ps[0]) && Octets(more) && Decode(more).packets <= ps[1..]
    ensures var s := Frame(ps[0]) + more;
            && Octets(s) && Decode(s).packets <= ps && Decode(s).end == Decode(more).end
            && (Decode(more).packets == ps[1..] ==> Decode(s).packets == ps)
  {
    DecodeFrame(ps[0], more);
    assert ps == [ps[0]] + ps[1..];
  }

  // ---------------------------------------------------------------- the two copying loops

  /** The receiving side of a connection: `unread` is everything that will still arrive. */
  class Conn {
    var unread: Bytes

    constructor (unread: Bytes)
      ensures this.unread == unread
    {
      this.unread := unread;
    }

    /** Fills `n` bytes of the buffer, or fails after using up all there is. */
    method ReadFull(buf: array<int>, n: nat) returns (ok: bool)
      requires n <= buf.Length
      modifies this, buf
      ensures ok == (n <= |old(unread)|)
      ensures ok ==> buf[..n] == old(unread)[..n] && unread == old(unread)[n..]
    {
      ok := n <= |unread|;
      var i, m := 0, if ok then n else |unread|;
      while i < m
        invariant 0 <= i <= m <= n && m <= |unread| && unread == old(unread)
        invariant buf[..i] == unread[..i]
      {
        buf[i] := unread[i];
        i := i + 1;
      }
      unread := unread[m..];
    }
  }

  datatype Incoming = Arrived(packet: Bytes) | Ended(end: End)

  /** One packet off the connection, by way of the two buffers. */
  method ReadPacket(conn: Conn, lenBuf: array<int>, buf: array<int>) returns (got: Incoming)
    requires Octets(conn.unread) && lenBuf.Length == HEADER_SIZE && buf.Length == BUFFER_SIZE && lenBuf != buf
    modifies conn, lenBuf, buf
    ensures got.Ended? ==> Decode(old(conn.unread)) == Decoded([], got.end)
    ensures got.Arrived? ==> Octets(conn.unread) && |conn.unread| < |old(conn.unread)|
    ensures got.Arrived? ==>
              var d := Decode(conn.unread); Decode(old(conn.unread)) == Decoded([got.packet] + d.packets, d.end)
  {
    ghost var s := conn.unread;
    var ok := conn.ReadFull(lenBuf, HEADER_SIZE);
    if !ok {
      got := Ended(HeaderMissing);
    } else {
      assert forall k | 0 <= k < HEADER_SIZE :: lenBuf[..HEADER_SIZE][k] == s[k];
      var length := Value(lenBuf[..]);
      if length > BUFFER_SIZE {
        got := Ended(TooLarge);
      } else {
        ok := conn.ReadFull(buf, length);
        got := if ok then Arrived(buf[..length]) else Ended(PayloadMissing);
        if ok {
          ReadOn(s, length, buf[..length], conn.unread);
        }
      }
    }
  }

  lemma Associate(a: seq<Bytes>, p: Bytes, b: seq<Bytes>)
    ensures a + ([p] + b) == (a + [p]) + b && a + [p] <= a + ([p] + b)
  {
  }

  lemma ReadOn(s: Bytes, length: nat, packet: Bytes, rest: Bytes)
    requires HEADER_SIZE + length <= |s| && Octets(s)
    requires packet == s[HEADER_SIZE..][..length] && rest == s[HEADER_SIZE..][length..]
    ensures packet == s[HEADER_SIZE..HEADER_SIZE + length] && rest == s[HEADER_SIZE + length..] && Octets(rest)
  {
  }

  /** What a session delivers of a stream to a device that refuses the packet behind the first
      `accepts`, or none: all packets the stream decodes to, or those in front of the refused one. */
  ghost predicate Delivers(stream: Bytes, accepts: Option<nat>, written: seq<Bytes>, end: Option<End>)
    requires Octets(stream)
  {
    var d := Decode(stream);
    if accepts.Some? && accepts.value < |d.packets| then written == d.packets[..accepts.value] && end == None
    else written == d.packets && end == Some(d.end)
  }

  /** Copies packets until a read or a write fails. */
  method CopyFromSocketToTap(conn: Conn, accepts: Option<nat>) returns (written: seq<Bytes>, end: Option<End>)
    requires Octets(conn.unread)
    modifies conn
    ensures Delivers(old(conn.unread), accepts, written, end)
  {
    var lenBuf, buf := new int[HEADER_SIZE], new int[BUFFER_SIZE];
    written, end := [], None;
    var refused := false;
    while end.None? && !refused
      invariant end.Some? ==> Decode(old(conn.unread)) == Decoded(written, end.value)
      invariant end.None? ==> Octets(conn.unread) && written <= Decode(old(conn.unread)).packets
      invariant accepts.Some? ==> |written| <= accepts.value
      invariant refused ==> accepts == Some(|written|) && |written| < |Decode(old(conn.unread)).packets|
      invariant end.None? && !refused ==>
                  Decode(old(conn.unread)) == Decoded(written + Decode(conn.unread).packets, Decode(conn.unread).end)
      decreases if end.None? && !refused then 1 + |conn.unread| else 0
    {
      var got := ReadPacket(conn, lenBuf, buf);
      if got.Ended? {
        end := Some(got.end);
      } else {
        refused := accepts == Some(|written|);
        if !refused {
          Associate(written, got.packet, Decode(conn.unread).packets);
          written := written + [got.packet];
        }
      }
    }
  }

  /** The device's bytes go behind the header, the header before them. */
  method Fill(buf: array<int>, read: Bytes)
    requires buf.Length == BUFFER_SIZE && Packet(read)
    modifies buf
    ensures buf[..HEADER_SIZE + |read|] == Frame(read)
  {
    var i := 0;
    while i < |read|
      invariant 0 <= i <= |read|
      invariant buf[HEADER_SIZE..HEADER_SIZE + i] == read[..i]
    {
      buf[HEADER_SIZE + i] := read[i];
      i := i + 1;
    }
    var h := Header(|read|);
    buf[0], buf[1], buf[2], buf[3] := h[0], h[1], h[2], h[3];
    assert buf[..HEADER_SIZE] == h;
    assert buf[..HEADER_SIZE + |read|] == buf[..HEADER_SIZE] + buf[HEADER_SIZE..HEADER_SIZE + |read|];
  }

  type ConnId = nat

  class ActiveConnHolder {
    var conn: Option<ConnId>

    constructor ()
      ensures conn == None
    {
      conn := None;
    }

    method Set(c: ConnId)
      modifies this
      ensures conn == Some(c)
    {
      conn := Some(c);
    }

    method Get() returns (c: Option<ConnId>)
      ensures c == conn
    {
      c := conn;
    }

    /** A session that is over cannot take away the connection of its successor. */
    method Clear(target: ConnId)
      modifies this
      ensures conn == if old(conn) == Some(target) then None else old(conn)
    {
      if conn == Some(target) {
        conn := None;
      }
    }
  }

  /** One session, until its connection ends or the device refuses a packet: it is the active one
      meanwhile, and leaves none behind. */
  method HandleSession(holder: ActiveConnHolder, id: ConnId, conn: Conn, accepts: Option<nat>)
      returns (written: seq<Bytes>, end: Option<End>)
    requires Octets(conn.unread)
    modifies holder, conn
    ensures holder.conn == None
    ensures Delivers(old(conn.unread), accepts, written, end)
  {
    holder.Set(id);
    written, end := CopyFromSocketToTap(conn, accepts);
    holder.Clear(id);
  }

  /** One packet off the device: dropped if no session is active, otherwise what is to be written to the
      session's connection stands framed at the start of the buffer. */
  method Prepare(holder: ActiveConnHolder, buf: array<int>, read: Bytes) returns (to: Option<ConnId>)
    requires buf.Length == BUFFER_SIZE && Packet(read)
    modifies buf
    ensures to == holder.conn
    ensures to.Some? ==> buf[..HEADER_SIZE + |read|] == Frame(read)
  {
    to := holder.Get();
    if to.Some? {
      Fill(buf, read);
    }
  }

  // ---------------------------------------------------------------- forwarding while sessions change

  /** Where the forwarder stands: about to read, with a packet in its buffer, about to write it to a
      connection it got, about to close that connection after a failed write, or finished. */
  datatype Forwarder = Reading | Loaded | Sending(conn: ConnId) | Failing(conn: ConnId) | Stopped

  /** `read` are the packets taken from the device so far; `wire` is what was put on each connection. */
  datatype System = System(
    holder: Option<ConnId>,
    closed: set<ConnId>,
    wire: map<ConnId, Bytes>,
    read: seq<Bytes>,
    forwarder: Forwarder
  )

  datatype Action =
    | TapRead(p: Bytes)
    | TapFails
    | GetConn
    | WriteAll
    | WriteSome(count: nat)
    | CloseFailed
    | SetConn(c: ConnId)
    | ClearConn(c: ConnId)
    | CloseConn(c: ConnId)

  predicate Writes(s: System) {
    s.forwarder.Sending? && |s.read| > 0 && Packet(s.read[|s.read| - 1])
  }

  predicate Enabled(s: System, a: Action) {
    match a
      case TapRead(p) => s.forwarder.Reading? && Packet(p)
      case TapFails => s.forwarder.Reading?
      case GetConn => s.forwarder.Loaded?
      case WriteAll => Writes(s) && s.forwarder.conn !in s.closed
      // A write to a closed connection fails without effect.
      case WriteSome(k) => Writes(s) && k <= if s.forwarder.conn in s.closed then 0 else |Frame(s.read[|s.read| - 1])|
      case CloseFailed => s.forwarder.Failing?
      case SetConn(c) => c !in s.wire
      case ClearConn(c) => true
      case CloseConn(c) => true
  }

  function On(s: System, c: ConnId): Bytes {
    if c in s.wire then s.wire[c] else []
  }

  function Next(s: System, a: Action): System
    requires Enabled(s, a)
  {
    match a
      case TapRead(p) => s.(read := s.read + [p], forwarder := Loaded)
      case TapFails => s.(forwarder := Stopped)
      case GetConn => s.(forwarder := if s.holder.None? then Reading else Sending(s.holder.value))
      case WriteAll =>
        var c := s.forwarder.conn;
        s.(wire := s.wire[c := On(s, c) + Frame(s.read[|s.read| - 1])], forwarder := Reading)
      case WriteSome(k) =>
        var c := s.forwarder.conn;
        s.(wire := s.wire[c := On(s, c) + Frame(s.read[|s.read| - 1])[..k]], forwarder := Failing(c))
      case CloseFailed => s.(closed := s.closed + {s.forwarder.conn}, forwarder := Reading)
      case SetConn(c) => s.(holder := Some(c), wire := s.wire[c := []])
      case ClearConn(c) => if s.holder == Some(c) then s.(holder := None) else s
      case CloseConn(c) => s.(closed := s.closed + {c})
  }

  const START := System(None, {}, map[], [], Reading)

  ghost predicate Run(states: seq<System>, actions: seq<Action>) {
    && |states| == |actions| + 1
    && states[0] == START
    && forall i | 0 <= i < |actions| :: Enabled(states[i], actions[i]) && states[i + 1] == Next(states[i], actions[i])
  }

  predicate Increasing(idx: seq<int>, bound: nat) {
    && (forall i | 0 <= i < |idx| :: 0 <= idx[i] < bound)
    && forall i, j | 0 <= i < j < |idx| :: idx[i] < idx[j]
  }

  function Pick(read: seq<Bytes>, idx: seq<int>): seq<Bytes>
    requires Increasing(idx, |read|)
  {
    seq(|idx|, i requires 0 <= i < |idx| => read[idx[i]])
  }

  /** How many packets the forwarder is done with. */
  function Handled(s: System): nat {
    if (s.forwarder.Loaded? || s.forwarder.Sending?) && |s.read| > 0 then |s.read| - 1 else |s.read|
  }

  /** The bytes on a connection are the whole frames of the packets at `idx` and a tail. */
  ghost predicate Carries(read: seq<Bytes>, bytes: Bytes, idx: seq<int>, tail: Bytes, bound: nat) {
    && (forall p | p in read :: Packet(p))
    && bound <= |read| && Increasing(idx, bound)
    && Tail(tail)
    && bytes == Stream(Pick(read, idx)) + tail
  }

  ghost predicate ConnInv(s: System, c: ConnId) {
    exists idx, tail :: Carries(s.read, On(s, c), idx, tail, Handled(s)) && (tail != [] ==> Finished(s, c))
  }

  /** Nothing more will be put on it. */
  predicate Finished(s: System, c: ConnId) {
    c in s.closed || s.forwarder == Failing(c)
  }

  ghost predicate Inv(s: System) {
    && (forall p | p in s.read :: Packet(p))
    && (s.forwarder.Loaded? || s.forwarder.Sending? ==> |s.read| > 0)
    && forall c: ConnId :: ConnInv(s, c)
  }

  lemma {:induction false} StreamGrows(ps: seq<Bytes>, p: Bytes)
    requires (forall q | q in ps :: Packet(q)) && Packet(p)
    ensures forall q | q in ps + [p] :: Packet(q)
    ensures Stream(ps + [p]) == Stream(ps) + Frame(p)
    decreases |ps|
  {
    if ps == [] {
      assert ps + [p] == [p];
    } else {
      StreamGrows(ps[1..], p);
      FirstFrame(ps, p);
      AssociateBytes(Frame(ps[0]), Stream(ps[1..]), Frame(p));
    }
  }

  lemma FirstFrame(ps: seq<Bytes>, p: Bytes)
    requires ps != [] && (forall q | q in ps :: Packet(q)) && Packet(p)
    ensures forall q | q in ps + [p] :: Packet(q)
    ensures (forall q | q in ps[1..] + [p] :: Packet(q)) && Stream(ps + [p]) == Frame(ps[0]) + Stream(ps[1..] + [p])
  {
    assert (ps + [p])[1..] == ps[1..] + [p];
  }

  lemma AssociateBytes(a: Bytes, b: Bytes, c: Bytes)
    ensures (a + b) + c == a + (b + c)
  {
  }

  lemma PickLonger(read: seq<Bytes>, more: seq<Bytes>, idx: seq<int>)
    requires Increasing(idx, |read|)
    ensures Increasing(idx, |read + more|) && Pick(read + more, idx) == Pick(read, idx)
  {
  }

  lemma PickNext(read: seq<Bytes>, idx: seq<int>, k: nat)
    requires Increasing(idx, k) && k < |read|
    ensures Increasing(idx + [k], |read|) && Increasing(idx, |read|)
    ensures Pick(read, idx + [k]) == Pick(read, idx) + [read[k]]
  {
  }

  lemma CarriesLonger(read: seq<Bytes>, p: Bytes, bytes: Bytes, idx: seq<int>, tail: Bytes, bound: nat)
    requires Carries(read, bytes, idx, tail, bound) && Packet(p)
    ensures Carries(read + [p], bytes, idx, tail, bound)
  {
    PickLonger(read, [p], idx);
  }

  lemma CarriesLater(read: seq<Bytes>, bytes: Bytes, idx: seq<int>, tail: Bytes, bound: nat, later: nat)
    requires Carries(read, bytes, idx, tail, bound) && bound <= later <= |read|
    ensures Carries(read, bytes, idx, tail, later)
  {
  }

  lemma CarriesFrame(read: seq<Bytes>, bytes: Bytes, idx: seq<int>, k: nat)
    requires Carries(read, bytes, idx, [], k) && k < |read|
    ensures Carries(read, bytes + Frame(read[k]), idx + [k], [], k + 1)
  {
    PickNext(read, idx, k);
    StreamGrows(Pick(read, idx), read[k]);
    var ps := Pick(read, idx);
    assert bytes == Stream(ps);
    assert bytes + Frame(read[k]) == Stream(ps + [read[k]]) + [];
  }

  lemma CarriesTorn(read: seq<Bytes>, bytes: Bytes, idx: seq<int>, k: nat, count: nat)
    requires Carries(read, bytes, idx, [], k) && k < |read| && count < |Frame(read[k])|
    ensures Carries(read, bytes + Frame(read[k])[..count], idx, Frame(read[k])[..count], k + 1)
  {
    assert Torn(Frame(read[k])[..count], read[k]);
    assert bytes == Stream(Pick(read, idx));
  }

  lemma ReadKeeps(s: System, p: Bytes, c: ConnId)
    requires Inv(s) && Enabled(s, TapRead(p))
    ensures ConnInv(Next(s, TapRead(p)), c)
  {
    assert ConnInv(s, c);
    var idx, tail :| Carries(s.read, On(s, c), idx, tail, Handled(s)) && (tail != [] ==> Finished(s, c));
    CarriesLonger(s.read, p, On(s, c), idx, tail, Handled(s));
    var n := Next(s, TapRead(p));
    assert Carries(n.read, On(n, c), idx, tail, Handled(n));
  }

  lemma Witness(s: System, c: ConnId, bytes: Bytes, idx: seq<int>, tail: Bytes)
    requires bytes == On(s, c) && Carries(s.read, bytes, idx, tail, Handled(s)) && (tail != [] ==> Finished(s, c))
    ensures ConnInv(s, c)
  {
  }

  function Put(s: System, a: Action): Bytes
    requires Enabled(s, a) && (a.WriteAll? || a.WriteSome?)
  {
    var f := Frame(s.read[|s.read| - 1]);
    if a.WriteAll? then f else f[..a.count]
  }

  lemma WrittenOn(s: System, a: Action)
    requires Enabled(s, a) && (a.WriteAll? || a.WriteSome?)
    ensures On(Next(s, a), s.forwarder.conn) == On(s, s.forwarder.conn) + Put(s, a)
    ensures Next(s, a).read == s.read && Handled(Next(s, a)) == |s.read| && Put(s, a) <= Frame(s.read[|s.read| - 1])
    ensures |Put(s, a)| < |Frame(s.read[|s.read| - 1])| ==> Finished(Next(s, a), s.forwarder.conn)
  {
  }

  /** A write to a connection nothing was torn off on. */
  lemma WriteKeeps(s: System, a: Action)
    requires Inv(s) && Enabled(s, a) && (a.WriteAll? || a.WriteSome?) && s.forwarder.conn !in s.closed
    ensures ConnInv(Next(s, a), s.forwarder.conn)
  {
    var c := s.forwarder.conn;
    assert ConnInv(s, c);
    var idx, tail :| Carries(s.read, On(s, c), idx, tail, Handled(s)) && (tail != [] ==> Finished(s, c));
    assert tail == [];
    WrittenOn(s, a);
    var i, more := WriteCarries(s.read, On(s, c), idx, |s.read| - 1, Put(s, a));
    Witness(Next(s, a), c, On(s, c) + Put(s, a), i, more);
  }

  lemma WriteCarries(read: seq<Bytes>, bytes: Bytes, idx: seq<int>, k: nat, put: Bytes)
      returns (i: seq<int>, more: Bytes)
    requires Carries(read, bytes, idx, [], k) && k == |read| - 1 && put <= Frame(read[k])
    ensures Carries(read, bytes + put, i, more, |read|) && (more != [] ==> |put| < |Frame(read[k])|)
  {
    if |put| == |Frame(read[k])| {
      assert put == Frame(read[k]);
      CarriesFrame(read, bytes, idx, k);
      i, more := idx + [k], [];
    } else {
      assert put == Frame(read[k])[..|put|];
      CarriesTorn(read, bytes, idx, k, |put|);
      i, more := idx, put;
    }
  }

  lemma OtherKeeps(s: System, a: Action, c: ConnId)
    requires Inv(s) && Enabled(s, a) && !a.TapRead?
    requires Next(s, a).read == s.read && Handled(s) <= Handled(Next(s, a))
    requires On(Next(s, a), c) == On(s, c) && (Finished(s, c) ==> Finished(Next(s, a), c))
    ensures ConnInv(Next(s, a), c)
  {
    assert ConnInv(s, c);
    var idx, tail :| Carries(s.read, On(s, c), idx, tail, Handled(s)) && (tail != [] ==> Finished(s, c));
    CarriesLater(s.read, On(s, c), idx, tail, Handled(s), Handled(Next(s, a)));
  }

  /** Once a write has failed on a connection, or it was closed, nothing is added to it. */
  lemma NothingAfterTorn(s: System, a: Action, c: ConnId)
    requires Finished(s, c) && Enabled(s, a)
    ensures On(Next(s, a), c) == On(s, c) && Finished(Next(s, a), c)
  {
    if a.WriteSome? && s.forwarder.conn == c {
      assert On(s, c) + Frame(s.read[|s.read| - 1])[..0] == On(s, c);
    }
  }

  lemma StepKeeps(s: System, a: Action)
    requires Inv(s) && Enabled(s, a)
    ensures Inv(Next(s, a))
  {
    forall c: ConnId ensures ConnInv(Next(s, a), c) {
      if a.TapRead? {
        ReadKeeps(s, a.p, c);
      } else if (a.WriteAll? || a.WriteSome?) && c == s.forwarder.conn && c !in s.closed {
        WriteKeeps(s, a);
      } else {
        if Finished(s, c) {
          NothingAfterTorn(s, a, c);
        }
        OtherKeeps(s, a, c);
      }
    }
  }

  lemma StartInv()
    ensures Inv(START)
  {
    forall c: ConnId ensures ConnInv(START, c) {
      assert Pick([], []) == [] && Carries(START.read, On(START, c), [], [], Handled(START));
    }
  }

  lemma {:induction false} RunInv(states: seq<System>, actions: seq<Action>)
    requires Run(states, actions)
    ensures Inv(states[|actions|])
    decreases |actions|
  {
    if actions == [] {
      StartInv();
    } else {
      var k := |actions| - 1;
      RunInv(states[..k + 1], actions[..k]);
      StepKeeps(states[k], actions[k]);
    }
  }

  /** Across any number of sessions, what was put on a connection is whole frames of an in-order
      selection of the packets read, then at most one frame that broke off.  Whatever part of it has
      arrived, the other side has delivered a prefix of that selection, and refused nothing as too large. */
  lemma EveryConnection(states: seq<System>, actions: seq<Action>, c: ConnId)
    requires Run(states, actions)
    ensures var s := states[|actions|];
            exists idx, tail :: Carries(s.read, On(s, c), idx, tail, |s.read|) && ReceivedInOrder(s, c, idx)
  {
    var s := states[|actions|];
    RunInv(states, actions);
    assert ConnInv(s, c);
    var idx, tail :| Carries(s.read, On(s, c), idx, tail, Handled(s)) && (tail != [] ==> Finished(s, c));
    CarriedArrives(s, c, idx, tail);
  }

  lemma CarriedArrives(s: System, c: ConnId, idx: seq<int>, tail: Bytes)
    requires Carries(s.read, On(s, c), idx, tail, Handled(s)) && Handled(s) <= |s.read|
    ensures Carries(s.read, On(s, c), idx, tail, |s.read|) && ReceivedInOrder(s, c, idx)
  {
    forall q | q <= On(s, c)
      ensures Octets(q) && Decode(q).packets <= Pick(s.read, idx) && Decode(q).end != TooLarge
      ensures q == On(s, c) ==> Decode(q).packets == Pick(s.read, idx)
    {
      DecodePrefix(Pick(s.read, idx), tail, q);
    }
  }

  ghost predicate ReceivedInOrder(s: System, c: ConnId, idx: seq<int>) {
    && Increasing(idx, |s.read|)
    && forall q | q <= On(s, c) ::
         && Octets(q) && Decode(q).packets <= Pick(s.read, idx) && Decode(q).end != TooLarge
         && (q == On(s, c) ==> Decode(q).packets == Pick(s.read, idx))
  }

  // ---------------------------------------------------------------- what was put on a connection

  predicate PutsWhole(s: System, a: Action, c: ConnId) {
    Writes(s) && s.forwarder.conn == c && (a.WriteAll? || (a.WriteSome? && a.count == |Frame(s.read[|s.read| - 1])|))
  }

  /** The packets that stood in the buffer whenever a whole frame was written to the connection. */
  function WrittenTo(states: seq<System>, actions: seq<Action>, c: ConnId): (sent: seq<Bytes>)
    requires |states| == |actions| + 1
    ensures forall p | p in sent :: Packet(p)
    decreases |actions|
  {
    if actions == [] then []
    else
      var k := |actions| - 1;
      var before := WrittenTo(states[..k + 1], actions[..k], c);
      if PutsWhole(states[k], actions[k], c) then before + [states[k].read[|states[k].read| - 1]] else before
  }

  /** The connection holds exactly these packets' frames, and a torn one at most. */
  ghost predicate Holds(s: System, c: ConnId, sent: seq<Bytes>, tail: Bytes)
    requires forall p | p in sent :: Packet(p)
  {
    On(s, c) == Stream(sent) + tail && Tail(tail) && (tail != [] ==> Finished(s, c))
  }

  lemma HoldsWritten(s: System, a: Action, c: ConnId, sent: seq<Bytes>) returns (tail: Bytes)
    requires (forall p | p in sent :: Packet(p)) && Holds(s, c, sent, [])
    requires Enabled(s, a) && (a.WriteAll? || a.WriteSome?) && s.forwarder.conn == c
    ensures var after := if PutsWhole(s, a, c) then sent + [s.read[|s.read| - 1]] else sent;
            (forall p | p in after :: Packet(p)) && Holds(Next(s, a), c, after, tail)
  {
    var p := s.read[|s.read| - 1];
    WrittenOn(s, a);
    assert On(s, c) == Stream(sent);
    if PutsWhole(s, a, c) {
      StreamGrows(sent, p);
      assert Put(s, a) == Frame(p);
      tail := [];
      assert Stream(sent + [p]) + tail == Stream(sent) + Frame(p);
    } else {
      tail := Put(s, a);
      assert tail < Frame(p) && Torn(tail, p);
    }
  }

  lemma HoldsElse(s: System, a: Action, c: ConnId, sent: seq<Bytes>, tail: Bytes)
    requires (forall p | p in sent :: Packet(p)) && Holds(s, c, sent, tail) && Enabled(s, a)
    requires !((a.WriteAll? || a.WriteSome?) && s.forwarder.conn == c) || tail != []
    ensures !PutsWhole(s, a, c) && Holds(Next(s, a), c, sent, tail)
  {
    if tail != [] {
      NothingAfterTorn(s, a, c);
      if Writes(s) && s.forwarder.conn == c {
        assert c in s.closed && |Frame(s.read[|s.read| - 1])| >= HEADER_SIZE;
      }
    } else {
      assert On(Next(s, a), c) == On(s, c);
    }
  }

  /** Nothing is lost and nothing added: over any run, what was put on a connection is exactly the frames of
      the packets that were written to it whole, in order, and then one torn frame at most. */
  lemma {:induction false} WireExactly(states: seq<System>, actions: seq<Action>, c: ConnId) returns (tail: Bytes)
    requires Run(states, actions)
    ensures Holds(states[|actions|], c, WrittenTo(states, actions, c), tail)
    decreases |actions|
  {
    if actions == [] {
      tail := [];
    } else {
      var k := |actions| - 1;
      var s, a, sent := states[k], actions[k], WrittenTo(states[..k + 1], actions[..k], c);
      tail := WireExactly(states[..k + 1], actions[..k], c);
      if (a.WriteAll? || a.WriteSome?) && s.forwarder.conn == c && tail == [] {
        tail := HoldsWritten(s, a, c, sent);
      } else {
        HoldsElse(s, a, c, sent, tail);
      }
    }
  }

  // ---------------------------------------------------------------- where a packet goes

  /** The connection was made the active one by step `i`, and neither replaced nor cleared before `n`. */
  predicate ActiveSince(actions: seq<Action>, i: nat, n: nat, c: ConnId)
    requires i < n <= |actions|
  {
    actions[i] == SetConn(c) && forall j | i < j < n :: !actions[j].SetConn? && actions[j] != ClearConn(c)
  }

  /** A connection is the active one exactly since it was set, until another one is or it is itself cleared. */
  lemma {:induction false} ActiveExactly(states: seq<System>, actions: seq<Action>, n: nat, c: ConnId)
    requires Run(states, actions) && n <= |actions|
    ensures states[n].holder == Some(c) <==> exists i :: 0 <= i < n && ActiveSince(actions, i, n, c)
  {
    if n > 0 {
      ActiveExactly(states, actions, n - 1, c);
      var a := actions[n - 1];
      assert states[n] == Next(states[n - 1], a);
      if a == SetConn(c) {
        assert ActiveSince(actions, n - 1, n, c);
      } else if states[n].holder == Some(c) {
        var i :| 0 <= i < n - 1 && ActiveSince(actions, i, n - 1, c);
        assert ActiveSince(actions, i, n, c);
      } else {
        forall i | 0 <= i < n ensures !ActiveSince(actions, i, n, c) {
          assert i < n - 1 && ActiveSince(actions, i, n, c) ==> ActiveSince(actions, i, n - 1, c);
        }
      }
    }
  }

  /** A packet taken from the device is dropped exactly if no connection is active when the forwarder asks. */
  lemma DroppedExactly(states: seq<System>, actions: seq<Action>, n: nat)
    requires Run(states, actions) && n < |actions| && actions[n].GetConn?
    ensures states[n + 1].forwarder ==
              match states[n].holder
                case None => Reading
                case Some(c) => Sending(c)
    ensures states[n + 1].read == states[n].read
  {
  }

  /** What is being sent to a connection is the packet that was in hand when it was found active. */
  lemma {:induction false} SentWhileActive(states: seq<System>, actions: seq<Action>, n: nat, c: ConnId)
      returns (k: nat)
    requires Run(states, actions) && n <= |actions| && states[n].forwarder == Sending(c)
    ensures k < n && actions[k].GetConn? && states[k].holder == Some(c) && states[k].read == states[n].read
    ensures forall j | k < j < n :: !actions[j].TapRead?
  {
    assert n > 0 && states[n] == Next(states[n - 1], actions[n - 1]);
    if actions[n - 1].GetConn? {
      k := n - 1;
    } else {
      k := SentWhileActive(states, actions, n - 1, c);
    }
  }

  /** Once the device has failed nothing more is read from it, and nothing more is put on any connection. */
  lemma {:induction false} NothingAfterTapFails(states: seq<System>, actions: seq<Action>, m: nat, n: nat, c: ConnId)
    requires Run(states, actions) && m < n <= |actions| && actions[m].TapFails?
    ensures states[n].read == states[m].read && On(states[n], c) == On(states[m], c)
    ensures states[n].forwarder.Stopped?
    decreases n
  {
    assert states[n] == Next(states[n - 1], actions[n - 1]);
    if m < n - 1 {
      NothingAfterTapFails(states, actions, m, n - 1, c);
    }
  }
}
