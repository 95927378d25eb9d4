/** The pinger engine: the destination registry and its lifecycle (`New`,
    `AddHost`, `AddHandler`, `Run`, `Wait`), the body of the listener loop that
    routes echo replies to per-destination mailboxes, and the state of each
    destination's probe loop.  Every goroutine's loop body is one method whose
    inputs say which `select` case fired and what the clock read; buffers
    obtained from the pool arrive as inputs and buffers handed back to it leave
    as outputs. */
module Pinger {
  import opened Bytes
  import opened Wrappers
  import opened NetAddr
  import opened LittleEndian
  import Icmp
  import Utils
  import BufferPool

  type Buf = BufferPool.Buf

  /** The size of the pool's receive buffers. */
  const ReceiveBufferSize: nat := 512

  /** A `context.Context`, known only by its identity. */
  datatype Context = Context(id: nat)
  /** The cancel function of a child context of `parent`. */
  datatype CancelFunc = CancelFunc(parent: Context)
  /** A registered `ReplyHandlerFunc`, known only by its identity. */
  datatype Handler = Handler(id: nat)
  /** One call `handler(host, latency, err)`. */
  datatype HandlerCall = HandlerCall(handler: Handler, host: string, latency: int, err: Option<Error>)

  /** A monitored host.  `received` is its mailbox, a channel of capacity one:
      either empty or holding one buffer. */
  class Destination {
    const host: string
    const addr: Addr
    const timeout: int
    const interval: int
    var cancelFunc: Option<CancelFunc>
    var received: Option<Buf>

    constructor (host: string, addr: Addr, timeout: int, interval: int)
      ensures this.host == host && this.addr == addr
      ensures this.timeout == timeout && this.interval == interval
      ensures cancelFunc == None && received == None
    {
      this.host := host;
      this.addr := addr;
      this.timeout := timeout;
      this.interval := interval;
      cancelFunc := None;
      received := None;
    }
  }

  /** How a `ReadFrom` on the socket ended. */
  datatype ReadResult = ReadFailed(timeout: bool) | ReadFrom(from: Addr)

  /** The path one turn of the listener loop takes. */
  datatype ListenerOutcome =
    | Stopped             // the context was done at the top of the loop
    | ReadTimedOut        // the read deadline passed
    | ReadError           // any other read error
    | NotEchoReply        // the packet is not an echo reply
    | UnknownDestination  // no destination is registered for the source
    | Delivered           // the copy went into the mailbox
    | Dropped             // the mailbox was full; the copy is dropped
    | StoppedAtHandOff    // the context was done while handing the copy off

  /** The decision the listener's loop body makes.  `known` says whether a
      destination is registered under the reply's key and `mailboxFull`
      whether its mailbox holds a message.  When the context is done and the
      mailbox has room both `select` cases are ready and Go picks one at
      random: `handOffChosen` says whether it picked the hand-off. */
  function ListenerPath(doneAtTop: bool, read: ReadResult, parsed: Result<Icmp.Message>,
                        known: bool, mailboxFull: bool, doneAtHandOff: bool, handOffChosen: bool)
    : (o: ListenerOutcome)
    ensures o == Delivered ==> known && !mailboxFull && (!doneAtHandOff || handOffChosen)
    ensures o == Dropped ==> known && mailboxFull && !doneAtHandOff
    ensures o == UnknownDestination ==> !known
    ensures o == NotEchoReply ==> Icmp.ParseICMPMessage(parsed).None?
    ensures doneAtTop ==> o == Stopped
    ensures !doneAtTop && read.ReadFailed? ==> o == (if read.timeout then ReadTimedOut else ReadError)
    ensures !doneAtTop && read.ReadFrom? && Icmp.ParseICMPMessage(parsed).None? ==> o == NotEchoReply
    ensures !doneAtTop && read.ReadFrom? && Icmp.ParseICMPMessage(parsed).Some? ==>
              && (!known ==> o == UnknownDestination)
              && (known && !doneAtHandOff ==> o == (if mailboxFull then Dropped else Delivered))
              && (known && doneAtHandOff ==>
                    o == (if !mailboxFull && handOffChosen then Delivered else StoppedAtHandOff))
  {
    if doneAtTop then Stopped
    else if read.ReadFailed? then (if read.timeout then ReadTimedOut else ReadError)
    else if Icmp.ParseICMPMessage(parsed).None? then NotEchoReply
    else if !known then UnknownDestination
    else if doneAtHandOff && (mailboxFull || !handOffChosen) then StoppedAtHandOff
    else if !mailboxFull then Delivered
    else Dropped
  }

  /** The paths that give the received buffer back to the pool. */
  predicate ReleasesReceived(o: ListenerOutcome)
  {
    o.UnknownDestination? || o.Delivered? || o.Dropped? || o.StoppedAtHandOff?
  }

  /** The paths that take a second buffer from the pool and copy the reply
      into it. */
  predicate CopiesReply(o: ListenerOutcome)
  {
    o.Delivered? || o.Dropped? || o.StoppedAtHandOff?
  }

  /** The bytes of `dst` after Go's `copy(dst, src)`. */
  function Copied(dst: seq<byte>, src: seq<byte>): (r: seq<byte>)
    ensures |r| == |dst|
    ensures forall i :: 0 <= i < |dst| ==> r[i] == if i < |src| then src[i] else dst[i]
  {
    var n := if |dst| < |src| then |dst| else |src|;
    src[..n] + dst[n..]
  }

  /** `time.Since(t)` at clock value `now`: the difference as a Duration,
      saturated to the range of `int64`. */
  function Since(now: nat, t: int): (d: int)
    ensures -(TwoTo63 as int) <= d < TwoTo63
    ensures -(TwoTo63 as int) <= now - t < TwoTo63 ==> d == now - t
    ensures now - t >= TwoTo63 ==> d == TwoTo63 - 1
    ensures now - t < -(TwoTo63 as int) ==> d == -(TwoTo63 as int)
  {
    var diff := now - t;
    if diff >= TwoTo63 then TwoTo63 - 1
    else if diff < -(TwoTo63 as int) then -(TwoTo63 as int)
    else diff
  }

  /** The probe loop's `for _, handler := range p.replyHandlers` call: every
      handler, in order, gets the host and latency and a nil error. */
  method NotifyHandlers(handlers: seq<Handler>, host: string, latency: int) returns (calls: seq<HandlerCall>)
    ensures |calls| == |handlers|
    ensures forall i :: 0 <= i < |handlers| ==> calls[i] == HandlerCall(handlers[i], host, latency, None)
  {
    calls := [];
    for i := 0 to |handlers|
      invariant |calls| == i
      invariant forall j :: 0 <= j < i ==> calls[j] == HandlerCall(handlers[j], host, latency, None)
    {
      calls := calls + [HandlerCall(handlers[i], host, latency, None)];
    }
  }

  /** The timestamp a probe sends comes back intact: when the reply's data
      starts with the eight bytes the probe wrote, the listener copies it into
      a pool buffer, and the probe loop decodes that buffer, the latency it
      reports is the time elapsed since the send. */
  lemma EchoedStampGivesLatency(sent: nat, replyData: seq<byte>, poolBuf: seq<byte>, now: nat)
    requires sent < TwoTo63 && sent <= now < TwoTo63
    requires |replyData| >= 8 && replyData[..8] == PutUint64(ToUint64(sent))
    requires |poolBuf| >= 8
    ensures var msg := Copied(poolBuf, replyData);
            |msg| >= 8 && Since(now, ToInt64(Uint64(msg))) == now - sent
  {
    var msg := Copied(poolBuf, replyData);
    var stamp := PutUint64(ToUint64(sent));
    assert msg[..8] == stamp[..8];
    assert Uint64(msg) == Uint64(stamp);
    TimestampRoundTrip(sent);
  }

  /** `Pinger`: the registry and its lifecycle.  `wg` is the wait group's
      counter; `replyHandlers` is nil when empty. */
  class Pinger {
    const conn: Icmp.Conn
    const proto: string
    const buffers: BufferPool.Arbiter
    var ctx: Option<Context>
    var dests: map<string, Destination>
    var wg: nat
    var isRunning: bool
    var replyHandlers: seq<Handler>

    ghost predicate Valid()
      reads this
    {
      && (isRunning ==> ctx.Some?)
      && |replyHandlers| <= 1
    }

    /** The destination objects in the registry. */
    function Destinations(): set<Destination>
      reads this
    {
      set k | k in dests :: dests[k]
    }

    constructor (conn: Icmp.Conn, proto: string)
      ensures Valid() && this.conn == conn && this.proto == proto
      ensures fresh(buffers) && buffers.Valid() && buffers.freeBuffers == []
      ensures buffers.bufSize == ReceiveBufferSize && buffers.expiration == BufferPool.ExpirationTime
      ensures ctx == None && dests == map[] && wg == 0 && !isRunning && replyHandlers == []
    {
      this.conn := conn;
      this.proto := proto;
      buffers := new BufferPool.Arbiter(ReceiveBufferSize, BufferPool.ExpirationTime);
      ctx := None;
      dests := map[];
      wg := 0;
      isRunning := false;
      replyHandlers := [];
    }

    /** `Run(ctx)`: one task for the listener and one per registered
        destination join the wait group; each destination gets a cancel
        function derived from `runCtx`; then the pinger is running. */
    method Run(runCtx: Context)
      requires Valid()
      modifies this`wg, this`ctx, this`isRunning, Destinations()`cancelFunc
      ensures Valid() && isRunning && ctx == Some(runCtx)
      ensures wg == old(wg) + 1 + |dests|
      ensures forall k :: k in dests ==> dests[k].cancelFunc == Some(CancelFunc(runCtx))
    {
      wg := wg + 1;
      var pending := dests.Keys;
      while pending != {}
        invariant pending <= dests.Keys
        invariant wg == old(wg) + 1 + (|dests.Keys| - |pending|)
        invariant forall k :: k in dests.Keys - pending ==> dests[k].cancelFunc == Some(CancelFunc(runCtx))
        decreases |pending|
      {
        var k :| k in pending;
        dests[k].cancelFunc := Some(CancelFunc(runCtx));
        wg := wg + 1;
        pending := pending - {k};
      }
      ctx := Some(runCtx);
      isRunning := true;
    }

    /** `AddHandler`: only the first handler is kept; later calls change
        nothing. */
    method AddHandler(handler: Handler)
      requires Valid()
      modifies this`replyHandlers
      ensures Valid()
      ensures replyHandlers == if old(replyHandlers) == [] then [handler] else old(replyHandlers)
    {
      if replyHandlers == [] {
        replyHandlers := [handler];
      }
    }

    /** `Wait`: the pinger stops counting as running (the blocking on the wait
        group is not modelled). */
    method Wait()
      requires Valid()
      modifies this`isRunning
      ensures Valid() && !isRunning
    {
      isRunning := false;
    }

    /** A task's deferred `wg.Done()`; the wait group panics when its counter
        would go negative. */
    method Done() returns (panicked: bool)
      modifies this`wg
      ensures panicked <==> old(wg) == 0
      ensures wg == if old(wg) == 0 then 0 else old(wg) - 1
    {
      panicked := wg == 0;
      if !panicked {
        wg := wg - 1;
      }
    }

    /** `AddHost(host, interval, timeout)`, where `lookup` is what name
        resolution gave.  An error from `getAddr` is returned and the registry
        is untouched.  Otherwise a new destination with an empty mailbox is
        stored under the IP's string, replacing any destination already
        there, and, when the pinger is running, its probe task joins the wait
        group with a cancel function derived from the run's context. */
    method AddHost(host: string, interval: int, timeout: int, lookup: Result<seq<IP>>)
      returns (err: Option<Error>)
      requires Valid()
      modifies this`dests, this`wg
      ensures Valid()
      ensures err == Utils.GetAddr(conn.local, lookup).err
      ensures err.Some? ==> dests == old(dests) && wg == old(wg)
      ensures var r := Utils.GetAddr(conn.local, lookup);
              var key := String(r.ip);
              err.None? ==>
                && key in dests && fresh(dests[key])
                && dests == old(dests)[key := dests[key]]
                && dests[key].host == host && dests[key].addr == r.addr.value
                && dests[key].interval == interval && dests[key].timeout == timeout
                && dests[key].received == None
                && dests[key].cancelFunc == (if isRunning then Some(CancelFunc(ctx.value)) else None)
                && wg == old(wg) + (if isRunning then 1 else 0)
    {
      var r := Utils.GetAddr(conn.local, lookup);
      if r.err.Some? {
        return r.err;
      }
      var d := new Destination(host, r.addr.value, timeout, interval);
      dests := dests[String(r.ip) := d];
      if isRunning {
        d.cancelFunc := Some(CancelFunc(ctx.value));
        wg := wg + 1;
      }
      err := None;
    }

    /** One turn of the listener loop.  `bytes` is the buffer taken from the
        pool for the read and `dataBuf` the one taken for the copy of a
        routed reply; `released` lists the buffers handed back to the pool. */
    method ListenerIteration(doneAtTop: bool, bytes: Buf, read: ReadResult, parsed: Result<Icmp.Message>,
                             dataBuf: Buf, doneAtHandOff: bool, handOffChosen: bool)
      returns (outcome: ListenerOutcome, released: seq<Buf>)
      requires Valid()
      modifies dataBuf, Destinations()`received
      ensures var known := read.ReadFrom? && ReplyKey(read.from) in dests;
              var full := known && old(dests[ReplyKey(read.from)].received).Some?;
              outcome == ListenerPath(doneAtTop, read, parsed, known, full, doneAtHandOff, handOffChosen)
      ensures released == if ReleasesReceived(outcome) then [bytes] else []
      ensures outcome == Delivered ==> dests[ReplyKey(read.from)].received == Some(dataBuf)
      ensures forall d :: d in Destinations() && !(outcome == Delivered && d == dests[ReplyKey(read.from)]) ==>
                d.received == old(d.received)
      ensures CopiesReply(outcome) ==>
                dataBuf[..] == Copied(old(dataBuf[..]), Icmp.ParseICMPMessage(parsed).value.data)
      ensures !CopiesReply(outcome) ==> dataBuf[..] == old(dataBuf[..])
    {
      released := [];
      if doneAtTop {
        return Stopped, released;
      }
      if read.ReadFailed? {
        outcome := if read.timeout then ReadTimedOut else ReadError;
        return;
      }
      var echo := Icmp.ParseICMPMessage(parsed);
      if echo.None? {
        return NotEchoReply, released;
      }
      var key := ReplyKey(read.from);
      if key !in dests {
        return UnknownDestination, [bytes];
      }
      var d := dests[key];
      var data := echo.value.data;
      var n := if dataBuf.Length < |data| then dataBuf.Length else |data|;
      forall i | 0 <= i < n {
        dataBuf[i] := data[i];
      }
      assert dataBuf[..] == Copied(old(dataBuf[..]), data);
      if doneAtHandOff && (d.received.Some? || !handOffChosen) {
        return StoppedAtHandOff, [bytes];
      }
      if d.received.None? {
        d.received := Some(dataBuf);
        outcome := Delivered;
      } else {
        outcome := Dropped;
      }
      released := [bytes];
    }
  }

  /** `New`: a pinger on the first socket that opens (see
      `Icmp.GetDefaultICMPListener`), with an empty registry, no handler and
      a pool of 512-byte buffers; or the socket error. */
  method New(listen: (string, string) -> Result<Icmp.Conn>) returns (p: Pinger?, err: Option<Error>)
    ensures p == null <==> err.Some?
    ensures var raw := listen(Icmp.ProtoICMP4, Icmp.DefaultListenAddress);
            var udp := listen(Icmp.ProtoUDP4, Icmp.DefaultListenAddress);
            && (raw.Success? ==> p != null && p.conn == raw.value && p.proto == Icmp.ProtoICMP4)
            && (raw.Failure? && udp.Success? ==> p != null && p.conn == udp.value && p.proto == Icmp.ProtoUDP4)
            && (raw.Failure? && udp.Failure? ==> err == Some(udp.error))
    ensures p != null ==>
              && fresh(p) && fresh(p.buffers) && p.Valid()
              && p.ctx == None && p.dests == map[] && p.wg == 0 && !p.isRunning && p.replyHandlers == []
              && p.buffers.bufSize == ReceiveBufferSize && p.buffers.freeBuffers == []
  {
    var l, attempted := Icmp.GetDefaultICMPListener(listen);
    assert attempted[0] == Icmp.ProtoICMP4;
    if |attempted| == 2 {
      assert attempted[1] == Icmp.ProtoUDP4;
    }
    if l.err.Some? {
      return null, l.err;
    }
    p := new Pinger(l.conn.value, l.proto);
    err := None;
  }

  datatype ProbeEvent = Cancelled | IntervalElapsed | MessageArrived

  datatype ProbeOutcome =
    | Exited                      // the destination's context was done
    | Sent(request: Icmp.Message, to: Addr) // the interval passed and a probe went to `to`
    | Handled(latency: int)       // a reply was taken from the mailbox
    | DecodePanic                 // the mailbox buffer was shorter than 8 bytes

  /** The state of one `startICMPHandler` task: the sequence counter and the
      8-byte payload buffer its `sendEcho` closure captures. */
  class Prober {
    const pinger: Pinger
    const dest: Destination
    const destID: int
    const buf: Buf
    var seqNo: int

    ghost predicate Valid()
    {
      buf.Length == 8
    }

    constructor (p: Pinger, d: Destination, destID: int)
      requires 0 <= destID < 0xffff
      ensures Valid() && fresh(buf)
      ensures pinger == p && dest == d && this.destID == destID && seqNo == 1
    {
      pinger := p;
      dest := d;
      this.destID := destID;
      buf := new byte[8](_ => 0);
      seqNo := 1;
    }

    /** `sendEcho`: the counter goes up first, then the clock reading is
        written little-endian into the payload and an echo request with the
        new sequence number is sent. */
    method SendEcho(now: nat) returns (request: Icmp.Message)
      requires Valid()
      modifies this`seqNo, buf
      ensures seqNo == old(seqNo) + 1
      ensures buf[..] == PutUint64(ToUint64(now))
      ensures request == Icmp.EchoRequest(destID, seqNo, buf[..])
    {
      seqNo := seqNo + 1;
      var stamp := PutUint64(ToUint64(now));
      forall i | 0 <= i < 8 {
        buf[i] := stamp[i];
      }
      request := Icmp.EchoRequest(destID, seqNo, buf[..]);
    }

    /** One turn of the probe loop at clock value `now`.  A message in the
        mailbox is taken out, its first eight bytes decoded as the send time,
        the buffer released, and every handler called with the latency and a
        nil error. */
    method Step(ev: ProbeEvent, now: nat) returns (outcome: ProbeOutcome, released: Option<Buf>, calls: seq<HandlerCall>)
      requires Valid() && pinger.Valid()
      requires ev == MessageArrived ==> dest.received.Some?
      modifies this`seqNo, buf, dest`received
      ensures ev == Cancelled ==>
                && outcome == Exited && released == None && calls == []
                && seqNo == old(seqNo) && buf[..] == old(buf[..]) && dest.received == old(dest.received)
      ensures ev == IntervalElapsed ==>
                && seqNo == old(seqNo) + 1 && buf[..] == PutUint64(ToUint64(now))
                && outcome == Sent(Icmp.EchoRequest(destID, seqNo, buf[..]), dest.addr)
                && released == None && calls == [] && dest.received == old(dest.received)
      ensures ev == MessageArrived ==>
                var msg := old(dest.received).value;
                && dest.received == None && seqNo == old(seqNo) && buf[..] == old(buf[..])
                && (msg.Length < 8 ==> outcome == DecodePanic && released == None && calls == [])
                && (msg.Length >= 8 ==>
                      var latency := Since(now, ToInt64(Uint64(old(msg[..]))));
                      && outcome == Handled(latency) && released == Some(msg)
                      && |calls| == |pinger.replyHandlers| <= 1
                      && forall i :: 0 <= i < |calls| ==>
                           calls[i] == HandlerCall(pinger.replyHandlers[i], dest.host, latency, None))
    {
      released, calls := None, [];
      match ev
      case Cancelled =>
        outcome := Exited;
      case IntervalElapsed =>
        var request := SendEcho(now);
        outcome := Sent(request, dest.addr);
      case MessageArrived =>
        var msg := dest.received.value;
        dest.received := None;
        if msg.Length < 8 {
          outcome := DecodePanic;
        } else {
          var t := ToInt64(Uint64(msg[..]));
          var latency := Since(now, t);
          released := Some(msg);
          calls := NotifyHandlers(pinger.replyHandlers, dest.host, latency);
          outcome := Handled(latency);
        }
    }
  }

  /** The start of `startICMPHandler`: the counter starts at 1 and one probe
      is sent at once, so the first request carries sequence number 2. */
  method StartICMPHandler(p: Pinger, d: Destination, destID: int, now: nat) returns (pr: Prober, first: ProbeOutcome)
    requires 0 <= destID < 0xffff
    ensures fresh(pr) && fresh(pr.buf) && pr.Valid() && pr.pinger == p && pr.dest == d && pr.seqNo == 2
    ensures first == Sent(Icmp.EchoRequest(destID, 2, PutUint64(ToUint64(now))), d.addr)
  {
    pr := new Prober(p, d, destID);
    var request := pr.SendEcho(now);
    first := Sent(request, d.addr);
  }
}
