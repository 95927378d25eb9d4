/** The ICMP side of the pinger: which socket it listens on, the echo request
    it sends, how it retries a write, and which parsed packets it keeps.  The
    ICMP library itself (socket creation, marshalling, parsing, writing) is
    opaque: its results are inputs. */
module Icmp {
  import opened Bytes
  import opened Wrappers
  import opened NetAddr

  /** IANA protocol number of ICMP for IPv4, passed to the parser. */
  const ProtocolICMPv4: nat := 1
  /** Raw ICMP sockets, available with root or CAP_NET_RAW. */
  const ProtoICMP4: string := "ip4:icmp"
  /** Unprivileged ICMP-over-UDP sockets. */
  const ProtoUDP4: string := "udp4"
  /** The order in which socket kinds are tried. */
  const Protocols: seq<string> := [ProtoICMP4, ProtoUDP4]
  /** All interfaces. */
  const DefaultListenAddress: string := "0.0.0.0"

  /** ICMPv4 message types (section "Echo or Echo Reply Message" of RFC 792). */
  const TypeEchoReply: nat := 0
  const TypeEcho: nat := 8

  /** Linux's errno for "no buffer space available". */
  const ENOBUFS: nat := 105

  /** An echo request or reply body: identifier, sequence number, payload. */
  datatype Echo = Echo(id: int, seqNo: int, data: seq<byte>)
  datatype Body = EchoBody(echo: Echo) | OtherBody
  /** An ICMP message: type, code and body. */
  datatype Message = Message(typ: nat, code: nat, body: Body)

  /** An open `*icmp.PacketConn`, with the kind of its local address. */
  datatype Conn = Conn(handle: nat, local: ConnKind)

  /** What the error inside a `*net.OpError` is. */
  datatype Cause = Errno(code: nat) | SyscallError(syscall: string, errno: nat) | OtherCause(err: Error)
  /** A failed `WriteTo`: a `*net.OpError` or some other error. */
  datatype WriteError = OpError(cause: Cause) | OtherWriteError(err: Error)

  /** A datagram handed to `WriteTo`. */
  datatype Datagram = Datagram(payload: seq<byte>, to: Addr)

  /** The socket the listener ends up with. */
  datatype Listener = Listener(conn: Option<Conn>, proto: string, err: Option<Error>)

  /** `getICMPListener(addr)`, where `listen(proto, addr)` is what
      `icmp.ListenPacket` gives: the protocols are tried in order, the first
      that opens is returned with its name, and none after it is tried; when
      all fail the error of the last attempt is returned. */
  method GetICMPListener(addr: string, listen: (string, string) -> Result<Conn>)
    returns (l: Listener, attempted: seq<string>)
    ensures 1 <= |attempted| <= |Protocols| && attempted == Protocols[..|attempted|]
    ensures forall i :: 0 <= i < |attempted| - 1 ==> listen(attempted[i], addr).Failure?
    ensures var last := listen(attempted[|attempted| - 1], addr);
            if last.Success? then
              l == Listener(Some(last.value), attempted[|attempted| - 1], None)
            else
              attempted == Protocols && l == Listener(None, "", Some(last.error))
  {
    var retErr: Option<Error> := None;
    attempted := [];
    var i := 0;
    while i < |Protocols|
      invariant i <= |Protocols| && attempted == Protocols[..i]
      invariant forall j :: 0 <= j < i ==> listen(Protocols[j], addr).Failure?
      invariant i > 0 ==> retErr == Some(listen(Protocols[i - 1], addr).error)
    {
      var proto := Protocols[i];
      attempted := attempted + [proto];
      var r := listen(proto, addr);
      if r.Success? {
        return Listener(Some(r.value), proto, None), attempted;
      }
      retErr := Some(r.error);
      i := i + 1;
    }
    l := Listener(None, "", retErr);
  }

  /** `getDefaultICMPListener`: the listener on all interfaces. */
  method GetDefaultICMPListener(listen: (string, string) -> Result<Conn>)
    returns (l: Listener, attempted: seq<string>)
    ensures 1 <= |attempted| <= |Protocols| && attempted == Protocols[..|attempted|]
    ensures forall i :: 0 <= i < |attempted| - 1 ==> listen(attempted[i], DefaultListenAddress).Failure?
    ensures var last := listen(attempted[|attempted| - 1], DefaultListenAddress);
            if last.Success? then
              l == Listener(Some(last.value), attempted[|attempted| - 1], None)
            else
              attempted == Protocols && l == Listener(None, "", Some(last.error))
  {
    l, attempted := GetICMPListener(DefaultListenAddress, listen);
  }

  /** The echo request `sendICMPEchoMessage` marshals. */
  function EchoRequest(id: int, seqNo: int, data: seq<byte>): (m: Message)
    ensures m.typ == TypeEcho && m.code == 0
    ensures m.body.EchoBody? && m.body.echo == Echo(id, seqNo, data)
  {
    Message(TypeEcho, 0, EchoBody(Echo(id, seqNo, data)))
  }

  /** The retry rule: a write is repeated only when it failed with a
      `*net.OpError` whose error is the bare `ENOBUFS` errno. */
  predicate RetriesAfter(e: WriteError)
  {
    e.OpError? && e.cause == Errno(ENOBUFS)
  }

  /** An `ENOBUFS` that reaches the pinger wrapped in a system-call error is
      not the bare errno, so the write is not repeated. */
  lemma WrappedNoBufsIsNotRetried(syscall: string)
    ensures !RetriesAfter(OpError(SyscallError(syscall, ENOBUFS)))
    ensures RetriesAfter(OpError(Errno(ENOBUFS)))
  {
  }

  /** `sendICMPEchoMessage(conn, addr, srcID, seqNo, data)`.  `marshal` is the
      library's marshaller; `writes[k]` is the outcome of the k-th `WriteTo`
      (None for success).  A marshal error is returned unchanged and nothing
      is written.  Otherwise the marshalled bytes are written to `addr` until
      a write does not fail with a retried error, every other write error is
      ignored, and the result is nil.  `finished` is false when the outcomes
      ran out while the loop was still retrying. */
  method SendICMPEchoMessage(addr: Addr, srcID: int, seqNo: int, data: seq<byte>,
                             marshal: Message -> Result<seq<byte>>,
                             writes: seq<Option<WriteError>>)
    returns (err: Option<Error>, written: seq<Datagram>, finished: bool)
    ensures var wm := marshal(EchoRequest(srcID, seqNo, data));
            wm.Failure? ==> err == Some(wm.error) && written == [] && finished
    ensures var wm := marshal(EchoRequest(srcID, seqNo, data));
            wm.Success? ==>
              && err == None
              && |written| <= |writes|
              && (forall k :: 0 <= k < |written| ==> written[k] == Datagram(wm.value, addr))
              && (forall k :: 0 <= k < |written| - 1 ==> writes[k].Some? && RetriesAfter(writes[k].value))
              && (finished <==> written != [] && !(writes[|written| - 1].Some? && RetriesAfter(writes[|written| - 1].value)))
              && (!finished ==> |written| == |writes|)
  {
    var wm := marshal(EchoRequest(srcID, seqNo, data));
    if wm.Failure? {
      return Some(wm.error), [], true;
    }
    written := [];
    finished := false;
    var k := 0;
    while k < |writes|
      invariant k <= |writes| && |written| == k
      invariant forall j :: 0 <= j < k ==> written[j] == Datagram(wm.value, addr)
      invariant forall j :: 0 <= j < k ==> writes[j].Some? && RetriesAfter(writes[j].value)
    {
      written := written + [Datagram(wm.value, addr)];
      var w := writes[k];
      if !(w.Some? && RetriesAfter(w.value)) {
        finished := true;
        break;
      }
      k := k + 1;
    }
    err := None;
  }

  /** `parseICMPMessage`, where `parsed` is what `icmp.ParseMessage` gave:
      the echo body of an echo reply, and nil for a parse error, any other
      type, or a body that is not an echo. */
  function ParseICMPMessage(parsed: Result<Message>): (r: Option<Echo>)
    ensures r.Some? <==> parsed.Success? && parsed.value.typ == TypeEchoReply && parsed.value.body.EchoBody?
    ensures r.Some? ==> r.value == parsed.value.body.echo
  {
    match parsed
    case Failure(_) => None
    case Success(m) =>
      if m.typ != TypeEchoReply then None
      else match m.body
        case EchoBody(e) => Some(e)
        case OtherBody => None
  }

  /** The pinger's own echo requests, seen again on a raw socket, are never
      taken for replies. */
  lemma RequestsAreFilteredOut(id: int, seqNo: int, data: seq<byte>)
    ensures ParseICMPMessage(Success(EchoRequest(id, seqNo, data))) == None
  {
  }
}
