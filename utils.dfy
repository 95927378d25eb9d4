/** `getAddr`: the address a destination is probed at, built from the first
    resolved IP in the shape that matches the kind of the ICMP connection. */
module Utils {
  import opened Wrappers
  import opened NetAddr

  /** The three results of `getAddr`; a nil IP is the empty IP. */
  datatype AddrResult = AddrResult(ip: IP, addr: Option<Addr>, err: Option<Error>)

  const CannotDetermineConnType: Error := Error("Cannot determine connection type")
  const CannotResolveAddress: Error := Error("Cannot resolve address")

  /** The address for `ip` on a connection of kind `kind`. */
  function NetAddrFor(kind: ConnKind, ip: IP): (r: Result<Addr>)
    ensures r.Success? <==> !kind.OtherLocal?
    ensures r.Success? ==> SourceIP(r.value) == ip && (r.value.UDPAddr? <==> kind.UDPLocal?)
    ensures r.Failure? ==> r.error == CannotDetermineConnType
  {
    match kind
    case UDPLocal => Success(UDPAddr(ip))
    case IPLocal => Success(IPAddr(ip))
    case OtherLocal => Failure(CannotDetermineConnType)
  }

  /** `getAddr(c, host)`, where `lookup` is what `net.LookupIP(host)` gave. */
  function GetAddr(kind: ConnKind, lookup: Result<seq<IP>>): (r: AddrResult)
    ensures lookup.Failure? ==> r == AddrResult([], None, Some(lookup.error))
    ensures lookup.Success? && lookup.value == [] ==> r == AddrResult([], None, Some(CannotResolveAddress))
    ensures lookup.Success? && lookup.value != [] ==>
              && r.ip == lookup.value[0]
              && (kind.UDPLocal? ==> r.addr == Some(UDPAddr(r.ip)) && r.err == None)
              && (kind.IPLocal? ==> r.addr == Some(IPAddr(r.ip)) && r.err == None)
              && (kind.OtherLocal? ==> r.addr == None && r.err == Some(CannotDetermineConnType))
    ensures r.err == None <==> lookup.Success? && lookup.value != [] && !kind.OtherLocal?
    ensures r.err == None ==> r.addr.Some? && SourceIP(r.addr.value) == r.ip
  {
    match lookup
    case Failure(e) => AddrResult([], None, Some(e))
    case Success(ips) =>
      if ips == [] then AddrResult([], None, Some(CannotResolveAddress))
      else
        match NetAddrFor(kind, ips[0])
        case Success(a) => AddrResult(ips[0], Some(a), None)
        case Failure(e) => AddrResult(ips[0], None, Some(e))
  }

  /** Only the first resolved IP matters: the candidates after it never
      change the result. */
  lemma GetAddrUsesFirstOnly(kind: ConnKind, first: IP, rest: seq<IP>, rest': seq<IP>)
    ensures GetAddr(kind, Success([first] + rest)) == GetAddr(kind, Success([first] + rest'))
  {
  }

  /** The key round trip: the listener's key for a reply whose source address
      has the shape `getAddr` built is the key `AddHost` stored it under. */
  lemma ReplyKeyIsRegistryKey(kind: ConnKind, lookup: Result<seq<IP>>)
    requires GetAddr(kind, lookup).err == None
    ensures var r := GetAddr(kind, lookup);
            ReplyKey(r.addr.value) == String(r.ip)
  {
  }
}
