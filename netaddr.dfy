/** The parts of Go's `net` package the pinger relies on: IP addresses as byte
    slices, the two address shapes a socket reports, and `net.IP.String`, whose
    result is the key of the destination registry. */
module NetAddr {
  import opened Bytes
  import opened Wrappers

  /** A `net.IP`: a byte slice; the nil IP is the empty slice. */
  type IP = seq<byte>

  /** The dynamic types of `net.Addr` the core distinguishes. */
  datatype Addr = UDPAddr(ip: IP) | IPAddr(ip: IP) | OtherAddr

  /** The dynamic type of a packet connection's local address. */
  datatype ConnKind = UDPLocal | IPLocal | OtherLocal

  /** The 12-byte prefix of an IPv4 address held in 16-byte form. */
  const V4InV6Prefix: seq<byte> := [0, 0, 0, 0, 0, 0, 0, 0, 0, 0, 0xff, 0xff]

  /** `net.IP.To4`: the 4-byte form of an IPv4 address, or nil. */
  function To4(ip: IP): (r: Option<seq<byte>>)
    ensures r.Some? ==> |r.value| == 4
  {
    if |ip| == 4 then Some(ip)
    else if |ip| == 16 && ip[..12] == V4InV6Prefix then Some(ip[12..])
    else None
  }

  /** The digit characters of `n` in base `base`, most significant first, no
      leading zeros. */
  function Digits(n: nat, base: nat): (s: string)
    requires 2 <= base <= 16
    ensures |s| >= 1
    decreases n
  {
    if n < base then [DigitChar(n)]
    else Digits(n / base, base) + [DigitChar(n % base)]
  }

  /** The lower-case digit character for `d`. */
  function DigitChar(d: nat): char
    requires d < 16
  {
    if d < 10 then ('0' as int + d) as char else ('a' as int + d - 10) as char
  }

  /** Decimal value of a string of decimal digits. */
  function DecimalValue(s: string): nat
  {
    if s == [] then 0
    else 10 * DecimalValue(s[..|s| - 1]) + DigitValue(s[|s| - 1])
  }

  function DigitValue(c: char): nat
  {
    if '0' <= c <= '9' then c as nat - '0' as nat else 0
  }

  /** Dotted-decimal text of a 4-byte IPv4 address. */
  function Dotted(b: seq<byte>): string
    requires |b| == 4
  {
    Digits(b[0] as nat, 10) + "." + (Digits(b[1] as nat, 10) + "."
      + (Digits(b[2] as nat, 10) + "." + Digits(b[3] as nat, 10)))
  }

  /** Two lower-case hex digits per byte. */
  function HexString(b: seq<byte>): string
  {
    if b == [] then ""
    else [DigitChar(b[0] as nat / 16), DigitChar(b[0] as nat % 16)] + HexString(b[1..])
  }

  /** Colon-separated 16-bit groups of a 16-byte address, starting at byte `i`. */
  function Groups(ip: IP, i: nat): string
    requires |ip| == 16 && i <= 16 && i % 2 == 0
    decreases 16 - i
  {
    if i == 16 then ""
    else
      var sep := if i == 0 then "" else ":";
      sep + Digits(ip[i] as nat * 256 + ip[i + 1] as nat, 16) + Groups(ip, i + 2)
  }

  /** `net.IP.String`: "<nil>" for the nil IP, dotted decimal for an IPv4
      address in either length, "?" and hex for a slice of any other length,
      and colon-separated hex groups for an IPv6 address. */
  function String(ip: IP): string
  {
    if |ip| == 0 then "<nil>"
    else if To4(ip).Some? then Dotted(To4(ip).value)
    else if |ip| != 16 then "?" + HexString(ip)
    else Groups(ip, 0)
  }

  /** The IP carried by an address the socket reported; nil for any other
      address type. */
  function SourceIP(a: Addr): (ip: IP)
    ensures a.UDPAddr? || a.IPAddr? ==> ip == a.ip
    ensures a.OtherAddr? ==> ip == []
  {
    match a
    case UDPAddr(ip) => ip
    case IPAddr(ip) => ip
    case OtherAddr => []
  }

  /** The registry key the listener looks a reply from `from` up under: the
      string of the source IP, and "<nil>" for an address of any other type. */
  function ReplyKey(from: Addr): (k: string)
    ensures from.UDPAddr? || from.IPAddr? ==> k == String(from.ip)
    ensures from.OtherAddr? ==> k == "<nil>"
  {
    String(SourceIP(from))
  }

  lemma {:induction false} DigitsHaveNoDot(n: nat, base: nat)
    requires 2 <= base <= 16
    ensures '.' !in Digits(n, base)
    decreases n
  {
    if n >= base {
      var q, r := n / base, n % base;
      DivDecreases(n, base);
      DigitsHaveNoDot(q, base);
      DigitCharIsNotDot(r);
      NoDotAppended(Digits(q, base), DigitChar(r));
    } else {
      DigitCharIsNotDot(n);
    }
  }

  lemma DivDecreases(n: nat, base: nat)
    requires 2 <= base <= n
    ensures n / base < n && n % base < base
  {
  }

  lemma NoDotAppended(s: string, c: char)
    requires '.' !in s && c != '.'
    ensures '.' !in s + [c]
  {
  }

  lemma DigitCharIsNotDot(d: nat)
    requires d < 16
    ensures DigitChar(d) != '.'
  {
  }

  /** Reading the decimal digits back gives the number. */
  lemma {:induction false} DecimalRoundTrip(n: nat)
    ensures DecimalValue(Digits(n, 10)) == n
    decreases n
  {
    if n >= 10 {
      var s := Digits(n, 10);
      assert s[..|s| - 1] == Digits(n / 10, 10);
      DecimalRoundTrip(n / 10);
    }
  }

  lemma DotAfter(x: string, y: string)
    ensures (x + "." + y)[|x|] == '.'
  {
  }

  /** A string split at its first dot splits only one way. */
  lemma SplitAtFirstDot(x: string, y: string, x': string, y': string)
    requires '.' !in x && '.' !in x'
    requires x + "." + y == x' + "." + y'
    ensures x == x' && y == y'
  {
    var s := x + "." + y;
    if |x| < |x'| {
      DotAfter(x, y);
      assert false;
    } else if |x'| < |x| {
      DotAfter(x', y');
      assert false;
    }
    assert x == s[..|x|] == x';
    assert y == s[|x| + 1..] == y';
  }

  lemma DecimalInjective(m: nat, n: nat)
    requires Digits(m, 10) == Digits(n, 10)
    ensures m == n
  {
    DecimalRoundTrip(m);
    DecimalRoundTrip(n);
  }

  /** Four dot-free fields joined by dots split back into the same fields. */
  lemma SplitFourFields(a0: string, a1: string, a2: string, a3: string,
                        b0: string, b1: string, b2: string, b3: string)
    requires '.' !in a0 && '.' !in a1 && '.' !in a2
    requires '.' !in b0 && '.' !in b1 && '.' !in b2
    requires a0 + "." + (a1 + "." + (a2 + "." + a3)) == b0 + "." + (b1 + "." + (b2 + "." + b3))
    ensures a0 == b0 && a1 == b1 && a2 == b2 && a3 == b3
  {
    SplitAtFirstDot(a0, a1 + "." + (a2 + "." + a3), b0, b1 + "." + (b2 + "." + b3));
    SplitAtFirstDot(a1, a2 + "." + a3, b1, b2 + "." + b3);
    SplitAtFirstDot(a2, a3, b2, b3);
  }

  /** Equal dotted texts have equal decimal fields. */
  lemma DottedFieldsEqual(a: seq<byte>, b: seq<byte>)
    requires |a| == 4 && |b| == 4
    requires Dotted(a) == Dotted(b)
    ensures forall i :: 0 <= i < 4 ==> Digits(a[i] as nat, 10) == Digits(b[i] as nat, 10)
  {
    var a0, a1, a2, a3 := a[0] as nat, a[1] as nat, a[2] as nat, a[3] as nat;
    var b0, b1, b2, b3 := b[0] as nat, b[1] as nat, b[2] as nat, b[3] as nat;
    DigitsHaveNoDot(a0, 10);
    DigitsHaveNoDot(a1, 10);
    DigitsHaveNoDot(a2, 10);
    DigitsHaveNoDot(b0, 10);
    DigitsHaveNoDot(b1, 10);
    DigitsHaveNoDot(b2, 10);
    SplitFourFields(Digits(a0, 10), Digits(a1, 10), Digits(a2, 10), Digits(a3, 10),
                    Digits(b0, 10), Digits(b1, 10), Digits(b2, 10), Digits(b3, 10));
  }

  /** Distinct IPv4 addresses have distinct dotted-decimal texts. */
  lemma DottedInjective(a: seq<byte>, b: seq<byte>)
    requires |a| == 4 && |b| == 4
    requires Dotted(a) == Dotted(b)
    ensures a == b
  {
    DottedFieldsEqual(a, b);
    forall i | 0 <= i < 4 ensures a[i] == b[i] {
      DecimalInjective(a[i] as nat, b[i] as nat);
    }
  }

  /** Two IPv4 addresses, each in either length, have the same registry key
      exactly when they are the same address. */
  lemma IPv4KeyInjective(x: IP, y: IP)
    requires To4(x).Some? && To4(y).Some?
    ensures String(x) == String(y) <==> To4(x) == To4(y)
  {
    if String(x) == String(y) {
      DottedInjective(To4(x).value, To4(y).value);
    }
  }

  /** The 4-byte and the 16-byte form of one IPv4 address share a key. */
  lemma IPv4FormsShareKey(v4: seq<byte>)
    requires |v4| == 4
    ensures String(V4InV6Prefix + v4) == String(v4)
  {
    var long := V4InV6Prefix + v4;
    assert long[..12] == V4InV6Prefix && long[12..] == v4;
  }
}
