/** The port bitmaps of nmd/nmd_switch.cc: `encodeEgressPorts`, `getHexString`
    and the port names of the 64-port switches, `get_arista64_port`. */
module PortList {

  /** Port numbers for which `encodeEgressPorts` is defined: port 0 would shift by a
      negative count, and above 2^31 the conversion to `int` turns negative. */
  type PortNum = p: nat | 1 <= p <= 0x8000_0000 witness 1

  // ------------------------------------------------------------- bits of an octet

  /** The bit of the `k`th port of an octet. */
  function Mask(k: nat): bv8
    requires k < 8
  {
    if k == 0 then 0x80 else if k == 1 then 0x40 else if k == 2 then 0x20 else if k == 3 then 0x10
    else if k == 4 then 0x08 else if k == 5 then 0x04 else if k == 6 then 0x02 else 0x01
  }

  lemma MaskIs(k: nat)
    requires k < 8
    ensures Mask(k) == 0x80 >> k
  {
    if k == 0 {} else if k == 1 {} else if k == 2 {} else if k == 3 {}
    else if k == 4 {} else if k == 5 {} else if k == 6 {} else {}
  }

  predicate Bit(b: bv8, k: nat)
    requires k < 8
  {
    b & Mask(k) != 0
  }

  lemma BitOr(a: bv8, b: bv8, k: nat)
    requires k < 8
    ensures Bit(a | b, k) <==> Bit(a, k) || Bit(b, k)
  {
  }

  lemma BitMask(j: nat, k: nat)
    requires j < 8 && k < 8
    ensures Bit(Mask(j), k) <==> j == k
  {
  }

  lemma BitNot(a: bv8, k: nat)
    requires k < 8
    ensures Bit(!a, k) <==> !Bit(a, k)
  {
  }

  // ------------------------------------------------------------- hexadecimal octets

  const HEX_DIGITS: string := "0123456789abcdef"

  /** `sprintf("%x")` of a value below 16. */
  function HexDigit(n: bv8): char
    requires n < 16
  {
    HEX_DIGITS[n as int]
  }

  /** `getHexString`: two digits, the high half first. */
  function HexString(b: bv8): (s: string)
    ensures |s| == 2 && HexOctet(s[0], s[1]) == b
  {
    var hi, lo := b >> 4, b & 0x0f;
    HexValueOfDigit(hi);
    HexValueOfDigit(lo);
    [HexDigit(hi), HexDigit(lo)]
  }

  function HexValue(c: char): bv8 {
    if '0' <= c <= '9' then (c as int - '0' as int) as bv8
    else if 'a' <= c <= 'f' then (c as int - 'a' as int + 10) as bv8
    else 0
  }

  function HexOctet(hi: char, lo: char): bv8 {
    (HexValue(hi) << 4) | HexValue(lo)
  }

  lemma HexValueOfDigit(n: bv8)
    requires n < 16
    ensures HexValue(HexDigit(n)) == n
  {
    if n == 0 {} else if n == 1 {} else if n == 2 {} else if n == 3 {}
    else if n == 4 {} else if n == 5 {} else if n == 6 {} else if n == 7 {}
    else if n == 8 {} else if n == 9 {} else if n == 10 {} else if n == 11 {}
    else if n == 12 {} else if n == 13 {} else if n == 14 {} else {}
  }

  lemma HexValuesAre()
    ensures HexValue('0') == 0 && HexValue('1') == 1 && HexValue('2') == 2 && HexValue('3') == 3
    ensures HexValue('4') == 4 && HexValue('5') == 5 && HexValue('6') == 6 && HexValue('7') == 7
    ensures HexValue('8') == 8 && HexValue('9') == 9 && HexValue('a') == 10 && HexValue('b') == 11
    ensures HexValue('c') == 12 && HexValue('d') == 13 && HexValue('e') == 14 && HexValue('f') == 15
  {
  }

  /** The first of the two digits is the high half. */
  lemma HexOctetHalves(hi: char, lo: char)
    ensures HexOctet(hi, lo) >> 4 == HexValue(hi) && HexOctet(hi, lo) & 0x0f == HexValue(lo)
  {
    assert HexValue(hi) < 16 && HexValue(lo) < 16;
    hide HexValue;
  }

  // ------------------------------------------------------------- the port string

  /** The octet with index `i` once every port of `ports` has been or-ed in. */
  function OctetOf(ports: seq<PortNum>, i: nat): bv8 {
    if ports == [] then 0 else SetPort(OctetOf(ports[..|ports| - 1], i), ports[|ports| - 1], i)
  }

  /** What adding port `p` to the bitmap does to the octet with index `i`. */
  function SetPort(b: bv8, p: PortNum, i: nat): bv8 {
    if (p - 1) / 8 == i then b | Mask((p - 1) % 8) else b
  }

  function Octet(ports: seq<PortNum>, complement: bool, i: nat): bv8 {
    if complement then !OctetOf(ports, i) else OctetOf(ports, i)
  }

  /** The hexadecimal string of the first `n` octets. */
  function EgressString(ports: seq<PortNum>, n: nat, complement: bool): (s: string)
    ensures |s| == 2 * n
  {
    if n == 0 then "" else EgressString(ports, n - 1, complement) + HexString(Octet(ports, complement, n - 1))
  }

  lemma OctetSnoc(ports: seq<PortNum>, n: nat, i: nat)
    requires n < |ports|
    ensures OctetOf(ports[..n + 1], i) == SetPort(OctetOf(ports[..n], i), ports[n], i)
  {
    assert ports[..n + 1][..n] == ports[..n];
  }

  /** The first loop of `encodeEgressPorts`. */
  method SetBits(bytes: array<bv8>, ports: seq<PortNum>)
    requires forall i :: 0 <= i < bytes.Length ==> bytes[i] == 0
    modifies bytes
    ensures forall i :: 0 <= i < bytes.Length ==> bytes[i] == OctetOf(ports, i)
  {
    hide Mask;
    for n := 0 to |ports|
      invariant forall i :: 0 <= i < bytes.Length ==> bytes[i] == OctetOf(ports[..n], i)
    {
      var port: nat := ports[n];
      var p := port - 1;
      var byteNdx, bitShift := p / 8, p % 8;
      forall i | 0 <= i < bytes.Length
        ensures OctetOf(ports[..n + 1], i) == if i == byteNdx then bytes[i] | Mask(bitShift) else bytes[i]
      {
        OctetSnoc(ports, n, i);
      }
      if byteNdx < bytes.Length {
        bytes[byteNdx] := bytes[byteNdx] | Mask(bitShift);
      }
    }
    assert ports[..|ports|] == ports;
  }

  method EncodeEgressPorts(ports: seq<PortNum>, numBytes: nat, isComplement: bool) returns (retVal: string)
    ensures retVal == EgressString(ports, numBytes, isComplement)
  {
    hide OctetOf, HexString;
    var bytes := new bv8[numBytes](_ => 0);
    SetBits(bytes, ports);
    if isComplement {
      for i := 0 to numBytes
        invariant forall j :: 0 <= j < numBytes ==> bytes[j] == Octet(ports, j < i, j)
      {
        bytes[i] := !bytes[i];
      }
    }
    retVal := "";
    for i := 0 to numBytes
      invariant retVal == EgressString(ports, i, isComplement)
    {
      retVal := retVal + HexString(bytes[i]);
    }
  }

  /** Reading a string as the PortList of section 5 of RFC 4363: octet `i` covers the ports
      8i+1 .. 8i+8, the lowest numbered of them in the most significant bit. */
  predicate Listed(s: string, p: nat)
    requires 1 <= p <= 4 * |s|
    requires |s| % 2 == 0
  {
    var i := (p - 1) / 8;
    Bit(HexOctet(s[2 * i], s[2 * i + 1]), (p - 1) % 8)
  }

  ghost function DecodePortList(s: string): set<nat>
    requires |s| % 2 == 0
  {
    set p: nat | 1 <= p <= 4 * |s| && Listed(s, p)
  }

  predicate IsPortOf(n: nat, p: nat) {
    1 <= p <= n
  }

  /** The ports of a switch with `n` of them. */
  ghost function PortsUpTo(n: nat): set<nat> {
    set p: nat | p <= n && IsPortOf(n, p)
  }

  /** Setting a port sets its own bit and no other. */
  lemma SetPortBit(b: bv8, p: PortNum, i: nat, k: nat)
    requires k < 8
    ensures Bit(SetPort(b, p, i), k) <==> Bit(b, k) || 8 * i + k + 1 == p
  {
    hide Bit, Mask;
    var q: nat := p;
    if (q - 1) / 8 == i {
      BitOr(b, Mask((q - 1) % 8), k);
      BitMask((q - 1) % 8, k);
    }
  }

  lemma NoBits(k: nat)
    requires k < 8
    ensures !Bit(0, k)
  {
  }

  lemma {:induction false} OctetBits(ports: seq<PortNum>, i: nat, k: nat)
    requires k < 8
    ensures Bit(OctetOf(ports, i), k) <==> 8 * i + k + 1 in ports
  {
    hide Bit, SetPort;
    if ports == [] {
      NoBits(k);
    } else {
      var init, p := ports[..|ports| - 1], ports[|ports| - 1];
      OctetBits(init, i, k);
      assert ports == init + [p];
      SetPortBit(OctetOf(init, i), p, i, k);
    }
  }

  lemma {:induction false} EgressOctets(ports: seq<PortNum>, n: nat, complement: bool, i: nat)
    requires i < n
    ensures var s := EgressString(ports, n, complement);
            HexOctet(s[2 * i], s[2 * i + 1]) == Octet(ports, complement, i)
  {
    if i < n - 1 {
      EgressOctets(ports, n - 1, complement, i);
    }
  }

  /** The string written for a list of ports says exactly which ports are listed. */
  lemma EgressListed(ports: seq<PortNum>, n: nat, complement: bool, p: nat)
    requires 1 <= p <= 8 * n
    ensures Listed(EgressString(ports, n, complement), p) <==> ((p in ports) != complement)
  {
    var i, k := (p - 1) / 8, (p - 1) % 8;
    EgressOctets(ports, n, complement, i);
    OctetBits(ports, i, k);
    BitNot(OctetOf(ports, i), k);
  }

  /** Decoding gives back the ports in 1..8n; the complement string lists the other ones. */
  lemma EgressRoundTrip(ports: seq<PortNum>, n: nat)
    ensures DecodePortList(EgressString(ports, n, false)) == set p <- ports | p <= 8 * n
    ensures DecodePortList(EgressString(ports, n, true)) ==
            PortsUpTo(8 * n) - DecodePortList(EgressString(ports, n, false))
  {
    hide Listed, EgressString;
    forall p: nat | 1 <= p <= 8 * n
      ensures Listed(EgressString(ports, n, false), p) <==> p in ports
      ensures Listed(EgressString(ports, n, true), p) <==> p !in ports
    {
      EgressListed(ports, n, false, p);
      EgressListed(ports, n, true, p);
    }
  }

  // ------------------------------------------------------------- port names of 64-port switches

  /** The name a 64-port switch has for a port: plain up to 48, then four to a slot `base/lane`. */
  datatype PortName = Plain(port: int) | Lane(base: int, lane: int)

  /** `%d`. */
  function Decimal(n: int): (s: string)
    ensures s != []
    decreases if n < 0 then 1 - n else n
  {
    if n < 0 then "-" + Decimal(-n)
    else if n < 10 then [Digit(n)]
    else Decimal(n / 10) + [Digit(n % 10)]
  }

  function Digit(d: int): char
    requires 0 <= d < 10
  {
    '0' + d as char
  }

  function Printed(name: PortName): string {
    match name
    case Plain(port) => Decimal(port)
    case Lane(base, lane) => Decimal(base) + "/" + Decimal(lane)
  }

  /** The name of a port, in closed form. */
  function NameOf(port: int): PortName {
    if port < 49 then Plain(port) else Lane(49 + (port - 49) / 4, (port - 49) % 4 + 1)
  }

  /** `get_arista64_port`. */
  method GetArista64Port(port: int) returns (rtnStr: string)
    ensures rtnStr == Printed(NameOf(port))
  {
    if port < 49 {
      return Decimal(port);
    }
    var base, remainder := 49, port - 49;
    while remainder > 3
      invariant 49 <= base && 0 <= remainder
      invariant 4 * (base - 49) + remainder == port - 49
    {
      remainder := remainder - 4;
      base := base + 1;
    }
    remainder := remainder + 1;
    rtnStr := Decimal(base);
    rtnStr := rtnStr + "/";
    rtnStr := rtnStr + Decimal(remainder);
  }

  /** The explicit inverse. */
  function NamedPort(name: PortName): int {
    match name
    case Plain(port) => port
    case Lane(base, lane) => 49 + 4 * (base - 49) + (lane - 1)
  }

  lemma NameRoundTrip(port: int)
    ensures NamedPort(NameOf(port)) == port
  {
  }

  /** Reading digits back. */
  function Value(s: string): int {
    if s == [] then 0 else Value(s[..|s| - 1]) * 10 + (s[|s| - 1] as int - '0' as int)
  }

  lemma {:induction false} DecimalValue(n: nat)
    ensures Value(Decimal(n)) == n && forall c :: c in Decimal(n) ==> '0' <= c <= '9'
  {
    var s := Decimal(n);
    if n < 10 {
      assert s[..0] == [];
      assert Value(s) == Value(s[..0]) * 10 + n;
    } else {
      DecimalValue(n / 10);
      assert s[..|s| - 1] == Decimal(n / 10);
    }
  }

  /** No two ports share a name as it is printed. */
  lemma PrintedNamesDiffer(p: nat, q: nat)
    ensures Printed(NameOf(p)) == Printed(NameOf(q)) <==> p == q
  {
    if Printed(NameOf(p)) == Printed(NameOf(q)) {
      SlashIff(p);
      SlashIff(q);
      if p < 49 {
        DecimalValue(p);
        DecimalValue(q);
      } else {
        LaneParts(p);
        LaneParts(q);
        NameRoundTrip(p);
        NameRoundTrip(q);
      }
    }
  }

  /** A printed name has a slash exactly when it is that of a lane. */
  lemma SlashIff(p: nat)
    ensures '/' in Printed(NameOf(p)) <==> p >= 49
  {
    if p < 49 {
      DecimalValue(p);
    }
  }

  /** The parts of a lane's printed name. */
  lemma LaneParts(p: nat)
    requires p >= 49
    ensures var s, name := Printed(NameOf(p)), NameOf(p);
            && |s| >= 2 && Value(s[..|s| - 2]) == name.base && Value(s[|s| - 1..]) == name.lane
  {
    var s, name := Printed(NameOf(p)), NameOf(p);
    DecimalValue(name.base);
    DecimalValue(name.lane);
    assert |Decimal(name.lane)| == 1;
    assert s[..|s| - 2] == Decimal(name.base) && s[|s| - 1..] == Decimal(name.lane);
  }
}
