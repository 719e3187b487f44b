/** The match parser of ovs/matchparser.go. */
module MatchParser {
  import opened Wrappers
  import opened Text
  import opened Numerals
  import opened Matches

  // ---------- The dispatch on the key ----------

  // The constants of the switch in parseMatch, kind by kind.
  function MacKindOf(s: string): (r: Option<MacKind>)
    ensures r.Some? ==> MacKey(r.value) == s
    ensures r.None? ==> forall k :: MacKey(k) != s
  {
    if s == MacKey(ArpSha) then Some(ArpSha)
    else if s == MacKey(ArpTha) then Some(ArpTha)
    else if s == MacKey(NdSll) then Some(NdSll)
    else if s == MacKey(NdTll) then Some(NdTll)
    else None
  }

  function IntKindOf(s: string): (r: Option<IntKind>)
    ensures r.Some? ==> IntKey(r.value) == s
    ensures r.None? ==> forall k :: IntKey(k) != s
  {
    if s == IntKey(IcmpType) then Some(IcmpType)
    else if s == IntKey(IcmpCode) then Some(IcmpCode)
    else if s == IntKey(Icmp6Type) then Some(Icmp6Type)
    else if s == IntKey(Icmp6Code) then Some(Icmp6Code)
    else if s == IntKey(NwProto) then Some(NwProto)
    else if s == IntKey(CtZone) then Some(CtZone)
    else if s == IntKey(ConjId) then Some(ConjId)
    else if s == IntKey(NwEcn) then Some(NwEcn)
    else if s == IntKey(NwTtl) then Some(NwTtl)
    else if s == IntKey(TunTtl) then Some(TunTtl)
    else if s == IntKey(TunTos) then Some(TunTos)
    else if s == IntKey(NwTos) then Some(NwTos)
    else if s == IntKey(TunGbpId) then Some(TunGbpId)
    else if s == IntKey(TunGbpFlags) then Some(TunGbpFlags)
    else if s == IntKey(TunFlags) then Some(TunFlags)
    else None
  }

  function Ipv4KindOf(s: string): (r: Option<Ipv4Kind>)
    ensures r.Some? ==> Ipv4Key(r.value) == s
    ensures r.None? ==> forall k :: Ipv4Key(k) != s
  {
    if s == Ipv4Key(ArpSpa) then Some(ArpSpa)
    else if s == Ipv4Key(ArpTpa) then Some(ArpTpa)
    else if s == Ipv4Key(NwSrc) then Some(NwSrc)
    else if s == Ipv4Key(NwDst) then Some(NwDst)
    else if s == Ipv4Key(TunSrc) then Some(TunSrc)
    else if s == Ipv4Key(TunDst) then Some(TunDst)
    else None
  }

  function Ipv6KindOf(s: string): (r: Option<Ipv6Kind>)
    ensures r.Some? ==> Ipv6Key(r.value) == s
    ensures r.None? ==> forall k :: Ipv6Key(k) != s
  {
    if s == Ipv6Key(NdTarget) then Some(NdTarget)
    else if s == Ipv6Key(Ipv6Src) then Some(Ipv6Src)
    else if s == Ipv6Key(Ipv6Dst) then Some(Ipv6Dst)
    else if s == Ipv6Key(TunIpv6Src) then Some(TunIpv6Src)
    else if s == Ipv6Key(TunIpv6Dst) then Some(TunIpv6Dst)
    else None
  }

  function MaskKindOf(s: string): (r: Option<MaskKind>)
    ensures r.Some? ==> MaskKey(r.value) == s
    ensures r.None? ==> forall k :: MaskKey(k) != s
  {
    if s == MaskKey(VlanTci) then Some(VlanTci)
    else if s == MaskKey(VlanTci1) then Some(VlanTci1)
    else if s == MaskKey(Ipv6Label) then Some(Ipv6Label)
    else if s == MaskKey(CtMark) then Some(CtMark)
    else if s == MaskKey(Metadata) then Some(Metadata)
    else if s == MaskKey(TunId) then Some(TunId)
    else None
  }

  function PortKeyOf(s: string): (r: Option<Key>)
    ensures r.Some? ==> KeyText(r.value) == s
    ensures r.None? ==> forall udp, dir :: PortKey(udp, dir) != s
  {
    if s == PortKey(false, Src) then Some(KPort(false, Src))
    else if s == PortKey(false, Dst) then Some(KPort(false, Dst))
    else if s == PortKey(true, Src) then Some(KPort(true, Src))
    else if s == PortKey(true, Dst) then Some(KPort(true, Dst))
    else None
  }

  function PlainKeyOf(s: string): (r: Option<Key>)
    ensures r.Some? ==> KeyText(r.value) == s
  {
    if s == KeyText(KArpOp) then Some(KArpOp)
    else if s == KeyText(KCtState) then Some(KCtState)
    else if s == KeyText(KTcpFlags) then Some(KTcpFlags)
    else if s == DlKey(Src) then Some(KDlAddr(Src))
    else if s == DlKey(Dst) then Some(KDlAddr(Dst))
    else if s == KeyText(KDlType) then Some(KDlType)
    else if s == KeyText(KDlVlanPcp) then Some(KDlVlanPcp)
    else if s == KeyText(KDlVlan) then Some(KDlVlan)
    else if s == KeyText(KInPort) then Some(KInPort)
    else None
  }

  // The switch of parseMatch on its key; None stands for no case.
  function KeyOf(s: string): Option<Key> {
    var mac, n, ip4, ip6, masked := MacKindOf(s), IntKindOf(s), Ipv4KindOf(s), Ipv6KindOf(s), MaskKindOf(s);
    if mac.Some? then Some(KMac(mac.value))
    else if n.Some? then Some(KInt(n.value))
    else if ip4.Some? then Some(KIpv4(ip4.value))
    else if ip6.Some? then Some(KIpv6(ip6.value))
    else if masked.Some? then Some(KMasked(masked.value))
    else if PortKeyOf(s).Some? then PortKeyOf(s)
    else PlainKeyOf(s)
  }

  // ---------- Numbers ----------

  // parseClampInt checks the upper bound only.
  function ParseClampInt(s: string, max: int): Result<int64, Error> {
    match ParseInt(s)
    case Err(e) => Err(BadNumber(e))
    case Ok(v) => if v > max then Err(TooLarge) else Ok(v)
  }

  const MAX_INT32: int := 0x7fff_ffff

  function IntMax(k: IntKind): int {
    match k
    case IcmpType => 0xff
    case IcmpCode => 0xff
    case Icmp6Type => 0xff
    case Icmp6Code => 0xff
    case NwProto => 0xff
    case CtZone => 0xffff
    case ConjId => 0xffff_ffff
    case _ => MAX_INT32
  }

  // The conversion to the match's field type; a negative number wraps around in an
  // unsigned field.
  function IntField(k: IntKind, n: int): int {
    match k
    case IcmpType => n % 0x100
    case IcmpCode => n % 0x100
    case Icmp6Type => n % 0x100
    case Icmp6Code => n % 0x100
    case NwProto => n % 0x100
    case CtZone => n % 0x1_0000
    case ConjId => n % 0x1_0000_0000
    case _ => n
  }

  function FieldMax(k: MaskKind): nat {
    match k
    case VlanTci => MAX_U16
    case VlanTci1 => MAX_U16
    case Ipv6Label => MAX_U32
    case CtMark => MAX_U32
    case Metadata => MAX_U64
    case TunId => MAX_U64
  }

  // parseHexUint16 reads 32 bits and keeps 16 of them.
  function ParseHex(s: string, max: nat): Result<nat, Error> {
    match ParseUint(TrimPrefix(s, "0x"), 16, if max == MAX_U16 then MAX_U32 else max)
    case Err(e) => Err(BadNumber(e))
    case Ok(v) => Ok(v % (max + 1))
  }

  // One part of a masked number: hexadecimal after 0x, decimal otherwise, converted to the
  // unsigned field type.
  function ParsePart(s: string, max: nat): Result<nat, Error> {
    if HasPrefix(s, "0x") then ParseHex(s, max)
    else
      match ParseInt(s)
      case Err(e) => Err(BadNumber(e))
      case Ok(v) => Ok(v % (max + 1))
  }

  function ParseParts(parts: seq<string>, max: nat): Result<seq<nat>, Error> {
    if parts == [] then Ok([])
    else
      match ParsePart(parts[0], max)
      case Err(e) => Err(e)
      case Ok(v) =>
        match ParseParts(parts[1..], max)
        case Err(e) => Err(e)
        case Ok(vs) => Ok([v] + vs)
  }

  // A number with an optional mask.
  function ParseMasked(value: string, max: nat): Result<(nat, nat), Error> {
    match ParseParts(Split(value, "/"), max)
    case Err(e) => Err(e)
    case Ok(vs) =>
      if |vs| == 1 then Ok((vs[0], 0))
      else if |vs| == 2 then Ok((vs[0], vs[1]))
      else Err(TooManyParts)
  }

  // The loop shared by parseVLANTCI, parseVLANTCI1, parseIPv6Label, parseCTMark,
  // parseMetadata and parseTunID.
  method ParseMaskedLoop(value: string, max: nat) returns (r: Result<(nat, nat), Error>)
    ensures r == ParseMasked(value, max)
  {
    var parts := Split(value, "/");
    var values: seq<nat> := [];
    assert parts[0..] == parts;
    PrependAssoc(values, values, ParseParts(parts, max));
    for i := 0 to |parts|
      invariant ParseParts(parts, max) == Prepend(values, ParseParts(parts[i..], max))
    {
      assert parts[i..][1..] == parts[i + 1..];
      var v := ParsePart(parts[i], max);
      if v.Err? {
        return Err(v.error);
      }
      PrependAssoc(values, [v.value], ParseParts(parts[i + 1..], max));
      values := values + [v.value];
    }
    assert parts[|parts|..] == [];
    assert values + [] == values;
    r := if |values| == 1 then Ok((values[0], 0))
         else if |values| == 2 then Ok((values[0], values[1]))
         else Err(TooManyParts);
  }

  // ---------- Ports ----------

  // One side of port/mask, which is always hexadecimal.
  function ParsePortPart(s: string): Result<nat, Error> {
    match ParseHex(s, MAX_U64)
    case Err(e) => Err(e)
    case Ok(v) => if v > MAX_U16 then Err(TooLarge) else Ok(v)
  }

  // A bare port is decimal; parseClampInt lets negative numbers through, which wrap around.
  function ParsePort(value: string): Result<(u16, u16), Error> {
    var parts := Split(value, "/");
    if |parts| == 1 then
      match ParseClampInt(value, MAX_U16)
      case Err(e) => Err(e)
      case Ok(v) => Ok((v % 0x1_0000, 0))
    else if |parts| == 2 then
      match ParsePortPart(parts[0])
      case Err(e) => Err(e)
      case Ok(port) =>
        match ParsePortPart(parts[1])
        case Err(e) => Err(e)
        case Ok(mask) => Ok((port, mask))
    else Err(TooManyParts)
  }

  method ParsePortLoop(value: string) returns (r: Result<(u16, u16), Error>)
    ensures r == ParsePort(value)
  {
    var values: seq<nat> := [];
    var parts := Split(value, "/");
    if |parts| == 1 {
      var v := ParseClampInt(value, MAX_U16);
      if v.Err? {
        return Err(v.error);
      }
      values := [v.value % 0x1_0000, 0];
    } else if |parts| == 2 {
      for i := 0 to 2
        invariant |values| == i
        invariant forall j :: 0 <= j < i ==> ParsePortPart(parts[j]) == Ok(values[j])
      {
        var v := ParsePortPart(parts[i]);
        if v.Err? {
          return Err(v.error);
        }
        values := values + [v.value];
      }
    } else {
      return Err(TooManyParts);
    }
    r := Ok((values[0], values[1]));
  }

  // ---------- Flags ----------

  function TrimSpaces(s: string): string {
    TrimSpacesRight(TrimSpacesLeft(s))
  }

  function TrimSpacesLeft(s: string): string {
    if s != "" && s[0] == ' ' then TrimSpacesLeft(s[1..]) else s
  }

  function TrimSpacesRight(s: string): string {
    if s != "" && s[|s| - 1] == ' ' then TrimSpacesRight(s[..|s| - 1]) else s
  }

  // strings.Fields, with the field read so far.
  function FieldsFrom(s: string, field: string): seq<string> {
    var last := if field == "" then [] else [field];
    if s == "" then last
    else if IsSpace(s[0]) then last + FieldsFrom(s[1..], "")
    else FieldsFrom(s[1..], field + [s[0]])
  }

  function Fields(s: string): seq<string> { FieldsFrom(s, "") }

  function SpaceSigns(value: string): string {
    ReplaceChar(ReplaceChar(value, '+', " +"), '-', " -")
  }

  function ParseCtState(value: string): seq<string> {
    var plus := if Contains(value, "|") then "+" + ReplaceChar(value, '|', "+") else value;
    var spaced := if Contains(plus, "+") || Contains(plus, "-") then TrimSpaces(SpaceSigns(plus)) else "+" + plus;
    Fields(spaced)
  }

  // The text cut into pieces of four characters.
  function Chunks(s: string): seq<string> {
    if |s| <= 4 then [s] else [s[..4]] + Chunks(s[4..])
  }

  function ParseTcpFlags(value: string): Result<seq<string>, Error> {
    if ParseInt(value).Ok? then Ok([value])
    else if |value| % 4 != 0 then Err(BadFlagsLength)
    else Ok(Chunks(value))
  }

  lemma ChunkCut(piece: string, rest: string)
    requires |piece| == 4 && rest != ""
    ensures Chunks(piece + rest) == [piece] + Chunks(rest)
  {
    assert (piece + rest)[..4] == piece && (piece + rest)[4..] == rest;
  }

  lemma ChunkOne(piece: string)
    requires |piece| <= 4
    ensures Chunks(piece) == [piece]
  {
  }

  // Full buffers go to the flags, the next character to the buffer.
  lemma Flush(flags: seq<string>, buf: string, rest: string)
    requires |buf| == 4 && rest != ""
    ensures flags + Chunks(buf + rest) == flags + [buf] + Chunks("" + rest)
  {
    hide Chunks;
    ChunkCut(buf, rest);
    assert "" + rest == rest;
  }

  lemma TakeOne(buf: string, s: string, i: nat)
    requires i < |s|
    ensures buf + s[i..] == buf + [s[i]] + s[i + 1..]
  {
  }

  lemma ChunkEnds(value: string, buf: string)
    ensures [] + Chunks("" + value[0..]) == Chunks(value)
    ensures |buf| <= 4 ==> Chunks(buf + value[|value|..]) == [buf]
  {
    hide Chunks;
    assert "" + value[0..] == value && buf + value[|value|..] == buf;
    if |buf| <= 4 { ChunkOne(buf); }
  }

  // The loop of parseTCPFlags: a full buffer is flushed before the next character.
  method ChunkLoop(value: string) returns (flags: seq<string>)
    ensures flags == Chunks(value)
  {
    hide Chunks;
    var buf := "";
    flags := [];
    ChunkEnds(value, buf);
    for i := 0 to |value|
      invariant Chunks(value) == flags + Chunks(buf + value[i..])
      invariant |buf| == if i == 0 then 0 else (i - 1) % 4 + 1
    {
      if i != 0 && i % 4 == 0 {
        Flush(flags, buf, value[i..]);
        flags, buf := flags + [buf], "";
      }
      TakeOne(buf, value, i);
      buf := buf + [value[i]];
    }
    ChunkEnds(value, buf);
    flags := flags + [buf];
  }

  method ParseTcpFlagsMethod(value: string) returns (r: Result<seq<string>, Error>)
    ensures r == ParseTcpFlags(value)
  {
    var n := ParseInt(value);
    if n.Ok? {
      return Ok([value]);
    }
    if |value| % 4 != 0 {
      return Err(BadFlagsLength);
    }
    var flags := ChunkLoop(value);
    r := Ok(flags);
  }

  // ---------- Dispatch ----------

  function Map<T, U>(r: Result<T, Error>, f: T -> U): Result<Option<U>, Error> {
    match r
    case Err(e) => Err(e)
    case Ok(v) => Ok(Some(f(v)))
  }

  function ParseDecimalOrHex(value: string): Result<int64, Error> {
    if !HasPrefix(value, "0x") then
      match ParseInt(value)
      case Err(e) => Err(BadNumber(e))
      case Ok(v) => Ok(v)
    else
      match ParseHex(value, MAX_U16)
      case Err(e) => Err(e)
      case Ok(v) => Ok(v)
  }

  function ParseArpOp(value: string): Result<u16, Error> {
    if !HasPrefix(value, "0x") then
      match ParseUint(value, 10, MAX_U16)
      case Err(e) => Err(BadNumber(e))
      case Ok(v) => Ok(v % 0x1_0000)
    else
      match ParseHex(value, MAX_U16)
      case Err(e) => Err(e)
      case Ok(v) => Ok(v)
  }

  function ParseMac(net: Net, value: string): Result<seq<nat>, Error> {
    match net.parseMac(value)
    case None => Err(InvalidAddress)
    case Some(mac) => Ok(mac)
  }

  function ParseByKey(net: Net, key: Key, value: string): Result<Option<Match>, Error> {
    match key
    case KMac(k) => Map(ParseMac(net, value), mac => MacMatch(k, mac))
    case KArpOp => Map(ParseArpOp(value), op => ArpOp(op))
    case KInt(k) => Map(ParseClampInt(value, IntMax(k)), n => IntMatch(k, IntField(k, n)))
    case KPort(udp, dir) => Map(ParsePort(value), (p: (u16, u16)) => PortMatch(udp, dir, p.0, p.1))
    case KIpv4(k) =>
      Ok(Some(Ipv4(if k.TunSrc? then NwSrc else if k.TunDst? then NwDst else k, value)))
    case KIpv6(k) =>
      Ok(Some(Ipv6(if k.TunIpv6Src? then Ipv6Src else if k.TunIpv6Dst? then Ipv6Dst else k, value)))
    case KCtState => Ok(Some(CtState(ParseCtState(value))))
    case KTcpFlags => Map(ParseTcpFlags(value), flags => TcpFlags(flags))
    case KDlAddr(dir) => Ok(Some(DlAddr(dir, value)))
    case KDlType => Map(ParseHex(value, MAX_U16), (t: nat) => DlType(t % 0x1_0000))
    case KDlVlanPcp => Map(ParseDecimalOrHex(value), pcp => DlVlanPcp(pcp))
    case KDlVlan => Map(ParseDecimalOrHex(value), vid => DlVlan(vid))
    case KInPort => Map(ParseClampInt(value, MAX_INT32), n => InPortMatch(n))
    case KMasked(k) => Map(ParseMasked(value, FieldMax(k)), (p: (nat, nat)) => MaskedMatch(k, p.0, p.1))
  }

  // parseMatch; None stands for the nil match of an unknown key.
  function ParseMatch(net: Net, key: string, value: string): Result<Option<Match>, Error> {
    match KeyOf(key)
    case None => Ok(None)
    case Some(k) => ParseByKey(net, k, value)
  }
}
