/**
 Matches and their text, from ovs/match.go.  A match prints as key=value.

 The address functions of Go's net package are a parameter: Net says how a MAC address and
 an IPv4 address are parsed and printed, and what an IPv4 or IPv6 address or CIDR block
 prints as, if it is one.
 */
module Matches {
  import opened Wrappers
  import opened Text
  import opened Numerals

  datatype Net = Net(
    parseMac: string -> Option<seq<nat>>,
    macText: seq<nat> -> string,
    parseIp: string -> Option<seq<nat>>,
    ipText: seq<nat> -> string,
    ipv4Text: string -> Option<string>,
    ipv6Text: string -> Option<string>)

  datatype Dir = Src | Dst

  datatype MacKind = ArpSha | ArpTha | NdSll | NdTll

  datatype IntKind =
    | IcmpType | IcmpCode | Icmp6Type | Icmp6Code | NwProto
    | CtZone | ConjId
    | NwEcn | NwTtl | TunTtl | TunTos | NwTos | TunGbpId | TunGbpFlags | TunFlags

  datatype Ipv4Kind = ArpSpa | ArpTpa | NwSrc | NwDst | TunSrc | TunDst

  // The last two exist as keys only.
  datatype Ipv6Kind = NdTarget | Ipv6Src | Ipv6Dst | TunIpv6Src | TunIpv6Dst

  datatype MaskKind = VlanTci | VlanTci1 | Ipv6Label | CtMark | Metadata | TunId

  datatype Match =
    | IntMatch(ikind: IntKind, n: int)
    | PortMatch(udp: bool, dir: Dir, port: u16, mask: u16)
    | MaskedMatch(kind: MaskKind, value: nat, vmask: nat)
    | CtState(states: seq<string>)
    | TcpFlags(flags: seq<string>)
    | DlType(etherType: u16)
    | DlVlan(vid: int64)
    | DlVlanPcp(pcp: int64)
    | ArpOp(op: u16)
    | ArpOperation(oper: u16)
    | DlAddr(dldir: Dir, dladdr: string)
    | Ipv4(ip4: Ipv4Kind, addr4: string)
    | Ipv6(ip6: Ipv6Kind, addr6: string)
    | MacMatch(mac: MacKind, addr: seq<nat>)
    | InPortMatch(inPort: int64)
    | IpFrag(flag: string)
    | FieldMatch(field: string, srcOrValue: string)

  datatype Error =
    | InvalidVlan | InvalidPcp | InvalidIpv6Label | InvalidArpOp | InvalidAddress
    | BadNumber(num: NumError) | TooLarge | TooManyParts | BadFlagsLength

  // ---------- Keys ----------

  datatype Key =
    | KMac(mac: MacKind) | KArpOp | KInt(ikind: IntKind) | KPort(udp: bool, dir: Dir)
    | KIpv4(ip4: Ipv4Kind) | KIpv6(ip6: Ipv6Kind) | KCtState | KTcpFlags
    | KDlAddr(dir: Dir) | KDlType | KDlVlanPcp | KDlVlan | KInPort | KMasked(kind: MaskKind)

  function MacKey(k: MacKind): string {
    match k
    case ArpSha => "arp_sha"
    case ArpTha => "arp_tha"
    case NdSll => "nd_sll"
    case NdTll => "nd_tll"
  }

  function IntKey(k: IntKind): string {
    match k
    case IcmpType => "icmp_type"
    case IcmpCode => "icmp_code"
    case Icmp6Type => "icmpv6_type"
    case Icmp6Code => "icmpv6_code"
    case NwProto => "nw_proto"
    case CtZone => "ct_zone"
    case ConjId => "conj_id"
    case NwEcn => "nw_ecn"
    case NwTtl => "nw_ttl"
    case TunTtl => "tun_ttl"
    case TunTos => "tun_tos"
    case NwTos => "nw_tos"
    case TunGbpId => "tun_gbp_id"
    case TunGbpFlags => "tun_gbp_flags"
    case TunFlags => "tun_flags"
  }

  function PortKey(udp: bool, dir: Dir): string {
    if udp then (if dir.Src? then "udp_src" else "udp_dst")
    else if dir.Src? then "tp_src" else "tp_dst"
  }

  function Ipv4Key(k: Ipv4Kind): string {
    match k
    case ArpSpa => "arp_spa"
    case ArpTpa => "arp_tpa"
    case NwSrc => "nw_src"
    case NwDst => "nw_dst"
    case TunSrc => "tun_src"
    case TunDst => "tun_dst"
  }

  function Ipv6Key(k: Ipv6Kind): string {
    match k
    case NdTarget => "nd_target"
    case Ipv6Src => "ipv6_src"
    case Ipv6Dst => "ipv6_dst"
    case TunIpv6Src => "tun_ipv6_src"
    case TunIpv6Dst => "tun_ipv6_dst"
  }

  function MaskKey(k: MaskKind): string {
    match k
    case VlanTci => "vlan_tci"
    case VlanTci1 => "vlan_tci1"
    case Ipv6Label => "ipv6_label"
    case CtMark => "ct_mark"
    case Metadata => "metadata"
    case TunId => "tun_id"
  }

  function DlKey(dir: Dir): string {
    if dir.Src? then "dl_src" else "dl_dst"
  }

  function KeyText(k: Key): string {
    match k
    case KMac(mac) => MacKey(mac)
    case KArpOp => "arp_op"
    case KInt(ikind) => IntKey(ikind)
    case KPort(udp, dir) => PortKey(udp, dir)
    case KIpv4(ip4) => Ipv4Key(ip4)
    case KIpv6(ip6) => Ipv6Key(ip6)
    case KCtState => "ct_state"
    case KTcpFlags => "tcp_flags"
    case KDlAddr(dir) => DlKey(dir)
    case KDlType => "dl_type"
    case KDlVlanPcp => "dl_vlan_pcp"
    case KDlVlan => "dl_vlan"
    case KInPort => "in_port"
    case KMasked(kind) => MaskKey(kind)
  }

  // The key a match prints under; ip_frag and arbitrary fields have none of the above.
  function KeyFor(m: Match): Option<Key> {
    match m
    case IntMatch(k, _) => Some(KInt(k))
    case PortMatch(udp, dir, _, _) => Some(KPort(udp, dir))
    case MaskedMatch(k, _, _) => Some(KMasked(k))
    case CtState(_) => Some(KCtState)
    case TcpFlags(_) => Some(KTcpFlags)
    case DlType(_) => Some(KDlType)
    case DlVlan(_) => Some(KDlVlan)
    case DlVlanPcp(_) => Some(KDlVlanPcp)
    case ArpOp(_) => Some(KArpOp)
    case ArpOperation(_) => Some(KArpOp)
    case DlAddr(dir, _) => Some(KDlAddr(dir))
    case Ipv4(k, _) => Some(KIpv4(k))
    case Ipv6(k, _) => Some(KIpv6(k))
    case MacMatch(k, _) => Some(KMac(k))
    case InPortMatch(_) => Some(KInPort)
    case IpFrag(_) => None
    case FieldMatch(_, _) => None
  }

  function MatchKey(m: Match): string {
    match m
    case IpFrag(_) => "ip_frag"
    case FieldMatch(field, _) => field
    case _ => KeyText(KeyFor(m).value)
  }

  // ---------- Printing ----------

  const VLAN_NONE := 0xffff
  const ETHERNET_LENGTH := 6

  predicate ValidVlan(vid: int) { 0 <= vid <= 0xfff }

  predicate ValidPcp(pcp: int) { 0 <= pcp <= 7 }

  // Only the first 20 bits of the 32 are in use.
  predicate ValidIpv6Label(n: nat) { n <= 0xf_ffff }

  predicate ValidArpOp(op: nat) { 1 <= op <= 4 }

  function Hex(n: nat, width: nat): string { "0x" + PaddedHex(n, width) }

  function HexWidth(k: MaskKind): nat {
    match k
    case VlanTci => 4
    case VlanTci1 => 4
    case Ipv6Label => 5
    case CtMark => 8
    case Metadata => 0
    case TunId => 0
  }

  function MaskedText(value: nat, mask: nat, width: nat): string {
    if mask == 0 then Hex(value, width) else Hex(value, width) + "/" + Hex(mask, width)
  }

  function PortText(port: u16, mask: u16): string {
    if mask == 0 then FormatInt(port) else MaskedText(port, mask, 4)
  }

  function EthernetText(net: Net, addr: seq<nat>): Result<string, Error> {
    if |addr| != ETHERNET_LENGTH then Err(InvalidAddress) else Ok(net.macText(addr))
  }

  function MacStringText(net: Net, s: string): Result<string, Error> {
    match net.parseMac(s)
    case None => Err(InvalidAddress)
    case Some(mac) => EthernetText(net, mac)
  }

  // A hardware address with an optional wildcard mask after the first slash.
  function DlText(net: Net, addr: string): Result<string, Error> {
    var i := Index(addr, "/");
    if i < 0 then MacStringText(net, addr)
    else
      match MacStringText(net, addr[..i])
      case Err(e) => Err(e)
      case Ok(mac) =>
        match MacStringText(net, addr[i + 1..])
        case Err(e) => Err(e)
        case Ok(mask) => Ok(mac + "/" + mask)
  }

  function AddressText(text: Option<string>): Result<string, Error> {
    match text
    case None => Err(InvalidAddress)
    case Some(s) => Ok(s)
  }

  function ValueText(net: Net, m: Match): Result<string, Error> {
    match m
    case IntMatch(_, n) => Ok(FormatInt(n))
    case PortMatch(_, _, port, mask) => Ok(PortText(port, mask))
    case MaskedMatch(k, value, mask) =>
      if k.Ipv6Label? && !(ValidIpv6Label(value) && ValidIpv6Label(mask)) then Err(InvalidIpv6Label)
      else Ok(MaskedText(value, mask, HexWidth(k)))
    case CtState(states) => Ok(Join(states, ""))
    case TcpFlags(flags) => Ok(Join(flags, ""))
    case DlType(etherType) => Ok(Hex(etherType, 4))
    case DlVlan(vid) =>
      if !ValidVlan(vid) && vid != VLAN_NONE then Err(InvalidVlan)
      else if vid == VLAN_NONE then Ok("0xffff")
      else Ok(FormatInt(vid))
    case DlVlanPcp(pcp) => if !ValidPcp(pcp) then Err(InvalidPcp) else Ok(FormatInt(pcp))
    case ArpOp(op) => if !ValidArpOp(op) then Err(InvalidArpOp) else Ok(FormatInt(op))
    case ArpOperation(oper) => Ok(FormatInt(oper))
    case DlAddr(_, addr) => DlText(net, addr)
    case Ipv4(_, addr) => AddressText(net.ipv4Text(addr))
    case Ipv6(_, addr) => AddressText(net.ipv6Text(addr))
    case MacMatch(_, addr) => EthernetText(net, addr)
    case InPortMatch(port) => Ok(FormatInt(port))
    case IpFrag(flag) => Ok(flag)
    case FieldMatch(_, srcOrValue) => Ok(srcOrValue)
  }

  // MarshalText of every match.
  function MarshalMatch(net: Net, m: Match): Result<string, Error> {
    match ValueText(net, m)
    case Err(e) => Err(e)
    case Ok(v) => Ok(MatchKey(m) + "=" + v)
  }
}
