/**
 The matches by the names, bounds and widths of the flow syntax: what each key reads, which
 matches print, and what they print as.
 */
module MatchNames {
  import opened Wrappers
  import opened Text
  import opened Numerals
  import opened NumeralReading
  import opened Matches
  import opened MatchParser
  import opened MatchRoundTrip
  import opened MatchFragment

  // ---------- What each key reads ----------

  lemma ReadBy(net: Net, k: Key, name: string, value: string)
    requires KeyText(k) == name
    ensures ParseMatch(net, name, value) == ParseByKey(net, k, value)
  {
    hide ParseMatch, ParseByKey, KeyText;
    ReadByKey(net, k, value);
  }

  // The keys whose value is kept as it stands.  Tunnel endpoints read as network addresses.
  lemma AddressKeys(net: Net, v: string)
    ensures ParseMatch(net, "arp_spa", v) == Ok(Some(Ipv4(ArpSpa, v)))
    ensures ParseMatch(net, "arp_tpa", v) == Ok(Some(Ipv4(ArpTpa, v)))
    ensures ParseMatch(net, "nw_src", v) == Ok(Some(Ipv4(NwSrc, v)))
    ensures ParseMatch(net, "nw_dst", v) == Ok(Some(Ipv4(NwDst, v)))
    ensures ParseMatch(net, "tun_src", v) == Ok(Some(Ipv4(NwSrc, v)))
    ensures ParseMatch(net, "tun_dst", v) == Ok(Some(Ipv4(NwDst, v)))
    ensures ParseMatch(net, "dl_src", v) == Ok(Some(DlAddr(Src, v)))
    ensures ParseMatch(net, "dl_dst", v) == Ok(Some(DlAddr(Dst, v)))
  {
    hide ParseMatch;
    ReadBy(net, KIpv4(ArpSpa), "arp_spa", v);
    ReadBy(net, KIpv4(ArpTpa), "arp_tpa", v);
    ReadBy(net, KIpv4(NwSrc), "nw_src", v);
    ReadBy(net, KIpv4(NwDst), "nw_dst", v);
    ReadBy(net, KIpv4(TunSrc), "tun_src", v);
    ReadBy(net, KIpv4(TunDst), "tun_dst", v);
    ReadBy(net, KDlAddr(Src), "dl_src", v);
    ReadBy(net, KDlAddr(Dst), "dl_dst", v);
  }

  lemma Ipv6Keys(net: Net, v: string)
    ensures ParseMatch(net, "nd_target", v) == Ok(Some(Ipv6(NdTarget, v)))
    ensures ParseMatch(net, "ipv6_src", v) == Ok(Some(Ipv6(Ipv6Src, v)))
    ensures ParseMatch(net, "ipv6_dst", v) == Ok(Some(Ipv6(Ipv6Dst, v)))
    ensures ParseMatch(net, "tun_ipv6_src", v) == Ok(Some(Ipv6(Ipv6Src, v)))
    ensures ParseMatch(net, "tun_ipv6_dst", v) == Ok(Some(Ipv6(Ipv6Dst, v)))
  {
    hide ParseMatch;
    ReadBy(net, KIpv6(NdTarget), "nd_target", v);
    ReadBy(net, KIpv6(Ipv6Src), "ipv6_src", v);
    ReadBy(net, KIpv6(Ipv6Dst), "ipv6_dst", v);
    ReadBy(net, KIpv6(TunIpv6Src), "tun_ipv6_src", v);
    ReadBy(net, KIpv6(TunIpv6Dst), "tun_ipv6_dst", v);
  }

  // The keys whose value is a hardware address.
  lemma HardwareKeys(net: Net, v: string)
    ensures var mac := net.parseMac(v);
      var read := (k: MacKind) => if mac.Some? then Ok(Some(MacMatch(k, mac.value))) else Err(InvalidAddress);
      && ParseMatch(net, "arp_sha", v) == read(ArpSha) && ParseMatch(net, "arp_tha", v) == read(ArpTha)
      && ParseMatch(net, "nd_sll", v) == read(NdSll) && ParseMatch(net, "nd_tll", v) == read(NdTll)
  {
    hide ParseMatch;
    ReadBy(net, KMac(ArpSha), "arp_sha", v);
    ReadBy(net, KMac(ArpTha), "arp_tha", v);
    ReadBy(net, KMac(NdSll), "nd_sll", v);
    ReadBy(net, KMac(NdTll), "nd_tll", v);
  }

  // What a decimal number reads as under a key with this bound, into an unsigned field.
  function ReadUnsigned(k: IntKind, n: int, max: nat): Result<Option<Match>, Error> {
    if n > max then Err(TooLarge) else Ok(Some(IntMatch(k, n % (max + 1))))
  }

  lemma UnsignedKeys(net: Net, n: int64)
    ensures var t := FormatInt(n);
      && ParseMatch(net, "icmp_type", t) == ReadUnsigned(IcmpType, n, 255)
      && ParseMatch(net, "icmp_code", t) == ReadUnsigned(IcmpCode, n, 255)
      && ParseMatch(net, "icmpv6_type", t) == ReadUnsigned(Icmp6Type, n, 255)
      && ParseMatch(net, "icmpv6_code", t) == ReadUnsigned(Icmp6Code, n, 255)
      && ParseMatch(net, "nw_proto", t) == ReadUnsigned(NwProto, n, 255)
      && ParseMatch(net, "ct_zone", t) == ReadUnsigned(CtZone, n, 65535)
      && ParseMatch(net, "conj_id", t) == ReadUnsigned(ConjId, n, 4294967295)
  {
    hide ParseMatch, FormatInt;
    forall k: IntKind { IntTextReads(net, k, n); }
    assert IntKey(IcmpType) == "icmp_type" && IntKey(IcmpCode) == "icmp_code";
    assert IntKey(Icmp6Type) == "icmpv6_type" && IntKey(Icmp6Code) == "icmpv6_code";
    assert IntKey(NwProto) == "nw_proto" && IntKey(CtZone) == "ct_zone" && IntKey(ConjId) == "conj_id";
  }

  // What a decimal number reads as under a key whose field is a signed integer.
  function ReadSigned(k: IntKind, n: int): Result<Option<Match>, Error> {
    if n > 2147483647 then Err(TooLarge) else Ok(Some(IntMatch(k, n)))
  }

  lemma SignedKeys(net: Net, n: int64)
    ensures var t := FormatInt(n);
      && ParseMatch(net, "nw_ecn", t) == ReadSigned(NwEcn, n) && ParseMatch(net, "nw_ttl", t) == ReadSigned(NwTtl, n)
      && ParseMatch(net, "nw_tos", t) == ReadSigned(NwTos, n) && ParseMatch(net, "tun_ttl", t) == ReadSigned(TunTtl, n)
      && ParseMatch(net, "tun_tos", t) == ReadSigned(TunTos, n)
      && ParseMatch(net, "tun_gbp_id", t) == ReadSigned(TunGbpId, n)
      && ParseMatch(net, "tun_gbp_flags", t) == ReadSigned(TunGbpFlags, n)
      && ParseMatch(net, "tun_flags", t) == ReadSigned(TunFlags, n)
  {
    hide ParseMatch, FormatInt;
    forall k: IntKind { IntTextReads(net, k, n); }
    assert IntKey(NwEcn) == "nw_ecn" && IntKey(NwTtl) == "nw_ttl" && IntKey(NwTos) == "nw_tos";
    assert IntKey(TunTtl) == "tun_ttl" && IntKey(TunTos) == "tun_tos" && IntKey(TunGbpId) == "tun_gbp_id";
    assert IntKey(TunGbpFlags) == "tun_gbp_flags" && IntKey(TunFlags) == "tun_flags";
  }

  lemma HexDigits(n: nat, width: nat)
    ensures TrimPrefix(Hex(n, width), "0x") == PaddedHex(n, width) && HasPrefix(Hex(n, width), "0x")
  {
    hide PaddedHex;
    var s := PaddedHex(n, width);
    assert ("0x" + s)[..2] == "0x" && ("0x" + s)[2..] == s;
  }

  // A hexadecimal number of at most 32 bits is read where 16 bits are kept.
  lemma HexKeeps16(n: nat, width: nat)
    requires n <= MAX_U32
    ensures ParseHex(Hex(n, width), MAX_U16) == Ok(n % 65536)
    ensures ParseDecimalOrHex(Hex(n, width)) == Ok(n % 65536)
    ensures ParseArpOp(Hex(n, width)) == Ok(n % 65536)
  {
    HexDigits(n, width);
    ParsePaddedHex(n, width, MAX_U32);
    hide Hex, PaddedHex, ParseUint, ParseInt, TrimPrefix, HasPrefix;
  }

  lemma HexKeys(net: Net, n: nat, width: nat)
    requires n <= MAX_U32
    ensures var t := Hex(n, width);
      && ParseMatch(net, "dl_type", t) == Ok(Some(DlType(n % 65536)))
      && ParseMatch(net, "dl_vlan", t) == Ok(Some(DlVlan(n % 65536)))
      && ParseMatch(net, "dl_vlan_pcp", t) == Ok(Some(DlVlanPcp(n % 65536)))
      && ParseMatch(net, "arp_op", t) == Ok(Some(ArpOp(n % 65536)))
  {
    hide ParseMatch, Hex, ParseDecimalOrHex, ParseArpOp, ParseHex;
    HexKeeps16(n, width);
    ReadBy(net, KDlType, "dl_type", Hex(n, width));
    ReadBy(net, KDlVlan, "dl_vlan", Hex(n, width));
    ReadBy(net, KDlVlanPcp, "dl_vlan_pcp", Hex(n, width));
    ReadBy(net, KArpOp, "arp_op", Hex(n, width));
  }

  lemma DecimalArpOp(n: nat)
    ensures ParseArpOp(FormatInt(n)) == if n <= 65535 then Ok(n) else Err(BadNumber(OutOfRange(65535)))
  {
    PrintedDigits(n);
    FormatIntText(n);
    hide *;
    NonNegativeText(n);
    DigitsRead(Digits(n, 10), DigitList(n), 10, MAX_U16);
    ArpOpOf(FormatInt(n), n);
  }

  lemma NonNegativeText(n: nat)
    ensures FormatInt(n) == Digits(n, 10)
  {
    hide Digits;
  }

  lemma ArpOpOf(s: string, n: nat)
    requires !HasPrefix(s, "0x")
    requires ParseUint(s, 10, MAX_U16) == if n <= MAX_U16 then Ok(n) else Err(OutOfRange(MAX_U16))
    ensures ParseArpOp(s) == if n <= 65535 then Ok(n) else Err(BadNumber(OutOfRange(65535)))
  {
    hide HasPrefix, ParseUint;
  }

  // Decimal numbers under the same keys: dl_vlan and dl_vlan_pcp take any, arp_op 16 bits.
  lemma DecimalKeys(net: Net, n: nat)
    requires n <= MAX_INT
    ensures var t := FormatInt(n);
      && ParseMatch(net, "dl_vlan", t) == Ok(Some(DlVlan(n)))
      && ParseMatch(net, "dl_vlan_pcp", t) == Ok(Some(DlVlanPcp(n)))
      && ParseMatch(net, "arp_op", t) ==
           (if n <= 65535 then Ok(Some(ArpOp(n))) else Err(BadNumber(OutOfRange(65535))))
      && ParseMatch(net, "in_port", t) == (if n <= 2147483647 then Ok(Some(InPortMatch(n))) else Err(TooLarge))
  {
    hide ParseMatch, FormatInt, ParseDecimalOrHex, ParseArpOp, ParseClampInt;
    DecimalParsesBack(n);
    DecimalArpOp(n);
    ClampParses(n, MAX_INT32);
    ReadBy(net, KDlVlan, "dl_vlan", FormatInt(n));
    ReadBy(net, KDlVlanPcp, "dl_vlan_pcp", FormatInt(n));
    ReadBy(net, KArpOp, "arp_op", FormatInt(n));
    ReadBy(net, KInPort, "in_port", FormatInt(n));
  }

  // The names of the fields with a mask, and of the flag lists.
  lemma OtherKeys(net: Net, v: string)
    ensures ParseMatch(net, "vlan_tci", v) == ParseByKey(net, KMasked(VlanTci), v)
    ensures ParseMatch(net, "vlan_tci1", v) == ParseByKey(net, KMasked(VlanTci1), v)
    ensures ParseMatch(net, "ipv6_label", v) == ParseByKey(net, KMasked(Ipv6Label), v)
    ensures ParseMatch(net, "ct_mark", v) == ParseByKey(net, KMasked(CtMark), v)
    ensures ParseMatch(net, "metadata", v) == ParseByKey(net, KMasked(Metadata), v)
    ensures ParseMatch(net, "tun_id", v) == ParseByKey(net, KMasked(TunId), v)
    ensures ParseMatch(net, "ct_state", v) == Ok(Some(CtState(ParseCtState(v))))
    ensures ParseMatch(net, "tcp_flags", v).Ok? ==>
      ParseTcpFlags(v).Ok? && ParseMatch(net, "tcp_flags", v) == Ok(Some(TcpFlags(ParseTcpFlags(v).value)))
  {
    hide ParseMatch, ParseMasked, ParseCtState, ParseTcpFlags;
    ReadBy(net, KMasked(VlanTci), "vlan_tci", v);
    ReadBy(net, KMasked(VlanTci1), "vlan_tci1", v);
    ReadBy(net, KMasked(Ipv6Label), "ipv6_label", v);
    ReadBy(net, KMasked(CtMark), "ct_mark", v);
    ReadBy(net, KMasked(Metadata), "metadata", v);
    ReadBy(net, KMasked(TunId), "tun_id", v);
    ReadBy(net, KCtState, "ct_state", v);
    ReadBy(net, KTcpFlags, "tcp_flags", v);
  }

  // ---------- Refused values ----------

  // A number and a mask are all: a third part is refused, under every key that takes a mask.
  lemma ThreePartsRefused(net: Net, a: string, b: string, rest: string, max: nat)
    requires '/' !in a && '/' !in b
    ensures ParseMasked(a + "/" + (b + "/" + rest), max).Err?
    ensures ParsePort(a + "/" + (b + "/" + rest)) == Err(TooManyParts)
  {
    var v := a + "/" + (b + "/" + rest);
    SplitFirst(a, '/', b + "/" + rest);
    SplitFirst(b, '/', rest);
    hide Split, ParsePart, ParsePortPart, ParseClampInt;
    assert |Split(v, "/")| >= 3;
    PartsLength(Split(v, "/"), max);
  }

  lemma {:induction false} PartsLength(parts: seq<string>, max: nat)
    ensures ParseParts(parts, max).Ok? ==> |ParseParts(parts, max).value| == |parts|
  {
    hide ParsePart;
    if parts != [] { PartsLength(parts[1..], max); }
  }

  // A part that is no number is refused, in front of the slash and behind it.
  lemma BadPartRefused(a: string, b: string, max: nat)
    requires '/' !in a && '/' !in b
    ensures ParsePart(a, max).Err? ==> ParseMasked(a, max).Err?
    ensures ParsePart(a, max).Err? || ParsePart(b, max).Err? ==> ParseMasked(a + "/" + b, max).Err?
    ensures ParsePortPart(a).Err? || ParsePortPart(b).Err? ==> ParsePort(a + "/" + b).Err?
  {
    TwoParts(a, b);
    SplitNone(a, '/');
    hide Split, ParsePart, ParsePortPart, ParseClampInt;
    assert [a, b][0] == a && [a, b][1..] == [b] && [b][0] == b;
    assert ParsePart(b, max).Err? ==> ParseParts([b], max).Err?;
    assert ParsePart(a, max).Err? || ParsePart(b, max).Err? ==> ParseParts([a, b], max).Err?;
  }

  // A hexadecimal port or port mask beyond 16 bits is refused.
  lemma LargePortRefused(port: nat, mask: nat, w: nat)
    requires port <= MAX_U64 && mask <= MAX_U64
    ensures ParsePort(Hex(port, w) + "/" + Hex(mask, w)) ==
      if port > 65535 || mask > 65535 then Err(TooLarge) else Ok((port, mask))
  {
    HexIsPlain(port, w);
    HexIsPlain(mask, w);
    ParseHexText(port, w, MAX_U64);
    ParseHexText(mask, w, MAX_U64);
    hide Hex, Split, ParseHex, Plain, ParseClampInt;
    TwoParts(Hex(port, w), Hex(mask, w));
  }

  // ---------- What prints ----------

  // The matches that check their value print exactly within these bounds.
  lemma PrintsExactly(net: Net, n: int64, value: nat, mask: nat, addr: seq<nat>)
    ensures MarshalMatch(net, DlVlan(n)).Ok? <==> 0 <= n <= 4095 || n == 65535
    ensures MarshalMatch(net, DlVlanPcp(n)).Ok? <==> 0 <= n <= 7
    ensures MarshalMatch(net, MaskedMatch(Ipv6Label, value, mask)).Ok? <==> value <= 1048575 && mask <= 1048575
    ensures forall op: u16 :: MarshalMatch(net, ArpOp(op)).Ok? <==> 1 <= op <= 4
    ensures forall k: MacKind :: MarshalMatch(net, MacMatch(k, addr)).Ok? <==> |addr| == 6
  {
    hide MaskedText, FormatInt, Hex;
  }

  // An IP address, or block, prints under its own key exactly if it is one.
  lemma AddressesPrint(net: Net, k4: Ipv4Kind, k6: Ipv6Kind, addr: string)
    ensures MarshalMatch(net, Ipv4(k4, addr)) ==
      match net.ipv4Text(addr) case Some(t) => Ok(Ipv4Key(k4) + "=" + t) case None => Err(InvalidAddress)
    ensures MarshalMatch(net, Ipv6(k6, addr)) ==
      match net.ipv6Text(addr) case Some(t) => Ok(Ipv6Key(k6) + "=" + t) case None => Err(InvalidAddress)
  {
    hide Ipv4Key, Ipv6Key;
  }

  // A hardware address that Go parses to six bytes.
  predicate Ethernet(net: Net, s: string) { net.parseMac(s).Some? && |net.parseMac(s).value| == 6 }

  // A hardware address prints in its canonical form, and so does the mask behind its first slash.
  lemma DlTextMeans(net: Net, a: string, mask: string)
    requires '/' !in a
    ensures DlText(net, a) ==
      if Ethernet(net, a) then Ok(net.macText(net.parseMac(a).value)) else Err(InvalidAddress)
    ensures DlText(net, a + "/" + mask) ==
      if Ethernet(net, a) && Ethernet(net, mask)
      then Ok(net.macText(net.parseMac(a).value) + "/" + net.macText(net.parseMac(mask).value))
      else Err(InvalidAddress)
  {
    ContainsChar(a, '/');
    FirstSlash(a, mask);
    hide Index;
  }

  lemma FirstSlash(a: string, mask: string)
    requires '/' !in a
    ensures var s := a + "/" + mask; Index(s, "/") == |a| && s[..|a|] == a && s[|a| + 1..] == mask
  {
    var s := a + "/" + mask;
    forall j | 0 <= j < |a| ensures !OccursAt(s, "/", j) {
      CharAt(s, '/', j);
      assert s[j] == a[j];
    }
    CharAt(s, '/', |a|);
    IndexAt(s, "/", |a|);
  }

  // ---------- How numbers print ----------

  function Power16(k: nat): nat { if k == 0 then 1 else 16 * Power16(k - 1) }

  lemma {:induction false} HexLength(n: nat, k: nat)
    requires n < Power16(k) && k > 0
    ensures |Digits(n, 16)| <= k
  {
    if n >= 16 { HexLength(n / 16, k - 1); }
  }

  // Padding fills up with zeros on the left, never cuts, and takes no more room than asked for.
  lemma PaddingMeans(n: nat, width: nat)
    ensures var s := PaddedHex(n, width);
      && |s| >= width && |s| >= |Digits(n, 16)| && (|s| > width ==> s == Digits(n, 16))
      && s[|s| - |Digits(n, 16)|..] == Digits(n, 16)
      && forall i :: 0 <= i < |s| - |Digits(n, 16)| ==> s[i] == '0'
  {
    hide Digits;
    var d := Digits(n, 16);
    if |d| < width { ZerosMeans(width - |d|); }
  }

  lemma {:induction false} ZerosMeans(k: nat)
    ensures forall i :: 0 <= i < k ==> Zeros(k)[i] == '0'
  {
    if k > 0 { ZerosMeans(k - 1); }
  }

  // The value stands in front of the slash, the mask behind it; mask 0 is left out.
  lemma MaskedOrder(net: Net, k: MaskKind, value: nat, mask: nat)
    requires value <= 1048575 && mask <= 1048575
    ensures mask > 0 ==>
      MarshalMatch(net, MaskedMatch(k, value, mask)) ==
        Ok(MaskKey(k) + "=" + (Hex(value, HexWidth(k)) + "/" + Hex(mask, HexWidth(k))))
    ensures MarshalMatch(net, MaskedMatch(k, value, 0)) == Ok(MaskKey(k) + "=" + Hex(value, HexWidth(k)))
  {
    hide Hex, MaskKey;
  }

  // The widths of the fields with a mask, seen at zero.
  lemma PrintedWidths(net: Net)
    ensures MarshalMatch(net, MaskedMatch(VlanTci, 0, 0)) == Ok("vlan_tci=0x0000")
    ensures MarshalMatch(net, MaskedMatch(VlanTci1, 0, 0)) == Ok("vlan_tci1=0x0000")
    ensures MarshalMatch(net, MaskedMatch(Ipv6Label, 0, 0)) == Ok("ipv6_label=0x00000")
    ensures MarshalMatch(net, MaskedMatch(CtMark, 0, 0)) == Ok("ct_mark=0x00000000")
    ensures MarshalMatch(net, MaskedMatch(Metadata, 0, 0)) == Ok("metadata=0x0")
    ensures MarshalMatch(net, MaskedMatch(TunId, 0, 0)) == Ok("tun_id=0x0")
    ensures MarshalMatch(net, DlType(0)) == Ok("dl_type=0x0000")
  {
    ZeroHex();
    hide Hex, MarshalMatch;
    ZeroPrints(net, VlanTci, "0x0000", "vlan_tci=0x0000");
    ZeroPrints(net, VlanTci1, "0x0000", "vlan_tci1=0x0000");
    ZeroPrints(net, Ipv6Label, "0x00000", "ipv6_label=0x00000");
    ZeroPrints(net, CtMark, "0x00000000", "ct_mark=0x00000000");
    ZeroPrints(net, Metadata, "0x0", "metadata=0x0");
    ZeroPrints(net, TunId, "0x0", "tun_id=0x0");
    TypePrints(net);
  }

  lemma ZeroPrints(net: Net, k: MaskKind, hex: string, text: string)
    requires Hex(0, HexWidth(k)) == hex && MaskKey(k) + "=" + hex == text
    ensures MarshalMatch(net, MaskedMatch(k, 0, 0)) == Ok(text)
  {
    hide Hex, MaskKey;
  }

  lemma TypePrints(net: Net)
    requires Hex(0, 4) == "0x0000"
    ensures MarshalMatch(net, DlType(0)) == Ok("dl_type=0x0000")
  {
    hide Hex;
    assert "dl_type" + "=" + "0x0000" == "dl_type=0x0000";
  }

  lemma ZeroHex()
    ensures Hex(0, 0) == "0x0" && Hex(0, 4) == "0x0000" && Hex(0, 5) == "0x00000" && Hex(0, 8) == "0x00000000"
  {
    assert Digits(0, 16) == "0";
    assert Zeros(1) == "0" && Zeros(2) == "00" && Zeros(3) == "000" && Zeros(4) == "0000";
    assert Zeros(5) == "00000" && Zeros(6) == "000000" && Zeros(7) == "0000000";
    assert "0x" + "0000" == "0x0000" && "0x" + "00000" == "0x00000" && "0x" + "00000000" == "0x00000000";
  }
}
