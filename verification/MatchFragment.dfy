/** Which matches parse back from their text, and the theorem that they do. */
module MatchFragment {
  import opened Wrappers
  import opened Text
  import opened Numerals
  import opened Matches
  import opened MatchParser
  import opened MatchRoundTrip
  import opened FlagLists

  // The ranges of the Go field types.
  predicate Typed(m: Match) {
    match m
    case IntMatch(k, n) => IntField(k, n) == n && MIN_INT <= n <= MAX_INT
    case MaskedMatch(k, value, mask) => value <= FieldMax(k) && mask <= FieldMax(k)
    case _ => true
  }

  // When parsing the text of a match gives the match back.  TunSrc and TunDst parse as
  // network matches, arp_op always as ArpOp, and ip_frag and arbitrary fields as nothing.
  predicate ParsesBack(net: Net, m: Match) {
    match m
    case IntMatch(k, n) => n <= IntMax(k)
    case PortMatch(_, _, _, _) => true
    case MaskedMatch(_, _, _) => true
    case CtState(states) => StatesParseBack(states)
    case TcpFlags(flags) => FlagsParseBack(flags)
    case DlType(_) => true
    case DlVlan(_) => true
    case DlVlanPcp(_) => true
    case ArpOp(_) => true
    case ArpOperation(_) => false
    case DlAddr(_, addr) => DlText(net, addr) == Ok(addr)
    case Ipv4(k, addr) => !k.TunSrc? && !k.TunDst? && net.ipv4Text(addr) == Some(addr)
    case Ipv6(k, addr) => !k.TunIpv6Src? && !k.TunIpv6Dst? && net.ipv6Text(addr) == Some(addr)
    case MacMatch(_, addr) => net.parseMac(net.macText(addr)) == Some(addr)
    case InPortMatch(port) => port <= MAX_INT32
    case IpFrag(_) => false
    case FieldMatch(_, _) => false
  }

  // The matches of the flow round trip: their text is free of separators; in_port is a field
  // of the flow itself.
  predicate InFragment(net: Net, m: Match) {
    && Typed(m) && ValueText(net, m).Ok? && !m.InPortMatch?
    && ParsesBack(net, m) && Plain(ValueText(net, m).value)
  }

  // ---------- Numbers ----------

  lemma ClampParses(n: int64, max: int)
    ensures ParseClampInt(FormatInt(n), max) == if n <= max then Ok(n) else Err(TooLarge)
  {
    hide ParseInt, FormatInt;
    ParseFormatInt(n);
  }

  lemma DecimalParsesBack(n: int64)
    ensures ParseDecimalOrHex(FormatInt(n)) == Ok(n)
  {
    hide ParseInt, FormatInt, HasPrefix;
    ParseFormatInt(n);
    FormatIntText(n);
  }

  lemma VlanNoneParsesBack()
    ensures ParseDecimalOrHex("0xffff") == Ok(0xffff)
  {
    assert "0xffff"[2..] == "ffff";
    assert "0xffff"[..2] == "0x";
    ScanFfff();
  }

  lemma ScanFfff()
    ensures ParseUint("ffff", 16, MAX_U32) == Ok(0xffff)
  {
    ScanOne('f', 16, MAX_U32, 0);
    ScanOne('f', 16, MAX_U32, 0xf);
    ScanOne('f', 16, MAX_U32, 0xff);
    ScanOne('f', 16, MAX_U32, 0xfff);
    ScanAppend("f", "fff", 16, MAX_U32, 0);
    ScanAppend("f", "ff", 16, MAX_U32, 0xf);
    ScanAppend("f", "f", 16, MAX_U32, 0xff);
    hide Scan;
    assert "f" + "fff" == "ffff" && "f" + "ff" == "fff" && "f" + "f" == "ff";
  }

  lemma ArpOpParsesBack(op: u16)
    ensures ParseArpOp(FormatInt(op)) == Ok(op)
  {
    hide Scan, Digits, HasPrefix;
    FormatIntText(op);
    ScanDigits(op, 10, MAX_U16);
  }

  lemma HexParsesBack(n: u16)
    ensures ParseHex(Hex(n, 4), MAX_U16) == Ok(n)
  {
    ParseHexText(n, 4, MAX_U16);
  }

  // The kinds whose field in Go is unsigned.
  predicate Unsigned(k: IntKind) {
    k.IcmpType? || k.IcmpCode? || k.Icmp6Type? || k.Icmp6Code? || k.NwProto? || k.CtZone? || k.ConjId?
  }

  lemma ReadByKey(net: Net, k: Key, value: string)
    ensures ParseMatch(net, KeyText(k), value) == ParseByKey(net, k, value)
  {
    KeyRoundTrip(k);
    hide KeyOf, KeyText, ParseByKey;
  }

  // A number beyond the upper bound is refused.  Any other one is read, whatever its sign; it
  // is kept exactly unless it is negative and the field unsigned.
  lemma IntTextReads(net: Net, k: IntKind, n: int64)
    ensures ParseMatch(net, IntKey(k), FormatInt(n)) ==
      if n > IntMax(k) then Err(TooLarge) else Ok(Some(IntMatch(k, IntField(k, n))))
    ensures n <= IntMax(k) ==> (IntField(k, n) == n <==> !Unsigned(k) || n >= 0)
  {
    ReadByKey(net, KInt(k), FormatInt(n));
    ClampParses(n, IntMax(k));
    hide ParseMatch, FormatInt, ParseClampInt, IntKey;
  }

  // The same of a bare port.
  lemma PortTextReads(net: Net, udp: bool, dir: Dir, n: int64)
    ensures ParseMatch(net, PortKey(udp, dir), FormatInt(n)) ==
      if n > MAX_U16 then Err(TooLarge) else Ok(Some(PortMatch(udp, dir, n % 0x1_0000, 0)))
    ensures n <= MAX_U16 ==> (n % 0x1_0000 == n <==> n >= 0)
  {
    ReadByKey(net, KPort(udp, dir), FormatInt(n));
    BarePort(n);
    hide ParseMatch, FormatInt, ParsePort, PortKey;
  }

  lemma BarePort(n: int64)
    ensures ParsePort(FormatInt(n)) == if n > MAX_U16 then Err(TooLarge) else Ok((n % 0x1_0000, 0))
  {
    ClampParses(n, MAX_U16);
    FormatIntText(n);
    SplitNone(FormatInt(n), '/');
    hide FormatInt, ParseClampInt, Split, Plain, HasPrefix;
  }

  // A decimal number in a field with a mask is never refused; it is kept exactly if it fits.
  lemma MaskedTextReads(net: Net, k: MaskKind, n: int64)
    ensures ParseMatch(net, MaskKey(k), FormatInt(n)) == Ok(Some(MaskedMatch(k, n % (FieldMax(k) + 1), 0)))
    ensures n % (FieldMax(k) + 1) == n <==> 0 <= n <= FieldMax(k)
  {
    ReadByKey(net, KMasked(k), FormatInt(n));
    BareMasked(n, FieldMax(k));
    hide ParseMatch, FormatInt, ParseMasked, MaskKey;
  }

  lemma BareMasked(n: int64, max: nat)
    ensures ParseMasked(FormatInt(n), max) == Ok((n % (max + 1), 0))
  {
    ParseFormatInt(n);
    FormatIntText(n);
    SplitNone(FormatInt(n), '/');
    hide FormatInt, ParseInt, Split, Plain, HasPrefix;
    assert ParsePart(FormatInt(n), max) == Ok(n % (max + 1));
    PartsOne(FormatInt(n), max);
    hide ParsePart, ParseParts;
  }

  lemma NegativeNumbersWrap(net: Net)
    ensures ParseMatch(net, "icmp_type", "-1") == Ok(Some(IntMatch(IcmpType, 255)))
    ensures ParseMatch(net, "tp_src", "-1") == Ok(Some(PortMatch(false, Src, 65535, 0)))
    ensures ParseMatch(net, "ct_mark", "-1") == Ok(Some(MaskedMatch(CtMark, 0xffff_ffff, 0)))
  {
    MinusOne();
    hide ParseMatch, FormatInt;
    IntTextReads(net, IcmpType, -1);
    PortTextReads(net, false, Src, -1);
    MaskedTextReads(net, CtMark, -1);
  }

  lemma MinusOne()
    ensures FormatInt(-1) == "-1"
  {
    assert Digits(1, 10) == [DigitChar(1)] == "1";
    assert "-" + "1" == "-1";
  }

  // ---------- The theorem ----------

  // A printable match parses back from its text exactly if ParsesBack says so.
  lemma ParsesBackExactly(net: Net, m: Match)
    requires Typed(m) && ValueText(net, m).Ok?
    ensures ParseMatch(net, MatchKey(m), ValueText(net, m).value) == Ok(Some(m)) <==> ParsesBack(net, m)
  {
    if m.IpFrag? || m.FieldMatch? {
      NeverParsed(net, m);
    } else {
      KeyRoundTrip(KeyFor(m).value);
      hide KeyOf, KeyText;
      if m.IntMatch? || m.InPortMatch? || m.DlVlan? || m.DlVlanPcp? || m.ArpOp? || m.ArpOperation? {
        DecimalMatch(net, m);
      } else if m.PortMatch? || m.MaskedMatch? || m.DlType? {
        HexMatch(net, m);
      } else if m.CtState? || m.TcpFlags? {
        FlagsMatch(net, m);
      } else {
        AddressMatch(net, m);
      }
    }
  }

  lemma NeverParsed(net: Net, m: Match)
    requires (m.IpFrag? || m.FieldMatch?) && ValueText(net, m).Ok?
    ensures ParseMatch(net, MatchKey(m), ValueText(net, m).value) != Ok(Some(m))
  {
    hide KeyOf, ParseCtState, ParseTcpFlags, ParseMasked, ParsePort, ParseDecimalOrHex, ParseHex, ParseArpOp,
      ParseClampInt;
  }

  lemma DecimalMatch(net: Net, m: Match)
    requires m.IntMatch? || m.InPortMatch? || m.DlVlan? || m.DlVlanPcp? || m.ArpOp? || m.ArpOperation?
    requires Typed(m) && ValueText(net, m).Ok?
    ensures ParseByKey(net, KeyFor(m).value, ValueText(net, m).value) == Ok(Some(m)) <==> ParsesBack(net, m)
  {
    hide ParseClampInt, FormatInt, ParseDecimalOrHex, ParseArpOp, IntMax;
    match m
    case IntMatch(k, n) => ClampParses(n, IntMax(k));
    case InPortMatch(n) => ClampParses(n, MAX_INT32);
    case DlVlan(vid) =>
      VlanNoneParsesBack();
      DecimalParsesBack(vid);
    case DlVlanPcp(pcp) => DecimalParsesBack(pcp);
    case ArpOp(op) => ArpOpParsesBack(op);
    case ArpOperation(op) => ArpOpParsesBack(op);
  }

  lemma HexMatch(net: Net, m: Match)
    requires m.PortMatch? || m.MaskedMatch? || m.DlType?
    requires Typed(m) && ValueText(net, m).Ok?
    ensures ParseByKey(net, KeyFor(m).value, ValueText(net, m).value) == Ok(Some(m))
    ensures Plain(ValueText(net, m).value)
  {
    hide ParsePort, PortText, MaskedText, ParseMasked, ParseHex, Hex, Plain;
    match m
    case PortMatch(_, _, port, mask) => PortRoundTrip(port, mask);
    case MaskedMatch(k, value, mask) => MaskedRoundTrip(value, mask, HexWidth(k), FieldMax(k));
    case DlType(etherType) =>
      HexParsesBack(etherType);
      HexIsPlain(etherType, 4);
  }

  lemma FlagsMatch(net: Net, m: Match)
    requires m.CtState? || m.TcpFlags?
    ensures ValueText(net, m).Ok?
    ensures ParseByKey(net, KeyFor(m).value, ValueText(net, m).value) == Ok(Some(m)) <==> ParsesBack(net, m)
  {
    hide ParseCtState, ParseTcpFlags, Join, StatesParseBack, FlagsParseBack;
    match m
    case CtState(states) => CtStatesExactly(states);
    case TcpFlags(flags) => TcpFlagsExactly(flags);
  }

  lemma AddressMatch(net: Net, m: Match)
    requires m.DlAddr? || m.Ipv4? || m.Ipv6? || m.MacMatch?
    requires ValueText(net, m).Ok?
    ensures ParseByKey(net, KeyFor(m).value, ValueText(net, m).value) == Ok(Some(m)) <==> ParsesBack(net, m)
  {
    hide DlText;
  }

  // Every match of the fragment parses back from its text, which is safe inside a flow.
  lemma MatchRoundTrips(net: Net, m: Match)
    requires InFragment(net, m)
    ensures ParseMatch(net, MatchKey(m), ValueText(net, m).value) == Ok(Some(m))
    ensures Plain(ValueText(net, m).value)
    ensures KeyFor(m).Some? && !KeyFor(m).value.KInPort?
  {
    hide ParseMatch, MatchKey;
    ParsesBackExactly(net, m);
  }
}
