/**
 From a port range to flow text and back: MaskedPorts of ovs/match.go turns a range into
 masked port matches, whose text parses to the same matches, which accept the same ports.
 */
module RangeText {
  import opened Wrappers
  import opened Text
  import opened Numerals
  import opened Bits
  import R = PortRanges
  import C = PortCover
  import opened Matches
  import opened MatchParser
  import opened MatchRoundTrip

  // The four range constructors: transport or UDP, source or destination.
  datatype Ranger = Ranger(udp: bool, dir: Dir, range: R.PortRange)

  // One match of the ranger's kind for each entry, in order.
  predicate PortsFor(ranger: Ranger, c: seq<R.BitRange>, ports: seq<Match>) {
    && |ports| == |c|
    && forall i :: 0 <= i < |c| ==>
         && ports[i].PortMatch?
         && ports[i].udp == ranger.udp && ports[i].dir == ranger.dir
         && ports[i].port == c[i].value && ports[i].mask == c[i].mask
  }

  method MaskedPorts(ranger: Ranger) returns (r: Result<seq<Match>, R.RangeError>)
    ensures r.Ok? <==> 0 < ranger.range.start <= ranger.range.end
    ensures r.Ok? ==> PortsFor(ranger, R.Cover(ranger.range.start, ranger.range.end), r.value)
  {
    var bitRanges := R.BitwiseMatch(ranger.range);
    if bitRanges.Err? {
      return Err(bitRanges.error);
    }
    var ports: seq<Match> := [];
    for i := 0 to |bitRanges.value|
      invariant PortsFor(ranger, bitRanges.value[..i], ports)
    {
      var b := bitRanges.value[i];
      ports := ports + [PortMatch(ranger.udp, ranger.dir, b.value, b.mask)];
    }
    assert bitRanges.value[..|bitRanges.value|] == bitRanges.value;
    r := Ok(ports);
  }

  // The ports of a packet.
  datatype Packet = Packet(src: u16, dst: u16)

  // The packets a port match stands for; mask 0 is written, and meant, as one exact port.
  predicate Accepts(m: Match, packet: Packet)
    requires m.PortMatch?
  {
    var p := if m.dir.Src? then packet.src else packet.dst;
    if m.mask == 0 then p == m.port else And(p, m.mask) == m.port
  }

  // How many of the matches accept the packet.
  function Accepting(ports: seq<Match>, packet: Packet): nat
    requires forall m :: m in ports ==> m.PortMatch?
  {
    if ports == [] then 0
    else Accepting(ports[..|ports| - 1], packet) + (if Accepts(ports[|ports| - 1], packet) then 1 else 0)
  }

  // The reading of one key=value field of a flow as a match.
  function ParseField(net: Net, text: string): Option<Match> {
    var kv := Split(text, "=");
    if |kv| != 2 then None
    else
      match ParseMatch(net, kv[0], kv[1])
      case Ok(Some(m)) => Some(m)
      case _ => None
  }

  lemma PortKeyText(udp: bool, dir: Dir)
    ensures '=' !in PortKey(udp, dir)
  {
  }

  lemma NoMaskIsZero(r: R.PortRange, i: nat)
    requires r.Valid() && i < |R.Cover(r.start, r.end)|
    ensures R.Cover(r.start, r.end)[i].mask != 0
  {
    hide R.Cover, Shl;
    var k := C.EntryMask(r.start, r.end, i);
    R.PortCount();
    XorLowBits(16, k);
    Pow2Strict(k, 16);
  }

  // Each match prints in the masked form under its key, and its text parses back to the same
  // match.
  lemma EntrySurvivesText(net: Net, ranger: Ranger, ports: seq<Match>, i: nat)
    requires ranger.range.Valid() && i < |ports|
    requires PortsFor(ranger, R.Cover(ranger.range.start, ranger.range.end), ports)
    ensures var m := ports[i];
      && m.PortMatch? && m.mask != 0
      && MarshalMatch(net, m) == Ok(KeyEquals(ranger.udp, ranger.dir) + Hex(m.port, 4) + "/" + Hex(m.mask, 4))
      && ParseField(net, MarshalMatch(net, m).value) == Some(m)
  {
    NoMaskIsZero(ranger.range, i);
    KeyAndValue(net, ports[i]);
    MaskedFormText(net, ports[i]);
  }

  // What the text of a match begins with: tp_src and tp_dst for both transports, udp_src and
  // udp_dst for UDP.
  function KeyEquals(udp: bool, dir: Dir): string {
    match dir
    case Src => if udp then "udp_src=" else "tp_src="
    case Dst => if udp then "udp_dst=" else "tp_dst="
  }

  lemma MaskedFormText(net: Net, m: Match)
    requires m.PortMatch? && m.mask != 0
    ensures MarshalMatch(net, m) == Ok(KeyEquals(m.udp, m.dir) + Hex(m.port, 4) + "/" + Hex(m.mask, 4))
  {
    KeyWithEquals(m.udp, m.dir);
    hide Hex, PortKey, KeyEquals;
    Regroup(MatchKey(m) + "=", Hex(m.port, 4), Hex(m.mask, 4));
  }

  lemma Regroup(k: string, v: string, w: string)
    ensures k + (v + "/" + w) == k + v + "/" + w
  {
  }

  lemma KeyWithEquals(udp: bool, dir: Dir)
    ensures PortKey(udp, dir) + "=" == KeyEquals(udp, dir)
  {
    assert "tp_src" + "=" == "tp_src=" && "tp_dst" + "=" == "tp_dst=";
    assert "udp_src" + "=" == "udp_src=" && "udp_dst" + "=" == "udp_dst=";
  }

  lemma KeyAndValue(net: Net, m: Match)
    requires m.PortMatch?
    ensures MarshalMatch(net, m).Ok? && ParseField(net, MarshalMatch(net, m).value) == Some(m)
  {
    hide PortText, ParsePort, KeyOf, Split, PortKey;
    var k, v := PortKey(m.udp, m.dir), PortText(m.port, m.mask);
    PortKeyText(m.udp, m.dir);
    PortRoundTrip(m.port, m.mask);
    PlainTrimmed(v);
    SplitFirst(k, '=', v);
    SplitNone(v, '=');
    KeyRoundTrip(KPort(m.udp, m.dir));
  }

  function Reparse(net: Net, ports: seq<Match>): seq<Option<Match>> {
    seq(|ports|, i requires 0 <= i < |ports| =>
      match MarshalMatch(net, ports[i])
      case Ok(text) => ParseField(net, text)
      case Err(_) => None)
  }

  // The matches accept a packet as often as the entries accept the port the ranger is about.
  lemma {:induction false} AcceptingIsHits(ranger: Ranger, c: seq<R.BitRange>, ports: seq<Match>, packet: Packet)
    requires PortsFor(ranger, c, ports) && forall i :: 0 <= i < |c| ==> c[i].mask != 0
    ensures Accepting(ports, packet) == C.Hits(c, if ranger.dir.Src? then packet.src else packet.dst)
  {
    if c != [] {
      AcceptingIsHits(ranger, c[..|c| - 1], ports[..|c| - 1], packet);
    }
  }

  // Printing the masked ports of a valid range and parsing each text gives the same list, and
  // exactly one match of that list accepts a packet whose source port, or destination port, as
  // the ranger says, is in the range; no match accepts any other packet.
  lemma RangeSurvivesText(net: Net, ranger: Ranger, ports: seq<Match>, packet: Packet)
    requires ranger.range.Valid() && PortsFor(ranger, R.Cover(ranger.range.start, ranger.range.end), ports)
    ensures |Reparse(net, ports)| == |ports|
    ensures forall i :: 0 <= i < |ports| ==> Reparse(net, ports)[i] == Some(ports[i])
    ensures ranger.dir.Src? ==>
      Accepting(ports, packet) == if ranger.range.start <= packet.src <= ranger.range.end then 1 else 0
    ensures ranger.dir.Dst? ==>
      Accepting(ports, packet) == if ranger.range.start <= packet.dst <= ranger.range.end then 1 else 0
  {
    hide R.Cover, MarshalMatch, ParseField, Accepting, C.Hits, KeyEquals;
    var c := R.Cover(ranger.range.start, ranger.range.end);
    forall i | 0 <= i < |c| ensures c[i].mask != 0 && Reparse(net, ports)[i] == Some(ports[i]) {
      EntrySurvivesText(net, ranger, ports, i);
    }
    AcceptingIsHits(ranger, c, ports, packet);
    C.ExactCover(ranger.range.start, ranger.range.end, if ranger.dir.Src? then packet.src else packet.dst);
  }
}
