/**
 The text of a match flow made from a flow, read back field by field: it names the flow it
 was made from.
 */
module MatchFlowReading {
  import opened Wrappers
  import opened Text
  import opened Numerals
  import opened Matches
  import F = MatchFragment
  import R = MatchRoundTrip
  import opened Flows
  import opened FlowRoundTrip
  import opened MatchFlows

  // The method MatchFlow of a flow; it sets no mask.
  function MatchFlowOf(f: FlowData): MatchFlowData {
    MatchFlowData(f.protocol, f.inPort, f.matches, f.table, f.cookie, 0)
  }

  // What the parts of the text say about a flow that held g.
  function Named(f: FlowData, g: FlowData): FlowData {
    g.(protocol := if f.protocol == "" then g.protocol else f.protocol,
       inPort := if f.inPort == 0 then g.inPort else f.inPort,
       matches := f.matches,
       table := if f.table == ANY_TABLE then g.table else f.table)
  }

  lemma PartsLead(net: Net, f: FlowData, g: FlowData)
    requires ',' !in f.protocol && '=' !in f.protocol && f.cookie == 0 && g.matches == []
    requires forall i :: 0 <= i < |f.matches| ==> F.InFragment(net, f.matches[i])
    ensures MarshalMatches(net, f.matches).Ok?
    ensures Leads(net, Segments(MatchFlowOf(f), MarshalMatches(net, f.matches).value), g, Named(f, g))
  {
    hide Leads, Sets, MarshalMatches, F.InFragment, FormatInt, InPortText, CookieText;
    var g1 := if f.protocol != "" then g.(protocol := f.protocol) else g;
    var g2 := if f.inPort != 0 then g1.(inPort := f.inPort) else g1;
    var g3 := g2.(matches := g2.matches + f.matches);
    var g4 := if f.table != ANY_TABLE then g3.(table := f.table) else g3;
    var port, table := "in_port=" + InPortText(f.inPort), "table=" + FormatInt(f.table);
    if f.protocol != "" { ProtocolSet(net, g, f.protocol); }
    OptionalLead(net, f.protocol != "", f.protocol, g, g1);
    InPortSet(net, g1, f.inPort);
    OptionalLead(net, f.inPort != 0, port, g1, g2);
    MatchesLead(net, g2, f.matches);
    TableSet(net, g3, f.table);
    OptionalLead(net, f.table != ANY_TABLE, table, g3, g4);
    var a, b := if f.protocol != "" then [f.protocol] else [], if f.inPort != 0 then [port] else [];
    var ms, c := MarshalMatches(net, f.matches).value, if f.table != ANY_TABLE then [table] else [];
    LeadsAppend(net, a, b, g, g1, g2);
    LeadsAppend(net, a + b, ms, g, g2, g3);
    LeadsAppend(net, a + b + ms, c, g, g3, g4);
    assert a + b + ms + [] == a + b + ms;
    assert a + b + ms + c == Segments(MatchFlowOf(f), ms);
    assert g4 == Named(f, g);
  }

  lemma {:induction false} NoCommaOutside(parts: seq<string>)
    requires forall i :: 0 <= i < |parts| ==> ',' !in parts[i] && parts[i] != ""
    ensures NoOuterComma(Join(parts, ","))
    ensures parts != [] ==> Join(parts, ",") != ""
  {
    if |parts| > 1 {
      hide Join;
      NoCommaOutside(parts[1..]);
      JoinStep(parts);
    }
  }

  lemma PartsNotEmpty(net: Net, f: MatchFlowData)
    requires MarshalMatches(net, f.matches).Ok?
    ensures forall i :: 0 <= i < |Segments(f, MarshalMatches(net, f.matches).value)| ==>
      Segments(f, MarshalMatches(net, f.matches).value)[i] != ""
  {
    MatchesHaveText(net, f.matches);
    hide MarshalMatches, InPortText, FormatInt, CookieText;
    var ms := MarshalMatches(net, f.matches).value;
    assert forall i :: 0 <= i < |ms| ==> '=' in ms[i];
    forall p | p in Segments(f, ms) ensures p != "" { }
  }

  // The parts with the cookie's part between them.
  lemma AroundCookie(f: FlowData, ms: seq<string>) returns (front: seq<string>, back: seq<string>)
    ensures Segments(MatchFlowOf(f.(cookie := 0)), ms) == front + back
    ensures Segments(MatchFlowOf(f), ms) ==
      front + (if f.cookie > 0 then [CookieField(f.cookie, 0)] else []) + back
  {
    front := (if f.protocol != "" then [f.protocol] else [])
             + (if f.inPort != 0 then ["in_port=" + InPortText(f.inPort)] else []) + ms;
    back := if f.table != ANY_TABLE then ["table=" + FormatInt(f.table)] else [];
  }

  lemma CookieHasNoComma(cookie: u64)
    ensures ',' !in CookieField(cookie, 0)
  {
    R.HexIsPlain(cookie, 16);
    R.PlainTrimmed(Hex(cookie, 16));
    hide PaddedHex;
  }

  // Splitting the text of a flow's match flow at commas gives parts among which the cookie, if
  // there is one, has its own; applying the others as fields gives the flow's protocol,
  // in-port, matches and table.
  lemma MatchFlowNamesFlow(net: Net, f: FlowData, g: FlowData) returns (front: seq<string>, back: seq<string>)
    requires ',' !in f.protocol && '=' !in f.protocol && g.matches == []
    requires forall i :: 0 <= i < |f.matches| ==> F.InFragment(net, f.matches[i])
    requires MatchFlowText(net, MatchFlowOf(f)).Ok?
    ensures Split(MatchFlowText(net, MatchFlowOf(f)).value, ",") ==
      front + (if f.cookie > 0 then [CookieField(f.cookie, 0)] else []) + back
    ensures ApplyFields(net, g, front + back) == (Named(f, g), None)
  {
    var f0 := f.(cookie := 0);
    PartsLead(net, f0, g);
    var ms := MarshalMatches(net, f.matches).value;
    front, back := AroundCookie(f, ms);
    LeadsMeans(net, front + back, g, Named(f, g));
    PartsNotEmpty(net, MatchFlowOf(f));
    CookieHasNoComma(f.cookie);
    var cookie := if f.cookie > 0 then [CookieField(f.cookie, 0)] else [];
    var parts := front + cookie + back;
    hide Leads, MarshalMatches, F.InFragment, Segments, Join, TrimCommas, ApplyFields, Split, CookieField;
    NoCommas(front, cookie, back);
    NoCommaOutside(parts);
    TextIsJoin(net, MatchFlowOf(f));
    if parts != [] { SplitJoin(parts, ','); }
    EmptyJoin(parts);
  }

  lemma NoCommas(front: seq<string>, cookie: seq<string>, back: seq<string>)
    requires forall i :: 0 <= i < |front + back| ==> ',' !in (front + back)[i]
    requires forall i :: 0 <= i < |cookie| ==> ',' !in cookie[i]
    ensures forall i :: 0 <= i < |front + cookie + back| ==> ',' !in (front + cookie + back)[i]
  {
    forall p | p in front || p in back ensures ',' !in p {
      assert p in front + back;
    }
  }

  lemma EmptyJoin(parts: seq<string>)
    ensures parts == [] ==> TrimCommas(Join(parts, ",")) == ""
  {
  }

  // The cookie part splits into the cookie and its mask, -1 standing for an exact match.
  lemma CookieFieldReads(cookie: u64, mask: u64)
    ensures var v := CookieText(cookie) + "/" + (if mask == 0 then "-1" else CookieText(mask));
      && Split(CookieField(cookie, mask), "=") == ["cookie", v]
      && |Split(v, "/")| == 2
      && ParseUintAnyBase(Split(v, "/")[0]) == Ok(cookie)
      && (if mask == 0 then Split(v, "/")[1] == "-1" else ParseUintAnyBase(Split(v, "/")[1]) == Ok(mask))
  {
    CookieParses(cookie);
    CookieParses(mask);
    CookieIsPlain(cookie);
    CookieIsPlain(mask);
    hide CookieText, Split, ParseUintAnyBase;
    var c, m := CookieText(cookie), if mask == 0 then "-1" else CookieText(mask);
    var v := c + "/" + m;
    SplitFirst(c, '/', m);
    SplitNone(m, '/');
    SplitFirst("cookie", '=', v);
    SplitNone(v, '=');
    assert "cookie" + "=" + v == CookieField(cookie, mask);
  }

  lemma CookieIsPlain(n: u64)
    ensures '/' !in CookieText(n) && '=' !in CookieText(n)
  {
    R.HexIsPlain(n, 16);
    R.PlainTrimmed(Hex(n, 16));
    hide PaddedHex;
  }
}
