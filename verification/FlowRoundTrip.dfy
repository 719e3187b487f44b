/** Unmarshaling undoes marshaling, for every well-formed flow. */
module FlowRoundTrip {
  import opened Wrappers
  import opened Text
  import opened Numerals
  import opened Matches
  import opened MatchParser
  import opened MatchRoundTrip
  import F = MatchFragment
  import opened Actions
  import opened ActionParser
  import A = ActionRoundTrip
  import opened ActionList
  import opened Flows
  import S = ActionScans

  // ---------- The fragment ----------

  // The action parses back from its text, and the text is one piece of a list.
  predicate ActionFits(net: Net, a: Action) {
    && MarshalAction(net, a).Ok? && A.AddressesPrinted(net, a) && A.Survives(net, a)
    && Whole(MarshalAction(net, a).value)
  }

  predicate WellFormed(net: Net, f: FlowData) {
    && ',' !in f.protocol && '=' !in f.protocol
    && (forall i :: 0 <= i < |f.matches| ==> F.InFragment(net, f.matches[i]))
    && f.actions != [] && (forall i :: 0 <= i < |f.actions| ==> ActionFits(net, f.actions[i]))
    && ActionTextFits(MarshalActions(net, f.actions))
  }

  // drop stands alone, and the joined text hides no actions= and no white space at its ends.
  predicate ActionTextFits(texts: Result<seq<string>, ActionError>) {
    && texts.Ok? && !DropAmongOthers(texts.value)
    && Trimmed(Join(texts.value, ",")) && !Contains(Join(texts.value, ","), "actions=")
  }

  // What unmarshaling the text of f leaves in a flow that held g: absent fields stay.
  function Merged(f: FlowData, g: FlowData): FlowData {
    f.(protocol := if f.protocol == "" then g.protocol else f.protocol,
       inPort := if f.inPort == 0 then g.inPort else f.inPort,
       cookie := if f.cookie == 0 then g.cookie else f.cookie,
       packets := g.packets, bytes := g.bytes)
  }

  // ---------- Actions ----------

  lemma {:induction false} ActionTexts(net: Net, actions: seq<Action>)
    requires forall i :: 0 <= i < |actions| ==> ActionFits(net, actions[i])
    ensures var r := MarshalActions(net, actions);
      && r.Ok? && |r.value| == |actions|
      && forall i :: 0 <= i < |actions| ==> Whole(r.value[i]) && ParseAction(net, r.value[i]) == Ok(actions[i])
  {
    if actions != [] {
      hide MarshalAction, ParseAction, Whole, A.Survives, A.AddressesPrinted;
      A.SurvivesExactly(net, actions[0]);
      ActionTexts(net, actions[1..]);
    }
  }

  lemma ActionsParseBack(net: Net, actions: seq<Action>)
    requires forall i :: 0 <= i < |actions| ==> ActionFits(net, actions[i])
    requires actions != []
    ensures var r := MarshalActions(net, actions);
      r.Ok? && r.value != [] && ParseList(net, Join(r.value, ",")) == Parsed(actions, r.value)
  {
    ActionTexts(net, actions);
    hide ActionFits, MarshalActions, ParseAction, Whole, ParseList;
    var texts := MarshalActions(net, actions).value;
    ListedIsParsed(net, Join(texts, ","), actions, texts);
  }

  // ---------- One field ----------

  // Every equals sign follows something other than ns, so actions= does not occur.
  predicate Clean(s: string) {
    ',' !in s && forall i :: 0 <= i < |s| && s[i] == '=' ==> i >= 2 && !(s[i - 1] == 's' && s[i - 2] == 'n')
  }

  predicate KeyLike(k: string) {
    Plain(k) && |k| >= 2 && !(k[|k| - 1] == 's' && k[|k| - 2] == 'n')
  }

  lemma PairField(net: Net, f: FlowData, k: string, v: string)
    requires KeyLike(k) && Plain(v)
    ensures var field := k + "=" + v;
      && Clean(field) && field != ""
      && ApplyField(net, f, field) == ApplyPair(net, f, k, v)
      && TrimSpace(k) == k
  {
    var field := k + "=" + v;
    PlainTrimmed(k);
    PlainTrimmed(v);
    assert forall i :: 0 <= i < |field| && field[i] == '=' ==> i == |k|;
    hide Contains, TrimSpace, Split, ApplyPair;
    ContainsChar(field, '=');
    SplitFirst(k, '=', v);
    SplitNone(v, '=');
    assert field[|k|] == '=';
  }

  lemma FieldKeys()
    ensures KeyLike("priority") && KeyLike("in_port") && KeyLike("table") && KeyLike("idle_timeout")
      && KeyLike("cookie")
  {
  }

  lemma FieldNames()
    ensures FieldOf("priority") == Some(FPriority) && FieldOf("in_port") == Some(FInPort)
    ensures FieldOf("table") == Some(FTable) && FieldOf("idle_timeout") == Some(FIdleTimeout)
    ensures FieldOf("cookie") == Some(FCookie)
  {
  }

  // The field k=v sets the value that k names.
  predicate Sets(net: Net, field: string, f: FlowData, g: FlowData) {
    Clean(field) && field != "" && ApplyField(net, f, field) == (g, None)
  }

  lemma PrioritySet(net: Net, f: FlowData, n: int64)
    ensures Sets(net, "priority=" + FormatInt(n), f, f.(priority := n))
  {
    hide FieldOf, ApplyField, KeyLike, Clean, FormatInt, ParseInt;
    FieldKeys(); FieldNames(); FormatIntText(n); ParseFormatInt(n);
    PairField(net, f, "priority", FormatInt(n));
    assert "priority" + "=" == "priority=";
  }

  lemma TableSet(net: Net, f: FlowData, n: int64)
    ensures Sets(net, "table=" + FormatInt(n), f, f.(table := n))
  {
    hide FieldOf, ApplyField, KeyLike, Clean, FormatInt, ParseInt;
    FieldKeys(); FieldNames(); FormatIntText(n); ParseFormatInt(n);
    PairField(net, f, "table", FormatInt(n));
    assert "table" + "=" == "table=";
  }

  lemma IdleTimeoutSet(net: Net, f: FlowData, n: int64)
    ensures Sets(net, "idle_timeout=" + FormatInt(n), f, f.(idleTimeout := n))
  {
    hide FieldOf, ApplyField, KeyLike, Clean, FormatInt, ParseInt;
    FieldKeys(); FieldNames(); FormatIntText(n); ParseFormatInt(n);
    PairField(net, f, "idle_timeout", FormatInt(n));
    assert "idle_timeout" + "=" == "idle_timeout=";
  }

  lemma NumberIsNotLocal(n: int64)
    ensures TrimSpace(FormatInt(n)) != "LOCAL" && TrimSpace("LOCAL") == "LOCAL" && Plain("LOCAL")
  {
    FormatIntText(n);
    PlainTrimmed(FormatInt(n));
    ParseFormatInt(n);
    hide FormatInt, TrimSpace;
    PlainTrimmed("LOCAL");
    assert ParseInt("LOCAL") == Err(Syntax);
  }

  lemma InPortSet(net: Net, f: FlowData, n: int64)
    ensures Sets(net, "in_port=" + InPortText(n), f, f.(inPort := n))
  {
    NumberIsNotLocal(n);
    hide FieldOf, ApplyField, KeyLike, Clean, FormatInt, ParseInt, TrimSpace, Plain;
    FieldKeys(); FieldNames(); FormatIntText(n); ParseFormatInt(n);
    PairField(net, f, "in_port", InPortText(n));
    assert "in_port" + "=" == "in_port=";
  }

  lemma NoUnderscores(s: string)
    requires HexText(s)
    ensures WithoutUnderscores(s) == s && '_' !in s
  {
    if s != "" { NoUnderscores(s[1..]); }
  }

  // The cookie's base is told by its prefix.
  lemma CookieParses(n: u64)
    ensures ParseUintAnyBase(CookieText(n)) == Ok(n)
  {
    var h := PaddedHex(n, 16);
    ParsePaddedHex(n, 16, MAX_U64);
    PaddedHexIsHex(n, 16);
    PaddedHexNotEmpty(n, 16);
    NoUnderscores(h);
    hide PaddedHex, HexText, Scan, WithoutUnderscores;
    var s := "0x" + h;
    assert s[2..] == h && s[0] == '0' && s[1] == 'x';
    assert BasePrefix(s) == (16, h);
  }

  lemma PaddedHexNotEmpty(n: nat, width: nat)
    ensures PaddedHex(n, width) != ""
  {
    hide Digits;
  }

  lemma CookieSet(net: Net, f: FlowData, n: u64)
    ensures Sets(net, "cookie=" + CookieText(n), f, f.(cookie := n))
  {
    CookieParses(n);
    HexIsPlain(n, 16);
    hide FieldOf, ApplyField, KeyLike, Clean, ParseUintAnyBase, PaddedHex, TrimSpace, Plain;
    FieldKeys(); FieldNames();
    PairField(net, f, "cookie", CookieText(n));
    assert "cookie" + "=" == "cookie=";
  }

  lemma ProtocolSet(net: Net, f: FlowData, p: string)
    requires p != "" && ',' !in p && '=' !in p
    ensures Sets(net, p, f, f.(protocol := p))
  {
    hide Contains;
    ContainsChar(p, '=');
  }

  // ---------- Match fields ----------

  // A match key is no separator, no field of the flow, and does not end like actions.
  predicate MatchKeyFits(k: string) { KeyLike(k) && FieldOf(k) == None }

  predicate KeyChar(c: char) { 'a' <= c <= 'z' || '0' <= c <= '9' || c == '_' }

  predicate KeyWord(k: string) {
    && |k| >= 5 && (forall i :: 0 <= i < |k| ==> KeyChar(k[i]))
    && !(k[|k| - 1] == 's' && k[|k| - 2] == 'n')
  }

  lemma KeyWordIsKeyLike(k: string)
    requires KeyWord(k)
    ensures KeyLike(k)
  {
    forall i | 0 <= i < |k| ensures PlainChar(k[i]) { assert KeyChar(k[i]); }
  }

  lemma IntKeyWord(k: IntKind)
    ensures KeyWord(IntKey(k))
  {
  }

  lemma IntKeyUnknown(k: IntKind)
    ensures FieldOf(IntKey(k)) == None
  {
  }

  lemma MacKeyFits(k: MacKind)
    ensures KeyWord(MacKey(k)) && FieldOf(MacKey(k)) == None
  {
  }

  lemma Ipv4KeyFits(k: Ipv4Kind)
    ensures KeyWord(Ipv4Key(k)) && FieldOf(Ipv4Key(k)) == None
  {
  }

  lemma Ipv6KeyFits(k: Ipv6Kind)
    ensures KeyWord(Ipv6Key(k)) && FieldOf(Ipv6Key(k)) == None
  {
  }

  lemma MaskKeyFits(k: MaskKind)
    ensures KeyWord(MaskKey(k)) && FieldOf(MaskKey(k)) == None
  {
  }

  lemma PortKeyFits(udp: bool, dir: Dir)
    ensures KeyWord(PortKey(udp, dir)) && FieldOf(PortKey(udp, dir)) == None
  {
  }

  lemma DlKeyFits(dir: Dir)
    ensures KeyWord(DlKey(dir)) && FieldOf(DlKey(dir)) == None
  {
  }

  lemma FlagKeysFit()
    ensures KeyWord("arp_op") && KeyWord("ct_state") && KeyWord("tcp_flags")
    ensures FieldOf("arp_op") == None && FieldOf("ct_state") == None && FieldOf("tcp_flags") == None
  {
  }

  lemma LinkKeysFit()
    ensures KeyWord("dl_type") && KeyWord("dl_vlan_pcp") && KeyWord("dl_vlan")
    ensures FieldOf("dl_type") == None && FieldOf("dl_vlan_pcp") == None && FieldOf("dl_vlan") == None
  {
  }

  lemma KeyFits(k: Key)
    requires !k.KInPort?
    ensures MatchKeyFits(KeyText(k))
  {
    hide FieldOf, KeyWord, KeyLike, IntKey, MacKey, Ipv4Key, Ipv6Key, MaskKey, PortKey, DlKey;
    match k {
      case KMac(mac) => MacKeyFits(mac);
      case KInt(ikind) => IntKeyWord(ikind); IntKeyUnknown(ikind);
      case KIpv4(ip4) => Ipv4KeyFits(ip4);
      case KIpv6(ip6) => Ipv6KeyFits(ip6);
      case KMasked(kind) => MaskKeyFits(kind);
      case KPort(udp, dir) => PortKeyFits(udp, dir);
      case KDlAddr(dir) => DlKeyFits(dir);
      case _ => FlagKeysFit(); LinkKeysFit();
    }
    KeyWordIsKeyLike(KeyText(k));
  }

  lemma MatchSet(net: Net, f: FlowData, m: Match)
    requires F.InFragment(net, m)
    ensures MarshalMatch(net, m).Ok?
    ensures Sets(net, MarshalMatch(net, m).value, f, f.(matches := f.matches + [m]))
  {
    F.MatchRoundTrips(net, m);
    KeyFits(KeyFor(m).value);
    assert MatchKey(m) == KeyText(KeyFor(m).value) && ValueText(net, m).Ok?;
    hide MatchKey, KeyText, KeyFor, F.InFragment, ValueText, ParseMatch, ApplyField, KeyLike, Clean, FieldOf,
      TrimSpace, Plain;
    PairField(net, f, MatchKey(m), ValueText(net, m).value);
  }

  // ---------- All fields ----------

  // The fields, in order, lead from f to g.
  predicate Leads(net: Net, fields: seq<string>, f: FlowData, g: FlowData) {
    && ApplyFields(net, f, fields) == (g, None)
    && forall i :: 0 <= i < |fields| ==> Clean(fields[i])
  }

  lemma LeadsOne(net: Net, field: string, f: FlowData, g: FlowData)
    requires Sets(net, field, f, g)
    ensures Leads(net, [field], f, g)
  {
    hide Clean, ApplyField;
    assert [field][1..] == [];
    assert ApplyFields(net, g, []) == (g, None);
  }

  lemma {:induction false} LeadsAppend(net: Net, a: seq<string>, b: seq<string>, f: FlowData, g: FlowData, h: FlowData)
    requires Leads(net, a, f, g) && Leads(net, b, g, h)
    ensures Leads(net, a + b, f, h)
    decreases |a|
  {
    hide Clean, ApplyField;
    if a == [] {
      assert a + b == b;
    } else {
      assert (a + b)[1..] == a[1..] + b;
      LeadsAppend(net, a[1..], b, ApplyField(net, f, a[0]).0, g, h);
    }
  }

  lemma LeadsNone(net: Net, f: FlowData)
    ensures Leads(net, [], f, f)
  {
  }

  lemma {:induction false} MatchesLead(net: Net, f: FlowData, ms: seq<Match>)
    requires forall i :: 0 <= i < |ms| ==> F.InFragment(net, ms[i])
    ensures MarshalMatches(net, ms).Ok?
    ensures Leads(net, MarshalMatches(net, ms).value, f, f.(matches := f.matches + ms))
    decreases |ms|
  {
    hide F.InFragment, MarshalMatch, Leads, Sets;
    if ms == [] {
      LeadsNone(net, f);
      assert f.matches + ms == f.matches;
    } else {
      var g := f.(matches := f.matches + [ms[0]]);
      MatchSet(net, f, ms[0]);
      MatchesLead(net, g, ms[1..]);
      var text := MarshalMatch(net, ms[0]).value;
      LeadsOne(net, text, f, g);
      assert g.matches + ms[1..] == f.matches + ms;
      LeadsAppend(net, [text], MarshalMatches(net, ms[1..]).value, f, g, f.(matches := f.matches + ms));
    }
  }

  lemma OptionalLead(net: Net, present: bool, field: string, f: FlowData, g: FlowData)
    requires present ==> Sets(net, field, f, g)
    ensures Leads(net, if present then [field] else [], f, if present then g else f)
  {
    hide Sets, Leads;
    if present { LeadsOne(net, field, f, g); } else { LeadsNone(net, f); }
  }

  // The priority and the two optional fields behind it.
  lemma FrontLeads(net: Net, f: FlowData, g: FlowData)
    requires ',' !in f.protocol && '=' !in f.protocol
    ensures Leads(net,
      ["priority=" + FormatInt(f.priority)]
      + (if f.protocol != "" then [f.protocol] else [])
      + (if f.inPort != 0 then ["in_port=" + InPortText(f.inPort)] else []),
      g,
      g.(priority := f.priority,
         protocol := if f.protocol == "" then g.protocol else f.protocol,
         inPort := if f.inPort == 0 then g.inPort else f.inPort))
  {
    hide Leads, Sets, FormatInt, InPortText;
    var g1 := g.(priority := f.priority);
    var g2 := if f.protocol != "" then g1.(protocol := f.protocol) else g1;
    var g3 := if f.inPort != 0 then g2.(inPort := f.inPort) else g2;
    var a, b := "priority=" + FormatInt(f.priority), "in_port=" + InPortText(f.inPort);
    PrioritySet(net, g, f.priority);
    LeadsOne(net, a, g, g1);
    if f.protocol != "" { ProtocolSet(net, g1, f.protocol); }
    OptionalLead(net, f.protocol != "", f.protocol, g1, g2);
    InPortSet(net, g2, f.inPort);
    OptionalLead(net, f.inPort != 0, b, g2, g3);
    var p, q := if f.protocol != "" then [f.protocol] else [], if f.inPort != 0 then [b] else [];
    LeadsAppend(net, [a], p, g, g1, g2);
    LeadsAppend(net, [a] + p, q, g, g2, g3);
  }

  // The fields behind the matches.
  lemma BackLeads(net: Net, f: FlowData, g: FlowData)
    ensures Leads(net,
      ["table=" + FormatInt(f.table)]
      + ["idle_timeout=" + FormatInt(f.idleTimeout)]
      + (if f.cookie > 0 then ["cookie=" + CookieText(f.cookie)] else []),
      g,
      g.(table := f.table, idleTimeout := f.idleTimeout, cookie := if f.cookie == 0 then g.cookie else f.cookie))
  {
    hide Leads, Sets, FormatInt, CookieText;
    var g1 := g.(table := f.table);
    var g2 := g1.(idleTimeout := f.idleTimeout);
    var g3 := if f.cookie > 0 then g2.(cookie := f.cookie) else g2;
    var a, b := "table=" + FormatInt(f.table), "idle_timeout=" + FormatInt(f.idleTimeout);
    var c := "cookie=" + CookieText(f.cookie);
    TableSet(net, g, f.table);
    LeadsOne(net, a, g, g1);
    IdleTimeoutSet(net, g1, f.idleTimeout);
    LeadsOne(net, b, g1, g2);
    CookieSet(net, g2, f.cookie);
    OptionalLead(net, f.cookie > 0, c, g2, g3);
    LeadsAppend(net, [a], [b], g, g1, g2);
    LeadsAppend(net, [a] + [b], if f.cookie > 0 then [c] else [], g, g2, g3);
  }

  lemma FieldsLead(net: Net, f: FlowData, g: FlowData)
    requires ',' !in f.protocol && '=' !in f.protocol
    requires forall i :: 0 <= i < |f.matches| ==> F.InFragment(net, f.matches[i])
    requires g.matches == []
    ensures MarshalMatches(net, f.matches).Ok?
    ensures Leads(net, FlowFields(f, MarshalMatches(net, f.matches).value), g, Merged(f, g).(actions := g.actions))
  {
    hide Leads, MarshalMatches, F.InFragment, FormatInt, InPortText, CookieText;
    var g1 := g.(priority := f.priority,
         protocol := if f.protocol == "" then g.protocol else f.protocol,
         inPort := if f.inPort == 0 then g.inPort else f.inPort);
    var g2 := g1.(matches := g1.matches + f.matches);
    var g3 := g2.(table := f.table, idleTimeout := f.idleTimeout,
                  cookie := if f.cookie == 0 then g2.cookie else f.cookie);
    FrontLeads(net, f, g);
    MatchesLead(net, g1, f.matches);
    BackLeads(net, f, g2);
    var front := ["priority=" + FormatInt(f.priority)]
      + (if f.protocol != "" then [f.protocol] else [])
      + (if f.inPort != 0 then ["in_port=" + InPortText(f.inPort)] else []);
    var ms := MarshalMatches(net, f.matches).value;
    var back := ["table=" + FormatInt(f.table)]
      + ["idle_timeout=" + FormatInt(f.idleTimeout)]
      + (if f.cookie > 0 then ["cookie=" + CookieText(f.cookie)] else []);
    LeadsAppend(net, front, ms, g, g1, g2);
    LeadsAppend(net, front + ms, back, g, g2, g3);
    assert front + ms + back == FlowFields(f, ms);
    assert g3.matches == f.matches;
  }

  // ---------- Cutting the text ----------

  predicate NoActionsKey(s: string) {
    forall i :: 0 <= i < |s| && s[i] == '=' ==> i >= 2 && !(s[i - 1] == 's' && s[i - 2] == 'n')
  }

  lemma {:induction false} JoinedFields(fields: seq<string>)
    requires forall i :: 0 <= i < |fields| ==> Clean(fields[i])
    ensures NoActionsKey(Join(fields, ","))
    decreases |fields|
  {
    if |fields| > 1 {
      hide Join;
      JoinedFields(fields[1..]);
      JoinedTwo(fields[0], Join(fields[1..], ","));
      JoinStep(fields);
    }
  }

  lemma JoinStep(fields: seq<string>)
    requires |fields| > 1
    ensures Join(fields, ",") == fields[0] + "," + Join(fields[1..], ",")
  {
  }

  lemma JoinedTwo(a: string, b: string)
    requires NoActionsKey(a) && NoActionsKey(b)
    ensures NoActionsKey(a + "," + b)
  {
    var s := a + "," + b;
    assert forall i :: |a| < i < |s| ==> s[i] == b[i - |a| - 1];
  }

  const KEY := "actions="

  // actions= occurs in no place before its own.
  lemma KeyFirst(head: string, acts: string)
    requires NoActionsKey(head)
    ensures Index(head + KEY + acts, KEY) == |head|
  {
    var s := head + KEY + acts;
    assert s == head + (KEY + acts);
    assert s[|head|..] == KEY + acts;
    forall j | 0 <= j < |head| ensures !OccursAt(s, KEY, j) {
      KeyNotBefore(head, acts, s, j);
    }
    PrefixHere(KEY, acts);
    IndexAt(s, KEY, |head|);
  }

  lemma KeyNotBefore(head: string, acts: string, s: string, j: nat)
    requires NoActionsKey(head) && j < |head| && s == head + (KEY + acts)
    ensures !OccursAt(s, KEY, j)
  {
    hide OccursAt, NoActionsKey;
    var n := |head|;
    assert |KEY| == 8 && KEY[7] == '=' && KEY[6] == 's' && KEY[5] == 'n';
    if j + 7 >= n {
      var o := j + 7 - n;
      assert s[n + o] == KEY[o];
      assert forall i :: 0 <= i < 7 ==> KEY[i] != '=';
      S.NotAt(s, KEY, j, 7);
    } else {
      KeyInHead(head, s, j);
    }
  }

  lemma KeyInHead(head: string, s: string, j: nat)
    requires NoActionsKey(head) && j + 7 < |head| && |s| > |head| && s[..|head|] == head
    ensures !OccursAt(s, KEY, j)
  {
    hide OccursAt;
    assert s[j + 7] == head[j + 7] && s[j + 6] == head[j + 6] && s[j + 5] == head[j + 5];
    assert |KEY| == 8 && KEY[7] == '=' && KEY[6] == 's' && KEY[5] == 'n';
    S.NotAt(s, KEY, j, if s[j + 7] != '=' then 7 else if s[j + 6] != 's' then 6 else 5);
  }

  lemma CutFirst(head: string, acts: string)
    requires NoActionsKey(head)
    ensures Split(head + KEY + acts, KEY) == [head] + Split(acts, KEY)
  {
    var s := head + KEY + acts;
    KeyFirst(head, acts);
    hide Index, NoActionsKey;
    assert s[..|head|] == head;
    assert s[|head| + |KEY|..] == acts;
  }

  lemma CutAtKey(head: string, acts: string)
    requires NoActionsKey(head) && !Contains(acts, KEY)
    ensures Split(head + KEY + acts, KEY) == [head, acts]
  {
    CutFirst(head, acts);
    assert Split(acts, KEY) == [acts];
    hide Split, Contains, NoActionsKey;
    assert [head] + [acts] == [head, acts];
  }

  lemma CutAtTwoKeys(head: string, acts: string)
    requires NoActionsKey(head) && Contains(acts, KEY)
    ensures |Split(head + KEY + acts, KEY)| > 2
  {
    CutFirst(head, acts);
    SplitMore(acts);
    hide Split, Contains, NoActionsKey;
  }

  // In the printed form a comma stands before actions=.
  lemma CommaBeforeKey(head: string, acts: string)
    requires NoActionsKey(head)
    ensures NoActionsKey(head + ",")
    ensures head + ",actions=" + acts == head + "," + KEY + acts
  {
    assert "," + KEY == ",actions=";
    assert head + ("," + KEY) == head + "," + KEY;
  }

  lemma SplitMore(acts: string)
    requires Contains(acts, KEY)
    ensures |Split(acts, KEY)| > 1
  {
    hide HasPrefix;
  }

  // The comma behind the last field leaves one empty field, which changes nothing.
  lemma CutFields(net: Net, fields: seq<string>, f: FlowData, g: FlowData)
    requires fields != [] && Leads(net, fields, f, g)
    requires fields[0] != "" && !IsSpace(fields[0][0])
    ensures ApplyFields(net, f, Split(TrimSpace(Join(fields, ",") + ","), ",")) == (g, None)
  {
    var all := fields + [""];
    LeadsEmptyField(net, g);
    LeadsAppend(net, fields, [""], f, g, g);
    LeadsMeans(net, all, f, g);
    JoinAppend(fields, [""], ",");
    JoinLast();
    hide Leads, ApplyFields, Join, IsSpace, TrimSpace, Split;
    var s := Join(fields, ",") + ",";
    assert s + "" == s;
    SplitJoin(all, ',');
    FirstOfJoin(fields);
    TrimmedWithComma(s);
  }

  lemma JoinLast()
    ensures Join([""], ",") == ""
  {
  }

  lemma FirstOfJoin(fields: seq<string>)
    requires fields != [] && fields[0] != ""
    ensures Join(fields, ",") != "" && Join(fields, ",")[0] == fields[0][0]
  {
  }

  lemma TrimmedWithComma(s: string)
    requires |s| > 1 && !IsSpace(s[0]) && s[|s| - 1] == ','
    ensures TrimSpace(s) == s
  {
    TrimSpaceTrimmed(s);
  }

  lemma LeadsEmptyField(net: Net, f: FlowData)
    ensures Leads(net, [""], f, f)
  {
    ContainsChar("", '=');
    hide Contains;
    assert [""][1..] == [];
  }

  // ---------- The theorem ----------

  lemma TextOf(net: Net, f: FlowData)
    requires WellFormed(net, f) && MarshalMatches(net, f.matches).Ok?
    ensures var acts := MarshalActions(net, f.actions).value;
      var fields := FlowFields(f, MarshalMatches(net, f.matches).value);
      FlowText(net, f) == Ok(Join(fields, ",") + ",actions=" + Join(acts, ","))
  {
    hide MarshalActions, MarshalMatches, FlowFields, Join, F.InFragment, ActionFits, Trimmed, Contains;
  }

  lemma FieldsBegin(f: FlowData, matches: seq<string>)
    ensures var fields := FlowFields(f, matches);
      fields != [] && fields[0] != "" && !IsSpace(fields[0][0])
  {
    hide FormatInt, InPortText, CookieText;
    assert FlowFields(f, matches)[0] == "priority=" + FormatInt(f.priority);
  }

  // Unmarshaling the text of a well-formed flow f into a flow g gives f again, apart from
  // the fields that f's text leaves out, which keep the values of g.
  lemma UnmarshalUndoesMarshal(net: Net, f: FlowData, g: FlowData)
    requires WellFormed(net, f)
    ensures FlowText(net, f).Ok? && ParseInto(net, g, FlowText(net, f).value) == (Merged(f, g), None)
  {
    hide MarshalActions, MarshalMatches, FlowFields, Join, F.InFragment, ActionFits, Trimmed, Contains, Leads,
      ApplyFields, Split, TrimSpace, ParseList, FlowText;
    FieldsLead(net, f, g.(matches := []));
    TextOf(net, f);
    var fields := FlowFields(f, MarshalMatches(net, f.matches).value);
    var head, acts := Join(fields, ","), Join(MarshalActions(net, f.actions).value, ",");
    FieldsBegin(f, MarshalMatches(net, f.matches).value);
    LeadsMeans(net, fields, g.(matches := []), Merged(f, g).(actions := g.actions));
    JoinedFields(fields);
    CommaBeforeKey(head, acts);
    CutAtKey(head + ",", acts);
    CutFields(net, fields, g.(matches := []), Merged(f, g).(actions := g.actions));
    TrimSpaceTrimmed(acts);
    ActionsParseBack(net, f.actions);
    assert acts != "" by { SomeActions(net, f.actions); }
  }

  lemma LeadsMeans(net: Net, fields: seq<string>, f: FlowData, g: FlowData)
    requires Leads(net, fields, f, g)
    ensures ApplyFields(net, f, fields) == (g, None)
    ensures forall i :: 0 <= i < |fields| ==> Clean(fields[i])
    ensures forall p :: p in fields ==> ',' !in p
  {
    hide ApplyFields;
  }

  lemma SomeActions(net: Net, actions: seq<Action>)
    requires actions != [] && forall i :: 0 <= i < |actions| ==> ActionFits(net, actions[i])
    ensures var r := MarshalActions(net, actions); r.Ok? && Join(r.value, ",") != ""
  {
    ActionsParseBack(net, actions);
    EndIsEmpty("");
    hide MarshalActions, ActionFits, Join, ReadPiece;
  }

  // With actions= inside an action the text is printed all the same, but no longer read:
  // the condition on it is needed.
  lemma HiddenKeyIsRejected(net: Net, f: FlowData, g: FlowData)
    requires ',' !in f.protocol && '=' !in f.protocol
    requires forall i :: 0 <= i < |f.matches| ==> F.InFragment(net, f.matches[i])
    requires FlowText(net, f).Ok?
    ensures Contains(Join(MarshalActions(net, f.actions).value, ","), KEY) ==>
      ParseInto(net, g, FlowText(net, f).value) == (g, Some(NoActionsDefined))
  {
    FieldsLead(net, f, g.(matches := []));
    hide MarshalActions, MarshalMatches, FlowFields, Join, F.InFragment, Contains, Leads, ApplyFields, Split, ParseList;
    var fields := FlowFields(f, MarshalMatches(net, f.matches).value);
    LeadsMeans(net, fields, g.(matches := []), Merged(f, g).(actions := g.actions));
    JoinedFields(fields);
    var acts := Join(MarshalActions(net, f.actions).value, ",");
    CommaBeforeKey(Join(fields, ","), acts);
    if Contains(acts, KEY) { CutAtTwoKeys(Join(fields, ",") + ",", acts); }
  }

  // An in_port match prints like the field of the flow, and is read as that field.
  lemma InPortMatchIsTheField(net: Net, f: FlowData, n: int64)
    ensures MarshalMatch(net, InPortMatch(n)).Ok?
    ensures ApplyField(net, f, MarshalMatch(net, InPortMatch(n)).value) == (f.(inPort := n), None)
  {
    NumberIsNotLocal(n);
    hide FieldOf, ApplyField, KeyLike, FormatInt, ParseInt, TrimSpace, Plain, Clean;
    FieldKeys(); FieldNames(); FormatIntText(n); ParseFormatInt(n);
    PairField(net, f, "in_port", FormatInt(n));
  }

  // Into a fresh flow, every field comes back.
  lemma FlowRoundTrips(net: Net, f: FlowData)
    requires WellFormed(net, f) && f.packets == 0 && f.bytes == 0
    ensures FlowText(net, f).Ok? && ParseInto(net, NEW_FLOW, FlowText(net, f).value) == (f, None)
  {
    hide WellFormed, FlowText, ParseInto;
    UnmarshalUndoesMarshal(net, f, NEW_FLOW);
  }

  lemma {:induction false} FlatDepth(s: string)
    requires '(' !in s && ')' !in s
    ensures Depth(s) == 0
  {
    if s != "" { FlatDepth(s[..|s| - 1]); }
  }

  // A text without parentheses, commas and NULs is one piece of a list.
  lemma FlatIsWhole(s: string)
    requires '(' !in s && ')' !in s && ',' !in s && EOF !in s
    ensures Whole(s)
  {
    FlatDepth(s);
    forall i | 0 <= i <= |s| ensures Depth(s[..i]) == 0 { FlatDepth(s[..i]); }
    hide Depth;
  }

  lemma OutputText(net: Net, port: int64)
    requires port >= 0
    ensures var t := "output:" + FormatInt(port);
      && MarshalAction(net, Output(port)) == Ok(t) && Whole(t) && Trimmed(t) && '=' !in t
  {
    S.DigitsText(port);
    PositiveText(port);
    hide *;
    DigitsBehind(FormatInt(port));
    FlatIsWhole("output:" + FormatInt(port));
    OutputMarshals(net, port);
  }

  lemma OutputMarshals(net: Net, port: int64)
    requires port >= 0
    ensures MarshalAction(net, Output(port)) == Ok("output:" + FormatInt(port))
  {
    hide FormatInt;
  }

  lemma PositiveText(n: nat)
    ensures FormatInt(n) == Digits(n, 10)
  {
  }

  lemma DigitsBehind(d: string)
    requires S.AllDigits(d)
    ensures var t := "output:" + d;
      '(' !in t && ')' !in t && ',' !in t && '=' !in t && EOF !in t && Trimmed(t)
  {
    var t := "output:" + d;
    assert t[|t| - 1] == if d == "" then ':' else d[|d| - 1];
  }

  // Among the well-formed flows are those without matches that output to one port.
  lemma OutputFlowsAreWellFormed(net: Net, f: FlowData, port: int64)
    requires ',' !in f.protocol && '=' !in f.protocol && f.matches == []
    requires port >= 0 && f.actions == [Output(port)]
    ensures WellFormed(net, f)
  {
    OutputText(net, port);
    hide MarshalAction, Whole, FormatInt, Trimmed, Contains;
    var t := "output:" + FormatInt(port);
    OneText(net, Output(port), t);
    NoKeyWithoutEquals(t);
  }

  lemma OneText(net: Net, a: Action, t: string)
    requires MarshalAction(net, a) == Ok(t)
    ensures MarshalActions(net, [a]) == Ok([t])
  {
    hide MarshalAction;
    assert [a][1..] == [];
    assert MarshalActions(net, []) == Ok([]);
    assert [t] + [] == [t];
  }

  lemma NoKeyWithoutEquals(s: string)
    requires '=' !in s
    ensures !Contains(s, KEY)
  {
    ContainsIff(s, KEY);
    forall i | 0 <= i <= |s| ensures !OccursAt(s, KEY, i) { S.NotAt(s, KEY, i, 7); }
  }

  // The two methods of the class, one after the other.
  method MarshalThenUnmarshal(net: Net, f: Flow) returns (g: Flow)
    requires WellFormed(net, f.Data()) && f.packets == 0 && f.bytes == 0
    ensures fresh(g) && g.Data() == f.Data()
  {
    hide WellFormed, FlowText, ParseInto;
    FlowRoundTrips(net, f.Data());
    var text := f.MarshalText(net);
    g := new Flow();
    var e := g.UnmarshalText(net, text.value);
  }
}
