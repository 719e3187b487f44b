/** When a flow prints, why it does not, and what the line looks like. */
module FlowPrinting {
  import opened Wrappers
  import opened Text
  import opened Numerals
  import opened Matches
  import opened MatchRoundTrip
  import opened MatchNames
  import opened Actions
  import opened Flows
  import opened MatchFlows

  // ---------- Lists ----------

  // The first element without a text, or the length of the list.
  function FirstBadAction(net: Net, actions: seq<Action>): (i: nat)
    ensures i <= |actions| && (i < |actions| ==> MarshalAction(net, actions[i]).Err?)
    ensures forall j :: 0 <= j < i ==> MarshalAction(net, actions[j]).Ok?
  {
    if actions == [] || MarshalAction(net, actions[0]).Err? then 0
    else
      var i := FirstBadAction(net, actions[1..]);
      assert forall j :: 0 < j < |actions| ==> actions[j] == actions[1..][j - 1];
      i + 1
  }

  // The texts of the actions in order, or the error of the first that has none.
  lemma {:induction false} ActionList(net: Net, actions: seq<Action>)
    ensures var r, i := MarshalActions(net, actions), FirstBadAction(net, actions);
      i < |actions| ==> r == Err(MarshalAction(net, actions[i]).error)
    ensures FirstBadAction(net, actions) == |actions| ==>
      var r := MarshalActions(net, actions);
      && r.Ok? && |r.value| == |actions|
      && forall j :: 0 <= j < |actions| ==> MarshalAction(net, actions[j]) == Ok(r.value[j])
    decreases |actions|
  {
    hide MarshalAction;
    if actions != [] {
      ActionList(net, actions[1..]);
      assert forall j :: 0 < j < |actions| ==> actions[j] == actions[1..][j - 1];
    }
  }

  function FirstBadMatch(net: Net, matches: seq<Match>): (i: nat)
    ensures i <= |matches| && (i < |matches| ==> MarshalMatch(net, matches[i]).Err?)
    ensures forall j :: 0 <= j < i ==> MarshalMatch(net, matches[j]).Ok?
  {
    if matches == [] || MarshalMatch(net, matches[0]).Err? then 0
    else
      var i := FirstBadMatch(net, matches[1..]);
      assert forall j :: 0 < j < |matches| ==> matches[j] == matches[1..][j - 1];
      i + 1
  }

  lemma {:induction false} MatchList(net: Net, matches: seq<Match>)
    ensures var r, i := MarshalMatches(net, matches), FirstBadMatch(net, matches);
      i < |matches| ==> r == Err(MarshalMatch(net, matches[i]).error)
    ensures FirstBadMatch(net, matches) == |matches| ==>
      var r := MarshalMatches(net, matches);
      && r.Ok? && |r.value| == |matches|
      && forall j :: 0 <= j < |matches| ==> MarshalMatch(net, matches[j]) == Ok(r.value[j])
    decreases |matches|
  {
    hide MarshalMatch;
    if matches != [] {
      MatchList(net, matches[1..]);
      assert forall j :: 0 < j < |matches| ==> matches[j] == matches[1..][j - 1];
    }
  }

  // ---------- drop ----------

  // Only the action drop prints as drop.
  lemma OnlyDrop(net: Net, a: Action)
    ensures MarshalAction(net, a) == Ok("drop") <==> a == WordAction(Drop)
  {
    hide FormatInt, Hex, Join;
    if a.WordAction? {
    } else if MarshalAction(net, a).Ok? {
      FirstChar(net, a);
    }
  }

  lemma FirstChar(net: Net, a: Action)
    requires !a.WordAction? && MarshalAction(net, a).Ok?
    ensures var t := MarshalAction(net, a).value; t != "" && t[0] != 'd'
  {
    hide FormatInt, Hex, Join;
  }

  predicate DropBesideOthers(actions: seq<Action>) { |actions| > 1 && WordAction(Drop) in actions }

  lemma DropSeen(net: Net, actions: seq<Action>, texts: seq<string>)
    requires |texts| == |actions| && forall j :: 0 <= j < |actions| ==> MarshalAction(net, actions[j]) == Ok(texts[j])
    ensures DropAmongOthers(texts) <==> DropBesideOthers(actions)
  {
    hide MarshalAction;
    forall j | 0 <= j < |actions| ensures texts[j] == "drop" <==> actions[j] == WordAction(Drop) {
      OnlyDrop(net, actions[j]);
    }
  }

  // ---------- When a flow prints ----------

  // A flow prints exactly if it has actions, each of them and each match prints, and drop stands
  // alone.  Otherwise the first of these reasons is the error.
  lemma FlowPrintsExactly(net: Net, f: FlowData)
    ensures var a, m := FirstBadAction(net, f.actions), FirstBadMatch(net, f.matches);
      if f.actions == [] then FlowText(net, f) == Err(NoActionsDefined)
      else if a < |f.actions| then FlowText(net, f) == Err(BadAction(MarshalAction(net, f.actions[a]).error))
      else if m < |f.matches| then FlowText(net, f) == Err(BadMatch(MarshalMatch(net, f.matches[m]).error))
      else if DropBesideOthers(f.actions) then FlowText(net, f) == Err(ActionsWithDrop)
      else FlowText(net, f).Ok?
  {
    hide MarshalAction, MarshalMatch, MarshalActions, MarshalMatches, FlowFields, Join, DropAmongOthers,
      DropBesideOthers, FirstBadAction, FirstBadMatch;
    ActionList(net, f.actions);
    MatchList(net, f.matches);
    if FirstBadAction(net, f.actions) == |f.actions| { DropSeen(net, f.actions, MarshalActions(net, f.actions).value); }
  }

  // ---------- What a flow prints as ----------

  lemma OneActionText(net: Net, a: Action, text: string)
    requires MarshalAction(net, a) == Ok(text)
    ensures MarshalActions(net, [a]) == Ok([text]) && Join([text], ",") == text && !DropAmongOthers([text])
  {
    hide MarshalAction;
    assert [a][1..] == [] && [text] + [] == [text];
    assert MarshalActions(net, []) == Ok([]);
  }

  lemma OneMatchText(net: Net, m: Match, text: string)
    requires MarshalMatch(net, m) == Ok(text)
    ensures MarshalMatches(net, [m]) == Ok([text])
  {
    hide MarshalMatch;
    assert [m][1..] == [] && [text] + [] == [text];
    assert MarshalMatches(net, []) == Ok([]);
  }

  // The line of a flow with one action and none of the parts that may be absent.
  lemma ShortLine(net: Net, f: FlowData, a: Action, action: string)
    requires f.protocol == "" && f.inPort == 0 && f.matches == [] && f.cookie == 0
    requires f.actions == [a] && MarshalAction(net, a) == Ok(action)
    ensures FlowText(net, f) == Ok("priority=" + FormatInt(f.priority) + "," + ("table=" + FormatInt(f.table) + ","
      + ("idle_timeout=" + FormatInt(f.idleTimeout))) + ",actions=" + action)
  {
    OneActionText(net, a, action);
    var p, t, i := "priority=" + FormatInt(f.priority), "table=" + FormatInt(f.table),
        "idle_timeout=" + FormatInt(f.idleTimeout);
    assert MarshalMatches(net, []) == Ok([]);
    hide MarshalAction, MarshalActions, MarshalMatches, FormatInt;
    assert FlowFields(f, []) == [p, t, i];
    hide FlowFields;
    assert [p, t, i][1..] == [t, i] && [t, i][1..] == [i];
    assert Join([t, i], ",") == t + "," + i;
  }

  // The line of a flow with every part: the protocol stands bare, the local port by its name, the
  // cookie in hexadecimal.
  lemma LongLine(net: Net, f: FlowData, m: Match, matched: string, a: Action, action: string)
    requires f.protocol != "" && f.inPort == -1 && f.cookie > 0
    requires f.matches == [m] && MarshalMatch(net, m) == Ok(matched)
    requires f.actions == [a] && MarshalAction(net, a) == Ok(action)
    ensures FlowText(net, f) == Ok("priority=" + FormatInt(f.priority) + ","
      + (f.protocol + "," + ("in_port=LOCAL" + "," + (matched + ","
      + ("table=" + FormatInt(f.table) + "," + ("idle_timeout=" + FormatInt(f.idleTimeout) + ","
      + ("cookie=" + CookieText(f.cookie))))))) + ",actions=" + action)
  {
    OneActionText(net, a, action);
    OneMatchText(net, m, matched);
    LongFields(f, matched);
    hide MarshalAction, MarshalMatch, MarshalActions, MarshalMatches, FormatInt, FlowFields, Join, CookieText;
  }

  lemma LongFields(f: FlowData, matched: string)
    requires f.protocol != "" && f.inPort == -1 && f.cookie > 0
    ensures Join(FlowFields(f, [matched]), ",") ==
      "priority=" + FormatInt(f.priority) + "," + (f.protocol + "," + ("in_port=LOCAL" + ","
      + (matched + "," + ("table=" + FormatInt(f.table) + "," + ("idle_timeout=" + FormatInt(f.idleTimeout) + ","
      + ("cookie=" + CookieText(f.cookie)))))))
  {
    var p, t, i, c := "priority=" + FormatInt(f.priority), "table=" + FormatInt(f.table),
        "idle_timeout=" + FormatInt(f.idleTimeout), "cookie=" + CookieText(f.cookie);
    hide FormatInt, CookieText;
    assert "in_port=" + InPortText(-1) == "in_port=LOCAL";
    assert FlowFields(f, [matched]) == [p, f.protocol, "in_port=LOCAL", matched, t, i, c];
    hide FlowFields, Join;
    JoinSeven(p, f.protocol, "in_port=LOCAL", matched, t, i, c);
  }

  lemma JoinSeven(a: string, b: string, c: string, d: string, e: string, f: string, g: string)
    ensures Join([a, b, c, d, e, f, g], ",") ==
      a + "," + (b + "," + (c + "," + (d + "," + (e + "," + (f + "," + g)))))
  {
    hide Join;
    JoinTwo(f, g);
    JoinHead(e, [f, g]);
    JoinHead(d, [e, f, g]);
    JoinHead(c, [d, e, f, g]);
    JoinHead(b, [c, d, e, f, g]);
    JoinHead(a, [b, c, d, e, f, g]);
    assert [e] + [f, g] == [e, f, g] && [d] + [e, f, g] == [d, e, f, g];
    assert [c] + [d, e, f, g] == [c, d, e, f, g] && [b] + [c, d, e, f, g] == [b, c, d, e, f, g];
    assert [a] + [b, c, d, e, f, g] == [a, b, c, d, e, f, g];
  }

  lemma JoinTwo(a: string, b: string)
    ensures Join([a, b], ",") == a + "," + b
  {
    assert [a, b][1..] == [b];
  }

  lemma JoinHead(a: string, rest: seq<string>)
    requires |rest| > 0
    ensures Join([a] + rest, ",") == a + "," + Join(rest, ",")
  {
    JoinFirst(a, rest, ",");
  }

  // A cookie always prints with sixteen hexadecimal digits behind 0x.
  lemma CookieWidth(cookie: u64)
    ensures |CookieText(cookie)| == 18 && CookieText(cookie)[..2] == "0x"
  {
    assert Power16(16) == 0x1_0000_0000_0000_0000 by { Powers(); }
    HexLength(cookie, 16);
    PaddingMeans(cookie, 16);
    hide PaddedHex, Power16;
  }

  lemma Powers()
    ensures Power16(16) == 0x1_0000_0000_0000_0000
  {
    assert Power16(4) == 0x1_0000;
    assert Power16(8) == 0x1_0000_0000;
    assert Power16(12) == 0x1_0000_0000_0000;
  }

  // ---------- What a flow to delete prints as ----------

  // Table -1 stands for every table: alone it is an empty match flow.
  lemma TableLine(net: Net, table: int64)
    ensures MatchFlowText(net, MatchFlowData("", 0, [], table, 0, 0)) ==
      if table == -1 then Err(EmptyMatchFlow) else Ok("table=" + FormatInt(table))
  {
    FormatIntText(table);
    var f := MatchFlowData("", 0, [], table, 0, 0);
    var t := "table=" + FormatInt(table);
    hide FormatInt;
    assert MarshalMatches(net, []) == Ok([]);
    if table == -1 {
      assert Segments(f, []) == [];
      assert TrimCommas("") == "";
    } else {
      assert Segments(f, []) == [t];
      LastOfTable(FormatInt(table));
      hide Segments;
      TrimNothing(t);
    }
  }

  lemma LastOfTable(number: string)
    requires Plain(number)
    ensures NoOuterComma("table=" + number)
  {
    var t := "table=" + number;
    assert t[|t| - 1] == if number == "" then '=' else number[|number| - 1];
    assert number != "" ==> PlainChar(number[|number| - 1]);
  }

  // The line of a match flow with every part; an exact cookie prints the mask -1.
  lemma MatchFlowLine(net: Net, f: MatchFlowData, m: Match, matched: string)
    requires f.protocol != "" && f.protocol[0] != ',' && f.inPort == -1 && f.cookie > 0 && f.table != -1
    requires f.matches == [m] && MarshalMatch(net, m) == Ok(matched)
    ensures MatchFlowText(net, f) == Ok(f.protocol + "," + ("in_port=LOCAL" + "," + (matched + ","
      + (("cookie=" + CookieText(f.cookie) + "/" + (if f.cookieMask == 0 then "-1" else CookieText(f.cookieMask))) + ","
      + ("table=" + FormatInt(f.table))))))
  {
    OneMatchText(net, m, matched);
    FormatIntText(f.table);
    LastOfTable(FormatInt(f.table));
    var c := "cookie=" + CookieText(f.cookie) + "/" + (if f.cookieMask == 0 then "-1" else CookieText(f.cookieMask));
    var t := "table=" + FormatInt(f.table);
    hide FormatInt, CookieText, MarshalMatch, MarshalMatches;
    assert "in_port=" + InPortText(-1) == "in_port=LOCAL";
    assert Segments(f, [matched]) == [f.protocol, "in_port=LOCAL", matched, c, t];
    hide Segments;
    JoinFive(f.protocol, "in_port=LOCAL", matched, c, t);
    OuterChars(f.protocol, "in_port=LOCAL" + "," + (matched + "," + (c + ",")), t);
    hide Join;
    var joined := f.protocol + "," + ("in_port=LOCAL" + "," + (matched + "," + (c + "," + t)));
    TrimNothing(joined);
  }

  lemma JoinFive(a: string, b: string, c: string, d: string, e: string)
    ensures Join([a, b, c, d, e], ",") == a + "," + (b + "," + (c + "," + (d + "," + e)))
  {
    hide Join;
    JoinTwo(d, e);
    JoinHead(c, [d, e]);
    JoinHead(b, [c, d, e]);
    JoinHead(a, [b, c, d, e]);
    assert [c] + [d, e] == [c, d, e] && [b] + [c, d, e] == [b, c, d, e];
    assert [a] + [b, c, d, e] == [a, b, c, d, e];
  }

  lemma OuterChars(a: string, middle: string, t: string)
    requires a != "" && a[0] != ',' && t != "" && NoOuterComma(t)
    ensures forall s :: s != "" && s[0] == a[0] && s[|s| - 1] == t[|t| - 1] ==> NoOuterComma(s)
  {
  }
}
