/**
 Flows as ovs-ofctl dumps them: white space, not a comma, stands before actions=, and there may
 be more of it at the ends.
 */
module FlowDump {
  import opened Wrappers
  import opened Text
  import opened Numerals
  import opened Matches
  import opened MatchParser
  import opened MatchRoundTrip
  import opened Actions
  import opened ActionParser
  import A = ActionRoundTrip
  import P = FlowPrinting
  import opened ActionList
  import opened Flows
  import opened FlowRoundTrip
  import S = ActionScans

  // A line of a dump: the fields, white space, and the actions.
  function DumpText(before: string, fields: seq<string>, between: string, acts: string): string {
    before + Join(fields, ",") + between + "actions=" + acts
  }

  lemma KeyFreeAround(a: string, s: string, b: string)
    requires AllSpace(a) && AllSpace(b) && NoActionsKey(s)
    ensures NoActionsKey(a + s + b)
  {
    var t := a + s + b;
    forall i | 0 <= i < |t| && t[i] == '=' ensures i >= 2 && !(t[i - 1] == 's' && t[i - 2] == 'n') {
      assert i >= |a| ==> i < |a| + |s| && s[i - |a|] == '=';
    }
  }

  // Splitting the fields at commas gives all of them; the empty text gives one empty field,
  // which changes nothing.
  lemma FieldsRead(net: Net, fields: seq<string>, f: FlowData, g: FlowData)
    requires Leads(net, fields, f, g)
    ensures ApplyFields(net, f, Split(Join(fields, ","), ",")) == (g, None)
  {
    LeadsMeans(net, fields, f, g);
    if fields == [] {
      SplitNone("", ',');
      LeadsEmptyField(net, f);
      assert ApplyFields(net, f, []) == (f, None);
    } else {
      hide Leads, ApplyFields;
      SplitJoin(fields, ',');
    }
  }

  // The line is cut at actions= into the fields, without the white space around them, and the
  // actions.
  lemma DumpCut(net: Net, g: FlowData, before: string, fields: seq<string>, between: string, acts: string)
    requires AllSpace(before) && AllSpace(between) && forall i :: 0 <= i < |fields| ==> Clean(fields[i])
    requires Trimmed(Join(fields, ",")) && acts != "" && !Contains(acts, KEY)
    ensures var (h, e) := ApplyFields(net, g.(matches := []), Split(Join(fields, ","), ","));
      ParseInto(net, g, DumpText(before, fields, between, acts)) ==
        if e.Some? then (h, e) else ApplyActions(net, h, TrimSpace(acts))
  {
    JoinedFields(fields);
    hide Split, TrimSpace, Join, Contains, Trimmed, AllSpace, NoActionsKey, ApplyFields, ApplyActions, Clean;
    KeyFreeAround(before, Join(fields, ","), between);
    CutAtKey(before + Join(fields, ",") + between, acts);
    TrimAround(before, Join(fields, ","), between);
  }

  // All the fields of a line are read, the last one before the white space included, and the
  // actions behind them are what the action list parser makes of the rest.
  lemma DumpedFields(net: Net, g: FlowData, h: FlowData, before: string, fields: seq<string>, between: string,
                     acts: string, parsed: seq<Action>, raw: seq<string>)
    requires AllSpace(before) && AllSpace(between) && Leads(net, fields, g.(matches := []), h)
    requires Trimmed(Join(fields, ",")) && acts != "" && !Contains(acts, KEY)
    requires ParseList(net, TrimSpace(acts)) == Parsed(parsed, raw)
    ensures ParseInto(net, g, DumpText(before, fields, between, acts)) ==
      (h.(actions := parsed), if |raw| > 1 && "drop" in raw then Some(ActionsWithDrop) else None)
  {
    LeadsMeans(net, fields, g.(matches := []), h);
    FieldsRead(net, fields, g.(matches := []), h);
    hide Leads, ApplyFields, Split, TrimSpace, ParseList, Join, Contains, Trimmed, AllSpace, Clean, DumpText, ParseInto;
    DumpCut(net, g, before, fields, between, acts);
  }

  lemma KeyInside(a: string, s: string, b: string, i: int)
    requires AllSpace(a) && AllSpace(b) && OccursAt(a + s + b, KEY, i)
    ensures i >= |a| && OccursAt(s, KEY, i - |a|)
  {
    var t := a + s + b;
    assert t[i..][..8] == KEY;
    assert t[i] == KEY[0] && t[i + 7] == KEY[7];
    assert !IsSpace(KEY[0]) && !IsSpace(KEY[7]);
    assert |a| <= i && i + 7 < |a| + |s|;
    assert s[i - |a|..][..8] == t[i..][..8];
  }

  // White space around a text puts no actions= into it.
  lemma NoKeyAround(a: string, s: string, b: string)
    requires AllSpace(a) && AllSpace(b) && !Contains(s, KEY)
    ensures !Contains(a + s + b, KEY)
  {
    var t := a + s + b;
    ContainsIff(s, KEY);
    ContainsIff(t, KEY);
    hide Contains, OccursAt, AllSpace;
    if i :| OccursAt(t, KEY, i) { KeyInside(a, s, b, i); }
  }

  lemma {:induction false} LastOfJoin(parts: seq<string>)
    requires parts != [] && parts[|parts| - 1] != ""
    ensures var t, last := Join(parts, ","), parts[|parts| - 1];
      t != "" && t[|t| - 1] == last[|last| - 1]
    decreases |parts|
  {
    if |parts| > 1 { LastOfJoin(parts[1..]); }
  }

  lemma FieldsTrimmed(f: FlowData, matches: seq<string>)
    ensures Trimmed(Join(FlowFields(f, matches), ","))
  {
    var fields := FlowFields(f, matches);
    FieldsBegin(f, matches);
    LastField(f, matches);
    hide FlowFields, Join, IsSpace;
    FirstOfJoin(fields);
    LastOfJoin(fields);
  }

  lemma LastField(f: FlowData, matches: seq<string>)
    ensures var fields := FlowFields(f, matches);
      fields != [] && (var last := fields[|fields| - 1]; last != "" && !IsSpace(last[|last| - 1]))
  {
    FormatIntText(f.idleTimeout);
    HexIsPlain(f.cookie, 16);
    hide FormatInt, PaddedHex, Plain, IsSpace;
    LastPlain("idle_timeout=", FormatInt(f.idleTimeout));
    LastPlain("cookie=", CookieText(f.cookie));
  }

  lemma LastPlain(key: string, value: string)
    requires Plain(value) && value != ""
    ensures var s := key + value; !IsSpace(s[|s| - 1])
  {
    assert PlainChar(value[|value| - 1]);
  }

  // The dumped form of a well-formed flow reads like its printed form: every field comes back.
  lemma DumpedFlow(net: Net, f: FlowData, g: FlowData, before: string, between: string, left: string, right: string)
    requires WellFormed(net, f) && AllSpace(before) && AllSpace(between) && AllSpace(left) && AllSpace(right)
    ensures MarshalMatches(net, f.matches).Ok? && MarshalActions(net, f.actions).Ok?
    ensures var fields := FlowFields(f, MarshalMatches(net, f.matches).value);
      var acts := Join(MarshalActions(net, f.actions).value, ",");
      ParseInto(net, g, DumpText(before, fields, between, left + acts + right)) == (Merged(f, g), None)
  {
    hide MarshalActions, MarshalMatches, FlowFields, Join, F.InFragment, ActionFits, Trimmed, Contains, Leads,
      ParseInto, TrimSpace, ParseList, AllSpace;
    FieldsLead(net, f, g.(matches := []));
    var fields := FlowFields(f, MarshalMatches(net, f.matches).value);
    var texts := MarshalActions(net, f.actions).value;
    var acts := Join(texts, ",");
    assert acts != "" by { SomeActions(net, f.actions); }
    ActionsParseBack(net, f.actions);
    TrimAround(left, acts, right);
    FieldsTrimmed(f, MarshalMatches(net, f.matches).value);
    NoKeyAround(left, acts, right);
    DumpedFields(net, g, Merged(f, g).(actions := g.actions), before, fields, between, left + acts + right,
      f.actions, texts);
  }

  lemma FlatText(key: string, n: nat)
    requires '(' !in key && ')' !in key && ',' !in key && '=' !in key && EOF !in key && key != "" && !IsSpace(key[0])
    ensures var t := key + FormatInt(n); Whole(t) && Trimmed(t) && '=' !in t
  {
    S.DigitsText(n);
    PositiveText(n);
    FormatIntText(n);
    hide Digits, FormatInt, Whole;
    LastPlain(key, FormatInt(n));
    FlatIsWhole(key + FormatInt(n));
  }

  lemma VlanFits(net: Net, vid: int64)
    requires ValidVlan(vid)
    ensures var t := "mod_vlan_vid:" + FormatInt(vid);
      MarshalAction(net, ModVlan(vid)) == Ok(t) && Whole(t) && Trimmed(t) && '=' !in t
    ensures ActionFits(net, ModVlan(vid))
  {
    FlatText("mod_vlan_vid:", vid);
    hide FormatInt, Whole, Trimmed;
  }

  lemma OutputFits(net: Net, port: int64)
    requires port >= 0
    ensures ActionFits(net, Output(port))
  {
    OutputText(net, port);
    hide FormatInt, Whole, Trimmed;
  }

  lemma TwoActions(net: Net, x: Action, y: Action, a: string, b: string)
    requires ActionFits(net, x) && ActionFits(net, y)
    requires MarshalAction(net, x) == Ok(a) && MarshalAction(net, y) == Ok(b)
    requires a != "" && b != "" && Trimmed(a) && Trimmed(b) && '=' !in a && '=' !in b
    ensures var acts := a + "," + b;
      && acts != "" && !Contains(acts, KEY) && TrimSpace(acts) == acts
      && ParseList(net, acts) == Parsed([x, y], [a, b])
  {
    TrimSpaceTrimmed(a + "," + b);
    hide MarshalAction, Whole, ParseList, Contains, TrimSpace, ActionFits, Trimmed;
    TwoTexts(net, x, y, a, b);
    ActionsParseBack(net, [x, y]);
    NoKeyWithoutEquals(a + "," + b);
  }

  lemma TwoTexts(net: Net, a: Action, b: Action, s: string, t: string)
    requires MarshalAction(net, a) == Ok(s) && MarshalAction(net, b) == Ok(t)
    ensures MarshalActions(net, [a, b]) == Ok([s, t]) && Join([s, t], ",") == s + "," + t
  {
    hide MarshalAction;
    assert [a, b][1..] == [b] && [s, t][1..] == [t];
    OneText(net, b, t);
    assert [s] + [t] == [s, t];
  }

  lemma LocalFieldsLead(net: Net, f: FlowData, priority: int64)
    ensures Leads(net, ["priority=" + FormatInt(priority), "in_port=LOCAL"], f, f.(priority := priority, inPort := -1))
  {
    var p, q, f1 := "priority=" + FormatInt(priority), "in_port=LOCAL", f.(priority := priority);
    LocalText();
    hide FormatInt, Sets, Leads, InPortText;
    PrioritySet(net, f, priority);
    InPortSet(net, f1, -1);
    LeadsOne(net, p, f, f1);
    LeadsOne(net, q, f1, f1.(inPort := -1));
    LeadsAppend(net, [p], [q], f, f1, f1.(inPort := -1));
    assert [p] + [q] == [p, q];
  }

  lemma LocalText()
    ensures InPortText(-1) == "LOCAL" && "in_port=" + "LOCAL" == "in_port=LOCAL"
  {
  }

  // A line of a dump: an in-port named LOCAL, and two actions behind a space.
  lemma DumpedLine(net: Net, g: FlowData, priority: int64, vid: int64, port: int64)
    requires ValidVlan(vid) && port >= 0
    ensures var acts := "mod_vlan_vid:" + FormatInt(vid) + "," + ("output:" + FormatInt(port));
      ParseInto(net, g, "priority=" + FormatInt(priority) + ",in_port=LOCAL" + " " + "actions=" + acts) ==
        (g.(priority := priority, inPort := -1, matches := [], actions := [ModVlan(vid), Output(port)]), None)
  {
    VlanFits(net, vid);
    OutputFits(net, port);
    OutputText(net, port);
    hide *;
    var p, a, b := "priority=" + FormatInt(priority), "mod_vlan_vid:" + FormatInt(vid), "output:" + FormatInt(port);
    TwoActions(net, ModVlan(vid), Output(port), a, b);
    LocalFieldsLead(net, g.(matches := []), priority);
    LineTrimmed(priority);
    OneSpace();
    DumpedFields(net, g, g.(matches := [], priority := priority, inPort := -1), "", [p, "in_port=LOCAL"], " ",
      a + "," + b, [ModVlan(vid), Output(port)], [a, b]);
    NotDrop(a, b);
    LineText(p, a + "," + b);
  }

  lemma NotDrop(a: string, b: string)
    requires |a| > 4 && |b| > 4
    ensures "drop" !in [a, b]
  {
  }

  lemma OneSpace()
    ensures AllSpace("") && AllSpace(" ")
  {
  }

  lemma LineTrimmed(priority: int64)
    ensures Trimmed(Join(["priority=" + FormatInt(priority), "in_port=LOCAL"], ","))
  {
    hide FormatInt;
    var p := "priority=" + FormatInt(priority);
    assert [p, "in_port=LOCAL"][1..] == ["in_port=LOCAL"];
    assert Join([p, "in_port=LOCAL"], ",") == p + "," + "in_port=LOCAL";
  }

  lemma LineText(p: string, acts: string)
    ensures DumpText("", [p, "in_port=LOCAL"], " ", acts) == p + ",in_port=LOCAL" + " " + "actions=" + acts
  {
    assert [p, "in_port=LOCAL"][1..] == ["in_port=LOCAL"];
    assert Join([p, "in_port=LOCAL"], ",") == p + "," + "in_port=LOCAL";
    assert "," + "in_port=LOCAL" == ",in_port=LOCAL";
    assert "" + (p + "," + "in_port=LOCAL") == p + ",in_port=LOCAL";
  }

  // ---------- drop in capitals ----------

  lemma DropRead(net: Net)
    ensures ParseAction(net, "DROP") == Ok(WordAction(Drop)) && Whole("DROP") && "DROP" != ""
  {
    A.WordsInAnyCase(net, Drop, "DROP");
    FlatIsWhole("DROP");
  }

  lemma OutputRead(net: Net, port: int64)
    requires port >= 0
    ensures var t := "output:" + FormatInt(port);
      ParseAction(net, t) == Ok(Output(port)) && Whole(t) && t != "" && Trimmed(t) && '=' !in t
  {
    OutputText(net, port);
    A.SurvivesExactly(net, Output(port));
    hide ParseAction, FormatInt, Whole, Trimmed;
  }

  lemma TwoPieces(net: Net, a: string, b: string, x: Action, y: Action)
    requires ParseAction(net, a) == Ok(x) && ParseAction(net, b) == Ok(y)
    requires Whole(a) && Whole(b) && a != "" && b != ""
    ensures ParseList(net, a + "," + b) == Parsed([x, y], [a, b])
  {
    hide ParseAction, Whole;
    assert [a, b][1..] == [b] && Join([a, b], ",") == a + "," + b;
    ListedIsParsed(net, a + "," + b, [x, y], [a, b]);
  }

  lemma DropDoesNotPrint(net: Net, f: FlowData, port: int64)
    requires f.actions == [WordAction(Drop), Output(port)]
    ensures FlowText(net, f).Err?
  {
    hide FlowText, P.FirstBadAction, P.FirstBadMatch;
    P.FlowPrintsExactly(net, f);
    assert f.actions[0] == WordAction(Drop) && P.DropBesideOthers(f.actions);
  }

  // drop beside another action is refused only in lower case: in capitals it is read as drop, and
  // the flow that comes out does not print.
  lemma CapitalDrop(net: Net, g: FlowData, h: FlowData, fields: seq<string>, port: int64)
    requires Leads(net, fields, g.(matches := []), h) && Trimmed(Join(fields, ",")) && port >= 0
    ensures ParseInto(net, g, DumpText("", fields, " ", "DROP" + "," + ("output:" + FormatInt(port)))) ==
      (h.(actions := [WordAction(Drop), Output(port)]), None)
    ensures FlowText(net, h.(actions := [WordAction(Drop), Output(port)])).Err?
  {
    var t := "output:" + FormatInt(port);
    var f := h.(actions := [WordAction(Drop), Output(port)]);
    DropRead(net);
    OutputRead(net, port);
    OneSpace();
    DropDoesNotPrint(net, f, port);
    hide *;
    TwoPieces(net, "DROP", t, WordAction(Drop), Output(port));
    PlainEnds(t);
    NoKeyWithoutEquals("DROP" + "," + t);
    DumpedFields(net, g, h, "", fields, " ", "DROP" + "," + t, [WordAction(Drop), Output(port)], ["DROP", t]);
    NotLowerDrop(port);
  }

  lemma PlainEnds(t: string)
    requires Trimmed(t) && t != "" && '=' !in t
    ensures var acts := "DROP" + "," + t; acts != "" && TrimSpace(acts) == acts && '=' !in acts
  {
    TrimSpaceTrimmed("DROP" + "," + t);
    hide TrimSpace;
  }

  lemma NotLowerDrop(port: int64)
    ensures "drop" !in ["DROP", "output:" + FormatInt(port)]
  {
    hide FormatInt;
    assert "DROP"[0] != "drop"[0];
    assert |"output:" + FormatInt(port)| > 4;
  }

  // ---------- Lines that are refused ----------

  // Without actions=, with nothing behind it, or with two of it, the line is refused and the flow
  // left alone.
  lemma NoActionsRefused(net: Net, g: FlowData, text: string, head: string)
    requires NoActionsKey(head)
    ensures !Contains(text, KEY) ==> ParseInto(net, g, text) == (g, Some(NoActionsDefined))
    ensures ParseInto(net, g, head + KEY + "") == (g, Some(NoActionsDefined))
    ensures Contains(text, KEY) ==> ParseInto(net, g, head + KEY + text) == (g, Some(NoActionsDefined))
  {
    NothingBehind(head);
    if Contains(text, KEY) { CutAtTwoKeys(head, text); } else { SplitsNowhere(text); }
    hide Split, Contains, ApplyFields, TrimSpace, ParseList, NoActionsKey;
  }

  lemma SplitsNowhere(text: string)
    requires !Contains(text, KEY)
    ensures Split(text, KEY) == [text]
  {
    hide Index;
  }

  lemma NothingBehind(head: string)
    requires NoActionsKey(head)
    ensures Split(head + KEY + "", KEY) == [head, ""]
  {
    assert !Contains("", KEY);
    CutAtKey(head, "");
  }

  // The first bad field ends the reading: the fields before it stay set, the error is its own,
  // and the actions keep what they were.
  lemma BadFieldStops(net: Net, g: FlowData, h: FlowData, good: seq<string>, bad: string, rest: seq<string>,
                      acts: string)
    requires Leads(net, good, g.(matches := []), h) && ApplyField(net, h, bad).1.Some?
    requires Clean(bad) && forall i :: 0 <= i < |rest| ==> Clean(rest[i])
    requires Trimmed(Join(good + [bad] + rest, ",")) && acts != "" && !Contains(acts, KEY)
    ensures ParseInto(net, g, DumpText("", good + [bad] + rest, " ", acts)) == ApplyField(net, h, bad)
  {
    var fields := good + [bad] + rest;
    LeadsMeans(net, good, g.(matches := []), h);
    OneSpace();
    hide Leads, Split, TrimSpace, Join, Contains, Trimmed, AllSpace, ApplyField, ParseInto, DumpText, ApplyActions;
    StopsAt(net, g.(matches := []), h, good, bad, rest);
    AllClean(good, bad, rest);
    hide ApplyFields;
    NoCommas(fields);
    SplitJoin(fields, ',');
    hide Clean;
    DumpCut(net, g, "", fields, " ", acts);
  }

  lemma AllClean(good: seq<string>, bad: string, rest: seq<string>)
    requires Clean(bad) && forall i :: 0 <= i < |rest| ==> Clean(rest[i])
    requires forall i :: 0 <= i < |good| ==> Clean(good[i])
    ensures forall i :: 0 <= i < |good + [bad] + rest| ==> Clean((good + [bad] + rest)[i])
  {
    hide Clean;
  }

  lemma NoCommas(fields: seq<string>)
    requires forall i :: 0 <= i < |fields| ==> Clean(fields[i])
    ensures forall p :: p in fields ==> ',' !in p
  {
  }

  lemma {:induction false} StopsAt(net: Net, f: FlowData, h: FlowData, good: seq<string>, bad: string,
                                   rest: seq<string>)
    requires ApplyFields(net, f, good) == (h, None) && ApplyField(net, h, bad).1.Some?
    ensures ApplyFields(net, f, good + [bad] + rest) == ApplyField(net, h, bad)
    decreases |good|
  {
    hide ApplyField;
    var all := good + [bad] + rest;
    if good == [] {
      assert all[0] == bad;
    } else {
      assert all[0] == good[0] && all[1..] == good[1..] + [bad] + rest;
      StopsAt(net, ApplyField(net, f, good[0]).0, h, good[1..], bad, rest);
    }
  }

  // A list of actions that is refused leaves the fields set and the actions alone.
  lemma BadActionsRefused(net: Net, g: FlowData, h: FlowData, fields: seq<string>, acts: string, e: ActionError)
    requires Leads(net, fields, g.(matches := []), h)
    requires Trimmed(Join(fields, ",")) && acts != "" && !Contains(acts, KEY)
    requires ParseList(net, TrimSpace(acts)) == Failed(e)
    ensures ParseInto(net, g, DumpText("", fields, " ", acts)) == (h, Some(InvalidActions(TrimSpace(acts))))
  {
    LeadsMeans(net, fields, g.(matches := []), h);
    FieldsRead(net, fields, g.(matches := []), h);
    OneSpace();
    hide Leads, ApplyFields, Split, TrimSpace, ParseList, Join, Contains, Trimmed, AllSpace, Clean, DumpText, ParseInto;
    DumpCut(net, g, "", fields, " ", acts);
  }

  // ---------- Single fields ----------

  // The fields that count, by name: a number is set, anything else is an error.
  lemma NumberFields(net: Net, f: FlowData, v: string)
    requires Plain(v)
    ensures ApplyField(net, f, "priority=" + v) ==
      match ParseInt(v) case Ok(n) => (f.(priority := n), None) case Err(e) => (f, Some(BadField(v, e)))
    ensures ApplyField(net, f, "table=" + v) ==
      match ParseInt(v) case Ok(n) => (f.(table := n), None) case Err(e) => (f, Some(BadField(v, e)))
    ensures ApplyField(net, f, "idle_timeout=" + v) ==
      match ParseInt(v) case Ok(n) => (f.(idleTimeout := n), None) case Err(e) => (f, Some(BadField(v, e)))
    ensures ApplyField(net, f, "cookie=" + v) ==
      match ParseUintAnyBase(v) case Ok(n) => (f.(cookie := n), None) case Err(e) => (f, Some(BadField(v, e)))
  {
    hide ApplyField, FieldOf, KeyLike, Clean, ParseInt, ParseUintAnyBase, TrimSpace, Plain;
    FieldKeys();
    FieldNames();
    PairField(net, f, "priority", v);
    PairField(net, f, "table", v);
    PairField(net, f, "idle_timeout", v);
    PairField(net, f, "cookie", v);
    assert "priority" + "=" == "priority=" && "table" + "=" == "table=";
    assert "idle_timeout" + "=" == "idle_timeout=" && "cookie" + "=" == "cookie=";
  }

  lemma CounterFields(net: Net, f: FlowData, v: string)
    requires Plain(v)
    ensures ApplyField(net, f, "n_packets=" + v) ==
      match ParseUintAnyBase(v) case Ok(n) => (f.(packets := n), None) case Err(e) => (f, Some(BadField(v, e)))
    ensures ApplyField(net, f, "n_bytes=" + v) ==
      match ParseUintAnyBase(v) case Ok(n) => (f.(bytes := n), None) case Err(e) => (f, Some(BadField(v, e)))
  {
    DumpKeys();
    hide ApplyField, FieldOf, KeyLike, Clean, ParseUintAnyBase, TrimSpace, Plain;
    PairField(net, f, "n_packets", v);
    PairField(net, f, "n_bytes", v);
    assert "n_packets" + "=" == "n_packets=" && "n_bytes" + "=" == "n_bytes=";
  }

  // The in-port is a number or LOCAL, which stands for -1.
  lemma InPortField(net: Net, f: FlowData, v: string)
    requires Plain(v)
    ensures ApplyField(net, f, "in_port=" + v) ==
      if v == "LOCAL" then (f.(inPort := -1), None)
      else match ParseInt(v) case Ok(n) => (f.(inPort := n), None) case Err(e) => (f, Some(BadField(v, e)))
  {
    DumpKeys();
    PlainTrimmed(v);
    hide ApplyField, FieldOf, KeyLike, Clean, ParseInt, TrimSpace, Plain;
    PairField(net, f, "in_port", v);
    assert "in_port" + "=" == "in_port=";
  }

  lemma DumpKeys()
    ensures KeyLike("in_port") && KeyLike("n_packets") && KeyLike("n_bytes")
    ensures FieldOf("in_port") == Some(FInPort)
    ensures FieldOf("n_packets") == Some(FPackets) && FieldOf("n_bytes") == Some(FBytes)
  {
  }

  // The ages in a dump are passed over, and so is a key that nobody knows.
  lemma PassedOver(net: Net, f: FlowData, v: string)
    requires Plain(v)
    ensures ApplyField(net, f, "duration=" + v) == (f, None)
    ensures ApplyField(net, f, "idle_age=" + v) == (f, None) && ApplyField(net, f, "hard_age=" + v) == (f, None)
    ensures ApplyField(net, f, "hard_timeout=" + v) == (f, None)
  {
    AgeKeys();
    UnknownKey();
    hide ApplyField, FieldOf, KeyLike, Clean, KeyOf, TrimSpace, Plain, ParseByKey;
    PairField(net, f, "duration", v);
    PairField(net, f, "idle_age", v);
    PairField(net, f, "hard_age", v);
    PairField(net, f, "hard_timeout", v);
    assert "duration" + "=" == "duration=" && "idle_age" + "=" == "idle_age=";
    assert "hard_age" + "=" == "hard_age=" && "hard_timeout" + "=" == "hard_timeout=";
  }

  lemma AgeKeys()
    ensures KeyLike("duration") && KeyLike("idle_age") && KeyLike("hard_age") && KeyLike("hard_timeout")
    ensures FieldOf("duration") == Some(FIgnored) && FieldOf("idle_age") == Some(FIgnored)
    ensures FieldOf("hard_age") == Some(FIgnored) && FieldOf("hard_timeout") == None
  {
  }

  lemma UnknownKey()
    ensures KeyOf("hard_timeout") == None
  {
    KeySound("hard_timeout");
    hide KeyOf, KeyText;
    if KeyOf("hard_timeout").Some? { NoSuchKey(KeyOf("hard_timeout").value); }
  }

  // No key begins with an h.
  lemma NoSuchKey(k: Key)
    ensures KeyText(k) != "" && KeyText(k)[0] != 'h'
  {
  }

  // UnmarshalText on a line of a dump.
  method UnmarshalDumped(net: Net, flow: Flow, before: string, fields: seq<string>, between: string, acts: string,
                         ghost h: FlowData, ghost parsed: seq<Action>, ghost raw: seq<string>)
    returns (e: Option<FlowError>)
    requires AllSpace(before) && AllSpace(between) && Leads(net, fields, flow.Data().(matches := []), h)
    requires Trimmed(Join(fields, ",")) && acts != "" && !Contains(acts, KEY)
    requires ParseList(net, TrimSpace(acts)) == Parsed(parsed, raw)
    modifies flow
    ensures flow.Data() == h.(actions := parsed)
    ensures e == if |raw| > 1 && "drop" in raw then Some(ActionsWithDrop) else None
  {
    DumpedFields(net, flow.Data(), h, before, fields, between, acts, parsed, raw);
    hide ParseInto, Leads, ParseList, Join, TrimSpace, Contains, Trimmed, AllSpace;
    e := flow.UnmarshalText(net, before + Join(fields, ",") + between + "actions=" + acts);
  }
}
