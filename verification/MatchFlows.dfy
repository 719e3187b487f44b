/** The text of a flow to delete, from ovs/matchflow.go. */
module MatchFlows {
  import opened Wrappers
  import opened Text
  import opened Numerals
  import opened Matches
  import opened Flows

  // Stands for flows of every table.
  const ANY_TABLE: int64 := -1

  datatype MatchFlowData = MatchFlowData(
    protocol: string, inPort: int64, matches: seq<Match>, table: int64, cookie: u64, cookieMask: u64)

  datatype MatchFlowError = EmptyMatchFlow | UnprintableMatch(error: Error)

  // ---------- Trimming commas ----------

  function TrimLeftCommas(s: string): string {
    if s != "" && s[0] == ',' then TrimLeftCommas(s[1..]) else s
  }

  function TrimRightCommas(s: string): string {
    if s != "" && s[|s| - 1] == ',' then TrimRightCommas(s[..|s| - 1]) else s
  }

  // bytes.Trim with a comma.
  function TrimCommas(s: string): string { TrimRightCommas(TrimLeftCommas(s)) }

  predicate AllCommas(s: string) { forall i :: 0 <= i < |s| ==> s[i] == ',' }

  predicate NoOuterComma(s: string) { s != "" ==> s[0] != ',' && s[|s| - 1] != ',' }

  lemma {:induction false} TrimRightShape(s: string)
    ensures TrimRightCommas(s) == "" <==> AllCommas(s)
    ensures var t := TrimRightCommas(s);
      |t| <= |s| && t == s[..|t|] && (t != "" ==> t[|t| - 1] != ',') && (|t| < |s| ==> s[|s| - 1] == ',')
    decreases |s|
  {
    if s != "" && s[|s| - 1] == ',' { TrimRightShape(s[..|s| - 1]); }
  }

  lemma {:induction false} TrimLeftShape(s: string)
    ensures var t := TrimLeftCommas(s);
      |t| <= |s| && t == s[|s| - |t|..] && (t != "" ==> t[0] != ',') && AllCommas(s[..|s| - |t|])
  {
    if s != "" && s[0] == ',' { TrimLeftShape(s[1..]); }
  }

  // A comma at the end makes no difference.
  lemma {:induction false} TrimLastComma(s: string)
    ensures TrimCommas(s + ",") == TrimCommas(s)
  {
    if s == "" {
      assert "" + "," == ",";
      assert TrimLeftCommas(",") == "";
    } else if s[0] == ',' {
      TrimLastComma(s[1..]);
      assert (s + ",")[1..] == s[1..] + ",";
    } else {
      assert (s + ",")[..|s|] == s;
    }
  }

  lemma TrimShape(s: string)
    ensures TrimCommas(s) == "" <==> AllCommas(s)
    ensures TrimCommas(s) == s <==> NoOuterComma(s)
    ensures NoOuterComma(TrimCommas(s))
  {
    hide *;
    TrimEmpty(s);
    TrimEnds(s);
    if NoOuterComma(s) { TrimNothing(s); }
  }

  lemma TrimEmpty(s: string)
    ensures TrimCommas(s) == "" <==> AllCommas(s)
  {
    var t := TrimLeftCommas(s);
    TrimLeftShape(s);
    TrimRightShape(t);
    hide TrimLeftCommas, TrimRightCommas, AllCommas;
    AllCommasAppend(s[..|s| - |t|], t);
    assert s == s[..|s| - |t|] + t;
  }

  lemma TrimEnds(s: string)
    ensures NoOuterComma(TrimCommas(s))
  {
    TrimLeftShape(s);
    TrimRightShape(TrimLeftCommas(s));
    hide TrimLeftCommas, TrimRightCommas, AllCommas;
  }

  lemma TrimNothing(s: string)
    requires NoOuterComma(s)
    ensures TrimCommas(s) == s
  {
  }

  lemma AllCommasAppend(a: string, b: string)
    ensures AllCommas(a + b) <==> AllCommas(a) && AllCommas(b)
  {
    assert forall i :: 0 <= i < |a| ==> (a + b)[i] == a[i];
    assert forall i :: 0 <= i < |b| ==> (a + b)[|a| + i] == b[i];
  }

  // ---------- The text ----------

  function CookieField(cookie: u64, mask: u64): string {
    "cookie=" + CookieText(cookie) + "/" + (if mask == 0 then "-1" else CookieText(mask))
  }

  // The parts of the text, in order; absent ones leave no trace.
  function Segments(f: MatchFlowData, matches: seq<string>): seq<string> {
    (if f.protocol != "" then [f.protocol] else [])
    + (if f.inPort != 0 then ["in_port=" + InPortText(f.inPort)] else [])
    + matches
    + (if f.cookie > 0 || f.cookieMask > 0 then [CookieField(f.cookie, f.cookieMask)] else [])
    + (if f.table != ANY_TABLE then ["table=" + FormatInt(f.table)] else [])
  }

  function MatchFlowText(net: Net, f: MatchFlowData): Result<string, MatchFlowError> {
    match MarshalMatches(net, f.matches)
    case Err(e) => Err(UnprintableMatch(e))
    case Ok(matches) =>
      var b := TrimCommas(Join(Segments(f, matches), ","));
      if b == "" then Err(EmptyMatchFlow) else Ok(b)
  }

  // Parts with a comma behind each.
  function Closed(parts: seq<string>): string {
    if parts == [] then "" else parts[0] + "," + Closed(parts[1..])
  }

  lemma {:induction false} ClosedAppend(a: seq<string>, b: seq<string>)
    ensures Closed(a + b) == Closed(a) + Closed(b)
  {
    if a == [] {
      assert a + b == b;
    } else {
      ClosedAppend(a[1..], b);
      assert (a + b)[1..] == a[1..] + b;
      assert a[0] + "," + (Closed(a[1..]) + Closed(b)) == a[0] + "," + Closed(a[1..]) + Closed(b);
    }
  }

  lemma {:induction false} ClosedIsJoin(parts: seq<string>)
    ensures Closed(parts) == if parts == [] then "" else Join(parts, ",") + ","
  {
    if |parts| == 1 {
      assert parts[0] + "," + "" == parts[0] + ",";
    } else if |parts| > 1 {
      ClosedIsJoin(parts[1..]);
      assert parts[0] + "," + (Join(parts[1..], ",") + ",") == parts[0] + "," + Join(parts[1..], ",") + ",";
    }
  }

  lemma ClosedOne(a: seq<string>, x: string)
    ensures Closed(a + [x]) == Closed(a) + x + ","
  {
    ClosedAppend(a, [x]);
    assert [x][1..] == [];
    assert x + "," + "" == x + ",";
    assert Closed(a) + (x + ",") == Closed(a) + x + ",";
  }

  lemma ClosedLast(a: seq<string>, x: string)
    ensures Closed(a) + x == Join(a + [x], ",")
  {
    ClosedOne(a, x);
    ClosedIsJoin(a + [x]);
    var s, j := Closed(a) + x, Join(a + [x], ",");
    hide Closed, Join;
    assert (s + ",")[..|s|] == s;
    assert (j + ",")[..|j|] == j;
  }

  lemma TrimClosed(parts: seq<string>)
    ensures TrimCommas(Closed(parts)) == TrimCommas(Join(parts, ","))
  {
    hide TrimCommas;
    ClosedIsJoin(parts);
    TrimLastComma(Join(parts, ","));
  }

  class MatchFlow {
    var protocol: string
    var inPort: int64
    var matches: seq<Match>
    var table: int64
    var cookie: u64
    var cookieMask: u64

    constructor (data: MatchFlowData)
      ensures Data() == data
    {
      protocol, inPort, matches := data.protocol, data.inPort, data.matches;
      table, cookie, cookieMask := data.table, data.cookie, data.cookieMask;
    }

    function Data(): MatchFlowData
      reads this
    {
      MatchFlowData(protocol, inPort, matches, table, cookie, cookieMask)
    }

    // Each part but the table is appended with a comma, and the commas at the ends are
    // trimmed; the result is the parts joined by commas and trimmed.
    method MarshalText(net: Net) returns (r: Result<string, MatchFlowError>)
      ensures r == MatchFlowText(net, Data())
    {
      hide MarshalMatches, Join, TrimCommas, Segments;
      var texts := MarshalMatchesLoop(net, matches);
      if texts.Err? {
        return Err(UnprintableMatch(texts.error));
      }
      var b := Appended(texts.value);
      b := TrimCommas(b);
      r := if |b| == 0 then Err(EmptyMatchFlow) else Ok(b);
    }

    method Appended(texts: seq<string>) returns (b: string)
      ensures TrimCommas(b) == TrimCommas(Join(Segments(Data(), texts), ","))
    {
      hide Join, Closed, TrimCommas, InPortText, FormatInt, CookieField;
      b := "";
      ghost var parts: seq<string> := [];
      ClosedIsJoin(parts);
      if protocol != "" {
        ClosedOne(parts, protocol);
        b, parts := b + protocol + ",", parts + [protocol];
      }
      if inPort != 0 {
        var part := "in_port=" + InPortText(inPort);
        ClosedOne(parts, part);
        b, parts := b + part + ",", parts + [part];
      }
      if |texts| > 0 {
        ClosedAppend(parts, texts);
        ClosedIsJoin(texts);
        b := b + (Join(texts, ",") + ",");
      }
      assert |texts| == 0 ==> parts + texts == parts;
      parts := parts + texts;
      if cookie > 0 || cookieMask > 0 {
        var part := CookieField(cookie, cookieMask);
        ClosedOne(parts, part);
        b, parts := b + part + ",", parts + [part];
      }
      TrimClosed(parts);
      if table != ANY_TABLE {
        var part := "table=" + FormatInt(table);
        ClosedLast(parts, part);
        b, parts := b + part, parts + [part];
      }
      assert parts == Segments(Data(), texts);
    }
  }

  // ---------- What the text is ----------

  // The text is exactly the parts joined by commas, unless a part brings a comma of its own
  // to one of the ends; it never begins or ends with one.
  lemma TextIsJoin(net: Net, f: MatchFlowData)
    requires MatchFlowText(net, f).Ok?
    ensures var joined := Join(Segments(f, MarshalMatches(net, f.matches).value), ",");
      MatchFlowText(net, f).value == joined <==> NoOuterComma(joined)
    ensures NoOuterComma(MatchFlowText(net, f).value)
  {
    hide Join, Segments, TrimCommas, MarshalMatches;
    TrimShape(Join(Segments(f, MarshalMatches(net, f.matches).value), ","));
  }

  predicate NoParts(f: MatchFlowData) {
    f.protocol == "" && f.inPort == 0 && f.matches == [] && f.cookie == 0 && f.cookieMask == 0 && f.table == ANY_TABLE
  }

  lemma {:induction false} MatchesHaveText(net: Net, matches: seq<Match>)
    requires MarshalMatches(net, matches).Ok?
    ensures var texts := MarshalMatches(net, matches).value;
      |texts| == |matches| && forall i :: 0 <= i < |texts| ==> '=' in texts[i]
  {
    if matches != [] {
      hide MarshalMatch;
      MatchesHaveText(net, matches[1..]);
      HasEquals(net, matches[0]);
    }
  }

  lemma HasEquals(net: Net, m: Match)
    requires MarshalMatch(net, m).Ok?
    ensures '=' in MarshalMatch(net, m).value
  {
    hide ValueText, MatchKey;
    var k := MatchKey(m);
    assert MarshalMatch(net, m).value[|k|] == '=';
  }

  lemma {:induction false} JoinHolds(parts: seq<string>, i: nat, k: nat)
    requires i < |parts| && k < |parts[i]|
    ensures parts[i][k] in Join(parts, ",")
  {
    if |parts| > 1 {
      if i > 0 { JoinHolds(parts[1..], i - 1, k); }
    }
  }

  // The first part besides the protocol has a character that is no comma.
  lemma FirstPart(f: MatchFlowData, texts: seq<string>) returns (k: nat)
    requires |texts| == |f.matches| && forall j :: 0 <= j < |texts| ==> '=' in texts[j]
    requires f.protocol == "" && !NoParts(f)
    ensures var parts := Segments(f, texts); parts != [] && k < |parts[0]| && parts[0][k] != ','
  {
    hide InPortText, FormatInt, CookieText;
    var parts := Segments(f, texts);
    k := 0;
    if f.inPort != 0 {
      assert parts[0] == "in_port=" + InPortText(f.inPort);
    } else if f.matches != [] {
      assert parts[0] == texts[0];
      k :| 0 <= k < |texts[0]| && texts[0][k] == '=';
    } else if f.cookie > 0 || f.cookieMask > 0 {
      assert parts[0][0] == 'c';
    } else {
      assert parts[0] == "table=" + FormatInt(f.table);
    }
  }

  lemma SomePart(f: MatchFlowData, texts: seq<string>) returns (i: nat, k: nat)
    requires |texts| == |f.matches| && forall j :: 0 <= j < |texts| ==> '=' in texts[j]
    requires !AllCommas(f.protocol) || !NoParts(f.(protocol := ""))
    ensures var parts := Segments(f, texts); i < |parts| && k < |parts[i]| && parts[i][k] != ','
  {
    if !AllCommas(f.protocol) {
      i := 0;
      k :| 0 <= k < |f.protocol| && f.protocol[k] != ',';
      assert Segments(f, texts)[0] == f.protocol;
    } else {
      k := FirstPart(f.(protocol := ""), texts);
      i := if f.protocol != "" then 1 else 0;
      ProtocolFirst(f, texts);
    }
  }

  lemma ProtocolFirst(f: MatchFlowData, texts: seq<string>)
    ensures Segments(f, texts) ==
      (if f.protocol != "" then [f.protocol] else []) + Segments(f.(protocol := ""), texts)
  {
    hide InPortText, FormatInt, CookieField;
  }

  // A match flow with printable matches fails as empty exactly if it has no parts, apart
  // from a protocol that is nothing but commas.
  lemma EmptyExactly(net: Net, f: MatchFlowData)
    requires MarshalMatches(net, f.matches).Ok?
    ensures MatchFlowText(net, f) == Err(EmptyMatchFlow) <==> AllCommas(f.protocol) && NoParts(f.(protocol := ""))
  {
    var texts := MarshalMatches(net, f.matches).value;
    var parts := Segments(f, texts);
    TrimShape(Join(parts, ","));
    MatchesHaveText(net, f.matches);
    if AllCommas(f.protocol) && NoParts(f.(protocol := "")) {
      OnlyCommas(f, texts);
    } else {
      var i, k := SomePart(f, texts);
      hide *;
      JoinHolds(parts, i, k);
      NotAllCommas(Join(parts, ","), parts[i][k]);
    }
    hide TrimCommas, MarshalMatches, Segments, Join, AllCommas;
  }

  lemma OnlyCommas(f: MatchFlowData, texts: seq<string>)
    requires AllCommas(f.protocol) && NoParts(f.(protocol := "")) && texts == []
    ensures AllCommas(Join(Segments(f, texts), ","))
  {
    assert Segments(f, texts) == if f.protocol != "" then [f.protocol] else [];
  }

  lemma NotAllCommas(s: string, c: char)
    requires c in s && c != ','
    ensures !AllCommas(s)
  {
  }
}
