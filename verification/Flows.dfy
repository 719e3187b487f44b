/**
 Flows and their text, from ovs/flow.go.  FlowText and ParseInto say what the two methods of
 the class Flow compute.
 */
module Flows {
  import opened Wrappers
  import opened Text
  import opened Numerals
  import opened Matches
  import opened MatchParser
  import opened Actions
  import opened ActionList

  // The special input port that prints as LOCAL.
  const PORT_LOCAL: int64 := -1

  datatype FlowData = FlowData(
    priority: int64, protocol: string, inPort: int64, matches: seq<Match>, table: int64,
    idleTimeout: int64, cookie: u64, actions: seq<Action>, packets: u64, bytes: u64)

  datatype FlowError =
    | NoActionsDefined
    | ActionsWithDrop
    | InvalidActions(text: string)
    | BadField(value: string, num: NumError)
    | BadMatch(error: Error)
    | BadAction(actionError: ActionError)
    | ReaderPanic

  // ---------- Printing ----------

  function MarshalActions(net: Net, actions: seq<Action>): Result<seq<string>, ActionError> {
    if actions == [] then Ok([])
    else
      match MarshalAction(net, actions[0])
      case Err(e) => Err(e)
      case Ok(text) =>
        match MarshalActions(net, actions[1..])
        case Err(e) => Err(e)
        case Ok(texts) => Ok([text] + texts)
  }

  function MarshalMatches(net: Net, matches: seq<Match>): Result<seq<string>, Error> {
    if matches == [] then Ok([])
    else
      match MarshalMatch(net, matches[0])
      case Err(e) => Err(e)
      case Ok(text) =>
        match MarshalMatches(net, matches[1..])
        case Err(e) => Err(e)
        case Ok(texts) => Ok([text] + texts)
  }

  function InPortText(port: int64): string {
    if port == PORT_LOCAL then "LOCAL" else FormatInt(port)
  }

  function CookieText(cookie: u64): string { "0x" + PaddedHex(cookie, 16) }

  // The comma-separated fields before the actions.
  function FlowFields(f: FlowData, matches: seq<string>): seq<string> {
    ["priority=" + FormatInt(f.priority)]
    + (if f.protocol != "" then [f.protocol] else [])
    + (if f.inPort != 0 then ["in_port=" + InPortText(f.inPort)] else [])
    + matches
    + ["table=" + FormatInt(f.table)]
    + ["idle_timeout=" + FormatInt(f.idleTimeout)]
    + (if f.cookie > 0 then ["cookie=" + CookieText(f.cookie)] else [])
  }

  // drop must be the only action.
  predicate DropAmongOthers(texts: seq<string>) { |texts| > 1 && "drop" in texts }

  function FlowText(net: Net, f: FlowData): Result<string, FlowError> {
    if f.actions == [] then Err(NoActionsDefined)
    else
      match MarshalActions(net, f.actions)
      case Err(e) => Err(BadAction(e))
      case Ok(actions) =>
        match MarshalMatches(net, f.matches)
        case Err(e) => Err(BadMatch(e))
        case Ok(matches) =>
          if DropAmongOthers(actions) then Err(ActionsWithDrop)
          else Ok(Join(FlowFields(f, matches), ",") + ",actions=" + Join(actions, ","))
  }

  // ---------- Parsing ----------

  datatype FieldKey = FPriority | FCookie | FActions | FInPort | FIdleTimeout | FTable | FPackets | FBytes | FIgnored

  function FieldOf(k: string): Option<FieldKey> {
    if k == "priority" then Some(FPriority)
    else if k == "cookie" then Some(FCookie)
    else if k == "actions" then Some(FActions)
    else if k == "in_port" then Some(FInPort)
    else if k == "idle_timeout" then Some(FIdleTimeout)
    else if k == "table" then Some(FTable)
    else if k == "n_packets" then Some(FPackets)
    else if k == "n_bytes" then Some(FBytes)
    else if k == "duration" || k == "hard_age" || k == "idle_age" then Some(FIgnored)
    else None
  }

  function SetInt(v: string, f: FlowData, put: int64 -> FlowData): (FlowData, Option<FlowError>) {
    match ParseInt(v)
    case Err(e) => (f, Some(BadField(v, e)))
    case Ok(n) => (put(n), None)
  }

  function SetUint(v: string, f: FlowData, put: u64 -> FlowData): (FlowData, Option<FlowError>) {
    match ParseUintAnyBase(v)
    case Err(e) => (f, Some(BadField(v, e)))
    case Ok(n) => (put(n), None)
  }

  function ApplyKnown(f: FlowData, k: FieldKey, v: string): (FlowData, Option<FlowError>) {
    match k
    case FPriority => SetInt(v, f, (n: int64) => f.(priority := n))
    case FCookie => SetUint(v, f, (n: u64) => f.(cookie := n))
    case FActions => (f, None)
    case FInPort =>
      if TrimSpace(v) == "LOCAL" then (f.(inPort := PORT_LOCAL), None) else SetInt(v, f, (n: int64) => f.(inPort := n))
    case FIdleTimeout => SetInt(v, f, (n: int64) => f.(idleTimeout := n))
    case FTable => SetInt(v, f, (n: int64) => f.(table := n))
    case FPackets => SetUint(v, f, (n: u64) => f.(packets := n))
    case FBytes => SetUint(v, f, (n: u64) => f.(bytes := n))
    case FIgnored => (f, None)
  }

  // A key that names no field of the flow is tried as a match; unknown ones are dropped.
  function ApplyMatch(net: Net, f: FlowData, k: string, v: string): (FlowData, Option<FlowError>) {
    match ParseMatch(net, k, v)
    case Err(e) => (f, Some(BadMatch(e)))
    case Ok(None) => (f, None)
    case Ok(Some(m)) => (f.(matches := f.matches + [m]), None)
  }

  function ApplyPair(net: Net, f: FlowData, k: string, v: string): (FlowData, Option<FlowError>) {
    match FieldOf(TrimSpace(k))
    case Some(key) => ApplyKnown(f, key, v)
    case None => ApplyMatch(net, f, k, v)
  }

  // One field; without an equals sign it is the protocol, with several it is skipped.
  function ApplyField(net: Net, f: FlowData, field: string): (FlowData, Option<FlowError>) {
    if !Contains(field, "=") then (if field != "" then f.(protocol := field) else f, None)
    else
      var kv := Split(field, "=");
      if |kv| != 2 then (f, None) else ApplyPair(net, f, kv[0], TrimSpace(kv[1]))
  }

  // The fields in order, up to the first error; fields set before it stay set.
  function ApplyFields(net: Net, f: FlowData, fields: seq<string>): (FlowData, Option<FlowError>)
    decreases |fields|
  {
    if fields == [] then (f, None)
    else
      var (g, e) := ApplyField(net, f, fields[0]);
      if e.Some? then (g, e) else ApplyFields(net, g, fields[1..])
  }

  function ApplyActions(net: Net, f: FlowData, text: string): (FlowData, Option<FlowError>) {
    match ParseList(net, text)
    case Panic => (f, Some(ReaderPanic))
    case Failed(_) => (f, Some(InvalidActions(text)))
    case Parsed(actions, raw) =>
      (f.(actions := actions), if DropAmongOthers(raw) then Some(ActionsWithDrop) else None)
  }

  // What unmarshaling the text makes of a flow, and its error.
  function ParseInto(net: Net, f: FlowData, text: string): (FlowData, Option<FlowError>) {
    var ss := Split(text, "actions=");
    if |ss| != 2 || ss[1] == "" then (f, Some(NoActionsDefined))
    else
      var (g, e) := ApplyFields(net, f.(matches := []), Split(TrimSpace(ss[0]), ","));
      if e.Some? then (g, e) else ApplyActions(net, g, TrimSpace(ss[1]))
  }

  // ---------- Lists of texts ----------

  // marshalFunctions over the actions.
  method MarshalActionsLoop(net: Net, actions: seq<Action>) returns (r: Result<seq<string>, ActionError>)
    ensures r == MarshalActions(net, actions)
  {
    var out: seq<string> := [];
    assert actions[0..] == actions;
    PrependAssoc(out, out, MarshalActions(net, actions));
    for i := 0 to |actions|
      invariant MarshalActions(net, actions) == Prepend(out, MarshalActions(net, actions[i..]))
    {
      assert actions[i..][1..] == actions[i + 1..];
      var o := MarshalAction(net, actions[i]);
      if o.Err? {
        return Err(o.error);
      }
      PrependAssoc(out, [o.value], MarshalActions(net, actions[i + 1..]));
      out := out + [o.value];
    }
    assert actions[|actions|..] == [] && out + [] == out;
    r := Ok(out);
  }

  // marshalFunctions over the matches.
  method MarshalMatchesLoop(net: Net, matches: seq<Match>) returns (r: Result<seq<string>, Error>)
    ensures r == MarshalMatches(net, matches)
  {
    var out: seq<string> := [];
    assert matches[0..] == matches;
    PrependAssoc(out, out, MarshalMatches(net, matches));
    for i := 0 to |matches|
      invariant MarshalMatches(net, matches) == Prepend(out, MarshalMatches(net, matches[i..]))
    {
      assert matches[i..][1..] == matches[i + 1..];
      var o := MarshalMatch(net, matches[i]);
      if o.Err? {
        return Err(o.error);
      }
      PrependAssoc(out, [o.value], MarshalMatches(net, matches[i + 1..]));
      out := out + [o.value];
    }
    assert matches[|matches|..] == [] && out + [] == out;
    r := Ok(out);
  }

  lemma JoinOneMore(a: seq<string>, x: string)
    requires |a| > 0
    ensures Join(a + [x], ",") == Join(a, ",") + "," + x
  {
    JoinAppend(a, [x], ",");
  }

  // ---------- The class ----------

  class Flow {
    var priority: int64
    var protocol: string
    var inPort: int64
    var matches: seq<Match>
    var table: int64
    var idleTimeout: int64
    var cookie: u64
    var actions: seq<Action>
    var packets: u64
    var bytes: u64

    // The zero value of the type.
    constructor ()
      ensures Data() == NEW_FLOW
    {
      priority, protocol, inPort, matches, table := 0, "", 0, [], 0;
      idleTimeout, cookie, actions, packets, bytes := 0, 0, [], 0, 0;
    }

    function Data(): FlowData
      reads this
    {
      FlowData(priority, protocol, inPort, matches, table, idleTimeout, cookie, actions, packets, bytes)
    }

    // The text grows field by field; it is the fields and actions joined by commas.
    method MarshalText(net: Net) returns (r: Result<string, FlowError>)
      ensures r == FlowText(net, Data())
    {
      hide MarshalAction, MarshalMatch, MarshalActions, MarshalMatches, Join, FormatInt, PaddedHex;
      if |actions| == 0 {
        return Err(NoActionsDefined);
      }
      var actionTexts := MarshalActionsLoop(net, actions);
      if actionTexts.Err? {
        return Err(BadAction(actionTexts.error));
      }
      var matchTexts := MarshalMatchesLoop(net, matches);
      if matchTexts.Err? {
        return Err(BadMatch(matchTexts.error));
      }
      if |actionTexts.value| > 1 && "drop" in actionTexts.value {
        return Err(ActionsWithDrop);
      }
      var b := HeadText(matchTexts.value);
      r := Ok(b + ",actions=" + Join(actionTexts.value, ","));
    }

    method HeadText(texts: seq<string>) returns (b: string)
      ensures b == Join(FlowFields(Data(), texts), ",")
    {
      hide Join, FormatInt, PaddedHex, InPortText, CookieText;
      var b0 := "priority=" + FormatInt(priority);
      b := b0;
      ghost var fields := [b0];
      JoinSingle(b0);
      if protocol != "" {
        JoinOneMore(fields, protocol);
        b, fields := b + "," + protocol, fields + [protocol];
      }
      if inPort != 0 {
        var field := "in_port=" + InPortText(inPort);
        JoinOneMore(fields, field);
        b, fields := b + "," + field, fields + [field];
      }
      if |texts| > 0 {
        JoinAppend(fields, texts, ",");
        b := b + "," + Join(texts, ",");
      }
      assert |texts| == 0 ==> fields + texts == fields;
      fields := fields + texts;
      var tableField := "table=" + FormatInt(table);
      JoinOneMore(fields, tableField);
      b, fields := b + "," + tableField, fields + [tableField];
      var timeoutField := "idle_timeout=" + FormatInt(idleTimeout);
      JoinOneMore(fields, timeoutField);
      b, fields := b + "," + timeoutField, fields + [timeoutField];
      if cookie > 0 {
        var cookieField := "cookie=" + CookieText(cookie);
        JoinOneMore(fields, cookieField);
        b, fields := b + "," + cookieField, fields + [cookieField];
      }
      assert fields == FlowFields(Data(), texts);
    }

    // The switch on the key of one key=value field.
    method SetPair(net: Net, k: string, v: string) returns (e: Option<FlowError>)
      modifies this
      ensures (Data(), e) == ApplyPair(net, old(Data()), k, v)
    {
      hide ParseMatch, ParseInt, ParseUintAnyBase, TrimSpace, FieldOf;
      e := None;
      match FieldOf(TrimSpace(k))
      case Some(FPriority) =>
        var n := ParseInt(v);
        if n.Err? { return Some(BadField(v, n.error)); }
        priority := n.value;
      case Some(FCookie) =>
        var n := ParseUintAnyBase(v);
        if n.Err? { return Some(BadField(v, n.error)); }
        cookie := n.value;
      case Some(FActions) =>
      case Some(FInPort) =>
        if TrimSpace(v) == "LOCAL" {
          inPort := PORT_LOCAL;
          return;
        }
        var n := ParseInt(v);
        if n.Err? { return Some(BadField(v, n.error)); }
        inPort := n.value;
      case Some(FIdleTimeout) =>
        var n := ParseInt(v);
        if n.Err? { return Some(BadField(v, n.error)); }
        idleTimeout := n.value;
      case Some(FTable) =>
        var n := ParseInt(v);
        if n.Err? { return Some(BadField(v, n.error)); }
        table := n.value;
      case Some(FPackets) =>
        var n := ParseUintAnyBase(v);
        if n.Err? { return Some(BadField(v, n.error)); }
        packets := n.value;
      case Some(FBytes) =>
        var n := ParseUintAnyBase(v);
        if n.Err? { return Some(BadField(v, n.error)); }
        bytes := n.value;
      case Some(FIgnored) =>
      case None =>
        var m := ParseMatch(net, k, v);
        if m.Err? { return Some(BadMatch(m.error)); }
        if m.value.Some? { matches := matches + [m.value.value]; }
    }

    // The loop over the fields assigns into the flow as it goes, also before an error.
    method UnmarshalText(net: Net, b: string) returns (e: Option<FlowError>)
      modifies this
      ensures (Data(), e) == ParseInto(net, old(Data()), b)
    {
      hide ApplyPair, Contains, Split, TrimSpace, ParseList;
      var ss := Split(b, "actions=");
      if |ss| != 2 || ss[1] == "" {
        return Some(NoActionsDefined);
      }
      var matchers, actionText := TrimSpace(ss[0]), TrimSpace(ss[1]);
      ss := Split(matchers, ",");
      matches := [];
      ghost var all := ApplyFields(net, Data(), ss);
      assert ss[0..] == ss;
      for i := 0 to |ss|
        invariant ApplyFields(net, Data(), ss[i..]) == all
      {
        assert ss[i..][1..] == ss[i + 1..];
        if !Contains(ss[i], "=") {
          if ss[i] != "" {
            protocol := ss[i];
          }
          continue;
        }
        var kv := Split(ss[i], "=");
        if |kv| != 2 {
          continue;
        }
        e := SetPair(net, kv[0], TrimSpace(kv[1]));
        if e.Some? {
          return;
        }
      }
      assert all == (Data(), None);
      var reader := new ActionReader(actionText);
      var out := reader.Parse(net);
      if out.Panic? {
        return Some(ReaderPanic);
      }
      if out.Failed? {
        return Some(InvalidActions(actionText));
      }
      actions := out.actions;
      e := if |out.raw| > 1 && "drop" in out.raw then Some(ActionsWithDrop) else None;
    }
  }

  const NEW_FLOW := FlowData(0, "", 0, [], 0, 0, 0, [], 0, 0)

  lemma JoinSingle(a: string)
    ensures Join([a], ",") == a
  {
  }
}
