/**
 The reader of action lists in ovs/actionparser.go: it cuts the text at commas outside
 parentheses and parses each piece.
 */
module ActionList {
  import opened Wrappers
  import opened Text
  import opened Matches
  import opened Actions
  import opened ActionParser
  import opened ActionScans

  // The sentinel for the end of the text; a NUL in the text itself reads the same.
  const EOF: char := '\0'

  // One step of the reader; Underflow is the panic of popping an empty stack.
  datatype Piece =
    | Raw(raw: string, rest: string)
    | End(rest: string)
    | Unmatched(rest: string, depth: nat)
    | Underflow(rest: string)

  function Behind(s: string): string { if s == "" then "" else s[1..] }

  // The piece at the beginning of s, after the characters of buf were read and with depth
  // parentheses open.
  function ReadPiece(s: string, depth: nat, buf: string): Piece
    decreases |s|
  {
    if s == "" || s[0] == EOF then
      if buf == "" then End(Behind(s))
      else if depth > 0 then Unmatched(Behind(s), depth)
      else Raw(buf, Behind(s))
    else if s[0] == ',' && depth == 0 then Raw(buf, s[1..])
    else if s[0] == '(' then ReadPiece(s[1..], depth + 1, buf + [s[0]])
    else if s[0] == ')' then
      if depth == 0 then Underflow(s[1..]) else ReadPiece(s[1..], depth - 1, buf + [s[0]])
    else ReadPiece(s[1..], depth, buf + [s[0]])
  }

  lemma {:induction false} ReadShrinks(s: string, depth: nat, buf: string)
    ensures ReadPiece(s, depth, buf).Raw? ==>
      |ReadPiece(s, depth, buf).rest| <= |s| && (s != "" ==> |ReadPiece(s, depth, buf).rest| < |s|)
    ensures s == "" && buf == "" ==> ReadPiece(s, depth, buf).End?
    decreases |s|
  {
    if s != "" {
      if s[0] == '(' { ReadShrinks(s[1..], depth + 1, buf + [s[0]]); }
      if s[0] == ')' && depth > 0 { ReadShrinks(s[1..], depth - 1, buf + [s[0]]); }
      ReadShrinks(s[1..], depth, buf + [s[0]]);
    }
  }

  datatype ListResult = Parsed(actions: seq<Action>, raw: seq<string>) | Failed(error: ActionError) | Panic

  function Add(a: Action, raw: string, r: ListResult): ListResult {
    match r
    case Parsed(actions, raws) => Parsed([a] + actions, [raw] + raws)
    case _ => r
  }

  function ParseList(net: Net, s: string): ListResult
    decreases |s|
  {
    ReadShrinks(s, 0, "");
    match ReadPiece(s, 0, "")
    case End(_) => Parsed([], [])
    case Unmatched(_, _) => Failed(UnmatchedParentheses)
    case Underflow(_) => Panic
    case Raw(raw, rest) =>
      match ParseAction(net, raw)
      case Err(e) => Failed(e)
      case Ok(a) => Add(a, raw, ParseList(net, rest))
  }

  // ---------- The reader ----------

  datatype Outcome = Item(action: Action, text: string) | NoMore | Bad(error: ActionError) | Crash

  function ItemOf(a: Result<Action, ActionError>, text: string): Outcome {
    match a
    case Ok(action) => Item(action, text)
    case Err(e) => Bad(e)
  }

  class ActionReader {
    // What is left of the text, and the length of the stack.
    var text: string
    var open: nat

    constructor (s: string)
      ensures text == s && open == 0
    {
      text, open := s, 0;
    }

    method Read() returns (c: char)
      modifies this`text
      ensures c == if old(text) == "" then EOF else old(text)[0]
      ensures text == Behind(old(text))
    {
      if text == "" {
        return EOF;
      }
      c := text[0];
      text := text[1..];
    }

    // One action: its piece is the one ReadPiece cuts off, and the reader stands behind it.
    method ReadAction(net: Net) returns (r: Outcome)
      modifies this
      ensures var p := ReadPiece(old(text), old(open), "");
        && text == p.rest
        && (p.Raw? ==> open == 0 && r == ItemOf(ParseAction(net, p.raw), p.raw))
        && (p.End? ==> open == old(open) && r == NoMore)
        && (p.Unmatched? ==> open == p.depth && r == Bad(UnmatchedParentheses))
        && (p.Underflow? ==> open == 0 && r == Crash)
    {
      var buf := "";
      ghost var piece := ReadPiece(text, open, "");
      while true
        invariant ReadPiece(text, open, buf) == piece
        invariant buf == "" ==> open == old(open)
        decreases |text|
      {
        var ch := Read();
        if ch == ',' && open == 0 {
          break;
        }
        if ch == EOF {
          if buf == "" {
            return NoMore;
          }
          if open > 0 {
            return Bad(UnmatchedParentheses);
          }
          break;
        }
        if ch == '(' {
          open := open + 1;
        } else if ch == ')' {
          if open == 0 {
            return Crash;
          }
          open := open - 1;
        }
        buf := buf + [ch];
      }
      var a := ParseAction(net, buf);
      r := ItemOf(a, buf);
    }

    method Parse(net: Net) returns (r: ListResult)
      requires open == 0
      modifies this
      ensures r == ParseList(net, old(text))
    {
      hide ReadPiece, ParseAction;
      var actions, raw := [], [];
      ghost var all := ParseList(net, text);
      while true
        invariant open == 0
        invariant all == AddAll(actions, raw, ParseList(net, text))
        decreases |text|
      {
        ReadShrinks(text, 0, "");
        var one := ReadAction(net);
        if one.NoMore? {
          return Parsed(actions, raw);
        }
        if one.Crash? {
          return Panic;
        }
        if one.Bad? {
          return Failed(one.error);
        }
        AddAllStep(actions, raw, one.action, one.text, ParseList(net, text));
        actions, raw := actions + [one.action], raw + [one.text];
      }
    }
  }

  function AddAll(actions: seq<Action>, raw: seq<string>, r: ListResult): ListResult {
    match r
    case Parsed(more, raws) => Parsed(actions + more, raw + raws)
    case _ => r
  }

  lemma AddAllStep(actions: seq<Action>, raw: seq<string>, a: Action, text: string, r: ListResult)
    ensures AddAll(actions, raw, Add(a, text, r)) == AddAll(actions + [a], raw + [text], r)
  {
    if r.Parsed? {
      assert actions + ([a] + r.actions) == actions + [a] + r.actions;
      assert raw + ([text] + r.raw) == raw + [text] + r.raw;
    }
  }

  // ---------- What a piece is ----------

  function Delta(c: char): int { if c == '(' then 1 else if c == ')' then -1 else 0 }

  // Opening parentheses less closing ones.
  function Depth(s: string): int {
    if s == "" then 0 else Depth(s[..|s| - 1]) + Delta(s[|s| - 1])
  }

  // No closing parenthesis without its opening one, and none left open.
  predicate Balanced(s: string) {
    Depth(s) == 0 && forall i :: 0 <= i <= |s| ==> Depth(s[..i]) >= 0
  }

  predicate NoTopComma(s: string) {
    forall i :: 0 <= i < |s| && s[i] == ',' ==> Depth(s[..i]) > 0
  }

  predicate Whole(s: string) { Balanced(s) && NoTopComma(s) && EOF !in s }

  // Reading passes the character at j.
  predicate Passes(s: string, j: nat)
    requires j < |s|
  {
    && s[j] != EOF
    && (s[j] == ',' || s[j] == ')' ==> Depth(s[..j]) > 0)
  }

  lemma DepthNext(s: string, i: nat)
    requires i < |s|
    ensures Depth(s[..i + 1]) == Depth(s[..i]) + Delta(s[i])
  {
    assert s[..i + 1][..i] == s[..i];
  }

  lemma {:induction false} ReadPrefix(s: string, i: nat)
    requires i <= |s| && forall j :: 0 <= j < i ==> Passes(s, j)
    ensures Depth(s[..i]) >= 0
    ensures ReadPiece(s, 0, "") == ReadPiece(s[i..], Depth(s[..i]), s[..i])
  {
    if i == 0 {
      assert s[0..] == s;
    } else {
      var k := i - 1;
      ReadPrefix(s, k);
      DepthNext(s, k);
      assert Passes(s, k);
      hide Depth;
      ReadOne(s[k..], Depth(s[..k]), s[..k]);
      assert s[k..][1..] == s[i..];
      assert s[..k] + [s[k]] == s[..i];
    }
  }

  lemma ReadOne(s: string, depth: nat, buf: string)
    requires s != "" && s[0] != EOF && (s[0] == ',' || s[0] == ')' ==> depth > 0)
    ensures depth + Delta(s[0]) >= 0
    ensures ReadPiece(s, depth, buf) == ReadPiece(s[1..], depth + Delta(s[0]), buf + [s[0]])
  {
  }

  // The first character that reading does not pass.
  lemma {:induction false} FirstStop(s: string, from: nat) returns (i: nat)
    requires from <= |s| && forall j :: 0 <= j < from ==> Passes(s, j)
    ensures from <= i <= |s| && forall j :: 0 <= j < i ==> Passes(s, j)
    ensures i < |s| ==> !Passes(s, i)
    decreases |s| - from
  {
    if from < |s| && Passes(s, from) { i := FirstStop(s, from + 1); } else { i := from; }
  }

  lemma {:induction false} PassedDepths(s: string, i: nat, k: nat)
    requires k <= i <= |s| && forall j :: 0 <= j < i ==> Passes(s, j)
    ensures Depth(s[..k]) >= 0
  {
    if k > 0 {
      PassedDepths(s, i, k - 1);
      DepthNext(s, k - 1);
      assert Passes(s, k - 1);
    }
  }

  lemma PassedIsWhole(s: string, i: nat)
    requires i <= |s| && (forall j :: 0 <= j < i ==> Passes(s, j)) && Depth(s[..i]) == 0
    ensures Whole(s[..i])
  {
    hide Depth;
    var p := s[..i];
    forall k | 0 <= k <= |p| ensures Depth(p[..k]) >= 0 {
      assert p[..k] == s[..k];
      PassedDepths(s, i, k);
    }
    forall k | 0 <= k < |p| ensures p[k] != EOF && (p[k] == ',' ==> Depth(p[..k]) > 0) {
      assert p[..k] == s[..k];
      assert Passes(s, k);
    }
  }

  lemma WholePasses(p: string, s: string)
    requires Whole(p) && HasPrefix(s, p)
    ensures forall j :: 0 <= j < |p| ==> Passes(s, j)
    ensures Depth(s[..|p|]) == 0
  {
    hide Depth;
    forall j | 0 <= j < |p| ensures Passes(s, j) {
      assert s[..j] == p[..j] && s[j] == p[j];
      assert p[j] == ',' ==> Depth(p[..j]) > 0;
      assert Depth(p[..j + 1]) >= 0;
      DepthNext(p, j);
    }
  }

  // A raw piece is whole, and the text is the piece with what follows it.
  lemma RawIsWhole(s: string)
    requires EOF !in s && ReadPiece(s, 0, "").Raw?
    ensures var p := ReadPiece(s, 0, "");
      Whole(p.raw) && ((p.rest == "" && s == p.raw) || s == p.raw + "," + p.rest)
  {
    var i := FirstStop(s, 0);
    ReadPrefix(s, i);
    hide Depth, Whole;
    if i == |s| {
      assert s[i..] == "" && s[..i] == s;
      if Depth(s) == 0 { PassedIsWhole(s, i); }
    } else {
      assert s == s[..i] + [s[i]] + s[i + 1..];
      assert s[i..][1..] == s[i + 1..];
      if Depth(s[..i]) == 0 { PassedIsWhole(s, i); }
    }
  }

  lemma ReadWhole(p: string, rest: string)
    requires Whole(p)
    ensures ReadPiece(p + "," + rest, 0, "") == Raw(p, rest)
    ensures p != "" ==> ReadPiece(p, 0, "") == Raw(p, "")
  {
    var s := p + "," + rest;
    assert s[..|p|] == p && p[..|p|] == p && s[|p|..][1..] == rest;
    WholePasses(p, s);
    ReadPrefix(s, |p|);
    WholePasses(p, p);
    ReadPrefix(p, |p|);
    assert p[|p|..] == "";
  }

  // ---------- Lists ----------

  // The pieces are whole and parse to the actions, and the text is the pieces joined by
  // commas, with or without one more comma at the end.
  predicate Lists(net: Net, s: string, actions: seq<Action>, raw: seq<string>) {
    && |actions| == |raw|
    && (forall i :: 0 <= i < |raw| ==> Whole(raw[i]) && ParseAction(net, raw[i]) == Ok(actions[i]))
    && (s == Join(raw, ",") || (raw != [] && s == Join(raw, ",") + ","))
  }

  lemma EmptyIsNoAction(net: Net)
    ensures ParseAction(net, "") == Err(NoActionMatched)
  {
    hide Find;
    CtAbsent("");
    FindAbsent("", "resubmit(", ResubmitArgs);
    FindAbsent("", "resubmit:", PortArg);
    FindAbsent("", "load:", PairArgs);
    FindAbsent("", "move:", PairArgs);
    FindAbsent("", "set_field:", PairArgs);
  }

  lemma EndIsEmpty(s: string)
    requires EOF !in s
    ensures ReadPiece(s, 0, "").End? <==> s == ""
  {
    if s != "" {
      var i := FirstStop(s, 0);
      ReadPrefix(s, i);
      hide Depth;
      assert i < |s| ==> s[i] != EOF;
    }
  }

  lemma {:induction false} ParsedIsListed(net: Net, s: string)
    requires EOF !in s && ParseList(net, s).Parsed?
    ensures Lists(net, s, ParseList(net, s).actions, ParseList(net, s).raw)
    decreases |s|
  {
    hide ReadPiece, ParseAction, Whole;
    EndIsEmpty(s);
    if s != "" {
      RawIsWhole(s);
      var p := ReadPiece(s, 0, "");
      var rest := ParseList(net, p.rest);
      ReadShrinks(s, 0, "");
      EndIsEmpty("");
      ParsedIsListed(net, p.rest);
      ListsAdd(net, s, p.raw, p.rest, ParseAction(net, p.raw).value, rest.actions, rest.raw);
    }
  }

  lemma ListsAdd(net: Net, s: string, p: string, rest: string, a: Action, actions: seq<Action>, raw: seq<string>)
    requires Whole(p) && ParseAction(net, p) == Ok(a) && Lists(net, rest, actions, raw)
    requires (rest == "" && s == p) || s == p + "," + rest
    requires rest == "" ==> raw == []
    ensures Lists(net, s, [a] + actions, [p] + raw)
  {
    hide Whole, ParseAction;
    assert ([p] + raw)[1..] == raw;
    if raw != [] && rest == Join(raw, ",") + "," {
      assert p + "," + rest == p + "," + Join(raw, ",") + ",";
    }
  }

  lemma {:induction false} ListedIsParsed(net: Net, s: string, actions: seq<Action>, raw: seq<string>)
    requires Lists(net, s, actions, raw)
    ensures ParseList(net, s) == Parsed(actions, raw)
    decreases |raw|
  {
    hide ReadPiece, ParseAction, Whole;
    EndIsEmpty("");
    if raw != [] {
      EmptyIsNoAction(net);
      var p, tail := raw[0], raw[1..];
      var rest := if tail == [] then "" else s[|p| + 1..];
      ListsTail(net, s, actions, raw, rest);
      ReadWhole(p, rest);
      ListedIsParsed(net, rest, actions[1..], tail);
      assert [actions[0]] + actions[1..] == actions && [p] + tail == raw;
    }
  }

  lemma ListsTail(net: Net, s: string, actions: seq<Action>, raw: seq<string>, rest: string)
    requires Lists(net, s, actions, raw) && raw != []
    requires |raw| == 1 ==> rest == ""
    requires |raw| > 1 ==> |raw[0]| < |s| && rest == s[|raw[0]| + 1..]
    ensures Lists(net, rest, actions[1..], raw[1..])
    ensures (rest == "" && s == raw[0]) || s == raw[0] + "," + rest
  {
    hide ParseAction, Whole;
    if |raw| > 1 {
      var j := Join(raw[1..], ",");
      assert s == raw[0] + "," + j || s == raw[0] + "," + (j + ",");
      assert raw[0] + "," + j + "," == raw[0] + "," + (j + ",");
    } else {
      assert raw[0] + "," + "" == raw[0] + ",";
    }
  }

  // The reader accepts a text, with these actions and pieces, exactly if it is such a list.
  lemma ParsedExactly(net: Net, s: string, actions: seq<Action>, raw: seq<string>)
    requires EOF !in s
    ensures ParseList(net, s) == Parsed(actions, raw) <==> Lists(net, s, actions, raw)
  {
    hide Lists;
    if ParseList(net, s) == Parsed(actions, raw) { ParsedIsListed(net, s); }
    if Lists(net, s, actions, raw) { ListedIsParsed(net, s, actions, raw); }
  }

  // ---------- The panic ----------

  // No beginning of the text closes more parentheses than it opens.
  predicate NoExcess(s: string) { forall i :: 0 <= i <= |s| ==> Depth(s[..i]) >= 0 }

  lemma {:induction false} DepthAppend(a: string, b: string)
    ensures Depth(a + b) == Depth(a) + Depth(b)
  {
    if b == "" {
      assert a + b == a;
    } else {
      DepthAppend(a, b[..|b| - 1]);
      assert (a + b)[..|a + b| - 1] == a + b[..|b| - 1];
    }
  }

  lemma NoExcessBehind(s: string, k: nat)
    requires k <= |s| && NoExcess(s) && Depth(s[..k]) == 0
    ensures NoExcess(s[k..])
  {
    hide Depth;
    forall i | 0 <= i <= |s[k..]| ensures Depth(s[k..][..i]) >= 0 {
      DepthAppend(s[..k], s[k..][..i]);
      assert s[..k] + s[k..][..i] == s[..k + i];
    }
  }

  lemma NoExcessPiece(s: string)
    requires NoExcess(s)
    ensures !ReadPiece(s, 0, "").Underflow?
    ensures ReadPiece(s, 0, "").Raw? ==> NoExcess(ReadPiece(s, 0, "").rest)
  {
    var i := FirstStop(s, 0);
    ReadPrefix(s, i);
    if i == |s| {
      assert s[i..] == "" && s[..i] == s;
      assert NoExcess("") by { assert ""[..0] == ""; }
    } else {
      DepthNext(s, i);
      assert s[i..][1..] == s[i + 1..];
      hide Depth, NoExcess;
      assert Depth(s[..i + 1]) >= 0 by { ExcessAt(s, i + 1); }
      if Depth(s[..i + 1]) == 0 { NoExcessBehind(s, i + 1); }
    }
  }

  lemma ExcessAt(s: string, i: nat)
    requires NoExcess(s) && i <= |s|
    ensures Depth(s[..i]) >= 0
  {
  }

  // The reader cannot panic on a text without an excess closing parenthesis.
  lemma {:induction false} NoPanic(net: Net, s: string)
    requires NoExcess(s)
    ensures ParseList(net, s) != Panic
    decreases |s|
  {
    hide ReadPiece, ParseAction, NoExcess;
    NoExcessPiece(s);
    ReadShrinks(s, 0, "");
    var p := ReadPiece(s, 0, "");
    if p.Raw? && s != "" { NoPanic(net, p.rest); }
  }

  lemma {:induction false} JoinNoExcess(raw: seq<string>)
    requires forall i :: 0 <= i < |raw| ==> Whole(raw[i])
    ensures NoExcess(Join(raw, ",")) && Depth(Join(raw, ",")) == 0
  {
    if |raw| == 0 {
      assert ""[..0] == "";
    } else if |raw| > 1 {
      JoinNoExcess(raw[1..]);
      var p, rest := raw[0], Join(raw[1..], ",");
      hide Join;
      CommaDepth();
      NoExcessAppend(p, ",");
      NoExcessAppend(p + ",", rest);
    }
  }

  lemma NoExcessAppend(a: string, b: string)
    requires NoExcess(a) && Depth(a) == 0 && NoExcess(b) && Depth(b) == 0
    ensures NoExcess(a + b) && Depth(a + b) == 0
  {
    hide Depth;
    var s := a + b;
    DepthAppend(a, b);
    forall i | 0 <= i <= |s| ensures Depth(s[..i]) >= 0 {
      if i <= |a| {
        assert s[..i] == a[..i];
      } else {
        assert s[..i] == a + b[..i - |a|];
        DepthAppend(a, b[..i - |a|]);
      }
    }
  }

  lemma CommaDepth()
    ensures NoExcess(",") && Depth(",") == 0
  {
    assert Depth("") == 0;
    assert ","[..0] == "" && ","[..1] == ",";
  }

  // A text with an excess closing parenthesis is never accepted; it fails or panics.
  lemma ExcessIsNotParsed(net: Net, s: string)
    requires EOF !in s && !NoExcess(s)
    ensures !ParseList(net, s).Parsed?
  {
    hide ParseList, Depth, NoExcess, Whole, ParseAction;
    if ParseList(net, s).Parsed? {
      ParsedIsListed(net, s);
      var raw := ParseList(net, s).raw;
      JoinNoExcess(raw);
      CommaDepth();
      NoExcessAppend(Join(raw, ","), ",");
    }
  }

  // The panic is reached, and a NUL hides the text behind it.
  lemma ReaderExtremes(net: Net, hidden: string)
    ensures ParseList(net, ")") == Panic
    ensures ParseList(net, ['\0'] + hidden) == Parsed([], [])
  {
    assert ReadPiece(")", 0, "") == Underflow("");
    assert ReadPiece([EOF] + hidden, 0, "").End?;
  }
}
