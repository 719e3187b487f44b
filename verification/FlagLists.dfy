/** Lists of signed flags: connection tracking states and TCP flags. */
module FlagLists {
  import opened Wrappers
  import opened Text
  import opened Numerals
  import opened MatchParser

  predicate NameChar(c: char) { !IsSpace(c) && c != '+' && c != '-' && c != '|' }

  predicate Name(s: string) {
    forall i :: 0 <= i < |s| ==> NameChar(s[i])
  }

  // What SetState, UnsetState, SetTCPFlag and UnsetTCPFlag build: a sign and a name.
  predicate Signed(s: string) {
    s != "" && (s[0] == '+' || s[0] == '-') && Name(s[1..])
  }

  predicate SignedList(states: seq<string>) {
    forall i :: 0 <= i < |states| ==> Signed(states[i])
  }

  // ---------- Connection tracking states ----------

  lemma {:induction false} ReplaceAppend(a: string, b: string, c: char, repl: string)
    ensures ReplaceChar(a + b, c, repl) == ReplaceChar(a, c, repl) + ReplaceChar(b, c, repl)
  {
    if a == "" {
      assert a + b == b;
    } else {
      assert (a + b)[0] == a[0] && (a + b)[1..] == a[1..] + b;
      ReplaceAppend(a[1..], b, c, repl);
    }
  }

  lemma {:induction false} ReplaceNone(s: string, c: char, repl: string)
    requires forall i :: 0 <= i < |s| ==> s[i] != c
    ensures ReplaceChar(s, c, repl) == s
  {
    if s != "" { ReplaceNone(s[1..], c, repl); }
  }

  lemma ReplaceOne(c: char, repl: string)
    ensures ReplaceChar([c], c, repl) == repl
  {
    assert [c][1..] == "";
    assert repl + "" == repl;
  }

  lemma SpacePlus(name: string)
    requires Name(name)
    ensures SpaceSigns("+" + name) == " +" + name
  {
    ReplaceNone(name, '+', " +");
    ReplaceNone(name, '-', " -");
    ReplaceNone(" +" , '-', " -");
    hide ReplaceChar, Name;
    ReplaceOne('+', " +");
    ReplaceAppend("+", name, '+', " +");
    ReplaceAppend(" +", name, '-', " -");
  }

  lemma SpaceMinus(name: string)
    requires Name(name)
    ensures SpaceSigns("-" + name) == " -" + name
  {
    ReplaceNone(name, '+', " +");
    ReplaceNone(name, '-', " -");
    ReplaceNone("-", '+', " +");
    hide ReplaceChar, Name;
    ReplaceOne('-', " -");
    ReplaceAppend("-", name, '+', " +");
    ReplaceAppend("-", name, '-', " -");
  }

  // Each sign gets a space in front of it.
  lemma SpaceOneState(s: string)
    requires Signed(s)
    ensures SpaceSigns(s) == " " + s
  {
    hide SpaceSigns, Name;
    var name := s[1..];
    assert s == [s[0]] + name;
    if s[0] == '+' { SpacePlus(name); } else { SpaceMinus(name); }
  }

  lemma SpaceAppend(a: string, b: string)
    ensures SpaceSigns(a + b) == SpaceSigns(a) + SpaceSigns(b)
  {
    hide ReplaceChar;
    ReplaceAppend(a, b, '+', " +");
    ReplaceAppend(ReplaceChar(a, '+', " +"), ReplaceChar(b, '+', " +"), '-', " -");
  }

  lemma {:induction false} JoinHead(parts: seq<string>)
    requires |parts| > 0
    ensures Join(parts, "") == parts[0] + Join(parts[1..], "")
  {
    if |parts| == 1 {
      assert parts[0] + "" == parts[0];
    } else {
      assert parts[0] + "" + Join(parts[1..], "") == parts[0] + Join(parts[1..], "");
    }
  }

  lemma {:induction false} SpaceStates(states: seq<string>)
    requires |states| > 0 && SignedList(states)
    ensures SpaceSigns(Join(states, "")) == " " + Join(states, " ")
  {
    hide SpaceSigns;
    SpaceOneState(states[0]);
    if |states| > 1 {
      JoinHead(states);
      SpaceAppend(states[0], Join(states[1..], ""));
      SpaceStates(states[1..]);
      assert " " + states[0] + (" " + Join(states[1..], " ")) == " " + (states[0] + " " + Join(states[1..], " "));
    }
  }

  // Reading characters that are not white space only fills the field.
  lemma {:induction false} FieldsFill(s: string, rest: string, field: string)
    requires forall i :: 0 <= i < |s| ==> !IsSpace(s[i])
    ensures FieldsFrom(s + rest, field) == FieldsFrom(rest, field + s)
  {
    if s == "" {
      assert s + rest == rest && field + s == field;
    } else {
      assert (s + rest)[0] == s[0] && (s + rest)[1..] == s[1..] + rest;
      FieldsFill(s[1..], rest, field + [s[0]]);
      assert field + [s[0]] + s[1..] == field + s;
    }
  }

  lemma FieldsBreak(rest: string, field: string)
    requires field != ""
    ensures FieldsFrom(" " + rest, field) == [field] + FieldsFrom(rest, "")
  {
    assert (" " + rest)[1..] == rest;
  }

  lemma SignedNoSpace(s: string)
    requires Signed(s)
    ensures forall i :: 0 <= i < |s| ==> !IsSpace(s[i]) && s[i] != ' '
  {
    forall i | 0 <= i < |s| ensures !IsSpace(s[i]) {
      if i > 0 { assert NameChar(s[1..][i - 1]); }
    }
  }

  lemma {:induction false} FieldsOfStates(states: seq<string>)
    requires |states| > 0 && SignedList(states)
    ensures Fields(Join(states, " ")) == states
  {
    hide FieldsFrom;
    var s := states[0];
    SignedNoSpace(s);
    if |states| == 1 {
      assert s + "" == s && "" + s == s;
      FieldsFill(s, "", "");
      FieldsEnd(s);
    } else {
      var rest := Join(states[1..], " ");
      FieldsOfStates(states[1..]);
      assert s + " " + rest == s + (" " + rest) && "" + s == s;
      FieldsFill(s, " " + rest, "");
      FieldsBreak(rest, s);
      assert states == [s] + states[1..];
    }
  }

  lemma FieldsEnd(field: string)
    requires field != ""
    ensures FieldsFrom("", field) == [field]
  {
  }

  // The text of a list begins and ends with a character that is no space.
  lemma {:induction false} JoinedEnds(states: seq<string>, sep: string)
    requires |states| > 0 && SignedList(states)
    ensures var t := Join(states, sep);
      t != "" && (t[0] == '+' || t[0] == '-') && !IsSpace(t[|t| - 1])
  {
    if |states| == 1 {
      SignedNoSpace(states[0]);
    } else {
      JoinedEnds(states[1..], sep);
    }
  }

  lemma TrimOneSpace(t: string)
    requires t != "" && t[0] != ' ' && t[|t| - 1] != ' '
    ensures TrimSpaces(" " + t) == t
  {
    assert (" " + t)[1..] == t;
    assert TrimSpacesLeft(t) == t;
  }

  lemma {:induction false} NoBars(states: seq<string>)
    requires SignedList(states)
    ensures '|' !in Join(states, "")
  {
    if |states| > 0 {
      JoinHead(states);
      var s := states[0];
      forall i | 0 <= i < |s| ensures s[i] != '|' {
        if i > 0 { assert NameChar(s[1..][i - 1]); }
      }
      NoBars(states[1..]);
    }
  }

  // A nonempty list of signed states parses back from its text.
  lemma CtStateRoundTrip(states: seq<string>)
    requires |states| > 0 && SignedList(states)
    ensures ParseCtState(Join(states, "")) == states
  {
    hide SpaceSigns, TrimSpaces, Fields, Signed, Contains;
    var t := Join(states, "");
    NoBars(states);
    ContainsChar(t, '|');
    ContainsChar(t, '+');
    ContainsChar(t, '-');
    JoinedEnds(states, "");
    JoinedEnds(states, " ");
    SpaceStates(states);
    TrimOneSpace(Join(states, " "));
    FieldsOfStates(states);
  }

  // ---------- Exactly which lists of states parse back ----------

  // Signed states, the first of which may lack its sign if there are others.
  predicate StatesParseBack(states: seq<string>) {
    && |states| > 0 && SignedList(states[1..])
    && (Signed(states[0]) || (Name(states[0]) && states[0] != "" && |states| > 1))
  }

  lemma {:induction false} NameUnchanged(name: string)
    requires Name(name)
    ensures SpaceSigns(name) == name
  {
    hide ReplaceChar;
    ReplaceNone(name, '+', " +");
    ReplaceNone(name, '-', " -");
  }

  lemma BareFirst(name: string, states: seq<string>)
    requires Name(name) && name != "" && |states| > 0 && SignedList(states)
    ensures ParseCtState(name + Join(states, "")) == [name] + states
  {
    var t, spaced := name + Join(states, ""), name + (" " + Join(states, " "));
    NoBars(states);
    NameHasNo(name, '|');
    ContainsChar(t, '|');
    ContainsChar(t, '+');
    ContainsChar(t, '-');
    JoinedEnds(states, "");
    JoinedEnds(states, " ");
    assert t[|name|] == Join(states, "")[0];
    BareSpaced(name, states);
    hide SpaceSigns, TrimSpaces, Signed, Contains, FieldsFrom, Name;
    assert "" + name == name;
    FieldsFill(name, " " + Join(states, " "), "") by { NameNoSpace(name); }
    FieldsBreak(Join(states, " "), name);
    FieldsOfStates(states);
    assert Fields(spaced) == [name] + states;
  }

  lemma NameNoSpace(name: string)
    requires Name(name)
    ensures forall i :: 0 <= i < |name| ==> !IsSpace(name[i]) && name[i] != ' '
  {
  }

  lemma BareSpaced(name: string, states: seq<string>)
    requires Name(name) && name != "" && |states| > 0 && SignedList(states)
    ensures TrimSpaces(SpaceSigns(name + Join(states, ""))) == name + (" " + Join(states, " "))
  {
    NameUnchanged(name);
    NameNoSpace(name);
    SpaceStates(states);
    SpaceAppend(name, Join(states, ""));
    JoinedEnds(states, " ");
    var t := name + (" " + Join(states, " "));
    assert t[0] == name[0] && t[|t| - 1] == Join(states, " ")[|Join(states, " ")| - 1];
    hide SpaceSigns, Name, SignedList;
  }

  lemma ListParsesBack(states: seq<string>)
    requires StatesParseBack(states)
    ensures ParseCtState(Join(states, "")) == states
  {
    hide ParseCtState;
    if Signed(states[0]) {
      assert SignedList(states) by { assert forall i :: 0 < i < |states| ==> states[i] == states[1..][i - 1]; }
      CtStateRoundTrip(states);
    } else {
      JoinHead(states);
      BareFirst(states[0], states[1..]);
      assert states == [states[0]] + states[1..];
    }
  }

  // Neither white space nor a bar.
  predicate CleanText(s: string) {
    forall i :: 0 <= i < |s| ==> !IsSpace(s[i]) && s[i] != '|'
  }

  lemma {:induction false} JoinClean(parts: seq<string>)
    requires forall i :: 0 <= i < |parts| ==> CleanText(parts[i])
    ensures CleanText(Join(parts, ""))
  {
    if parts != [] {
      JoinHead(parts);
      JoinClean(parts[1..]);
    }
  }

  lemma {:induction false} FieldsClean(s: string, field: string)
    requires '|' !in s && CleanText(field)
    ensures forall i :: 0 <= i < |FieldsFrom(s, field)| ==> CleanText(FieldsFrom(s, field)[i])
  {
    if s != "" {
      if IsSpace(s[0]) {
        FieldsClean(s[1..], "");
      } else {
        FieldsClean(s[1..], field + [s[0]]);
      }
    }
  }

  lemma {:induction false} ReplaceKeepsOut(s: string, c: char, repl: string)
    requires '|' !in repl && ('|' !in s || c == '|')
    ensures '|' !in ReplaceChar(s, c, repl)
  {
    if s != "" { ReplaceKeepsOut(s[1..], c, repl); }
  }

  lemma {:induction false} TrimKeepsOut(s: string)
    requires '|' !in s
    ensures '|' !in TrimSpacesLeft(s) && '|' !in TrimSpacesRight(s)
    decreases |s|
  {
    if s != "" {
      TrimKeepsOut(s[1..]);
      TrimKeepsOut(s[..|s| - 1]);
    }
  }

  // What parseCTState returns holds neither white space nor a bar.
  lemma StatesClean(value: string)
    ensures forall i :: 0 <= i < |ParseCtState(value)| ==> CleanText(ParseCtState(value)[i])
  {
    ContainsChar(value, '|');
    ReplaceKeepsOut(value, '|', "+");
    var plus := if '|' in value then "+" + ReplaceChar(value, '|', "+") else value;
    ReplaceKeepsOut(plus, '+', " +");
    ReplaceKeepsOut(ReplaceChar(plus, '+', " +"), '-', " -");
    hide ReplaceChar, Contains, CleanText, FieldsFrom;
    assert CleanText("") by { EmptyClean(); }
    TrimKeepsOut(SpaceSigns(plus));
    TrimKeepsOut(TrimSpacesLeft(SpaceSigns(plus)));
    FieldsClean(TrimSpaces(SpaceSigns(plus)), "");
    FieldsClean("+" + plus, "");
  }

  lemma EmptyClean()
    ensures CleanText("")
  {
  }

  // A text cut before each of its signs.
  function Cut(t: string): seq<string> {
    if t == "" then []
    else
      var n := |t| - 1;
      var cut := Cut(t[..n]);
      if t[n] == '+' || t[n] == '-' || cut == [] then cut + [[t[n]]]
      else cut[..|cut| - 1] + [cut[|cut| - 1] + [t[n]]]
  }

  lemma JoinLast(parts: seq<string>, last: string)
    ensures Join(parts + [last], "") == Join(parts, "") + last
  {
    if parts == [] {
      assert [] + [last] == [last];
    } else {
      JoinAppend(parts, [last], "");
    }
  }

  lemma GrowLast(init: seq<string>, last: string, c: char)
    ensures Join(init + [last + [c]], "") == Join(init + [last], "") + [c]
  {
    JoinLast(init, last);
    JoinLast(init, last + [c]);
    hide Join;
    assert Join(init, "") + (last + [c]) == Join(init, "") + last + [c];
  }

  lemma SplitLast<T>(s: seq<T>)
    requires s != []
    ensures s[..|s| - 1] + [s[|s| - 1]] == s
  {
  }

  lemma {:induction false} CutJoins(t: string)
    ensures Join(Cut(t), "") == t
  {
    if t != "" {
      var n := |t| - 1;
      var cut := Cut(t[..n]);
      CutJoins(t[..n]);
      SplitLast(t);
      JoinLast(cut, [t[n]]);
      if cut != [] {
        SplitLast(cut);
        GrowLast(cut[..|cut| - 1], cut[|cut| - 1], t[n]);
      }
      hide Join;
    }
  }

  lemma {:induction false} CutSigned(t: string)
    requires CleanText(t) && t != ""
    ensures var cut := Cut(t);
      |cut| > 0 && SignedList(cut[1..]) && (Signed(cut[0]) || (Name(cut[0]) && cut[0] != ""))
  {
    var n := |t| - 1;
    if n > 0 {
      CutSigned(t[..n]);
      CutStep(Cut(t[..n]), t[n]);
    } else {
      assert t[..0] == "" && Cut("") == [] && Cut(t) == [] + [[t[0]]];
      assert NameChar(t[0]) || t[0] == '+' || t[0] == '-';
    }
  }

  lemma CutStep(cut: seq<string>, c: char)
    requires |cut| > 0 && SignedList(cut[1..]) && (Signed(cut[0]) || (Name(cut[0]) && cut[0] != ""))
    requires !IsSpace(c) && c != '|'
    ensures var next := if c == '+' || c == '-' then cut + [[c]]
                        else cut[..|cut| - 1] + [cut[|cut| - 1] + [c]];
      |next| > 0 && SignedList(next[1..]) && (Signed(next[0]) || (Name(next[0]) && next[0] != ""))
  {
    if c == '+' || c == '-' {
      assert (cut + [[c]])[1..] == cut[1..] + [[c]];
      assert Signed([c]);
    } else {
      var last := cut[|cut| - 1];
      if Signed(last) { assert (last + [c])[1..] == last[1..] + [c]; }
      if |cut| > 1 {
        assert last == cut[1..][|cut| - 2];
        assert (cut[..|cut| - 1] + [last + [c]])[1..] == cut[1..|cut| - 1] + [last + [c]];
        assert forall i :: 0 <= i < |cut| - 2 ==> cut[1..|cut| - 1][i] == cut[1..][i];
      }
    }
  }

  // A list of states parses back from its text exactly if StatesParseBack holds.
  lemma CtStatesExactly(states: seq<string>)
    ensures ParseCtState(Join(states, "")) == states <==> StatesParseBack(states)
  {
    hide ParseCtState, StatesParseBack, CleanText;
    var t := Join(states, "");
    if StatesParseBack(states) { ListParsesBack(states); }
    if ParseCtState(t) == states {
      StatesClean(t);
      JoinClean(states);
      WithSign(t);
      CutParsesBack(t);
      ListParsesBack(Cut(t));
      CutJoins(t);
    }
  }

  // Without a sign, the text comes back with one.
  lemma WithSign(t: string)
    requires CleanText(t) && Join(ParseCtState(t), "") == t
    ensures '+' in t || '-' in t
  {
    ContainsChar(t, '|');
    ContainsChar(t, '+');
    ContainsChar(t, '-');
    hide Contains;
    if '+' !in t && '-' !in t {
      assert "+" + t + "" == "+" + t && "" + ("+" + t) == "+" + t;
      hide FieldsFrom;
      FieldsFill("+" + t, "", "");
      FieldsEnd("+" + t);
    }
  }

  lemma CutParsesBack(t: string)
    requires CleanText(t) && ('+' in t || '-' in t)
    ensures StatesParseBack(Cut(t))
  {
    CutSigned(t);
    CutJoins(t);
    var cut := Cut(t);
    if |cut| == 1 && Name(cut[0]) {
      NameHasNo(cut[0], '+');
      NameHasNo(cut[0], '-');
      assert Join(cut, "") == cut[0];
    }
  }

  // ---------- The form with bars ----------

  function AllSet(names: seq<string>): (states: seq<string>)
    ensures |states| == |names| && forall i :: 0 <= i < |names| ==> states[i] == "+" + names[i]
  {
    if names == [] then [] else ["+" + names[0]] + AllSet(names[1..])
  }

  lemma {:induction false} AllSetSigned(names: seq<string>)
    requires forall i :: 0 <= i < |names| ==> Name(names[i])
    ensures SignedList(AllSet(names))
  {
    if names != [] {
      AllSetSigned(names[1..]);
      assert ("+" + names[0])[1..] == names[0];
    }
  }

  lemma NameHasNo(s: string, c: char)
    requires Name(s) && (c == '|' || c == '+' || c == '-')
    ensures c !in s && forall i :: 0 <= i < |s| ==> s[i] != c
  {
  }

  // "+" before the text and in place of each bar.
  lemma {:induction false} BarsToPluses(names: seq<string>)
    requires |names| > 0 && forall i :: 0 <= i < |names| ==> Name(names[i])
    ensures "+" + ReplaceChar(Join(names, "|"), '|', "+") == Join(AllSet(names), "")
  {
    hide ReplaceChar;
    var n, tail := names[0], names[1..];
    NameHasNo(n, '|');
    ReplaceNone(n, '|', "+");
    JoinHead(AllSet(names));
    if |names| == 1 {
      assert "+" + n + "" == "+" + n;
    } else {
      var rest := Join(tail, "|");
      BarsToPluses(tail);
      ReplaceOne('|', "+");
      assert n + "|" + rest == n + ("|" + rest);
      ReplaceAppend(n, "|" + rest, '|', "+");
      ReplaceAppend("|", rest, '|', "+");
      assert AllSet(names)[1..] == AllSet(tail);
      assert "+" + (n + ("+" + ReplaceChar(rest, '|', "+"))) == "+" + n + ("+" + ReplaceChar(rest, '|', "+"));
    }
  }

  // Names joined by bars, or a single bare name, mean that all of them are set.
  lemma BarForm(names: seq<string>)
    requires |names| > 0 && forall i :: 0 <= i < |names| ==> Name(names[i])
    ensures ParseCtState(Join(names, "|")) == AllSet(names)
  {
    AllSetSigned(names);
    CtStateRoundTrip(AllSet(names));
    hide SpaceSigns, TrimSpaces, Fields, Signed, Contains, ReplaceChar;
    ContainsChar(Join(names, "|"), '|');
    if |names| == 1 {
      BareName(names[0]);
    } else {
      BarsToPluses(names);
      var t := Join(AllSet(names), "");
      NoBars(AllSet(names));
      ContainsChar(t, '|');
      assert Join(names, "|")[|names[0]|] == '|';
    }
  }

  lemma BareName(n: string)
    requires Name(n)
    ensures ParseCtState(n) == AllSet([n])
  {
    NameHasNo(n, '|');
    NameHasNo(n, '+');
    NameHasNo(n, '-');
    ContainsChar(n, '|');
    ContainsChar(n, '+');
    ContainsChar(n, '-');
    hide Contains;
    AllSetSigned([n]);
    FieldsOfStates(["+" + n]);
  }

  // ---------- TCP flags ----------

  predicate FlagList(flags: seq<string>) {
    SignedList(flags) && forall i :: 0 <= i < |flags| ==> |flags[i]| == 4
  }

  lemma {:induction false} ChunksOfFlags(flags: seq<string>)
    requires |flags| > 0 && forall i :: 0 <= i < |flags| ==> |flags[i]| == 4
    ensures Chunks(Join(flags, "")) == flags
    ensures |Join(flags, "")| == 4 * |flags|
  {
    hide Chunks;
    JoinHead(flags);
    var f, rest := flags[0], flags[1..];
    if |flags| == 1 {
      assert f + "" == f;
      ChunkOne(f);
    } else {
      ChunksOfFlags(rest);
      ChunkCut(f, Join(rest, ""));
      assert flags == [f] + rest;
    }
  }

  // Two or more signed flags are no number: a sign stands in the middle.
  lemma FlagsAreNoNumber(flags: seq<string>)
    requires |flags| > 1 && FlagList(flags)
    ensures !ParseInt(Join(flags, "")).Ok?
  {
    var t := Join(flags, "");
    JoinHead(flags);
    JoinHead(flags[1..]);
    assert t[4] == flags[1][0];
    assert t[0] == flags[0][0];
    assert StripSign(t).0 == t[1..];
    SignInMiddle(t[1..], 3);
  }

  lemma SignInMiddle(s: string, i: nat)
    requires i < |s| && (s[i] == '+' || s[i] == '-')
    ensures !ParseUint(s, 10, MAX_U64).Ok?
  {
    BadDigit(s, i, 10, MAX_U64, 0);
  }

  lemma {:induction false} BadDigit(s: string, i: nat, base: nat, max: nat, acc: nat)
    requires i < |s| && DigitValue(s[i]) >= base
    ensures !Scan(s, base, max, acc).Ok?
  {
    if i > 0 {
      hide DigitValue;
      assert s[1..][i - 1] == s[i];
      BadDigit(s[1..], i - 1, base, max, acc * base + DigitValue(s[0]));
    }
  }

  lemma OneFlag(flags: seq<string>)
    requires |flags| == 1
    ensures [Join(flags, "")] == flags
  {
  }

  // A nonempty list of signed three-letter flags parses back from its text.
  lemma TcpFlagsRoundTrip(flags: seq<string>)
    requires |flags| > 0 && FlagList(flags)
    ensures ParseTcpFlags(Join(flags, "")) == Ok(flags)
  {
    hide ParseInt, Chunks, SignedList;
    ChunksOfFlags(flags);
    if |flags| > 1 {
      FlagsAreNoNumber(flags);
    } else {
      OneFlag(flags);
    }
  }

  // A single number, or a single empty flag, or flags of four characters that together are
  // no number.
  predicate FlagsParseBack(flags: seq<string>) {
    var t := Join(flags, "");
    if ParseInt(t).Ok? then flags == [t]
    else flags == [""] || (|flags| > 0 && forall i :: 0 <= i < |flags| ==> |flags[i]| == 4)
  }

  lemma {:induction false} ChunksAre(s: string)
    requires |s| % 4 == 0 && s != ""
    ensures |Chunks(s)| > 0 && forall i :: 0 <= i < |Chunks(s)| ==> |Chunks(s)[i]| == 4
  {
    if |s| > 4 { ChunksAre(s[4..]); }
  }

  // A list of flags parses back from its text exactly if FlagsParseBack holds.
  lemma TcpFlagsExactly(flags: seq<string>)
    ensures ParseTcpFlags(Join(flags, "")) == Ok(flags) <==> FlagsParseBack(flags)
  {
    hide ParseInt, Chunks;
    var t := Join(flags, "");
    if ParseInt(t).Err? {
      if flags == [""] {
        ChunkOne("");
      } else if |flags| > 0 && forall i :: 0 <= i < |flags| ==> |flags[i]| == 4 {
        ChunksOfFlags(flags);
      } else if t == "" {
        ChunkOne("");
      } else if |t| % 4 == 0 {
        ChunksAre(t);
      }
    }
  }
}
