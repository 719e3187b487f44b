/**
 The actions by the words of the flow syntax: what each prints as and when, and what the parser
 makes of texts that the printer does not write.
 */
module ActionNames {
  import opened Wrappers
  import opened Text
  import opened Numerals
  import opened NumeralReading
  import opened Matches
  import opened Actions
  import opened ActionParser
  import opened ActionScans
  import opened ActionRoundTrip

  // ---------- What prints, and as what ----------

  lemma WordTexts(net: Net)
    ensures MarshalAction(net, WordAction(All)) == Ok("all") && MarshalAction(net, WordAction(Drop)) == Ok("drop")
    ensures MarshalAction(net, WordAction(Flood)) == Ok("flood")
    ensures MarshalAction(net, WordAction(InPort)) == Ok("in_port")
    ensures MarshalAction(net, WordAction(Local)) == Ok("local")
    ensures MarshalAction(net, WordAction(Normal)) == Ok("normal")
    ensures MarshalAction(net, WordAction(StripVlan)) == Ok("strip_vlan")
  {
  }

  // Setting a header field: addresses must be Ethernet or present, a VLAN has 12 bits.
  lemma HeaderTexts(net: Net, mac: seq<nat>, ip: seq<nat>, port: u16, vid: int64)
    ensures |mac| == 6 ==> MarshalAction(net, ModDl(Src, mac)) == Ok("mod_dl_src:" + net.macText(mac))
    ensures |mac| == 6 ==> MarshalAction(net, ModDl(Dst, mac)) == Ok("mod_dl_dst:" + net.macText(mac))
    ensures MarshalAction(net, ModDl(Src, mac)).Ok? || MarshalAction(net, ModDl(Dst, mac)).Ok? ==> |mac| == 6
    ensures MarshalAction(net, ModNw(Src, Some(ip))) == Ok("mod_nw_src:" + net.ipText(ip))
    ensures MarshalAction(net, ModNw(Dst, Some(ip))) == Ok("mod_nw_dst:" + net.ipText(ip))
    ensures MarshalAction(net, ModNw(Src, None)).Err? && MarshalAction(net, ModNw(Dst, None)).Err?
    ensures MarshalAction(net, ModTp(Src, port)) == Ok("mod_tp_src:" + FormatInt(port))
    ensures MarshalAction(net, ModTp(Dst, port)) == Ok("mod_tp_dst:" + FormatInt(port))
    ensures 0 <= vid <= 4095 ==> MarshalAction(net, ModVlan(vid)) == Ok("mod_vlan_vid:" + FormatInt(vid))
    ensures MarshalAction(net, ModVlan(vid)).Ok? ==> 0 <= vid <= 4095
  {
    hide FormatInt;
  }

  lemma OutputTexts(net: Net, port: int64, field: string)
    ensures port >= 0 ==> MarshalAction(net, Output(port)) == Ok("output:" + FormatInt(port))
    ensures MarshalAction(net, Output(port)).Ok? ==> port >= 0
    ensures field != "" ==> MarshalAction(net, OutputField(field)) == Ok("output:" + field)
    ensures MarshalAction(net, OutputField(field)).Ok? ==> field != ""
    ensures 0 <= port <= 4294967039 ==> MarshalAction(net, ResubmitPort(port)) == Ok("resubmit:" + FormatInt(port))
    ensures MarshalAction(net, ResubmitPort(port)).Ok? ==> 0 <= port <= 4294967039
  {
    hide FormatInt;
  }

  // Zero is left out of resubmit(port,table), and must not stand in both places.
  lemma ResubmitTexts(net: Net, port: int64, table: int64)
    requires port != 0 && table != 0
    ensures MarshalAction(net, Resubmit(port, table)) ==
      Ok("resubmit(" + (FormatInt(port) + ("," + (FormatInt(table) + ")"))))
    ensures MarshalAction(net, Resubmit(0, table)) == Ok("resubmit(" + ("," + (FormatInt(table) + ")")))
    ensures MarshalAction(net, Resubmit(port, 0)) == Ok("resubmit(" + (FormatInt(port) + ("," + ")")))
    ensures MarshalAction(net, Resubmit(0, 0)).Err?
  {
    hide FormatInt;
    assert "" + ("," + (FormatInt(table) + ")")) == "," + (FormatInt(table) + ")");
    assert "" + ")" == ")";
  }

  lemma PairTexts(net: Net, left: string, right: string)
    requires left != "" && right != ""
    ensures MarshalAction(net, Pair(Load, left, right)) == Ok("load:" + (left + ("->" + right)))
    ensures MarshalAction(net, Pair(Move, left, right)) == Ok("move:" + (left + ("->" + right)))
    ensures MarshalAction(net, Pair(SetField, left, right)) == Ok("set_field:" + (left + ("->" + right)))
    ensures forall k: PairKind ::
      MarshalAction(net, Pair(k, "", right)).Err? && MarshalAction(net, Pair(k, left, "")).Err?
  {
  }

  // Of n dimensions, a conjunction names one up to n.
  lemma ConjunctionTexts(net: Net, id: int64, dimension: int64, size: int64)
    ensures var text := FormatInt(id) + ("," + (FormatInt(dimension) + ("/" + (FormatInt(size) + ")"))));
      dimension <= size ==> MarshalAction(net, Conjunction(id, dimension, size)) == Ok("conjunction(" + text)
    ensures MarshalAction(net, Conjunction(id, dimension, size)).Ok? ==> dimension <= size
  {
    hide FormatInt;
  }

  lemma OtherTexts(net: Net, args: string, tunnel: u64, learned: string)
    ensures args != "" ==> MarshalAction(net, Ct(args)) == Ok("ct(" + args + ")")
    ensures MarshalAction(net, Ct("")).Err?
    ensures MarshalAction(net, SetTunnel(tunnel)) == Ok("set_tunnel:" + ("0x" + Digits(tunnel, 16)))
    ensures MarshalAction(net, Learn(Printed(learned))) == Ok("learn(" + learned + ")")
    ensures MarshalAction(net, Learn(NilFlow)).Err? && MarshalAction(net, Learn(Unprintable)).Err?
  {
    hide Digits;
    assert "" + Digits(tunnel, 16) == Digits(tunnel, 16);
  }

  lemma MultipathText(net: Net, fields: string, basis: int64, algorithm: string, links: int64, arg: int64, dst: string)
    ensures MarshalAction(net, Multipath(fields, basis, algorithm, links, arg, dst)) ==
      Ok("multipath(" + (fields + "," + (FormatInt(basis) + "," + (algorithm + "," + (FormatInt(links) + ","
        + (FormatInt(arg) + "," + dst))))) + ")")
  {
    hide FormatInt;
    var a, b, c := FormatInt(basis), FormatInt(links), FormatInt(arg);
    assert [fields, a, algorithm, b, c, dst][1..] == [a, algorithm, b, c, dst];
    assert [a, algorithm, b, c, dst][1..] == [algorithm, b, c, dst] && [algorithm, b, c, dst][1..] == [b, c, dst];
    assert [b, c, dst][1..] == [c, dst] && [c, dst][1..] == [dst];
    assert Join([c, dst], ",") == c + "," + dst;
    assert Join([b, c, dst], ",") == b + "," + (c + "," + dst);
    assert Join([algorithm, b, c, dst], ",") == algorithm + "," + (b + "," + (c + "," + dst));
    assert Join([a, algorithm, b, c, dst], ",") == a + "," + (algorithm + "," + (b + "," + (c + "," + dst)));
    hide Join;
    JoinFirst(fields, [a, algorithm, b, c, dst], ",");
    assert [fields] + [a, algorithm, b, c, dst] == [fields, a, algorithm, b, c, dst];
  }

  // ---------- Texts that the printer does not write ----------

  // White space before an operand is skipped, but not a line feed.
  lemma {:induction false} SpaceSkipped(a: string, s: string)
    requires AllSpace(a)
    ensures SkipSpace(a + s) == if '\n' in a then None else SkipSpace(s)
  {
    if a == "" {
      assert a + s == s;
    } else {
      assert (a + s)[1..] == a[1..] + s;
      SpaceSkipped(a[1..], s);
      hide IsSpace;
    }
  }

  lemma OperandsSpaced(a: string, s: string)
    requires AllSpace(a)
    ensures '\n' !in a ==> ScanInt(a + s) == ScanInt(s) && ScanPort(a + s) == ScanPort(s)
    ensures '\n' !in a ==> ScanString(a + s) == ScanString(s)
    ensures '\n' in a ==> ScanInt(a + s).Err? && ScanPort(a + s).Err? && ScanString(a + s).Err?
  {
    SpaceSkipped(a, s);
    hide SkipSpace, AllSpace, ParseInt, ParseUint, DigitRun, Token;
  }

  // The blanks of a regular expression.
  lemma Blanks(c: char)
    ensures Blank(c) <==> c in ['\t', '\n', 12 as char, '\r', ' ']
  {
  }

  // A port beyond 16 bits is refused.
  lemma PortExactly(n: nat)
    ensures if n <= 65535 then ScanPort(FormatInt(n)) == Ok(n) else ScanPort(FormatInt(n)).Err?
  {
    PrintedDigits(n);
    DigitsText(n);
    DigitRunOf(Digits(n, 10), "");
    assert Digits(n, 10) + "" == Digits(n, 10);
    NothingToSkip(Digits(n, 10));
    hide Digits, DigitRun, Scan, SkipSpace, DigitList, Value, Spells, ParseUint;
    DigitsRead(Digits(n, 10), DigitList(n), 10, MAX_U64);
  }

  // ct( is found anywhere in a text that has no parenthesis before it: what stands in front of it
  // is lost.
  lemma CtAnywhere(net: Net, front: string, args: string)
    requires '(' !in front && args != "" && NoBlank(args)
    ensures ParseAction(net, front + ("ct(" + (args + ")"))) == Ok(Ct(args))
  {
    var s := args + ")";
    var text := front + ("ct(" + s);
    CtArgsAll(args);
    FindHere(s, "ct(", CtArgs);
    FindBehind(front, "ct(" + s);
    assert text[|front| + 2] == '(';
    hide Find, CtArgs, WordOf, ParseUnnamed;
    NotAWord(text, |front| + 2);
  }

  lemma {:induction false} FindBehind(front: string, s: string)
    requires '(' !in front && FindCt(s).Some? && HasPrefix(s, "ct(")
    ensures FindCt(front + s) == FindCt(s)
    decreases |front|
  {
    if front == "" {
      assert front + s == s;
    } else {
      var t := front + s;
      assert t[1..] == front[1..] + s;
      NoCtHere(front, s);
      FindBehind(front[1..], s);
      hide CtArgs, HasPrefix;
    }
  }

  lemma NoCtHere(front: string, s: string)
    requires front != "" && '(' !in front && HasPrefix(s, "ct(")
    ensures !HasPrefix(front + s, "ct(")
  {
    var t := front + s;
    PrefixChars(s, "ct(");
    assert t[2] == if |front| >= 3 then front[2] else s[2 - |front|];
    PrefixDiffers(t, "ct(", 2);
  }

  // What a pattern finds stands in the text, between the pattern's own characters.
  lemma FoundInText(s: string)
    ensures CtArgs(s).Some? ==> HasPrefix(s, CtArgs(s).value + ")")
    ensures ResubmitArgs(s).Some? ==>
      HasPrefix(s, ResubmitArgs(s).value.0 + ("," + (ResubmitArgs(s).value.1 + ")")))
    ensures PortArg(s).Some? ==> PortArg(s).value != "" && HasPrefix(s, PortArg(s).value)
    ensures PairArgs(s).Some? ==> HasPrefix(s, PairArgs(s).value.0 + ("->" + PairArgs(s).value.1))
  {
    CtInText(s);
    ResubmitInText(s);
    PairInText(s);
  }

  lemma CtInText(s: string)
    ensures CtArgs(s).Some? ==> HasPrefix(s, CtArgs(s).value + ")")
  {
    var run := Run(s);
    var j := LastIndex(run, ")", 1, |run| - 1);
    hide Run, LastIndex;
    if j >= 0 {
      CharAt(run, ')', j);
      assert s[..j + 1] == run[..j] + ")";
    }
  }

  lemma ResubmitInText(s: string)
    ensures ResubmitArgs(s).Some? ==>
      HasPrefix(s, ResubmitArgs(s).value.0 + ("," + (ResubmitArgs(s).value.1 + ")")))
  {
    hide DigitRun;
    if ResubmitArgs(s).Some? {
      var (p, t) := ResubmitArgs(s).value;
      var n := |p| + |t| + 2;
      assert s[|p|] == ',' && s[|p| + 1..][..|t|] == t && s[n - 1] == ')';
      assert s[..n] == p + ("," + (t + ")"));
    }
  }

  lemma PairInText(s: string)
    ensures PairArgs(s).Some? ==> HasPrefix(s, PairArgs(s).value.0 + ("->" + PairArgs(s).value.1))
  {
    var run := Run(s);
    var j := LastIndex(run, "->", 1, |run| - 3);
    hide Run, LastIndex;
    if j >= 0 {
      assert run[j..][..2] == "->";
      assert s[..|run|] == run == run[..j] + ("->" + run[j + 2..]);
    }
  }

  // Between the numbers of a conjunction only its own characters will do.
  lemma OtherCharacterRefused(n: int64, c: char, d: char, rest: string)
    requires !IsDigit(d) && d != c
    ensures ScanIntThen(FormatInt(n) + ([d] + rest), c) == Err(BadScan) && ScanIntThen(FormatInt(n), c) == Err(BadScan)
  {
    ScanIntText(n, [d] + rest);
    ScanIntText(n, "");
    assert FormatInt(n) + "" == FormatInt(n);
    hide ScanInt, FormatInt;
  }
}
