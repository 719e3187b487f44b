/** Which actions parse back from their text, and the theorem that exactly they do. */
module ActionRoundTrip {
  import opened Wrappers
  import opened Text
  import opened Numerals
  import opened Matches
  import opened Actions
  import opened ActionParser
  import opened ActionScans

  // ---------- What the parser can produce ----------

  // The second operand holds no arrow with text behind it.
  predicate NoInnerArrow(right: string) { LastIndex(right, "->", 0, |right| - 3) < 0 }

  predicate Producible(a: Action) {
    match a
    case WordAction(word) => !word.All?
    case Ct(args) => args != "" && NoBlank(args)
    case OutputField(_) => false
    case SetTunnel(_) => false
    case Multipath(_, _, _, _, _, _) => false
    case Learn(_) => false
    case Resubmit(port, table) => port >= 0 && table >= 0
    case ResubmitPort(port) => port >= 0
    case Pair(_, left, right) => left != "" && right != "" && NoBlank(left) && NoBlank(right) && NoInnerArrow(right)
    case _ => true
  }

  lemma CtArgsShape(s: string)
    ensures CtArgs(s).Some? ==> CtArgs(s).value != "" && NoBlank(CtArgs(s).value)
  {
  }

  lemma PairArgsShape(s: string)
    requires PairArgs(s).Some?
    ensures var (left, right) := PairArgs(s).value;
      left != "" && right != "" && NoBlank(left) && NoBlank(right) && NoInnerArrow(right)
  {
    var run := Run(s);
    NoArrowBehind(run, LastIndex(run, "->", 1, |run| - 3));
    hide LastIndex, Blank;
  }

  lemma NoArrowBehind(run: string, j: nat)
    requires j + 3 <= |run| && forall i :: j < i <= |run| - 3 ==> !OccursAt(run, "->", i)
    ensures NoInnerArrow(run[j + 2..])
  {
    hide HasPrefix, LastIndex;
    var right := run[j + 2..];
    var i := LastIndex(right, "->", 0, |right| - 3);
    assert i >= 0 ==> right[i..] == run[j + 2 + i..];
    assert i >= 0 ==> !OccursAt(run, "->", j + 2 + i);
  }

  lemma DigitsAreNotNegative(digits: string)
    requires AllDigits(digits) && ParseInt(digits).Ok?
    ensures ParseInt(digits).value >= 0
  {
    hide Scan;
  }

  lemma ResubmitShape(groups: (string, string))
    requires AllDigits(groups.0) && AllDigits(groups.1) && ParseResubmit(groups).Ok?
    ensures Producible(ParseResubmit(groups).value)
  {
    hide ParseInt, AllDigits;
    if groups.0 != "" { DigitsAreNotNegative(groups.0); }
    if groups.1 != "" { DigitsAreNotNegative(groups.1); }
  }

  lemma SearchedShape(s: string)
    requires ParseSearched(s).Ok?
    ensures Producible(ParseSearched(s).value)
    ensures !ParseSearched(s).value.Ct? && !ParseSearched(s).value.WordAction?
  {
    hide Find, ResubmitArgs, PortArg, PairArgs, NoBlank, NoInnerArrow, AllDigits;
    if FindResubmit(s).Some? {
      var i := FindWhere(s, "resubmit(", ResubmitArgs);
      ResubmitArgsShape(s[i + 9..]);
      ResubmitShape(FindResubmit(s).value);
    } else if FindResubmitPort(s).Some? {
      var i := FindWhere(s, "resubmit:", PortArg);
      PortArgShape(s[i + 9..]);
      DigitsAreNotNegative(FindResubmitPort(s).value);
    } else {
      var k := if FindPair(Load, s).Some? then Load else if FindPair(Move, s).Some? then Move else SetField;
      var i := FindWhere(s, PairText(k), PairArgs);
      PairArgsShape(s[i + |PairText(k)|..]);
    }
  }

  lemma ResubmitArgsShape(s: string)
    ensures ResubmitArgs(s).Some? ==> AllDigits(ResubmitArgs(s).value.0) && AllDigits(ResubmitArgs(s).value.1)
  {
  }

  lemma PortArgShape(s: string)
    ensures PortArg(s).Some? ==> AllDigits(PortArg(s).value)
  {
  }

  lemma LeadShape(net: Net, l: Lead, rest: string)
    requires ParseLead(net, l, rest).Ok?
    ensures Producible(ParseLead(net, l, rest).value)
    ensures !ParseLead(net, l, rest).value.Ct? && !ParseLead(net, l, rest).value.WordAction?
  {
    hide ScanString, ScanInt, ScanPort, ScanIntThen;
  }

  // Whatever the text, only these actions come out of the parser.
  lemma ParserProduces(net: Net, s: string)
    requires ParseAction(net, s).Ok?
    ensures Producible(ParseAction(net, s).value)
  {
    hide WordOf, Find, CtArgs, ParseLead, ParseSearched, NoBlank;
    if WordOf(ToLower(s)).Some? {
      WordsWithoutAll(ToLower(s));
    } else if FindCt(s).Some? {
      var i := FindWhere(s, "ct(", CtArgs);
      CtArgsShape(s[i + 3..]);
    } else if LeadOf(s).Some? {
      LeadShape(net, LeadOf(s).value, s[|LeadText(LeadOf(s).value)|..]);
    } else {
      SearchedShape(s);
    }
  }

  lemma WordsWithoutAll(t: string)
    ensures WordOf(t) != Some(All)
  {
  }

  // ---------- Which actions survive ----------

  // The characters of the addresses that Go's net package prints.
  predicate AddressChar(c: char) { DigitValue(c) < 16 || c == ':' || c == '.' }

  predicate PlainAddress(s: string) { s != "" && forall i :: 0 <= i < |s| ==> AddressChar(s[i]) }

  predicate AddressesPrinted(net: Net, a: Action) {
    match a
    case ModDl(_, addr) => PlainAddress(net.macText(addr))
    case ModNw(_, Some(ip)) => PlainAddress(net.ipText(ip))
    case _ => true
  }

  // A pattern that the parser tries earlier occurs in the text.
  predicate Captured(k: PairKind, text: string) {
    || FindCt(text).Some?
    || FindResubmit(text).Some?
    || FindResubmitPort(text).Some?
    || (!k.Load? && FindPair(Load, text).Some?)
    || (k.SetField? && FindPair(Move, text).Some?)
  }

  predicate Survives(net: Net, a: Action) {
    match a
    case WordAction(word) => !word.All?
    case Ct(args) => NoBlank(args)
    case ModDl(_, addr) => net.parseMac(net.macText(addr)) == Some(addr)
    case ModNw(_, ip) => ip.Some? && net.parseIp(net.ipText(ip.value)) == ip
    case OutputField(_) => false
    case Resubmit(port, table) => port >= 0 && table >= 0
    case Pair(kind, left, right) =>
      && NoBlank(left) && NoBlank(right) && NoInnerArrow(right)
      && !Captured(kind, PairText(kind) + (left + ("->" + right)))
    case SetTunnel(_) => false
    case Multipath(_, _, _, _, _, _) => false
    case Learn(_) => false
    case _ => true
  }

  // ---------- Texts with a fixed beginning ----------

  lemma LeadEnds(l: Lead)
    ensures var t := LeadText(l);
      && |t| > 2 && (t[|t| - 1] == ':' || t[|t| - 1] == '(')
      && forall i :: 0 <= i < |t| && t[i] == '(' ==> i > 2 && t[i - 1] != 't'
  {
  }

  lemma LeadParsed(net: Net, l: Lead, rest: string)
    requires '(' !in rest
    ensures ParseAction(net, LeadText(l) + rest) == ParseLead(net, l, rest)
  {
    var t := LeadText(l);
    LeadEnds(l);
    LeadRoundTrip(l, rest);
    hide LeadOf, LeadText, WordOf, FindCt, ParseLead, ParseSearched;
    var s := t + rest;
    assert s[|t|..] == rest;
    NotAWord(s, |t| - 1);
    OnlyInFront(t, rest, '(');
    CtAbsent(s);
  }

  lemma OnlyInFront(front: string, rest: string, c: char)
    requires c !in rest
    ensures forall i :: 0 <= i < |front + rest| && (front + rest)[i] == c ==> i < |front| && front[i] == c
  {
  }

  lemma AddressIsToken(s: string)
    requires PlainAddress(s)
    ensures NoSpace(s) && '(' !in s
  {
  }

  lemma NumberHasNoParen(n: int)
    ensures '(' !in FormatInt(n) && ':' !in FormatInt(n)
  {
    var m: nat := if n < 0 then 0 - n else n;
    DigitsText(m);
    hide Digits;
  }

  lemma LeadSurvives(net: Net, a: Action)
    requires a.ModDl? || a.ModNw? || a.ModTp? || a.ModVlan? || a.Output?
    requires MarshalAction(net, a).Ok? && AddressesPrinted(net, a)
    ensures ParseAction(net, MarshalAction(net, a).value) == Ok(a) <==> Survives(net, a)
  {
    hide ParseAction, PlainAddress, ScanString, ScanInt, ScanPort, FormatInt, LeadText;
    match a
    case ModDl(dir, addr) =>
      var t := net.macText(addr);
      AddressIsToken(t);
      NonEmptyAddress(t);
      LeadParsed(net, LModDl(dir), t);
      ScanStringAll(t);
    case ModNw(dir, ip) =>
      var t := net.ipText(ip.value);
      AddressIsToken(t);
      NonEmptyAddress(t);
      LeadParsed(net, LModNw(dir), t);
      ScanStringAll(t);
    case ModTp(dir, port) =>
      NumberHasNoParen(port);
      LeadParsed(net, LModTp(dir), FormatInt(port));
      ScanPortText(port);
    case ModVlan(vid) => WholeNumber(net, LModVlan, vid);
    case Output(port) => WholeNumber(net, LOutput, port);
  }

  lemma NonEmptyAddress(s: string)
    requires PlainAddress(s)
    ensures s != ""
  {
  }

  lemma WholeNumber(net: Net, l: Lead, n: int64)
    ensures ParseAction(net, LeadText(l) + FormatInt(n)) == ParseLead(net, l, FormatInt(n))
    ensures ScanInt(FormatInt(n)) == Ok((n, ""))
  {
    hide *;
    NumberHasNoParen(n);
    LeadParsed(net, l, FormatInt(n));
    ScanIntText(n, "");
    assert FormatInt(n) + "" == FormatInt(n);
  }

  lemma ConjunctionSurvives(net: Net, id: int64, dimension: int64, size: int64)
    requires dimension <= size
    ensures ParseAction(net, MarshalAction(net, Conjunction(id, dimension, size)).value)
      == Ok(Conjunction(id, dimension, size))
  {
    hide ParseAction, FormatInt, ScanConjunction;
    var rest := FormatInt(id) + ("," + (FormatInt(dimension) + ("/" + (FormatInt(size) + ")"))));
    NumberHasNoParen(id);
    NumberHasNoParen(dimension);
    NumberHasNoParen(size);
    assert '(' !in rest;
    ScanConjunctionText(id, dimension, size);
    LeadParsed(net, LConjunction, rest);
  }

  // ---------- Words and ct ----------

  // No pattern matches a text without parentheses whose colons follow other letters.
  lemma NothingFound(net: Net, s: string)
    requires s != "" && s[0] != 'm' && s[0] != 'c' && s[0] != 'o'
    requires '(' !in s && WordOf(ToLower(s)) == None
    requires forall i :: 0 <= i < |s| && s[i] == ':' ==> i > 0 && s[i - 1] !in "tde"
    ensures ParseAction(net, s) == Err(NoActionMatched)
  {
    CtAbsent(s);
    NoLead(s);
    hide Find, WordOf, FindCt, LeadOf;
    KeywordAbsent(s, "resubmit(");
    FindAbsent(s, "resubmit(", ResubmitArgs);
    KeywordAbsent(s, "resubmit:");
    FindAbsent(s, "resubmit:", PortArg);
    PairAbsent(s, Load);
    PairAbsent(s, Move);
    PairAbsent(s, SetField);
  }

  lemma PairAbsent(s: string, k: PairKind)
    requires forall i :: 0 <= i < |s| && s[i] == ':' ==> i > 0 && s[i - 1] !in "tde"
    ensures FindPair(k, s) == None
  {
    hide Find;
    var p := PairText(k);
    assert p[|p| - 1] == ':' && p[|p| - 2] in "tde";
    KeywordAbsent(s, p);
    FindAbsent(s, p, PairArgs);
  }

  lemma WordSurvives(net: Net, w: Word)
    ensures ParseAction(net, WordText(w)) == if w.All? then Err(NoActionMatched) else Ok(WordAction(w))
  {
    WordRoundTrip(w);
    hide WordOf, FindCt, ParseUnnamed;
    if w.All? { NothingFound(net, "all"); }
  }

  // The text is the word, where any letter may be the capital, which is 32 places below it.
  predicate InAnyCase(text: string, word: string) {
    |text| == |word| && forall i :: 0 <= i < |word| ==>
      text[i] == word[i] || ('a' <= word[i] <= 'z' && text[i] as int == word[i] as int - 32)
  }

  lemma LowerExactly(text: string, word: string)
    requires forall i :: 0 <= i < |word| ==> WordChar(word[i])
    ensures ToLower(text) == word <==> InAnyCase(text, word)
  {
  }

  lemma WordIsWordChars(w: Word)
    ensures forall i :: 0 <= i < |WordText(w)| ==> WordChar(WordText(w)[i])
  {
  }

  lemma WordOfExactly(t: string, w: Word)
    ensures WordOf(t) == Some(w) <==> !w.All? && t == WordText(w)
  {
  }

  lemma NoWordBehind(net: Net, s: string)
    requires WordOf(ToLower(s)) == None && ParseAction(net, s).Ok?
    ensures !ParseAction(net, s).value.WordAction?
  {
    if FindCt(s) == None {
      match LeadOf(s)
      case Some(l) =>
        if ParseLead(net, l, s[|LeadText(l)|..]).Ok? { LeadShape(net, l, s[|LeadText(l)|..]); }
      case None =>
        if ParseSearched(s).Ok? { SearchedShape(s); }
    }
    hide WordOf, FindCt, LeadOf, ParseLead, ParseSearched, Producible;
  }

  // A word is read in any case of its letters, and nothing else is read as that word; all is
  // read in no case.
  lemma WordsInAnyCase(net: Net, w: Word, text: string)
    ensures ParseAction(net, text) == Ok(WordAction(w)) <==> !w.All? && InAnyCase(text, WordText(w))
  {
    WordIsWordChars(w);
    LowerExactly(text, WordText(w));
    WordOfExactly(ToLower(text), w);
    if WordOf(ToLower(text)) == None && ParseAction(net, text).Ok? { NoWordBehind(net, text); }
    hide WordOf, ToLower, FindCt, ParseUnnamed, InAnyCase, WordText;
  }

  // set_tunnel is printed, but no case of the parser accepts it.
  lemma SetTunnelIsRejected(net: Net, tunnel: u64)
    ensures MarshalAction(net, SetTunnel(tunnel)).Ok?
    ensures ParseAction(net, MarshalAction(net, SetTunnel(tunnel)).value) == Err(NoActionMatched)
  {
    var h := Hex(tunnel, 0);
    HexHasNoColon(tunnel);
    TunnelText(h);
    hide *;
    NothingFound(net, "set_tunnel:" + h);
    assert MarshalAction(net, SetTunnel(tunnel)) == Ok("set_tunnel:" + h) by { TunnelMarshals(net, tunnel); }
  }

  lemma TunnelMarshals(net: Net, tunnel: u64)
    ensures MarshalAction(net, SetTunnel(tunnel)) == Ok("set_tunnel:" + Hex(tunnel, 0))
  {
    hide Hex;
  }

  lemma TunnelText(h: string)
    requires ':' !in h && '(' !in h
    ensures var s := "set_tunnel:" + h;
      && s != "" && s[0] == 's' && '(' !in s && WordOf(ToLower(s)) == None
      && forall i :: 0 <= i < |s| && s[i] == ':' ==> i > 0 && s[i - 1] !in "tde"
  {
    hide WordOf, ToLower;
    OnlyInFront("set_tunnel:", h, ':');
    OnlyInFront("set_tunnel:", h, '(');
    NotAWord("set_tunnel:" + h, 10);
  }

  lemma HexHasNoColon(n: nat)
    ensures ':' !in Hex(n, 0) && '(' !in Hex(n, 0)
  {
    DigitsAreDigits(n, 16);
    hide Digits;
  }

  lemma CtSurvives(net: Net, args: string)
    requires args != "" && NoBlank(args)
    ensures ParseAction(net, "ct(" + args + ")") == Ok(Ct(args))
  {
    var s := args + ")";
    var text := "ct(" + args + ")";
    CtArgsAll(args);
    hide Find, CtArgs, WordOf, ParseUnnamed;
    assert text == "ct(" + s;
    NotAWord(text, 2);
    FindHere(s, "ct(", CtArgs);
  }

  lemma CtArgsAll(args: string)
    requires args != "" && NoBlank(args)
    ensures CtArgs(args + ")") == Some(args)
  {
    var s := args + ")";
    RunAll(s);
    CharAt(s, ')', |args|);
    assert s[..|args|] == args;
  }

  // ---------- resubmit ----------

  lemma GroupText(n: int64)
    requires n >= 0
    ensures AllDigits(NonZeroText(n)) && ParseGroup(NonZeroText(n)) == Ok(n)
  {
    DigitsText(n);
    ParseFormatInt(n);
    hide Digits, ParseInt;
  }

  lemma ResubmitArgsText(p: string, t: string)
    requires AllDigits(p) && AllDigits(t)
    ensures ResubmitArgs(p + ("," + (t + ")"))) == Some((p, t))
  {
    DigitRunOf(p, "," + (t + ")"));
    DigitRunOf(t, ")");
    hide DigitRun;
    var s := p + ("," + (t + ")"));
    assert s[|p|..] == "," + (t + ")");
    assert s[|p|..][1..] == t + ")";
    assert s[|p|..][1 + |t|..] == ")";
  }

  lemma ResubmitSurvives(net: Net, port: int64, table: int64)
    requires port >= 0 && table >= 0
    ensures ParseAction(net, "resubmit(" + (NonZeroText(port) + ("," + (NonZeroText(table) + ")"))))
      == Ok(Resubmit(port, table))
  {
    var p, t := NonZeroText(port), NonZeroText(table);
    var body := p + ("," + (t + ")"));
    GroupText(port);
    GroupText(table);
    ResubmitArgsText(p, t);
    assert '(' !in body;
    hide NonZeroText, ResubmitArgs, Find, WordOf, LeadOf, ParseGroup, FindCt;
    ReachesSearch("resubmit(", body);
    FindHere(body, "resubmit(", ResubmitArgs);
  }

  // No word, no ct and no fixed beginning is found in a resubmit text.
  lemma ReachesSearch(p: string, body: string)
    requires (p == "resubmit(" || p == "resubmit:") && '(' !in body
    ensures var s := p + body; WordOf(ToLower(s)) == None && FindCt(s) == None && LeadOf(s) == None
  {
    hide WordOf, LeadOf, FindCt;
    var s := p + body;
    NotAWord(s, 8);
    OnlyInFront(p, body, '(');
    CtAbsent(s);
    NoLead(s);
  }

  lemma PortArgText(n: int64)
    requires n >= 0
    ensures PortArg(FormatInt(n)) == Some(FormatInt(n))
  {
    var d := FormatInt(n);
    DigitsText(n);
    assert d + "" == d;
    DigitRunOf(d, "");
    hide DigitRun, Digits;
  }

  lemma ResubmitPortSurvives(net: Net, port: int64)
    requires port >= 0
    ensures ParseAction(net, "resubmit:" + FormatInt(port)) == Ok(ResubmitPort(port))
  {
    var d := FormatInt(port);
    var s := "resubmit:" + d;
    NumberHasNoParen(port);
    PortArgText(port);
    ParseFormatInt(port);
    hide FormatInt, PortArg, ParseInt, Find, WordOf, LeadOf, FindCt;
    ReachesSearch("resubmit:", d);
    KeywordAbsent(s, "resubmit(");
    FindAbsent(s, "resubmit(", ResubmitArgs);
    FindHere(d, "resubmit:", PortArg);
  }

  // ---------- load, move and set_field ----------

  lemma {:induction false} LastIndexAt(s: string, sub: string, lo: nat, hi: int, i: nat)
    requires lo <= i <= hi && OccursAt(s, sub, i)
    requires forall j :: i < j <= hi ==> !OccursAt(s, sub, j)
    ensures LastIndex(s, sub, lo, hi) == i
  {
  }

  lemma PairArgsText(left: string, right: string)
    requires left != "" && right != "" && NoBlank(left) && NoBlank(right) && NoInnerArrow(right)
    ensures PairArgs(left + ("->" + right)) == Some((left, right))
  {
    var s := left + ("->" + right);
    RunAll(s);
    var n := |left|;
    hide LastIndex, Run, NoBlank;
    assert s[n..] == "->" + right;
    PrefixHere("->", right);
    forall j | n < j <= |s| - 3 ensures !OccursAt(s, "->", j) {
      if j == n + 1 {
        NotAt(s, "->", j, 0);
      } else {
        assert s[j..] == right[j - n - 2..];
        assert !OccursAt(right, "->", j - n - 2);
      }
    }
    LastIndexAt(s, "->", 1, |s| - 3, n);
    assert s[..n] == left && s[n + 2..] == right;
  }

  lemma PairSurvives(net: Net, k: PairKind, left: string, right: string)
    requires left != "" && right != "" && Survives(net, Pair(k, left, right))
    ensures ParseAction(net, PairText(k) + (left + ("->" + right))) == Ok(Pair(k, left, right))
  {
    var p := PairText(k);
    var body := left + ("->" + right);
    PairArgsText(left, right);
    assert |p| >= 5 && p[|p| - 1] == ':' && (p[0] == 'l' || p[0] == 's' || (p[0] == 'm' && p[2] == 'v'));
    hide PairText, PairArgs, Find, WordOf, LeadOf, NoBlank, NoInnerArrow;
    NotAWord(p + body, |p| - 1);
    NoLead(p + body);
    FindHere(body, p, PairArgs);
  }

  lemma PairFound(net: Net, s: string, k: PairKind, left: string, right: string)
    requires LeadOf(s) == None && WordOf(ToLower(s)) == None
    requires ParseAction(net, s) == Ok(Pair(k, left, right))
    ensures !Captured(k, s)
  {
    hide Find, WordOf, LeadOf, ParseResubmit, ParseResubmitPort;
    ResubmitIsNoPair(s);
  }

  lemma ResubmitIsNoPair(s: string)
    ensures FindResubmit(s).Some? && ParseResubmit(FindResubmit(s).value).Ok?
      ==> ParseResubmit(FindResubmit(s).value).value.Resubmit?
    ensures FindResubmitPort(s).Some? && ParseResubmitPort(FindResubmitPort(s).value).Ok?
      ==> ParseResubmitPort(FindResubmitPort(s).value).value.ResubmitPort?
  {
    hide Find, ParseInt;
  }

  lemma PairExactly(net: Net, k: PairKind, left: string, right: string)
    requires left != "" && right != ""
    ensures ParseAction(net, PairText(k) + (left + ("->" + right))) == Ok(Pair(k, left, right))
      <==> Survives(net, Pair(k, left, right))
  {
    var p := PairText(k);
    var s := p + (left + ("->" + right));
    if Survives(net, Pair(k, left, right)) {
      PairSurvives(net, k, left, right);
    } else if ParseAction(net, s) == Ok(Pair(k, left, right)) {
      ParserProduces(net, s);
      assert |p| >= 5 && p[|p| - 1] == ':' && (p[0] == 'l' || p[0] == 's' || (p[0] == 'm' && p[2] == 'v'));
      hide ParseAction, PairText, LeadOf, WordOf, Captured, NoBlank, NoInnerArrow;
      NotAWord(s, |p| - 1);
      NoLead(s);
      PairFound(net, s, k, left, right);
    }
  }

  // ---------- Operands without keywords ----------

  // What the patterns tried before a pair's own pattern begin with.
  function EarlierKeywords(k: PairKind): seq<string> {
    ["ct(", "resubmit(", "resubmit:"]
    + (if k.Load? then [] else if k.Move? then ["load:"] else ["load:", "move:"])
  }

  lemma NowhereIn(body: string, keyword: string)
    requires !Contains(body, keyword)
    ensures forall i :: 0 <= i <= |body| ==> !OccursAt(body, keyword, i)
  {
    forall i | 0 <= i <= |body| ensures !OccursAt(body, keyword, i) {
      if OccursAt(body, keyword, i) { IndexFirst(body, keyword, i); }
    }
  }

  lemma OccursBehind(front: string, body: string, keyword: string, i: nat)
    requires |front| <= i <= |front| + |body|
    ensures OccursAt(front + body, keyword, i) <==> OccursAt(body, keyword, i - |front|)
  {
    hide HasPrefix;
    assert (front + body)[i..] == body[i - |front|..];
  }

  // A keyword absent from the body is absent behind a front that ends in a colon: its last
  // character stands nowhere else in the front, and d places from the end the two differ.
  lemma BehindColon(front: string, body: string, keyword: string, d: nat)
    requires 0 < d <= |keyword| && d <= |front| && front[|front| - 1] == ':'
    requires front[|front| - d] != keyword[|keyword| - d]
    requires forall i :: 0 <= i < |front| - 1 ==> front[i] != keyword[|keyword| - 1]
    requires forall k :: 0 <= k < |keyword| - 1 ==> keyword[k] != ':'
    requires !Contains(body, keyword)
    ensures forall i :: 0 <= i <= |front + body| ==> !OccursAt(front + body, keyword, i)
  {
    var s, n, m := front + body, |front|, |keyword|;
    NowhereIn(body, keyword);
    hide OccursAt;
    forall i | 0 <= i <= |s| ensures !OccursAt(s, keyword, i) {
      if i >= n {
        OccursBehind(front, body, keyword, i);
      } else if i + m <= n - 1 {
        NotAt(s, keyword, i, m - 1);
      } else if i + m == n {
        NotAt(s, keyword, i, m - d);
      } else {
        NotAt(s, keyword, i, n - 1 - i);
      }
    }
  }

  lemma CtNotCaptured(k: PairKind, body: string)
    requires !Contains(body, "ct(")
    ensures FindCt(PairText(k) + body) == None
  {
    hide Find, CtArgs, Contains;
    BehindColon(PairText(k), body, "ct(", 1);
    FindAbsent(PairText(k) + body, "ct(", CtArgs);
  }

  lemma ResubmitNotCaptured(k: PairKind, body: string)
    requires !Contains(body, "resubmit(")
    ensures FindResubmit(PairText(k) + body) == None
  {
    hide Find, ResubmitArgs, Contains;
    BehindColon(PairText(k), body, "resubmit(", 1);
    FindAbsent(PairText(k) + body, "resubmit(", ResubmitArgs);
  }

  lemma ResubmitPortNotCaptured(k: PairKind, body: string)
    requires !Contains(body, "resubmit:")
    ensures FindResubmitPort(PairText(k) + body) == None
  {
    hide Find, PortArg, Contains;
    BehindColon(PairText(k), body, "resubmit:", 2);
    FindAbsent(PairText(k) + body, "resubmit:", PortArg);
  }

  lemma PairNotCaptured(k: PairKind, earlier: PairKind, body: string)
    requires (k.Move? && earlier.Load?) || (k.SetField? && !earlier.SetField?)
    requires !Contains(body, PairText(earlier))
    ensures FindPair(earlier, PairText(k) + body) == None
  {
    hide Find, PairArgs, Contains;
    BehindColon(PairText(k), body, PairText(earlier), if k.SetField? && earlier.Load? then 3 else 2);
    FindAbsent(PairText(k) + body, PairText(earlier), PairArgs);
  }

  // Operands free of blanks, arrows and the keywords of earlier patterns survive.
  lemma TokensSurvive(net: Net, k: PairKind, left: string, right: string)
    requires NoBlank(left) && NoBlank(right) && NoInnerArrow(right)
    requires forall keyword :: keyword in EarlierKeywords(k) ==> !Contains(left + ("->" + right), keyword)
    ensures Survives(net, Pair(k, left, right))
  {
    hide NoBlank, NoInnerArrow, Contains, Find;
    var body := left + ("->" + right);
    var earlier := EarlierKeywords(k);
    assert earlier[0] == "ct(" && earlier[1] == "resubmit(" && earlier[2] == "resubmit:";
    CtNotCaptured(k, body);
    ResubmitNotCaptured(k, body);
    ResubmitPortNotCaptured(k, body);
    if k.Move? || k.SetField? {
      assert EarlierKeywords(k)[3] == PairText(Load);
      PairNotCaptured(k, Load, body);
    }
    if k.SetField? {
      assert EarlierKeywords(k)[4] == PairText(Move);
      PairNotCaptured(k, Move, body);
    }
  }

  // ---------- The theorem ----------

  // A printable action parses back from its text exactly if Survives says so.
  lemma SurvivesExactly(net: Net, a: Action)
    requires MarshalAction(net, a).Ok? && AddressesPrinted(net, a)
    ensures ParseAction(net, MarshalAction(net, a).value) == Ok(a) <==> Survives(net, a)
  {
    hide ParseAction, FormatInt, LeadText, PairText, Captured, NoBlank, NoInnerArrow, PlainAddress;
    var s := MarshalAction(net, a).value;
    if a.ModDl? || a.ModNw? || a.ModTp? || a.ModVlan? || a.Output? {
      LeadSurvives(net, a);
    } else if a.Conjunction? {
      ConjunctionSurvives(net, a.id, a.dimension, a.size);
    } else if a.Pair? {
      PairExactly(net, a.kind, a.left, a.right);
    } else if a.WordAction? {
      WordSurvives(net, a.word);
    } else if a.ResubmitPort? {
      ResubmitPortSurvives(net, a.reqPort);
    } else if a.Ct? && NoBlank(a.args) {
      CtSurvives(net, a.args);
    } else if a.Resubmit? && a.inPort >= 0 && a.table >= 0 {
      ResubmitSurvives(net, a.inPort, a.table);
    } else if ParseAction(net, s) == Ok(a) {
      ParserProduces(net, s);
    }
  }
}
