/**
 The parser of one action: parseAction of ovs/actionparser.go.  Each regular expression and
 Sscanf pattern of the source is written out as the scan it performs.
 */
module ActionParser {
  import opened Wrappers
  import opened Text
  import opened Numerals
  import opened Matches
  import opened Actions

  // ---------- Regular expressions ----------

  // \s of a regular expression; \S is its complement.
  predicate Blank(c: char) { c == '\t' || c == '\n' || c == '\U{000C}' || c == '\r' || c == ' ' }

  // The longest beginning without blanks.
  function Run(s: string): (r: string)
    ensures |r| <= |s| && r == s[..|r|]
    ensures forall i :: 0 <= i < |r| ==> !Blank(r[i])
    ensures |r| < |s| ==> Blank(s[|r|])
  {
    if s == "" || Blank(s[0]) then "" else [s[0]] + Run(s[1..])
  }

  predicate IsDigit(c: char) { '0' <= c <= '9' }

  // \d* at the beginning.
  function DigitRun(s: string): (r: string)
    ensures |r| <= |s| && r == s[..|r|]
    ensures forall i :: 0 <= i < |r| ==> IsDigit(r[i])
    ensures |r| < |s| ==> !IsDigit(s[|r|])
  {
    if s == "" || !IsDigit(s[0]) then "" else [s[0]] + DigitRun(s[1..])
  }

  // The leftmost match of a pattern that begins with the keyword: rest gives the groups
  // matched after it.
  function Find<T>(s: string, keyword: string, rest: string -> Option<T>): Option<T>
    decreases |s|
  {
    if HasPrefix(s, keyword) && rest(s[|keyword|..]).Some? then rest(s[|keyword|..])
    else if s == "" then None
    else Find(s[1..], keyword, rest)
  }

  // The last place between lo and hi where sub occurs, or -1.
  function LastIndex(s: string, sub: string, lo: nat, hi: int): (r: int)
    ensures r == -1 || (lo <= r <= hi && OccursAt(s, sub, r))
    ensures forall i :: lo <= i && r < i <= hi ==> !OccursAt(s, sub, i)
    decreases hi + 1 - lo
  {
    if hi < lo then -1
    else if OccursAt(s, sub, hi) then hi
    else LastIndex(s, sub, lo, hi - 1)
  }

  // (\S+)\)
  function CtArgs(s: string): Option<string> {
    var run := Run(s);
    var j := LastIndex(run, ")", 1, |run| - 1);
    if j < 0 then None else Some(run[..j])
  }

  function FindCt(s: string): Option<string> { Find(s, "ct(", CtArgs) }

  // (\d*),(\d*)\)
  function ResubmitArgs(s: string): Option<(string, string)> {
    var p := DigitRun(s);
    var s1 := s[|p|..];
    if s1 == "" || s1[0] != ',' then None
    else
      var t := DigitRun(s1[1..]);
      var s2 := s1[1 + |t|..];
      if s2 == "" || s2[0] != ')' then None else Some((p, t))
  }

  function FindResubmit(s: string): Option<(string, string)> { Find(s, "resubmit(", ResubmitArgs) }

  // (\d+)
  function PortArg(s: string): Option<string> {
    var p := DigitRun(s);
    if p == "" then None else Some(p)
  }

  function FindResubmitPort(s: string): Option<string> { Find(s, "resubmit:", PortArg) }

  // (\S+)->(\S+)
  function PairArgs(s: string): Option<(string, string)> {
    var run := Run(s);
    var j := LastIndex(run, "->", 1, |run| - 3);
    if j < 0 then None else Some((run[..j], run[j + 2..]))
  }

  function FindPair(k: PairKind, s: string): Option<(string, string)> { Find(s, PairText(k), PairArgs) }

  // ---------- Sscanf ----------

  // White space before an operand is skipped, but a line feed is an error.
  function SkipSpace(s: string): Option<string> {
    if s == "" then Some(s)
    else if s[0] == '\n' then None
    else if IsSpace(s[0]) then SkipSpace(s[1..])
    else Some(s)
  }

  function Token(s: string): string {
    if s == "" || IsSpace(s[0]) then "" else [s[0]] + Token(s[1..])
  }

  // %s
  function ScanString(s: string): Result<string, ActionError> {
    match SkipSpace(s)
    case None => Err(BadScan)
    case Some(t) => if t == "" then Err(BadScan) else Ok(Token(t))
  }

  // %d into an int: the number and the text left over.
  function ScanInt(s: string): Result<(int64, string), ActionError> {
    match SkipSpace(s)
    case None => Err(BadScan)
    case Some(t) =>
      var sign := if t != "" && (t[0] == '+' || t[0] == '-') then t[..1] else "";
      var digits := DigitRun(t[|sign|..]);
      if digits == "" then Err(BadScan)
      else
        match ParseInt(sign + digits)
        case Err(e) => Err(BadInteger(e))
        case Ok(v) => Ok((v, t[|sign| + |digits|..]))
  }

  // %d into a uint16.
  function ScanPort(s: string): Result<u16, ActionError> {
    match SkipSpace(s)
    case None => Err(BadScan)
    case Some(t) =>
      var digits := DigitRun(t);
      if digits == "" then Err(BadScan)
      else
        match ParseUint(digits, 10, MAX_U64)
        case Err(e) => Err(BadInteger(e))
        case Ok(v) => if v > MAX_U16 then Err(BadInteger(OutOfRange(MAX_U16))) else Ok(v)
  }

  // %d with the literal character c behind it; literals are not matched past the end.
  function ScanIntThen(s: string, c: char): Result<(int64, string), ActionError> {
    match ScanInt(s)
    case Err(e) => Err(e)
    case Ok((n, rest)) => if rest == "" || rest[0] != c then Err(BadScan) else Ok((n, rest[1..]))
  }

  // %d,%d/%d)
  function ScanConjunction(s: string): Result<Action, ActionError> {
    match ScanIntThen(s, ',')
    case Err(e) => Err(e)
    case Ok((id, s1)) =>
      match ScanIntThen(s1, '/')
      case Err(e) => Err(e)
      case Ok((dimension, s2)) =>
        match ScanIntThen(s2, ')')
        case Err(e) => Err(e)
        case Ok((size, _)) => Ok(Conjunction(id, dimension, size))
  }

  // ---------- Dispatch ----------

  // The words of the first switch, compared in lower case; "all" is not among them.
  function WordOf(lower: string): Option<Word> {
    if lower == "drop" then Some(Drop)
    else if lower == "flood" then Some(Flood)
    else if lower == "in_port" then Some(InPort)
    else if lower == "local" then Some(Local)
    else if lower == "normal" then Some(Normal)
    else if lower == "strip_vlan" then Some(StripVlan)
    else None
  }

  function LeadOf(s: string): (l: Option<Lead>)
    ensures l.Some? ==> HasPrefix(s, LeadText(l.value))
  {
    if HasPrefix(s, "mod_dl_dst:") then Some(LModDl(Dst))
    else if HasPrefix(s, "mod_dl_src:") then Some(LModDl(Src))
    else if HasPrefix(s, "mod_nw_dst:") then Some(LModNw(Dst))
    else if HasPrefix(s, "mod_nw_src:") then Some(LModNw(Src))
    else if HasPrefix(s, "mod_tp_dst:") then Some(LModTp(Dst))
    else if HasPrefix(s, "mod_tp_src:") then Some(LModTp(Src))
    else if HasPrefix(s, "mod_vlan_vid:") then Some(LModVlan)
    else if HasPrefix(s, "conjunction(") then Some(LConjunction)
    else if HasPrefix(s, "output:") then Some(LOutput)
    else None
  }

  // The operand behind a fixed beginning.
  function ParseLead(net: Net, l: Lead, rest: string): Result<Action, ActionError> {
    match l
    case LModDl(dir) =>
      (match ScanString(rest)
       case Err(e) => Err(e)
       case Ok(addr) =>
         match net.parseMac(addr)
         case None => Err(BadHardwareAddress)
         case Some(mac) => Ok(ModDl(dir, mac)))
    case LModNw(dir) =>
      (match ScanString(rest)
       case Err(e) => Err(e)
       case Ok(ip) =>
         match net.parseIp(ip)
         case None => Err(BadIpAddress)
         case Some(ip4) => Ok(ModNw(dir, Some(ip4))))
    case LModTp(dir) =>
      (match ScanPort(rest)
       case Err(e) => Err(e)
       case Ok(port) => Ok(ModTp(dir, port)))
    case LModVlan =>
      (match ScanInt(rest)
       case Err(e) => Err(e)
       case Ok((vid, _)) => Ok(ModVlan(vid)))
    case LConjunction => ScanConjunction(rest)
    case LOutput =>
      (match ScanInt(rest)
       case Err(e) => Err(e)
       case Ok((port, _)) => Ok(Output(port)))
  }

  // A group of digits, where the empty one stands for 0.
  function ParseGroup(digits: string): Result<int64, ActionError> {
    if digits == "" then Ok(0)
    else
      match ParseInt(digits)
      case Err(e) => Err(BadInteger(e))
      case Ok(v) => Ok(v)
  }

  function ParseResubmit(groups: (string, string)): Result<Action, ActionError> {
    match ParseGroup(groups.0)
    case Err(e) => Err(e)
    case Ok(port) =>
      match ParseGroup(groups.1)
      case Err(e) => Err(e)
      case Ok(table) => Ok(Resubmit(port, table))
  }

  function ParseResubmitPort(digits: string): Result<Action, ActionError> {
    match ParseInt(digits)
    case Err(e) => Err(BadInteger(e))
    case Ok(port) => Ok(ResubmitPort(port))
  }

  function PairAction(k: PairKind, groups: (string, string)): Action { Pair(k, groups.0, groups.1) }

  // The patterns searched for anywhere in the text, after the prefix tests.
  function ParseSearched(s: string): Result<Action, ActionError> {
    if FindResubmit(s).Some? then ParseResubmit(FindResubmit(s).value)
    else if FindResubmitPort(s).Some? then ParseResubmitPort(FindResubmitPort(s).value)
    else if FindPair(Load, s).Some? then Ok(PairAction(Load, FindPair(Load, s).value))
    else if FindPair(Move, s).Some? then Ok(PairAction(Move, FindPair(Move, s).value))
    else if FindPair(SetField, s).Some? then Ok(PairAction(SetField, FindPair(SetField, s).value))
    else Err(NoActionMatched)
  }

  function ParseUnnamed(net: Net, s: string): Result<Action, ActionError> {
    match LeadOf(s)
    case Some(l) => ParseLead(net, l, s[|LeadText(l)|..])
    case None => ParseSearched(s)
  }

  function ParseAction(net: Net, s: string): Result<Action, ActionError> {
    match WordOf(ToLower(s))
    case Some(w) => Ok(WordAction(w))
    case None =>
      match FindCt(s)
      case Some(args) => Ok(Ct(args))
      case None => ParseUnnamed(net, s)
  }
}
