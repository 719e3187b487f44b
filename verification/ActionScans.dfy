/** What the scans of the action parser find in the texts that the action printer writes. */
module ActionScans {
  import opened Wrappers
  import opened Text
  import opened Numerals
  import opened Matches
  import opened Actions
  import opened ActionParser

  // ---------- Searching ----------

  lemma FindHere<T>(s: string, keyword: string, rest: string -> Option<T>)
    requires rest(s).Some?
    ensures Find(keyword + s, keyword, rest) == rest(s)
  {
    assert (keyword + s)[|keyword|..] == s && (keyword + s)[..|keyword|] == keyword;
  }

  lemma {:induction false} FindAbsent<T>(s: string, keyword: string, rest: string -> Option<T>)
    requires forall i :: 0 <= i <= |s| ==> !OccursAt(s, keyword, i)
    ensures Find(s, keyword, rest) == None
    decreases |s|
  {
    assert s[0..] == s && !OccursAt(s, keyword, 0);
    if s != "" {
      forall i | 0 <= i <= |s[1..]| ensures !OccursAt(s[1..], keyword, i) {
        assert s[1..][i..] == s[i + 1..];
        assert !OccursAt(s, keyword, i + 1);
      }
      FindAbsent(s[1..], keyword, rest);
    }
  }

  // A match found beyond the beginning comes from a proper end of the text.
  lemma {:induction false} FindWhere<T>(s: string, keyword: string, rest: string -> Option<T>) returns (i: nat)
    requires Find(s, keyword, rest).Some?
    ensures i + |keyword| <= |s| && Find(s, keyword, rest) == rest(s[i + |keyword|..])
    ensures i == 0 ==> HasPrefix(s, keyword)
    decreases |s|
  {
    if HasPrefix(s, keyword) && rest(s[|keyword|..]).Some? {
      i := 0;
    } else {
      var j := FindWhere(s[1..], keyword, rest);
      assert s[1..][j + |keyword|..] == s[j + 1 + |keyword|..];
      i := j + 1;
    }
  }

  lemma NotAt(s: string, sub: string, i: nat, k: nat)
    requires i <= |s| && k < |sub|
    requires i + k < |s| ==> s[i + k] != sub[k]
    ensures !OccursAt(s, sub, i)
  {
    PrefixDiffers(s[i..], sub, k);
  }

  lemma PrefixDiffers(s: string, p: string, i: nat)
    requires i < |p| && (i < |s| ==> s[i] != p[i])
    ensures !HasPrefix(s, p)
  {
    if HasPrefix(s, p) { PrefixChars(s, p); }
  }

  lemma PrefixChars(s: string, p: string)
    requires HasPrefix(s, p)
    ensures forall k :: 0 <= k < |p| ==> s[k] == p[k]
  {
    forall k | 0 <= k < |p| ensures s[k] == p[k] { assert s[..|p|][k] == s[k]; }
  }

  // A keyword that ends in c is absent when every c of the text follows a different character.
  lemma KeywordAbsent(s: string, keyword: string)
    requires |keyword| >= 2
    requires forall i :: 0 <= i < |s| && s[i] == keyword[|keyword| - 1] ==> i > 0 && s[i - 1] != keyword[|keyword| - 2]
    ensures forall i :: 0 <= i <= |s| ==> !OccursAt(s, keyword, i)
  {
    var n := |keyword|;
    forall i | 0 <= i <= |s| ensures !OccursAt(s, keyword, i) {
      NotAt(s, keyword, i, if i + n - 1 < |s| && s[i + n - 1] == keyword[n - 1] then n - 2 else n - 1);
    }
  }

  // ct( is absent when each opening parenthesis is preceded by something other than ct.
  lemma CtAbsent(s: string)
    requires forall i :: 0 <= i < |s| && s[i] == '(' ==> i < 2 || s[i - 1] != 't' || s[i - 2] != 'c'
    ensures FindCt(s) == None
  {
    hide Find, CtArgs;
    forall i | 0 <= i <= |s| ensures !OccursAt(s, "ct(", i) {
      NotAt(s, "ct(", i, if i + 2 < |s| && s[i + 2] == '(' then (if s[i + 1] == 't' then 0 else 1) else 2);
    }
    FindAbsent(s, "ct(", CtArgs);
  }

  // ---------- Runs ----------

  predicate NoBlank(s: string) { forall i :: 0 <= i < |s| ==> !Blank(s[i]) }

  predicate AllDigits(s: string) { forall i :: 0 <= i < |s| ==> IsDigit(s[i]) }

  lemma RunAll(s: string)
    requires NoBlank(s)
    ensures Run(s) == s
  {
  }

  lemma DigitRunOf(digits: string, rest: string)
    requires AllDigits(digits)
    requires rest == "" || !IsDigit(rest[0])
    ensures DigitRun(digits + rest) == digits
  {
    var s := digits + rest;
    assert forall i :: 0 <= i < |digits| ==> s[i] == digits[i];
    assert rest != "" ==> s[|digits|] == rest[0];
    assert s[..|digits|] == digits;
  }

  // ---------- Operands ----------

  predicate NoSpace(s: string) { forall i :: 0 <= i < |s| ==> !IsSpace(s[i]) }

  lemma {:induction false} TokenAll(s: string)
    requires NoSpace(s)
    ensures Token(s) == s
  {
    if s != "" { TokenAll(s[1..]); }
  }

  lemma ScanStringAll(s: string)
    requires s != "" && NoSpace(s)
    ensures ScanString(s) == Ok(s)
  {
    TokenAll(s);
    assert !IsSpace(s[0]) && s[0] != '\n';
  }

  lemma DigitsText(n: nat)
    ensures AllDigits(Digits(n, 10))
  {
    DigitsAreDigits(n, 10);
    var d := Digits(n, 10);
    hide Digits;
    forall i | 0 <= i < |d| ensures IsDigit(d[i]) { assert DigitValue(d[i]) < 10; }
  }

  lemma DigitNoSpace(c: char)
    requires IsDigit(c) || c == '-' || c == '+'
    ensures !IsSpace(c) && c != '\n'
  {
  }

  // A printed number is read back, together with the text behind it.
  lemma ScanIntText(n: int64, rest: string)
    requires rest == "" || !IsDigit(rest[0])
    ensures ScanInt(FormatInt(n) + rest) == Ok((n, rest))
  {
    var sign, d := NumberParts(n);
    ParseFormatInt(n);
    DigitRunOf(d, rest);
    hide *;
    ScanIntParts(sign, d, rest, n);
    Regroup(sign, d, rest);
  }

  lemma Regroup(a: string, b: string, c: string)
    ensures a + b + c == a + (b + c)
  {
  }

  lemma NumberParts(n: int64) returns (sign: string, d: string)
    ensures FormatInt(n) == sign + d && d != "" && AllDigits(d)
    ensures sign == "-" || (sign == "" && IsDigit(d[0]))
  {
    var m: nat := if n < 0 then 0 - n else n;
    DigitsText(m);
    hide Digits;
    d := Digits(m, 10);
    sign := if n < 0 then "-" else "";
    assert "" + d == d;
  }

  lemma NothingToSkip(s: string)
    requires s != "" && (IsDigit(s[0]) || s[0] == '-')
    ensures SkipSpace(s) == Some(s)
  {
    DigitNoSpace(s[0]);
  }

  lemma ScanIntParts(sign: string, d: string, rest: string, n: int64)
    requires d != "" && (sign == "-" || (sign == "" && IsDigit(d[0])))
    requires DigitRun(d + rest) == d && ParseInt(sign + d) == Ok(n)
    ensures ScanInt(sign + (d + rest)) == Ok((n, rest))
  {
    var s := sign + (d + rest);
    NothingToSkip(s);
    hide DigitRun, ParseInt, SkipSpace;
    assert s[|sign|..] == d + rest;
    assert s[|sign| + |d|..] == rest;
    if sign == "-" { assert s[..1] == "-"; }
  }

  lemma ScanIntThenText(n: int64, c: char, rest: string)
    requires !IsDigit(c)
    ensures ScanIntThen(FormatInt(n) + ([c] + rest), c) == Ok((n, rest))
  {
    ScanIntText(n, [c] + rest);
    hide ScanInt, FormatInt;
    assert ([c] + rest)[1..] == rest;
  }

  lemma ScanPortText(port: u16)
    ensures ScanPort(FormatInt(port)) == Ok(port)
  {
    var d := Digits(port, 10);
    DigitsText(port);
    DigitRunOf(d, "");
    assert d + "" == d;
    ScanDigits(port, 10, MAX_U64);
    hide Scan, Digits;
    NothingToSkip(d);
  }

  lemma ScanConjunctionText(id: int64, dimension: int64, size: int64)
    ensures ScanConjunction(FormatInt(id) + ("," + (FormatInt(dimension) + ("/" + (FormatInt(size) + ")")))))
      == Ok(Conjunction(id, dimension, size))
  {
    hide ScanIntThen, FormatInt;
    ScanIntThenText(id, ',', FormatInt(dimension) + ("/" + (FormatInt(size) + ")")));
    ScanIntThenText(dimension, '/', FormatInt(size) + ")");
    ScanIntThenText(size, ')', "");
    assert [')'] + "" == ")";
  }

  // ---------- Words and fixed beginnings ----------

  predicate WordChar(c: char) { 'a' <= c <= 'z' || c == '_' }

  lemma WordsAreLetters(t: string, i: nat)
    requires i < |t| && !WordChar(t[i])
    ensures WordOf(t) == None
  {
  }

  // A text with a colon or a parenthesis is no word.
  lemma NotAWord(s: string, i: nat)
    requires i < |s| && (s[i] == ':' || s[i] == '(')
    ensures WordOf(ToLower(s)) == None
  {
    WordsAreLetters(ToLower(s), i);
  }

  lemma {:induction false} LowerStays(s: string)
    requires forall i :: 0 <= i < |s| ==> LowerChar(s[i]) == s[i]
    ensures ToLower(s) == s
  {
  }

  lemma WordRoundTrip(w: Word)
    ensures WordOf(ToLower(WordText(w))) == if w.All? then None else Some(w)
  {
    WordIsLower(w);
    LowerStays(WordText(w));
    hide ToLower;
  }

  lemma WordIsLower(w: Word)
    ensures forall i :: 0 <= i < |WordText(w)| ==> LowerChar(WordText(w)[i]) == WordText(w)[i]
  {
  }

  // A place where two fixed beginnings differ.
  function Difference(l: Lead, k: Lead): nat {
    if l.LOutput? || k.LOutput? || l.LConjunction? || k.LConjunction? then 0
    else if l.LModVlan? || k.LModVlan? || l.LModDl? != k.LModDl? || l.LModNw? != k.LModNw? then 4
    else 7
  }

  lemma LeadsDiffer(l: Lead, k: Lead)
    requires l != k
    ensures var i := Difference(l, k);
      i < |LeadText(l)| && i < |LeadText(k)| && LeadText(l)[i] != LeadText(k)[i]
  {
  }

  lemma LeadNotTaken(l: Lead, k: Lead, rest: string)
    requires l != k
    ensures !HasPrefix(LeadText(l) + rest, LeadText(k))
  {
    LeadsDiffer(l, k);
    hide LeadText;
    PrefixDiffers(LeadText(l) + rest, LeadText(k), Difference(l, k));
  }

  // No earlier prefix test captures a text that begins like l.
  lemma LeadRoundTrip(l: Lead, rest: string)
    ensures LeadOf(LeadText(l) + rest) == Some(l)
  {
    var s := LeadText(l) + rest;
    PrefixHere(LeadText(l), rest);
    forall k: Lead | k != l ensures !HasPrefix(s, LeadText(k)) { LeadNotTaken(l, k, rest); }
    LeadOnly(s, l);
  }

  lemma LeadOnly(s: string, l: Lead)
    requires HasPrefix(s, LeadText(l)) && forall k: Lead :: k != l ==> !HasPrefix(s, LeadText(k))
    ensures LeadOf(s) == Some(l)
  {
    hide HasPrefix;
    assert LeadText(LModDl(Dst)) == "mod_dl_dst:" && LeadText(LModDl(Src)) == "mod_dl_src:";
    assert LeadText(LModNw(Dst)) == "mod_nw_dst:" && LeadText(LModNw(Src)) == "mod_nw_src:";
    assert LeadText(LModTp(Dst)) == "mod_tp_dst:" && LeadText(LModTp(Src)) == "mod_tp_src:";
    assert LeadText(LModVlan) == "mod_vlan_vid:"
      && LeadText(LConjunction) == "conjunction(" && LeadText(LOutput) == "output:";
  }

  lemma NoLead(s: string)
    requires s != "" && ((s[0] != 'm' && s[0] != 'c' && s[0] != 'o') || (|s| > 2 && s[0] == 'm' && s[2] != 'd'))
    ensures LeadOf(s) == None
  {
    hide HasPrefix;
    if LeadOf(s).Some? {
      var p := LeadText(LeadOf(s).value);
      PrefixDiffers(s, p, if s[0] == 'm' then (if p[0] == 'm' then 2 else 0) else 0);
    }
  }
}
