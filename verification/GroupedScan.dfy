/** The line-grouping scanner parseEach of ovs/openflow.go. */
module GroupedScan {
  import opened Wrappers
  import opened Text

  datatype ScanError = UnexpectedEof | CallbackFailed(call: nat)

  // The lines of each group: two with data, and what OpenFlow 1.3 and custom statistics add.
  function GroupSize(banner: string, input: string): (k: nat)
    ensures k == 2 || k == 3 || k == 5
  {
    if !Contains(banner, "(OF1.") then 2 else if Contains(input, "CUSTOM") then 5 else 3
  }

  // What the callback makes of each call, in order: true for success.
  type Verdicts = nat -> bool

  // The scanner and its position.
  class Scanner {
    const lines: seq<string>
    var next: nat

    constructor (lines: seq<string>)
      ensures this.lines == lines && next == 0
    {
      this.lines := lines;
      next := 0;
    }

    // Advances to the next line, unless there is none.
    method Scan() returns (ok: bool)
      modifies this
      ensures ok == (old(next) < |lines|)
      ensures next == if ok then old(next) + 1 else old(next)
    {
      ok := next < |lines|;
      if ok { next := next + 1; }
    }

    function Line(): string
      requires 0 < next <= |lines|
      reads this
    {
      lines[next - 1]
    }
  }

  // Call i gets lines 1 + i*k and 2 + i*k, put together.
  ghost predicate CallsOk(lines: seq<string>, k: nat, calls: seq<string>)
    requires k >= 2
  {
    forall i :: 0 <= i < |calls| ==> i * k + 2 < |lines| && calls[i] == lines[1 + i * k] + lines[2 + i * k]
  }

  // The first call that fails, or n.
  function FirstBad(verdicts: Verdicts, n: nat): (i: nat)
    ensures i <= n && (i < n ==> !verdicts(i)) && forall j :: 0 <= j < i ==> verdicts(j)
  {
    if n == 0 then 0
    else
      var i := FirstBad(verdicts, n - 1);
      if i < n - 1 then i else if verdicts(n - 1) then n else n - 1
  }

  // The number of calls and the error, for a text of length lines with its banner.  With n
  // whole groups, calls are made up to and including the first that fails; if none does, an
  // incomplete group is an unexpected end.
  function Outcome(length: nat, k: nat, verdicts: Verdicts): (nat, Option<ScanError>)
    requires length > 0 && k >= 2
  {
    var n := (length - 1) / k;
    var bad := FirstBad(verdicts, n);
    if bad < n then (bad + 1, Some(CallbackFailed(bad)))
    else (n, if (length - 1) % k != 0 then Some(UnexpectedEof) else None)
  }

  // The lines of a group behind its first; the second is kept.
  method RestOfGroup(scanner: Scanner, hasDuration: bool, hasCustomStats: bool) returns (ok: bool, second: string)
    modifies scanner
    ensures var rest := if !hasDuration then 1 else if hasCustomStats then 4 else 2;
      && ok == (old(scanner.next) + rest <= |scanner.lines|)
      && (ok ==> scanner.next == old(scanner.next) + rest && second == scanner.lines[old(scanner.next)])
  {
    second := "";
    ok := scanner.Scan();
    if !ok {
      return;
    }
    second := scanner.Line();
    if hasDuration {
      ok := scanner.Scan();
      if !ok {
        return;
      }
      if hasCustomStats {
        ok := scanner.Scan();
        if !ok {
          return;
        }
        ok := scanner.Scan();
      }
    }
  }

  // parseEach: the calls made of the callback, and the error returned.  The banner is line 0.
  method ParseEach(lines: seq<string>, input: string, prefix: string, verdicts: Verdicts)
    returns (calls: seq<string>, err: Option<ScanError>)
    ensures lines == [] || !HasPrefix(lines[0], prefix) ==> calls == [] && err == Some(UnexpectedEof)
    ensures lines != [] && HasPrefix(lines[0], prefix) ==>
      var k := GroupSize(lines[0], input);
      (|calls|, err) == Outcome(|lines|, k, verdicts) && CallsOk(lines, k, calls)
  {
    hide HasPrefix, Contains, FirstBad, Outcome;
    calls := [];
    var scanner := new Scanner(lines);
    var ok := scanner.Scan();
    if !ok {
      return calls, Some(UnexpectedEof);
    }
    if !HasPrefix(scanner.Line(), prefix) {
      return calls, Some(UnexpectedEof);
    }
    var hasDuration := Contains(scanner.Line(), "(OF1.");
    var hasCustomStats := Contains(input, "CUSTOM");
    ghost var k := GroupSize(lines[0], input);
    while true
      invariant scanner.lines == lines && fresh(scanner)
      invariant scanner.next == 1 + |calls| * k <= |lines|
      invariant forall j :: 0 <= j < |calls| ==> verdicts(j)
      invariant CallsOk(lines, k, calls)
      decreases |lines| - scanner.next
    {
      var c := |calls|;
      OutcomeFrom(|lines|, k, verdicts, c);
      ok := scanner.Scan();
      if !ok {
        return calls, None;
      }
      var b := scanner.Line();
      var second;
      ok, second := RestOfGroup(scanner, hasDuration, hasCustomStats);
      if !ok {
        return calls, Some(UnexpectedEof);
      }
      b := b + second;
      calls := calls + [b];
      if !verdicts(c) {
        return calls, Some(CallbackFailed(c));
      }
    }
  }

  // The outcome, seen after c successful calls.
  lemma OutcomeFrom(length: nat, k: nat, verdicts: Verdicts, c: nat)
    requires k >= 2 && 1 + c * k <= length && forall j :: 0 <= j < c ==> verdicts(j)
    ensures (c + 1) * k == c * k + k
    ensures length == 1 + c * k ==> Outcome(length, k, verdicts) == (c, None)
    ensures 1 + c * k < length < 1 + c * k + k ==> Outcome(length, k, verdicts) == (c, Some(UnexpectedEof))
    ensures length >= 1 + c * k + k && !verdicts(c) ==> Outcome(length, k, verdicts) == (c + 1, Some(CallbackFailed(c)))
  {
    GroupsLeft(length, k, c);
    FirstBadIs(verdicts, (length - 1) / k, c);
  }

  // After c groups of k lines, a whole group is left exactly if c has not reached n.
  lemma GroupsLeft(length: nat, k: nat, c: nat)
    requires k >= 2 && 1 + c * k <= length
    ensures var n := (length - 1) / k;
      && c <= n
      && (c < n <==> 1 + c * k + k <= length)
      && (1 + c * k == length ==> (length - 1) % k == 0 && c == n)
      && (1 + c * k < length < 1 + c * k + k ==> (length - 1) % k != 0)
      && (c + 1) * k == c * k + k
  {
    var n, r := (length - 1) / k, (length - 1) % k;
    assert length - 1 == n * k + r;
    assert (n + 1) * k == n * k + k && (c + 1) * k == c * k + k;
    Grows(n + 1, c, k);
    Grows(c + 1, n, k);
  }

  lemma Grows(a: nat, b: nat, k: nat)
    ensures a <= b ==> a * k <= b * k
  {
    if a <= b { assert b * k == a * k + (b - a) * k; }
  }

  lemma FirstBadIs(verdicts: Verdicts, n: nat, c: nat)
    requires c <= n && forall j :: 0 <= j < c ==> verdicts(j)
    ensures FirstBad(verdicts, n) >= c
    ensures c < n && !verdicts(c) ==> FirstBad(verdicts, n) == c
  {
    assert FirstBad(verdicts, n) < n ==> !verdicts(FirstBad(verdicts, n));
  }

  // With a callback that never fails, the calls number (lines - 1) div k, and the end is
  // unexpected exactly if k does not divide lines - 1.
  lemma NeverFailing(length: nat, k: nat, verdicts: Verdicts)
    requires length > 0 && k >= 2 && forall j :: 0 <= j < (length - 1) / k ==> verdicts(j)
    ensures Outcome(length, k, verdicts).0 == (length - 1) / k
    ensures Outcome(length, k, verdicts).1 == Some(UnexpectedEof) <==> (length - 1) % k != 0
  {
    FirstBadIs(verdicts, (length - 1) / k, (length - 1) / k);
  }

  // Without an OpenFlow version in its banner, an entry has two lines; with one it has three, or
  // five if the text shows custom statistics.
  lemma GroupSizes(front: string, rest: string, input: string)
    ensures !Contains(front, "(OF1.") ==> GroupSize(front, input) == 2
    ensures Contains(input, "CUSTOM") ==> GroupSize(front + "(OF1." + rest, input) == 5
    ensures !Contains(input, "CUSTOM") ==> GroupSize(front + "(OF1." + rest, input) == 3
  {
    var banner := front + "(OF1." + rest;
    ContainsIff(banner, "(OF1.");
    PrefixHere("(OF1.", rest);
    assert banner == front + ("(OF1." + rest);
    assert banner[|front|..] == "(OF1." + rest;
    assert OccursAt(banner, "(OF1.", |front|);
    hide Contains;
  }
}
