/**
 Flow transactions and bundles, from ovs/openflow.go.  The class holds the state; Tx and
 the functions on it say what its methods do, and the lemmas speak of whole runs.
 */
module FlowTransactions {
  import opened Wrappers
  import opened Text
  import opened Matches
  import opened Flows
  import opened MatchFlows

  datatype TxError =
    | FlowFailed(flow: FlowError) | MatchFlowFailed(matchFlow: MatchFlowError) | NotCommitted | Callback(text: string)
    | Discarded(cause: TxError)

  // The directive and text of one operation of a bundle.
  datatype Directive = Directive(directive: string, flow: string)

  // What is pushed: the directive and the marshaled text, or why there is none.
  type Item = Result<Directive, TxError>

  function AddItem(net: Net, f: FlowData): Item {
    match FlowText(net, f)
    case Err(e) => Err(FlowFailed(e))
    case Ok(text) => Ok(Directive("add", text))
  }

  function DeleteItem(net: Net, f: MatchFlowData): Item {
    match MatchFlowText(net, f)
    case Err(e) => Err(MatchFlowFailed(e))
    case Ok(text) => Ok(Directive("delete", text))
  }

  datatype Tx = Tx(flows: seq<Directive>, committed: bool, err: Option<TxError>)

  const NEW_TX := Tx([], false, None)

  // The loop of push: it stops at the first failure, and keeps what was pushed before it.
  function Push(tx: Tx, items: seq<Item>): Tx
    decreases |items|
  {
    if items == [] then tx
    else
      match items[0]
      case Err(e) => tx.(err := Some(e))
      case Ok(d) => Push(tx.(flows := tx.flows + [d]), items[1..])
  }

  // An operation of the callback on the transaction.
  datatype Op = Add(flows: seq<FlowData>) | Delete(matchFlows: seq<MatchFlowData>) | Commit | Discard

  function ItemsOf(net: Net, op: Op): (items: seq<Item>)
    ensures !op.Add? && !op.Delete? ==> items == []
  {
    match op
    case Add(flows) => seq(|flows|, i requires 0 <= i < |flows| => AddItem(net, flows[i]))
    case Delete(flows) => seq(|flows|, i requires 0 <= i < |flows| => DeleteItem(net, flows[i]))
    case _ => []
  }

  function Step(net: Net, tx: Tx, op: Op): Tx {
    match op
    case Commit => if tx.err.None? then tx.(committed := true) else tx
    case Discard => tx.(flows := [])
    case _ => if tx.err.None? then Push(tx, ItemsOf(net, op)) else tx
  }

  function Run(net: Net, ops: seq<Op>): Tx {
    if ops == [] then NEW_TX else Step(net, Run(net, ops[..|ops| - 1]), ops[|ops| - 1])
  }

  // ---------- The class ----------

  class FlowTransaction {
    var flows: seq<Directive>
    var committed: bool
    var err: Option<TxError>

    constructor ()
      ensures State() == NEW_TX
    {
      flows, committed, err := [], false, None;
    }

    function State(): Tx
      reads this
    {
      Tx(flows, committed, err)
    }

    method AddFlows(net: Net, fs: seq<FlowData>)
      modifies this
      ensures State() == Step(net, old(State()), Add(fs))
    {
      if err.Some? {
        return;
      }
      PushAll(net, Add(fs));
    }

    method DeleteFlows(net: Net, fs: seq<MatchFlowData>)
      modifies this
      ensures State() == Step(net, old(State()), Delete(fs))
    {
      if err.Some? {
        return;
      }
      PushAll(net, Delete(fs));
    }

    method PushAll(net: Net, op: Op)
      modifies this
      ensures State() == Push(old(State()), ItemsOf(net, op))
    {
      hide ItemsOf;
      var items := ItemsOf(net, op);
      assert items[0..] == items;
      for i := 0 to |items|
        invariant Push(State(), items[i..]) == Push(old(State()), items)
      {
        assert items[i..][1..] == items[i + 1..];
        match items[i]
        case Err(e) =>
          err := Some(e);
          return;
        case Ok(d) =>
          flows := flows + [d];
      }
    }

    method CommitAll() returns (e: Option<TxError>)
      modifies this`committed
      ensures e == old(err)
      ensures State() == if old(err).None? then old(State()).(committed := true) else old(State())
    {
      if err.Some? {
        return err;
      }
      committed := true;
      e := None;
    }

    // The error wraps the one given.
    method DiscardAll(cause: TxError) returns (e: TxError)
      modifies this`flows
      ensures e == Discarded(cause)
      ensures State() == old(State()).(flows := [])
    {
      flows := [];
      e := Discarded(cause);
    }
  }

  // ---------- Bundles ----------

  function BundleText(flows: seq<Directive>): string {
    if flows == [] then ""
    else BundleText(flows[..|flows| - 1]) + flows[|flows| - 1].directive + " " + flows[|flows| - 1].flow + "\n"
  }

  // The callback performs ops and returns result; what is written goes to ovs-ofctl.
  function Bundle(net: Net, ops: seq<Op>, result: Option<TxError>): Result<string, TxError> {
    if result.Some? then Err(result.value)
    else if !Run(net, ops).committed then Err(NotCommitted)
    else Ok(BundleText(Run(net, ops).flows))
  }

  method AddFlowBundle(net: Net, ops: seq<Op>, result: Option<TxError>) returns (written: Result<string, TxError>)
    ensures written == Bundle(net, ops, result)
  {
    hide BundleText, Push, ItemsOf;
    var tx := new FlowTransaction();
    assert ops[..0] == [];
    for i := 0 to |ops|
      invariant tx.State() == Run(net, ops[..i])
    {
      assert ops[..i + 1][..i] == ops[..i];
      match ops[i]
      case Add(flows) => tx.AddFlows(net, flows);
      case Delete(flows) => tx.DeleteFlows(net, flows);
      case Commit => var _ := tx.CommitAll();
      case Discard => var _ := tx.DiscardAll(NotCommitted);
    }
    assert ops[..|ops|] == ops;
    if result.Some? {
      return Err(result.value);
    }
    if !tx.committed {
      return Err(NotCommitted);
    }
    var buf := BufferOf(tx.flows);
    written := Ok(buf);
  }

  method BufferOf(flows: seq<Directive>) returns (buf: string)
    ensures buf == BundleText(flows)
  {
    buf := "";
    assert flows[..0] == [];
    for i := 0 to |flows|
      invariant buf == BundleText(flows[..i])
    {
      assert flows[..i + 1][..i] == flows[..i];
      buf := buf + flows[i].directive + " " + flows[i].flow + "\n";
    }
    assert flows[..|flows|] == flows;
  }

  // ---------- Runs, described from outside ----------

  // Everything the run was asked to push, in order.
  function AllItems(net: Net, ops: seq<Op>): seq<Item> {
    if ops == [] then [] else AllItems(net, ops[..|ops| - 1]) + ItemsOf(net, ops[|ops| - 1])
  }

  // The directives before the first failure.
  function GoodPrefix(items: seq<Item>): seq<Directive> {
    if items == [] || items[0].Err? then [] else [items[0].value] + GoodPrefix(items[1..])
  }

  function FirstFailure(items: seq<Item>): Option<TxError> {
    if items == [] then None else if items[0].Err? then Some(items[0].error) else FirstFailure(items[1..])
  }

  // The number of operations up to and including the last Discard.
  function LastDiscard(ops: seq<Op>): (n: nat)
    ensures n <= |ops| && (n > 0 ==> ops[n - 1].Discard?)
    ensures forall i :: n <= i < |ops| ==> !ops[i].Discard?
  {
    if ops == [] then 0 else if ops[|ops| - 1].Discard? then |ops| else LastDiscard(ops[..|ops| - 1])
  }

  lemma {:induction false} PushMeans(tx: Tx, items: seq<Item>)
    requires tx.err.None?
    ensures Push(tx, items) == Tx(tx.flows + GoodPrefix(items), tx.committed, FirstFailure(items))
    decreases |items|
  {
    if items == [] {
      assert tx.flows + [] == tx.flows;
    } else if items[0].Ok? {
      var d := items[0].value;
      PushMeans(tx.(flows := tx.flows + [d]), items[1..]);
      assert tx.flows + [d] + GoodPrefix(items[1..]) == tx.flows + ([d] + GoodPrefix(items[1..]));
    } else {
      assert tx.flows + [] == tx.flows;
    }
  }

  lemma {:induction false} FailureAppend(a: seq<Item>, b: seq<Item>)
    ensures FirstFailure(a + b) == if FirstFailure(a).Some? then FirstFailure(a) else FirstFailure(b)
    ensures GoodPrefix(a + b) == if FirstFailure(a).Some? then GoodPrefix(a) else GoodPrefix(a) + GoodPrefix(b)
  {
    if a == [] {
      assert a + b == b && [] + GoodPrefix(b) == GoodPrefix(b);
    } else {
      assert (a + b)[0] == a[0] && (a + b)[1..] == a[1..] + b;
      FailureAppend(a[1..], b);
      assert [a[0]] + a[1..] == a;
    }
  }

  // The recorded error is the first failure of the whole run, whatever was committed or
  // discarded since.
  lemma {:induction false} FirstErrorSticks(net: Net, ops: seq<Op>)
    ensures Run(net, ops).err == FirstFailure(AllItems(net, ops))
    decreases |ops|
  {
    if ops != [] {
      hide ItemsOf;
      var before, op := ops[..|ops| - 1], ops[|ops| - 1];
      FirstErrorSticks(net, before);
      FailureAppend(AllItems(net, before), ItemsOf(net, op));
      var tx := Run(net, before);
      if tx.err.None? && (op.Add? || op.Delete?) { PushMeans(tx, ItemsOf(net, op)); }
      assert !op.Add? && !op.Delete? ==> ItemsOf(net, op) == [];
    }
  }

  // The directives since the last Discard up to the first failure; none, if the failure
  // came before that Discard.
  function Expected(net: Net, ops: seq<Op>): seq<Directive> {
    var k := LastDiscard(ops);
    if FirstFailure(AllItems(net, ops[..k])).Some? then [] else GoodPrefix(AllItems(net, ops[k..]))
  }

  // What the transaction holds after any run.
  lemma {:induction false} HeldExactly(net: Net, ops: seq<Op>)
    ensures Run(net, ops).flows == Expected(net, ops)
    decreases |ops|
  {
    if ops != [] {
      if ops[|ops| - 1].Discard? {
        assert ops[|ops|..] == [];
      } else {
        hide Expected;
        HeldExactly(net, ops[..|ops| - 1]);
        HeldStep(net, ops);
      }
    } else {
      assert ops[0..] == [];
    }
  }

  lemma HeldStep(net: Net, ops: seq<Op>)
    requires ops != [] && !ops[|ops| - 1].Discard?
    requires Run(net, ops[..|ops| - 1]).flows == Expected(net, ops[..|ops| - 1])
    ensures Run(net, ops).flows == Expected(net, ops)
  {
    hide *;
    var before, op := ops[..|ops| - 1], ops[|ops| - 1];
    var tx := Run(net, before);
    FirstErrorSticks(net, before);
    ExpectedStep(net, ops);
    RunStep(net, ops);
    if tx.err.None? { StepMeans(net, tx, op); } else { StepAfterError(net, tx, op); }
  }

  lemma ExpectedStep(net: Net, ops: seq<Op>)
    requires ops != [] && !ops[|ops| - 1].Discard?
    ensures var before, op := ops[..|ops| - 1], ops[|ops| - 1];
      Expected(net, ops) ==
        if FirstFailure(AllItems(net, before)).Some? then Expected(net, before)
        else Expected(net, before) + GoodPrefix(ItemsOf(net, op))
  {
    var n, k := |ops| - 1, LastDiscard(ops);
    DiscardBefore(ops);
    Slices(ops, k);
    hide *;
    ExpectedParts(net, ops[..k], ops[k..n], ops[n]);
    ExpectedIs(net, ops);
    ExpectedIs(net, ops[..n]);
  }

  lemma Slices<T>(s: seq<T>, k: nat)
    requires k < |s|
    ensures var n := |s| - 1;
      && s[..k] + s[k..n] == s[..n] && s[k..n] + [s[n]] == s[k..]
      && s[..n][..k] == s[..k] && s[..n][k..] == s[k..n]
  {
  }

  lemma ExpectedIs(net: Net, ops: seq<Op>)
    ensures var k := LastDiscard(ops);
      Expected(net, ops) ==
        if FirstFailure(AllItems(net, ops[..k])).Some? then [] else GoodPrefix(AllItems(net, ops[k..]))
  {
  }

  lemma ExpectedParts(net: Net, a: seq<Op>, b: seq<Op>, op: Op)
    ensures var fa, fb := FirstFailure(AllItems(net, a)), FirstFailure(AllItems(net, b));
      && FirstFailure(AllItems(net, a + b)) == (if fa.Some? then fa else fb)
      && GoodPrefix(AllItems(net, b + [op])) ==
        if fb.Some? then GoodPrefix(AllItems(net, b)) else GoodPrefix(AllItems(net, b)) + GoodPrefix(ItemsOf(net, op))
  {
    hide *;
    ItemsAppend(net, a, b);
    ItemsNext(net, b, op);
    FailureAppend(AllItems(net, a), AllItems(net, b));
    FailureAppend(AllItems(net, b), ItemsOf(net, op));
  }

  lemma DiscardBefore(ops: seq<Op>)
    requires ops != [] && !ops[|ops| - 1].Discard?
    ensures LastDiscard(ops) == LastDiscard(ops[..|ops| - 1]) <= |ops| - 1
  {
  }

  lemma ItemsNext(net: Net, ops: seq<Op>, op: Op)
    ensures AllItems(net, ops + [op]) == AllItems(net, ops) + ItemsOf(net, op)
  {
    hide ItemsOf;
    assert (ops + [op])[..|ops|] == ops;
  }

  lemma RunStep(net: Net, ops: seq<Op>)
    requires ops != []
    ensures Run(net, ops) == Step(net, Run(net, ops[..|ops| - 1]), ops[|ops| - 1])
  {
  }

  lemma StepMeans(net: Net, tx: Tx, op: Op)
    requires tx.err.None? && !op.Discard?
    ensures Step(net, tx, op).flows == tx.flows + GoodPrefix(ItemsOf(net, op))
  {
    if op.Add? || op.Delete? {
      PushMeans(tx, ItemsOf(net, op));
    } else {
      assert tx.flows + [] == tx.flows;
    }
  }

  lemma StepAfterError(net: Net, tx: Tx, op: Op)
    requires tx.err.Some? && !op.Discard?
    ensures Step(net, tx, op) == tx
  {
  }

  lemma {:induction false} ItemsAppend(net: Net, a: seq<Op>, b: seq<Op>)
    ensures AllItems(net, a + b) == AllItems(net, a) + AllItems(net, b)
    decreases |b|
  {
    hide ItemsOf;
    if b == [] {
      assert a + b == a && AllItems(net, a) + [] == AllItems(net, a);
    } else {
      var n := |b| - 1;
      assert (a + b)[..|a + b| - 1] == a + b[..n] && (a + b)[|a + b| - 1] == b[n];
      ItemsAppend(net, a, b[..n]);
      assert AllItems(net, a) + (AllItems(net, b[..n]) + ItemsOf(net, b[n]))
        == AllItems(net, a) + AllItems(net, b[..n]) + ItemsOf(net, b[n]);
    }
  }

  lemma {:induction false} NoFailureMeansAll(items: seq<Item>)
    ensures FirstFailure(items).None? <==> forall i :: 0 <= i < |items| ==> items[i].Ok?
    ensures FirstFailure(items).None? ==>
      |GoodPrefix(items)| == |items| && forall i :: 0 <= i < |items| ==> items[i] == Ok(GoodPrefix(items)[i])
  {
    if items != [] {
      NoFailureMeansAll(items[1..]);
      assert forall i :: 0 < i < |items| ==> items[i] == items[1..][i - 1];
      if items[0].Ok? && FirstFailure(items[1..]).None? {
        assert GoodPrefix(items) == [items[0].value] + GoodPrefix(items[1..]);
      }
    }
  }

  // A run that found no failure holds all that was pushed since the last Discard, in order.
  lemma HeldWithoutFailure(net: Net, ops: seq<Op>)
    requires Run(net, ops).err.None?
    ensures forall i :: 0 <= i < |AllItems(net, ops)| ==> AllItems(net, ops)[i].Ok?
    ensures var since := AllItems(net, ops[LastDiscard(ops)..]);
      && |Run(net, ops).flows| == |since|
      && forall i :: 0 <= i < |since| ==> since[i] == Ok(Run(net, ops).flows[i])
  {
    FirstErrorSticks(net, ops);
    HeldExactly(net, ops);
    hide ItemsOf, Run, GoodPrefix, FirstFailure, LastDiscard, AllItems;
    var k := LastDiscard(ops);
    ItemsAppend(net, ops[..k], ops[k..]);
    assert ops[..k] + ops[k..] == ops;
    FailureAppend(AllItems(net, ops[..k]), AllItems(net, ops[k..]));
    NoFailureMeansAll(AllItems(net, ops));
    NoFailureMeansAll(AllItems(net, ops[k..]));
  }

  // A callback that ends in a Commit and returns its nil result: no push failed, and what is
  // written is exactly what was pushed since the last Discard, one line each, in order.
  lemma CommitVouches(net: Net, ops: seq<Op>)
    requires Run(net, ops).err.None?
    ensures forall i :: 0 <= i < |AllItems(net, ops)| ==> AllItems(net, ops)[i].Ok?
    ensures var since := AllItems(net, ops[LastDiscard(ops)..]);
      exists lines :: |lines| == |since| && (forall i :: 0 <= i < |since| ==> since[i] == Ok(lines[i]))
        && Bundle(net, ops + [Commit], None) == Ok(BundleText(lines))
  {
    HeldWithoutFailure(net, ops);
    hide ItemsOf, AllItems, LastDiscard, BundleText;
    assert (ops + [Commit])[..|ops|] == ops;
    assert Run(net, ops + [Commit]) == Step(net, Run(net, ops), Commit);
    var lines := Run(net, ops).flows;
    assert Bundle(net, ops + [Commit], None) == Ok(BundleText(lines));
  }

  // ---------- What is written ----------

  predicate NoLineFeed(d: Directive) { '\n' !in d.directive && '\n' !in d.flow }

  lemma BundleLast(flows: seq<Directive>, d: Directive)
    ensures BundleText(flows + [d]) == BundleText(flows) + (d.directive + " " + d.flow + "\n")
  {
    assert (flows + [d])[..|flows|] == flows;
    hide BundleText;
    assert BundleText(flows) + d.directive + " " + d.flow + "\n"
      == BundleText(flows) + (d.directive + " " + d.flow + "\n") by { Regroup(BundleText(flows), d); }
    BundleStep(flows + [d]);
  }

  lemma BundleStep(flows: seq<Directive>)
    requires flows != []
    ensures var d := flows[|flows| - 1];
      BundleText(flows) == BundleText(flows[..|flows| - 1]) + d.directive + " " + d.flow + "\n"
  {
  }

  lemma Regroup(s: string, d: Directive)
    ensures s + d.directive + " " + d.flow + "\n" == s + (d.directive + " " + d.flow + "\n")
  {
  }

  lemma {:induction false} BundleAppend(a: seq<Directive>, b: seq<Directive>)
    ensures BundleText(a + b) == BundleText(a) + BundleText(b)
    decreases |b|
  {
    if b == [] {
      assert a + b == a && BundleText(a) + "" == BundleText(a);
    } else {
      var n := |b| - 1;
      hide BundleText;
      assert a + b == a + b[..n] + [b[n]] && b == b[..n] + [b[n]];
      BundleAppend(a, b[..n]);
      BundleLast(a + b[..n], b[n]);
      BundleLast(b[..n], b[n]);
      Assoc(BundleText(a), BundleText(b[..n]), b[n].directive + " " + b[n].flow + "\n");
    }
  }

  lemma Assoc(a: string, b: string, c: string)
    ensures a + b + c == a + (b + c)
  {
  }

  lemma BundleOne(d: Directive)
    ensures BundleText([d]) == d.directive + " " + d.flow + "\n"
  {
    assert [d][..0] == [];
    assert BundleText([]) == "";
  }

  // The text of a bundle is one line for each directive, in order: the directive, a space and
  // the flow.
  lemma {:induction false} BundleIsLines(flows: seq<Directive>)
    requires forall i :: 0 <= i < |flows| ==> NoLineFeed(flows[i])
    ensures var parts := Split(BundleText(flows), "\n");
      && |parts| == |flows| + 1 && parts[|flows|] == ""
      && forall i :: 0 <= i < |flows| ==> parts[i] == flows[i].directive + " " + flows[i].flow
    decreases |flows|
  {
    if flows == [] {
      SplitNone("", '\n');
    } else {
      var d, rest := flows[0], flows[1..];
      assert flows == [d] + rest;
      BundleAppend([d], rest);
      BundleOne(d);
      BundleIsLines(rest);
      hide BundleText, Split;
      var line := d.directive + " " + d.flow;
      assert line + "\n" + BundleText(rest) == d.directive + " " + d.flow + "\n" + BundleText(rest);
      SplitFirst(line, '\n', BundleText(rest));
    }
  }

  // What a callback without failure that ends in a Commit writes, line by line.
  lemma LinesWritten(net: Net, ops: seq<Op>)
    requires Run(net, ops).err.None?
    requires forall i :: 0 <= i < |Run(net, ops).flows| ==> NoLineFeed(Run(net, ops).flows[i])
    ensures Bundle(net, ops + [Commit], None).Ok?
    ensures var since, parts := AllItems(net, ops[LastDiscard(ops)..]),
        Split(Bundle(net, ops + [Commit], None).value, "\n");
      && |parts| == |since| + 1 && parts[|since|] == ""
      && forall i :: 0 <= i < |since| ==>
           since[i].Ok? && parts[i] == since[i].value.directive + " " + since[i].value.flow
  {
    HeldWithoutFailure(net, ops);
    BundleIsLines(Run(net, ops).flows);
    hide ItemsOf, AllItems, LastDiscard, BundleText, Split, NoLineFeed;
    assert (ops + [Commit])[..|ops|] == ops;
    assert Run(net, ops + [Commit]) == Step(net, Run(net, ops), Commit);
  }

  // A flow deleted and a flow added behind it are written in that order.
  lemma DeleteThenAdd(net: Net, m: MatchFlowData, f: FlowData)
    requires MatchFlowText(net, m).Ok? && FlowText(net, f).Ok?
    ensures Bundle(net, [Delete([m]), Add([f]), Commit], None) ==
      Ok("delete " + MatchFlowText(net, m).value + "\n" + ("add " + FlowText(net, f).value + "\n"))
  {
    var d, a := Directive("delete", MatchFlowText(net, m).value), Directive("add", FlowText(net, f).value);
    DeleteThenAddHeld(net, m, f);
    hide *;
    TwoLines(d, a);
    WhenCommitted(net, [Delete([m]), Add([f]), Commit], [d, a]);
  }

  lemma WhenCommitted(net: Net, ops: seq<Op>, flows: seq<Directive>)
    requires Run(net, ops) == Tx(flows, true, None)
    ensures Bundle(net, ops, None) == Ok(BundleText(flows))
  {
    hide Run, BundleText;
  }

  lemma TwoLines(d: Directive, a: Directive)
    requires d.directive == "delete" && a.directive == "add"
    ensures BundleText([d, a]) == "delete " + d.flow + "\n" + ("add " + a.flow + "\n")
  {
    assert [d] + [a] == [d, a];
    BundleAppend([d], [a]);
    BundleOne(d);
    BundleOne(a);
    hide BundleText;
    assert "delete" + " " == "delete " && "add" + " " == "add ";
  }

  lemma DeleteThenAddHeld(net: Net, m: MatchFlowData, f: FlowData)
    requires MatchFlowText(net, m).Ok? && FlowText(net, f).Ok?
    ensures var d, a := Directive("delete", MatchFlowText(net, m).value), Directive("add", FlowText(net, f).value);
      Run(net, [Delete([m]), Add([f]), Commit]) == Tx([d, a], true, None)
  {
    var d, a := Directive("delete", MatchFlowText(net, m).value), Directive("add", FlowText(net, f).value);
    hide FlowText, MatchFlowText;
    assert ItemsOf(net, Delete([m])) == [Ok(d)] && ItemsOf(net, Add([f])) == [Ok(a)];
    hide ItemsOf;
    OneRun(net, Delete([m]), Add([f]));
    PushOne(NEW_TX, d);
    PushOne(NEW_TX.(flows := [d]), a);
    var ops := [Delete([m]), Add([f]), Commit];
    assert ops[..2] == [Delete([m]), Add([f])];
    assert Run(net, ops) == Step(net, Run(net, ops[..2]), Commit);
    hide Run, Push;
    assert [] + [d] == [d] && [d] + [a] == [d, a];
  }

  lemma PushOne(tx: Tx, d: Directive)
    ensures Push(tx, [Ok(d)]) == tx.(flows := tx.flows + [d])
  {
    var items: seq<Item> := [Ok(d)];
    assert items[1..] == [];
  }

  // A callback that returns the error of a Commit or a Discard, or any other, writes nothing.
  lemma NothingWritten(net: Net, ops: seq<Op>, result: Option<TxError>)
    ensures Bundle(net, ops, result).Err? <==> result.Some? || forall i :: !GoodCommit(net, ops, i)
  {
    CommittedExactly(net, ops);
    hide GoodCommit, Run, BundleText;
  }

  // A Commit at i that finds no error before it.
  predicate GoodCommit(net: Net, ops: seq<Op>, i: int) {
    0 <= i < |ops| && ops[i].Commit? && FirstFailure(AllItems(net, ops[..i])).None?
  }

  // The transaction is committed exactly if there was such a Commit.
  lemma {:induction false} CommittedExactly(net: Net, ops: seq<Op>)
    ensures Run(net, ops).committed <==> exists i :: GoodCommit(net, ops, i)
    decreases |ops|
  {
    if ops != [] {
      var n := |ops| - 1;
      var before := ops[..n];
      CommittedExactly(net, before);
      CommitStep(net, ops);
      forall i | i != n ensures GoodCommit(net, before, i) <==> GoodCommit(net, ops, i) {
        if 0 <= i < n { assert before[..i] == ops[..i]; }
      }
      hide GoodCommit, Run;
    }
  }

  lemma CommitStep(net: Net, ops: seq<Op>)
    requires ops != []
    ensures var n := |ops| - 1;
      Run(net, ops).committed <==> Run(net, ops[..n]).committed || GoodCommit(net, ops, n)
  {
    var n := |ops| - 1;
    var tx, op := Run(net, ops[..n]), ops[n];
    FirstErrorSticks(net, ops[..n]);
    RunStep(net, ops);
    if tx.err.None? && (op.Add? || op.Delete?) { PushMeans(tx, ItemsOf(net, op)); }
    hide Run, ItemsOf, FirstFailure, AllItems, Push;
  }

  // ---------- When Add and Delete do nothing ----------

  // A call pushes the flows before its first invalid one, whose error it records.
  lemma PushKeeps(net: Net, tx: Tx, op: Op)
    requires tx.err.None? && (op.Add? || op.Delete?)
    ensures var items := ItemsOf(net, op);
      Step(net, tx, op) == Tx(tx.flows + GoodPrefix(items), tx.committed, FirstFailure(items))
  {
    PushMeans(tx, ItemsOf(net, op));
    hide ItemsOf, Push, GoodPrefix, FirstFailure;
  }

  lemma UnchangedExactly(flows: seq<Directive>, items: seq<Item>)
    ensures flows + GoodPrefix(items) == flows <==> items == [] || items[0].Err?
  {
    if items != [] && items[0].Ok? {
      assert |flows + GoodPrefix(items)| > |flows|;
    } else {
      assert flows + [] == flows;
    }
  }

  lemma NoOpExactly(net: Net, tx: Tx, op: Op)
    requires op.Add? || op.Delete?
    ensures var items := ItemsOf(net, op);
      Step(net, tx, op).flows == tx.flows <==> tx.err.Some? || items == [] || items[0].Err?
  {
    if tx.err.None? { PushKeeps(net, tx, op); }
    hide GoodPrefix, FirstFailure, ItemsOf, Push;
    UnchangedExactly(tx.flows, ItemsOf(net, op));
  }

  // Add is documented to do nothing if any of its flows is invalid.  It does nothing exactly
  // if an error was recorded before, or it has no flows, or the first one is invalid.
  lemma AddIsNoOpExactly(net: Net, tx: Tx, fs: seq<FlowData>)
    ensures Step(net, tx, Add(fs)).flows == tx.flows <==> tx.err.Some? || fs == [] || AddItem(net, fs[0]).Err?
  {
    NoOpExactly(net, tx, Add(fs));
    hide Step, AddItem;
    assert |ItemsOf(net, Add(fs))| == |fs|;
  }

  lemma DeleteIsNoOpExactly(net: Net, tx: Tx, fs: seq<MatchFlowData>)
    ensures Step(net, tx, Delete(fs)).flows == tx.flows <==> tx.err.Some? || fs == [] || DeleteItem(net, fs[0]).Err?
  {
    NoOpExactly(net, tx, Delete(fs));
    hide Step, DeleteItem;
    assert |ItemsOf(net, Delete(fs))| == |fs|;
  }

  // A call that is not the promised no-op: the valid flow stays, the error stops what follows.
  lemma PartialAdd(net: Net, tx: Tx, good: FlowData, bad: FlowData)
    requires tx.err.None? && AddItem(net, good).Ok? && AddItem(net, bad).Err?
    ensures Step(net, tx, Add([good, bad])) ==
      Tx(tx.flows + [AddItem(net, good).value], tx.committed, Some(AddItem(net, bad).error))
  {
    PushKeeps(net, tx, Add([good, bad]));
    hide Step, Push, AddItem;
    var items := [AddItem(net, good), AddItem(net, bad)];
    assert ItemsOf(net, Add([good, bad])) == items;
    assert items[1..] == [AddItem(net, bad)];
  }

  lemma PartialDelete(net: Net, tx: Tx, good: MatchFlowData, bad: MatchFlowData)
    requires tx.err.None? && DeleteItem(net, good).Ok? && DeleteItem(net, bad).Err?
    ensures Step(net, tx, Delete([good, bad])) ==
      Tx(tx.flows + [DeleteItem(net, good).value], tx.committed, Some(DeleteItem(net, bad).error))
  {
    PushKeeps(net, tx, Delete([good, bad]));
    hide Step, Push, DeleteItem;
    var items := [DeleteItem(net, good), DeleteItem(net, bad)];
    assert ItemsOf(net, Delete([good, bad])) == items;
    assert items[1..] == [DeleteItem(net, bad)];
  }

  // ---------- What a commit does not fix ----------

  // Behind a successful Commit the operations of b go on as in a new transaction, in front of
  // which stands what was held, unless b discards it.
  lemma {:induction false} RunBehindCommit(net: Net, a: seq<Op>, b: seq<Op>)
    requires Run(net, a).err.None?
    ensures Run(net, a + [Commit] + b) == Behind(Run(net, a).flows, Run(net, b), LastDiscard(b) > 0)
    decreases |b|
  {
    if b == [] {
      assert a + [Commit] + b == a + [Commit];
      assert (a + [Commit])[..|a|] == a;
      assert Run(net, a).flows + [] == Run(net, a).flows;
    } else {
      var n := |b| - 1;
      RunBehindCommit(net, a, b[..n]);
      RunsNext(net, a + [Commit], b);
      hide Run, ItemsOf;
      BehindStep(net, Run(net, a).flows, Run(net, b[..n]), LastDiscard(b[..n]) > 0, b[n]);
    }
  }

  function Behind(held: seq<Directive>, tx: Tx, discarded: bool): Tx {
    Tx(if discarded then tx.flows else held + tx.flows, true, tx.err)
  }

  lemma BehindStep(net: Net, held: seq<Directive>, tx: Tx, discarded: bool, op: Op)
    ensures Step(net, Behind(held, tx, discarded), op) == Behind(held, Step(net, tx, op), discarded || op.Discard?)
  {
    hide Push, ItemsOf, GoodPrefix, FirstFailure;
    if tx.err.None? && (op.Add? || op.Delete?) {
      hide Step;
      PushKeeps(net, tx, op);
      PushKeeps(net, Behind(held, tx, discarded), op);
      assert held + tx.flows + GoodPrefix(ItemsOf(net, op)) == held + (tx.flows + GoodPrefix(ItemsOf(net, op)));
    }
  }

  lemma RunsNext(net: Net, c: seq<Op>, b: seq<Op>)
    requires b != []
    ensures var n := |b| - 1;
      && Run(net, b) == Step(net, Run(net, b[..n]), b[n])
      && Run(net, c + b) == Step(net, Run(net, c + b[..n]), b[n])
  {
    hide Step;
    assert (c + b)[..|c + b| - 1] == c + b[..|b| - 1];
  }

  // What a successful Commit fixes: the transaction stays committed.  A later failure is
  // recorded, but nobody reports it.  Without a later Discard, the later flows up to that
  // failure are written as well; what is written stays the same exactly if there are none.
  // With one, only what was pushed behind it is written, as if nothing had been committed.
  lemma AfterCommit(net: Net, a: seq<Op>, b: seq<Op>)
    requires Run(net, a).err.None?
    ensures var tx, pushed := Run(net, a + [Commit] + b), AllItems(net, b);
      && tx.committed && tx.err == FirstFailure(pushed)
      && Bundle(net, a + [Commit] + b, None) == Ok(BundleText(tx.flows))
      && (LastDiscard(b) == 0 ==> tx.flows == Run(net, a).flows + GoodPrefix(pushed))
      && (LastDiscard(b) == 0 ==> (tx.flows == Run(net, a).flows <==> pushed == [] || pushed[0].Err?))
      && (LastDiscard(b) > 0 ==> tx.flows == Expected(net, b))
  {
    RunBehindCommit(net, a, b);
    FirstErrorSticks(net, b);
    HeldExactly(net, b);
    WithoutDiscard(net, b);
    UnchangedExactly(Run(net, a).flows, AllItems(net, b));
    hide Run, AllItems, GoodPrefix, FirstFailure, Expected, LastDiscard, BundleText;
  }

  lemma WithoutDiscard(net: Net, b: seq<Op>)
    ensures LastDiscard(b) == 0 ==> Expected(net, b) == GoodPrefix(AllItems(net, b))
  {
    hide ItemsOf, LastDiscard;
    if LastDiscard(b) == 0 { assert b[..0] == [] && b[0..] == b; }
  }

  // Three runs: flows pushed later are written, a later Discard empties the bundle, and a
  // later failure is not reported.
  lemma CommitDoesNotFreeze(net: Net, f: FlowData, bad: FlowData)
    requires FlowText(net, f).Ok? && FlowText(net, bad).Err?
    ensures var tx := Run(net, [Commit, Add([f])]);
      tx.committed && tx.flows == [Directive("add", FlowText(net, f).value)]
    ensures var tx := Run(net, [Add([f]), Commit, Discard]); tx.committed && tx.flows == []
    ensures var tx := Run(net, [Commit, Add([f, bad])]);
      tx.committed && tx.err.Some? && tx.flows == [Directive("add", FlowText(net, f).value)]
  {
    hide FlowText;
    OneRun(net, Commit, Add([f]));
    OneRun(net, Commit, Add([f, bad]));
    OneRun(net, Add([f]), Commit);
    var ops := [Add([f]), Commit, Discard];
    assert ops[..2] == [Add([f]), Commit];
    assert ItemsOf(net, Add([f])) == [AddItem(net, f)];
    assert ItemsOf(net, Add([f, bad])) == [AddItem(net, f), AddItem(net, bad)];
    var d := Directive("add", FlowText(net, f).value);
    PushMeans(NEW_TX.(committed := true), [AddItem(net, f)]);
    PushMeans(NEW_TX, [AddItem(net, f)]);
    PushMeans(NEW_TX.(committed := true), [AddItem(net, f), AddItem(net, bad)]);
    assert [AddItem(net, f), AddItem(net, bad)][1..] == [AddItem(net, bad)];
    assert [AddItem(net, f)][1..] == [];
  }

  lemma OneRun(net: Net, a: Op, b: Op)
    ensures Run(net, [a, b]) == Step(net, Step(net, NEW_TX, a), b)
  {
    hide Step;
    assert [a, b][..1] == [a] && [a][..0] == [];
    assert Run(net, []) == NEW_TX;
    assert Run(net, [a]) == Step(net, NEW_TX, a);
  }
}
