/** What the echo counters of Stats mean, in every run of the client. */
module RpcEcho {
  import opened RpcProtocol
  import opened RpcInvariant
  import opened RpcSafety
  import opened RpcClient

  // echoLoop waits for this call.
  predicate UnderWay(s: State, t: Call) { s.echo == EchoCalling(t) }

  // The echo calls that have returned and been looked at: only echoLoop uses the client's
  // own context.
  predicate IsFinished(s: State, t: Call) {
    t in s.rpcs && s.rpcs[t].ctx == CLIENT && s.rpcs[t].pc.Done? && !UnderWay(s, t)
  }

  // What an echo call came to.
  datatype Verdict = GotMessage | ConnectionGone | Failed

  function VerdictOf(o: Outcome): Verdict {
    if o.Got? then GotMessage else if o == SendFailed(true) then ConnectionGone else Failed
  }

  ghost function Finished(s: State, v: Verdict): set<Call> {
    set t | t in s.rpcs && IsFinished(s, t) && VerdictOf(s.rpcs[t].pc.outcome) == v
  }

  // A call under the client's context is an echo call: under way, or finished.
  ghost predicate EchoCallsKnown(s: State) {
    forall t :: t in s.rpcs && s.rpcs[t].ctx == CLIENT ==> UnderWay(s, t) || s.rpcs[t].pc.Done?
  }

  ghost predicate Counted(s: State) {
    && s.echoOK <= |Finished(s, GotMessage)|
    && s.echoOK + s.echoFail == |Finished(s, GotMessage)| + |Finished(s, Failed)|
  }

  // Steps other than a report leave echoLoop's call and the counters alone.
  lemma CountersStay(s: State, e: Event)
    requires Enabled(s, e) && !e.EchoReport?
    ensures Apply(s, e).echoOK == s.echoOK && Apply(s, e).echoFail == s.echoFail
    ensures s.echo.EchoCalling? ==> Apply(s, e).echo == s.echo
    ensures Apply(s, e).echo == s.echo || !Apply(s, e).echo.EchoCalling? || Apply(s, e).echo.call !in s.rpcs
  {
    hide Key, LockFree, ConnOpen, Ready, AllExited, Consume, CanReceive;
  }

  // They keep the context of a call.  A new call is not done, and only echoLoop starts one
  // under the client's context.
  lemma ContextStays(s: State, e: Event, t: Call)
    requires Enabled(s, e) && t in s.rpcs
    ensures t in Apply(s, e).rpcs && Apply(s, e).rpcs[t].ctx == s.rpcs[t].ctx
  {
    hide Key, LockFree, ConnOpen, Ready, AllExited, Consume, CanReceive;
    if CallbackEvent(e) { DoneStaysInCallback(s, e, t); }
  }

  lemma NewCall(s: State, e: Event, t: Call)
    requires Enabled(s, e) && t !in s.rpcs && t in Apply(s, e).rpcs
    ensures !Apply(s, e).rpcs[t].pc.Done?
    ensures Apply(s, e).rpcs[t].ctx == CLIENT ==> UnderWay(Apply(s, e), t)
  {
    hide Key, LockFree, ConnOpen, Ready, AllExited, Consume, CanReceive;
  }

  lemma OtherKeeps(s: State, e: Event, t: Call)
    requires Inv(s) && EchoCallsKnown(s) && Enabled(s, e) && !e.EchoReport?
    requires t in Apply(s, e).rpcs && Apply(s, e).rpcs[t].ctx == CLIENT
    ensures UnderWay(Apply(s, e), t) || Apply(s, e).rpcs[t].pc.Done?
    ensures IsFinished(s, t) <==> IsFinished(Apply(s, e), t)
    ensures IsFinished(s, t) ==> Apply(s, e).rpcs[t].pc == s.rpcs[t].pc
  {
    CountersStay(s, e);
    if t !in s.rpcs {
      NewCall(s, e, t);
    } else {
      ContextStays(s, e, t);
      if s.rpcs[t].pc.Done? { DoneStays(s, e, t); }
    }
    hide Enabled, Apply, Inv;
  }

  lemma OtherCounted(s: State, e: Event)
    requires Inv(s) && EchoCallsKnown(s) && Counted(s) && Enabled(s, e) && !e.EchoReport?
    ensures EchoCallsKnown(Apply(s, e)) && Counted(Apply(s, e))
  {
    var s' := Apply(s, e);
    CountersStay(s, e);
    forall t | t in s'.rpcs && s'.rpcs[t].ctx == CLIENT
      ensures UnderWay(s', t) || s'.rpcs[t].pc.Done?
    {
      OtherKeeps(s, e, t);
    }
    forall v ensures Finished(s', v) == Finished(s, v) { SameFinished(s, e, v); }
    hide Enabled, Apply, Inv, Finished;
  }

  lemma SameFinished(s: State, e: Event, v: Verdict)
    requires Inv(s) && EchoCallsKnown(s) && Enabled(s, e) && !e.EchoReport?
    ensures Finished(Apply(s, e), v) == Finished(s, v)
  {
    var s' := Apply(s, e);
    hide Enabled, Apply, Inv, VerdictOf, EchoCallsKnown, UnderWay;
    forall t ensures t in Finished(s', v) <==> t in Finished(s, v) {
      if t in s.rpcs { ContextStays(s, e, t); }
      if t in s'.rpcs && s'.rpcs[t].ctx == CLIENT { OtherKeeps(s, e, t); }
    }
  }

  lemma ReportStep(s: State, e: Event)
    requires Inv(s) && Enabled(s, e) && e.EchoReport?
    ensures Apply(s, e).echo == EchoIdle && Apply(s, e).rpcs == s.rpcs
    ensures s.echo.EchoCalling? && s.echo.call in s.rpcs
      && s.rpcs[s.echo.call].pc.Done? && s.rpcs[s.echo.call].ctx == CLIENT
    ensures var v := VerdictOf(s.rpcs[s.echo.call].pc.outcome);
      && (e.ok ==> v.GotMessage?)
      && Apply(s, e).echoOK == s.echoOK + (if e.ok then 1 else 0)
      && Apply(s, e).echoFail == s.echoFail + (if e.ok || v.ConnectionGone? then 0 else 1)
  {
    hide CallsOk, DistinctIds, CallbacksOk, ListenOk;
  }

  // A report moves echoLoop's call into the finished ones of its verdict.
  lemma ReportFinished(s: State, e: Event, v: Verdict)
    requires Inv(s) && Enabled(s, e) && e.EchoReport?
    ensures s.echo.EchoCalling? && s.echo.call in s.rpcs && s.rpcs[s.echo.call].pc.Done?
    ensures Finished(Apply(s, e), v) ==
      Finished(s, v) + (if v == VerdictOf(s.rpcs[s.echo.call].pc.outcome) then {s.echo.call} else {})
    ensures s.echo.call !in Finished(s, v)
  {
    ReportStep(s, e);
    hide Enabled, Apply, Inv, VerdictOf;
  }

  lemma ReportKnown(s: State, e: Event)
    requires Inv(s) && EchoCallsKnown(s) && Enabled(s, e) && e.EchoReport?
    ensures EchoCallsKnown(Apply(s, e))
  {
    ReportStep(s, e);
    hide Enabled, Apply, Inv, VerdictOf;
  }

  lemma ReportCounted(s: State, e: Event)
    requires Inv(s) && EchoCallsKnown(s) && Counted(s) && Enabled(s, e) && e.EchoReport?
    ensures EchoCallsKnown(Apply(s, e)) && Counted(Apply(s, e))
  {
    hide Enabled, Apply, Inv, EchoCallsKnown, Finished, VerdictOf;
    ReportKnown(s, e);
    ReportStep(s, e);
    ReportFinished(s, e, GotMessage);
    ReportFinished(s, e, Failed);
  }

  lemma {:induction false} RunCounted(s: State, events: seq<Event>)
    requires Inv(s) && EchoCallsKnown(s) && Counted(s) && IsRun(s, events)
    ensures Counted(After(s, events))
    decreases |events|
  {
    hide Inv, Enabled, Apply, Counted, EchoCallsKnown;
    if events != [] {
      StepKeeps(s, events[0]);
      if events[0].EchoReport? { ReportCounted(s, events[0]); } else { OtherCounted(s, events[0]); }
      RunCounted(Apply(s, events[0]), events[1..]);
    }
  }

  // In every reachable state, the successes and failures of Stats together are the finished
  // echo calls, except those whose Send failed on the closed connection; a success is an echo
  // call that got a message.
  lemma EchoesCounted(s: State)
    requires Reachable(s)
    ensures s.echoOK + s.echoFail == |Finished(s, GotMessage)| + |Finished(s, Failed)|
    ensures s.echoOK <= |Finished(s, GotMessage)|
  {
    var interval, events :| IsRun(Initial(interval), events) && After(Initial(interval), events) == s;
    InitialInv(interval);
    assert Finished(Initial(interval), GotMessage) == {} == Finished(Initial(interval), Failed);
    hide IsRun, After, Finished, Inv;
    RunCounted(Initial(interval), events);
  }

  // The reports in a run that an echo call succeeded.
  function Successes(events: seq<Event>): nat {
    if events == [] then 0 else (if events[0] == EchoReport(true) then 1 else 0) + Successes(events[1..])
  }

  // Each of them is counted as a success, and nothing else is.
  lemma {:induction false} SuccessesCounted(s: State, events: seq<Event>)
    requires Inv(s) && IsRun(s, events)
    ensures After(s, events).echoOK == s.echoOK + Successes(events)
    decreases |events|
  {
    hide Inv, Enabled, Apply;
    if events != [] {
      StepKeeps(s, events[0]);
      if events[0].EchoReport? { ReportStep(s, events[0]); } else { CountersStay(s, events[0]); }
      SuccessesCounted(Apply(s, events[0]), events[1..]);
    }
  }

  // ---------- Every tick makes an echo call ----------

  // While the client is open and echoLoop idle, a tick of the ticker leads to an echo call, and
  // the ticker waits for the next tick.
  lemma TickMakesEcho(s: State, t: Call)
    requires s.fault.None? && CLIENT !in s.cancelled && s.ticker.TickWait? && s.echo.EchoIdle? && t !in s.rpcs
    ensures var run := [TickFire, TickCheck, Handoff(true), EchoCheck(t)];
      && IsRun(s, run)
      && After(s, run) == s.(echo := EchoCalling(t), rpcs := s.rpcs[t := Rpc(CLIENT, 0, 0, Start, FRESH)])
  {
    var s1 := s.(ticker := TickTaken);
    var s2 := s.(ticker := TickOffer);
    var s3 := s.(echo := EchoTaken);
    var s4 := s.(echo := EchoCalling(t), rpcs := s.rpcs[t := Rpc(CLIENT, 0, 0, Start, FRESH)]);
    hide IsRun, After;
    TickerOffers(s, s1, s2);
    EchoTakes(s2, s3, s4, t);
    hide *;
    RunFour(s, s1, s2, s3, s4, TickFire, TickCheck, Handoff(true), EchoCheck(t));
  }

  lemma TickerOffers(s: State, s1: State, s2: State)
    requires s.fault.None? && CLIENT !in s.cancelled && s.ticker.TickWait?
    requires s1 == s.(ticker := TickTaken) && s2 == s.(ticker := TickOffer)
    ensures Enabled(s, TickFire) && Apply(s, TickFire) == s1
    ensures Enabled(s1, TickCheck) && Apply(s1, TickCheck) == s2
  {
  }

  lemma EchoTakes(s: State, s1: State, s2: State, t: Call)
    requires s.fault.None? && CLIENT !in s.cancelled && s.ticker.TickOffer? && s.echo.EchoIdle? && t !in s.rpcs
    requires s1 == s.(echo := EchoTaken, ticker := TickWait)
    requires s2 == s1.(echo := EchoCalling(t), rpcs := s.rpcs[t := Rpc(CLIENT, 0, 0, Start, FRESH)])
    ensures Enabled(s, Handoff(true)) && Apply(s, Handoff(true)) == s1
    ensures Enabled(s1, EchoCheck(t)) && Apply(s1, EchoCheck(t)) == s2
  {
  }
}
