/**
 Shutdown.  Once Close has cancelled the client's context and closed the connection, no
 background goroutine can be stopped from exiting: each has an enabled step, or waits for a
 mutex whose holder has one, and a measure bounds how many steps they can still take.
 */
module RpcShutdown {
  import opened RpcProtocol
  import opened RpcInvariant
  import opened RpcSafety

  // A step of listen, echoLoop (with the rpc it is waiting for) or echoTicker.
  predicate Background(s: State, e: Event) {
    || CallbackEvent(e) || ListenEvent(e)
    || e.TickFire? || e.TickCheck? || e.TickStop?
    || e.EchoStop? || e.EchoCheck? || e.EchoReport?
    || (RpcEvent(e) && s.echo.EchoCalling? && e.t == s.echo.call)
  }

  predicate ShutDown(s: State) { s.close.ConnClosed? || s.close.CloseReturned? }

  // ---------- The measure ----------

  function PcLeft(pc: Pc): nat {
    match pc
    case Start => 6
    case Checked => 5
    case Registering => 4
    case Sending => 3
    case Waiting => 2
    case Returning(_) => 1
    case Done(_) => 0
  }

  function EchoLeft(s: State): nat {
    match s.echo
    case EchoIdle => 2
    case EchoTaken => 1
    case EchoCalling(t) => if t in s.rpcs then 3 + PcLeft(s.rpcs[t].pc) else 3
    case EchoExited => 0
  }

  function TickerLeft(s: State): nat {
    match s.ticker
    case TickWait => 2
    case TickTaken => 1
    case TickOffer => 3
    case TickExited => 0
  }

  function ListenLeft(s: State): nat {
    match s.listen
    case Receiving => 7 * s.pending + 1
    case EchoOffer => 7 * s.pending + 2
    case Dispatching(_) => 7 * s.pending + 5
    case Selecting(_, _, _) => 7 * s.pending + 4
    case Deleting(_, _) => 7 * s.pending + 3
    case Closing(_) => 7 * s.pending + 2
    case ListenExited => 0
  }

  function StepsLeft(s: State): nat { ListenLeft(s) + EchoLeft(s) + TickerLeft(s) }

  // ---------- Background steps use up the measure, other steps leave it alone ----------

  lemma CallbackDrops(s: State, e: Event)
    requires Inv(s) && CallbackEvent(e) && Enabled(s, e)
    ensures StepsLeft(Apply(s, e)) < StepsLeft(s)
  {
    hide Key, RpcOk, DistinctIds, CallbacksOk;
    var s' := Apply(s, e);
    if e.CallbackSend? || e.CallbackClose? {
      NoFaultInCallback(s, e);
    }
    EchoPcSame(s, s');
  }

  lemma NoFaultInCallback(s: State, e: Event)
    requires Inv(s) && (e.CallbackSend? || e.CallbackClose?) && Enabled(s, e)
    ensures s.rpcs[s.listen.call].channel.closes == 0
  {
    hide Key, NoneBefore, DistinctIds, CallbacksOk;
    assert CallOk(s, s.listen.call);
  }

  lemma EchoPcSame(s: State, s': State)
    requires s'.echo == s.echo && s'.ticker == s.ticker && s'.rpcs.Keys == s.rpcs.Keys
    requires forall t :: t in s.rpcs ==> s'.rpcs[t].pc == s.rpcs[t].pc
    ensures EchoLeft(s') == EchoLeft(s) && TickerLeft(s') == TickerLeft(s)
  {
  }

  lemma ListenDrops(s: State, e: Event)
    requires Inv(s) && ShutDown(s) && ListenEvent(e) && Enabled(s, e)
    ensures StepsLeft(Apply(s, e)) < StepsLeft(s)
  {
    hide CallsOk, DistinctIds, CallbacksOk, ListenOk;
  }

  lemma EchoDrops(s: State, e: Event)
    requires Inv(s) && ShutDown(s) && Enabled(s, e)
    requires e.TickFire? || e.TickCheck? || e.TickStop? || e.EchoStop? || e.EchoCheck? || e.EchoReport?
    ensures StepsLeft(Apply(s, e)) < StepsLeft(s)
  {
    hide CallsOk, DistinctIds, CallbacksOk, ListenOk;
  }

  lemma RpcDrops(s: State, e: Event)
    requires Inv(s) && ShutDown(s) && RpcEvent(e) && Enabled(s, e)
    requires s.echo == EchoCalling(e.t)
    ensures StepsLeft(Apply(s, e)) < StepsLeft(s)
  {
    hide Key, RpcOk, DistinctIds, CallbacksOk, Enabled;
    if e.Register? { RegisterOk(s, e.t); }
    RpcStepPc(s, e);
  }

  // A step of a call advances its own program counter and touches no goroutine.
  lemma RpcStepPc(s: State, e: Event)
    requires RpcEvent(e) && Enabled(s, e) && (e.Register? ==> !InMap(s, s.rpcs[e.t]))
    ensures var s' := Apply(s, e);
      && e.t in s.rpcs && e.t in s'.rpcs && PcLeft(s'.rpcs[e.t].pc) < PcLeft(s.rpcs[e.t].pc)
      && s'.echo == s.echo && s'.ticker == s.ticker && s'.listen == s.listen && s'.pending == s.pending
      && (forall t :: t in s.rpcs && t != e.t ==> t in s'.rpcs && s'.rpcs[t] == s.rpcs[t])
  {
    hide Key;
  }

  lemma BackgroundDrops(s: State, e: Event)
    requires Inv(s) && ShutDown(s) && Background(s, e) && Enabled(s, e)
    ensures StepsLeft(Apply(s, e)) < StepsLeft(s)
  {
    hide Inv, Enabled, Apply, StepsLeft, ShutDown;
    if CallbackEvent(e) { CallbackDrops(s, e); }
    else if ListenEvent(e) { ListenDrops(s, e); }
    else if RpcEvent(e) { RpcDrops(s, e); }
    else { EchoDrops(s, e); }
  }

  lemma OthersWait(s: State, e: Event)
    requires Inv(s) && ShutDown(s) && !Background(s, e) && Enabled(s, e)
    ensures StepsLeft(Apply(s, e)) == StepsLeft(s)
  {
    hide StepsLeft;
    if RpcEvent(e) { UserCallWaits(s, e); } else { OtherWaits(s, e); }
  }

  lemma UserCallWaits(s: State, e: Event)
    requires Inv(s) && RpcEvent(e) && Enabled(s, e) && !(s.echo.EchoCalling? && e.t == s.echo.call)
    ensures StepsLeft(Apply(s, e)) == StepsLeft(s)
  {
    KeyIsNew(s, e);
    hide Inv, Enabled, Apply, StepsLeft, PcLeft, InMap;
    RpcStepPc(s, e);
    SameSteps(s, Apply(s, e), e.t);
  }

  lemma KeyIsNew(s: State, e: Event)
    requires Inv(s) && Enabled(s, e)
    ensures e.Register? ==> !InMap(s, s.rpcs[e.t])
    ensures s.echo.EchoCalling? ==> s.echo.call in s.rpcs
  {
    hide CallsOk, DistinctIds, CallbacksOk, ListenOk;
    if e.Register? { RegisterOk(s, e.t); }
  }

  lemma SameSteps(s: State, s': State, t: Call)
    requires s'.echo == s.echo && s'.ticker == s.ticker && s'.listen == s.listen && s'.pending == s.pending
    requires s.echo.EchoCalling? ==> s.echo.call in s.rpcs && s.echo.call != t
    requires forall u :: u in s.rpcs && u != t ==> u in s'.rpcs && s'.rpcs[u] == s.rpcs[u]
    ensures StepsLeft(s') == StepsLeft(s)
  {
    hide PcLeft;
  }

  lemma OtherWaits(s: State, e: Event)
    requires Inv(s) && ShutDown(s) && !Background(s, e) && !RpcEvent(e) && Enabled(s, e)
    ensures StepsLeft(Apply(s, e)) == StepsLeft(s)
  {
    hide Key, RpcOk, CallsOk, DistinctIds, CallbacksOk, ListenOk;
  }

  lemma StaysShutDown(s: State, e: Event)
    requires ShutDown(s) && Enabled(s, e)
    ensures ShutDown(Apply(s, e))
  {
    hide Key;
  }

  // ---------- Every goroutine can go on until it exits ----------

  // What listen does next on its way out.
  function ListenNext(s: State): Event {
    match s.listen
    case Receiving => if s.pending > 0 then ReceiveError else ReceiveEnd
    case EchoOffer => OfferAbandoned
    case Dispatching(_) => Lock
    case Selecting(_, _, _) => CallbackSend
    case Deleting(_, _) => CallbackDelete
    case Closing(_) => CallbackClose
    case ListenExited => ReceiveEnd
  }

  function TickerNext(s: State): Event {
    if s.ticker.TickTaken? then TickCheck else TickStop
  }

  function RpcNext(t: Call, pc: Pc): Event {
    match pc
    case Start => Check(t)
    case Checked => Number(t)
    case Registering => Register(t)
    case Sending => Send(t, false)
    case Waiting => TakeCancel(t)
    case Returning(_) => Cleanup(t)
    case Done(_) => EchoReport(false)
  }

  function EchoNext(s: State, unused: Call): Event {
    match s.echo
    case EchoTaken => EchoCheck(unused)
    case EchoCalling(t) => if t in s.rpcs then RpcNext(t, s.rpcs[t].pc) else EchoStop
    case _ => EchoStop
  }

  lemma ListenGoesOn(s: State)
    requires Reachable(s) && ShutDown(s) && !s.listen.ListenExited?
    ensures Enabled(s, ListenNext(s)) && Background(s, ListenNext(s))
  {
    hide Reachable, RpcOk, Key, DistinctIds, CallbacksOk, CallsOk;
    ReachableInv(s);
    if !LockFree(s) { HolderNeverBlocked(s); }
  }

  lemma TickerGoesOn(s: State)
    requires Reachable(s) && ShutDown(s) && !s.ticker.TickExited?
    ensures Enabled(s, TickerNext(s)) && Background(s, TickerNext(s))
  {
    hide Reachable, RpcOk, Key, DistinctIds, CallbacksOk, CallsOk;
    ReachableInv(s);
  }

  // echoLoop goes on as well, unless its rpc waits for the mutex; the holder, listen, can
  // go on then.
  lemma EchoGoesOn(s: State, unused: Call)
    requires Reachable(s) && ShutDown(s) && !s.echo.EchoExited? && unused !in s.rpcs
    ensures Enabled(s, EchoNext(s, unused)) || (!LockFree(s) && Enabled(s, ListenNext(s)))
    ensures Background(s, EchoNext(s, unused))
  {
    hide Reachable, RpcOk, Key, DistinctIds, CallbacksOk, CallsOk;
    ReachableInv(s);
    if !LockFree(s) { HolderNeverBlocked(s); }
  }

  lemma {:induction false} UnusedCall(calls: set<Call>) returns (t: Call)
    ensures forall u :: u in calls ==> u < t
  {
    if calls == {} {
      t := 0;
    } else {
      var u :| u in calls;
      var rest := UnusedCall(calls - {u});
      t := if rest > u then rest else u + 1;
      assert forall w :: w in calls ==> w == u || w in calls - {u};
    }
  }

  lemma SomeoneGoesOn(s: State) returns (e: Event)
    requires Reachable(s) && ShutDown(s) && !AllExited(s)
    ensures Enabled(s, e) && Background(s, e)
  {
    hide Reachable, ShutDown, Enabled, Background, ListenNext, TickerNext, EchoNext;
    if !s.listen.ListenExited? {
      ListenGoesOn(s);
      e := ListenNext(s);
    } else if !s.ticker.TickExited? {
      TickerGoesOn(s);
      e := TickerNext(s);
    } else {
      var t := UnusedCall(s.rpcs.Keys);
      EchoGoesOn(s, t);
      e := EchoNext(s, t);
    }
  }

  // ---------- Shutdown ----------

  lemma ReachableStep(s: State, e: Event)
    requires Reachable(s) && Enabled(s, e)
    ensures Reachable(Apply(s, e))
  {
    hide Enabled, Apply, Initial;
    var interval, events :| IsRun(Initial(interval), events) && After(Initial(interval), events) == s;
    RunSnoc(Initial(interval), events, e);
  }

  lemma {:induction false} RunSnoc(s: State, events: seq<Event>, e: Event)
    requires IsRun(s, events) && Enabled(After(s, events), e)
    ensures IsRun(s, events + [e]) && After(s, events + [e]) == Apply(After(s, events), e)
    decreases |events|
  {
    hide Enabled, Apply;
    if events == [] {
      assert [e][1..] == [];
    } else {
      RunSnoc(Apply(s, events[0]), events[1..], e);
      assert (events + [e])[1..] == events[1..] + [e];
    }
  }

  function BackgroundSteps(s: State, events: seq<Event>): nat
    requires IsRun(s, events)
    decreases |events|
  {
    if events == [] then 0
    else BackgroundSteps(Apply(s, events[0]), events[1..]) + (if Background(s, events[0]) then 1 else 0)
  }

  // In every run after Close has closed the connection, the background goroutines take at
  // most StepsLeft steps together, whatever the callers of rpc do meanwhile.
  lemma {:induction false} ShutdownIsBounded(s: State, events: seq<Event>)
    requires Inv(s) && ShutDown(s) && IsRun(s, events)
    ensures BackgroundSteps(s, events) + StepsLeft(After(s, events)) <= StepsLeft(s)
    decreases |events|
  {
    hide Inv, Enabled, Apply, Background, ShutDown, StepsLeft;
    if events != [] {
      var e, s' := events[0], Apply(s, events[0]);
      if Background(s, e) { BackgroundDrops(s, e); } else { OthersWait(s, e); }
      StepKeeps(s, e);
      StaysShutDown(s, e);
      ShutdownIsBounded(s', events[1..]);
    }
  }

  predicate OnlyBackground(s: State, events: seq<Event>)
    requires IsRun(s, events)
    decreases |events|
  {
    events == [] || (Background(s, events[0]) && OnlyBackground(Apply(s, events[0]), events[1..]))
  }

  // The goroutines can finish on their own: some run of their steps alone makes them all
  // exit, and then Close returns.
  lemma {:induction false} ShutdownCompletes(s: State) returns (events: seq<Event>)
    requires Reachable(s) && s.close.ConnClosed?
    ensures IsRun(s, events) && OnlyBackground(s, events)
    ensures AllExited(After(s, events)) && Enabled(After(s, events), CloseReturn)
    decreases StepsLeft(s)
  {
    ReachableInv(s);
    hide Reachable, Inv, Enabled, Apply, Background, AllExited, StepsLeft;
    if AllExited(s) {
      events := [];
      CloseCanReturn(s);
    } else {
      var e := SomeoneGoesOn(s);
      BackgroundDrops(s, e);
      ReachableStep(s, e);
      CloseWaits(s, e);
      events := ShutdownCompletes(Apply(s, e));
      assert ([e] + events)[1..] == events;
      events := [e] + events;
    }
  }

  lemma CloseCanReturn(s: State)
    requires Inv(s) && s.close.ConnClosed? && AllExited(s)
    ensures Enabled(s, CloseReturn)
  {
    hide CallsOk, DistinctIds, CallbacksOk;
  }

  lemma CloseWaits(s: State, e: Event)
    requires Background(s, e) && Enabled(s, e)
    ensures Apply(s, e).close == s.close
  {
    hide Key;
  }

  // ---------- What was received before the connection was closed ----------

  function Received(n: nat): seq<Event> {
    if n == 0 then [ReceiveEnd] else [ReceiveError] + Received(n - 1)
  }

  lemma {:induction false} ReceivesRest(s: State)
    requires s.fault.None? && s.listen.Receiving? && s.close.ConnClosed?
    ensures IsRun(s, Received(s.pending)) && After(s, Received(s.pending)).listen.ListenExited?
    decreases s.pending
  {
    var e := if s.pending == 0 then ReceiveEnd else ReceiveError;
    var s' := Apply(s, e);
    if s.pending == 0 {
      assert [ReceiveEnd][1..] == [];
      assert IsRun(s', []) && After(s', []) == s';
    } else {
      assert s' == s.(pending := s.pending - 1);
      hide Enabled, Apply;
      ReceivesRest(s');
      assert Received(s.pending)[0] == ReceiveError && Received(s.pending)[1..] == Received(s.pending - 1);
    }
  }

  // As many messages as were left when the connection was closed are still received before listen
  // sees its end.
  lemma BufferIsEmptied(s: State, left: nat)
    requires s.fault.None? && s.listen.Receiving? && s.close.CancelDone?
    ensures IsRun(s, [CloseConn(left)] + Received(left))
    ensures After(s, [CloseConn(left)] + Received(left)).listen.ListenExited?
  {
    var s' := Apply(s, CloseConn(left));
    assert Enabled(s, CloseConn(left)) && s'.pending == left && s'.listen.Receiving? && s'.close.ConnClosed?;
    hide Enabled, Apply;
    ReceivesRest(s');
    assert ([CloseConn(left)] + Received(left))[1..] == Received(left);
  }

  // ---------- Nobody stops early, and Close waits for all ----------

  // listen stops only when the connection ends; echoLoop and echoTicker only when the client's
  // context is done.
  lemma NobodyStopsEarly(s: State, e: Event)
    requires Enabled(s, e)
    ensures Apply(s, e).listen.ListenExited? ==> s.listen.ListenExited? || e.ReceiveEnd?
    ensures Apply(s, e).echo.EchoExited? ==> s.echo.EchoExited? || CLIENT in s.cancelled
    ensures Apply(s, e).ticker.TickExited? ==> s.ticker.TickExited? || CLIENT in s.cancelled
  {
    hide Key, AllExited;
  }

  lemma WaitStays(s: State, e: Event)
    requires Enabled(s, e) && (s.close.CloseReturned? ==> AllExited(s))
    ensures Apply(s, e).close.CloseReturned? ==> AllExited(Apply(s, e))
  {
    hide Key, Ready, Consume;
  }

  lemma {:induction false} RunWaits(s: State, events: seq<Event>)
    requires IsRun(s, events) && (s.close.CloseReturned? ==> AllExited(s))
    ensures After(s, events).close.CloseReturned? ==> AllExited(After(s, events))
    decreases |events|
  {
    hide Enabled, Apply, AllExited;
    if events != [] {
      WaitStays(s, events[0]);
      RunWaits(Apply(s, events[0]), events[1..]);
    }
  }

  // When Close has returned, every background goroutine has exited.
  lemma CloseWaitsForAll(s: State)
    requires Reachable(s) && s.close.CloseReturned?
    ensures AllExited(s)
  {
    hide IsRun, After, AllExited;
    var interval, events :| IsRun(Initial(interval), events) && After(Initial(interval), events) == s;
    RunWaits(Initial(interval), events);
  }
}
