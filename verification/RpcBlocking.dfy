/**
 Before Close, the client can block itself: listen hands every echo request of the server to
 echoLoop, and echoLoop waits for a reply that only listen can deliver.  listen may be waiting
 for echoLoop, or may have exited because the server ended the connection.  This module says
 exactly when the two are without a step, that both situations are reached, and that only
 Close ends them.
 */
module RpcBlocking {
  import opened RpcProtocol
  import opened RpcInvariant
  import opened RpcSafety
  import opened RpcShutdown
  import opened RpcCallers

  // echoLoop's own rpc waits for its reply.
  predicate EchoAwaits(s: State) {
    s.fault.None? && s.echo.EchoCalling? && AwaitsReply(s, s.echo.call) && s.rpcs[s.echo.call].ctx == CLIENT
  }

  // Meanwhile listen offers the next echo request.
  predicate Stuck(s: State) { EchoAwaits(s) && s.listen.EchoOffer? }

  // Meanwhile listen has exited.
  predicate Orphaned(s: State) { EchoAwaits(s) && s.listen.ListenExited? }

  // listen has exited, and echoLoop as well, or nobody asks it for an echo.
  predicate AtRest(s: State) {
    && s.fault.None? && s.listen.ListenExited?
    && (s.echo.EchoExited? || (s.echo.EchoIdle? && !s.ticker.TickOffer? && CLIENT !in s.cancelled))
  }

  // A step of listen, of echoLoop or of the rpc echoLoop waits for.
  predicate EchoGroup(s: State, e: Event) {
    Background(s, e) && !(e.TickFire? || e.TickCheck? || e.TickStop?)
  }

  lemma NoStep(s: State, e: Event)
    requires (Stuck(s) || Orphaned(s) || AtRest(s)) && EchoGroup(s, e)
    ensures !Enabled(s, e)
  {
  }

  lemma SomeStep(s: State)
    requires Reachable(s) && !Stuck(s) && !Orphaned(s) && !AtRest(s)
    ensures exists e :: EchoGroup(s, e) && Enabled(s, e)
  {
    hide Reachable, RpcOk, Key, DistinctIds, CallbacksOk, CallsOk;
    ReachableInv(s);
    var t := UnusedCall(s.rpcs.Keys);
    if s.listen.EchoOffer? {
      OfferStep(s, t);
    } else if s.listen.ListenExited? {
      EchoStep(s, t);
    } else {
      var e := ListenStep(s);
    }
  }

  lemma ListenStep(s: State) returns (e: Event)
    requires Reachable(s) && !s.listen.ListenExited? && !s.listen.EchoOffer? && s.fault.None?
    ensures EchoGroup(s, e) && Enabled(s, e)
  {
    hide Reachable, Key;
    if !LockFree(s) { HolderNeverBlocked(s); }
    e := if s.listen.Receiving? && (ConnOpen(s) || s.pending == 0) then ReceiveEnd else ListenNext(s);
  }

  // What echoLoop does next, by itself or with the ticker.
  function EchoChoice(s: State, unused: Call): Event {
    if s.echo.EchoIdle? && s.ticker.TickOffer? then Handoff(true)
    else if s.echo.EchoCalling? && At(s, s.echo.call, Waiting) && Ready(s.rpcs[s.echo.call].channel)
    then TakeChannel(s.echo.call)
    else EchoNext(s, unused)
  }

  lemma OfferStep(s: State, unused: Call)
    requires ControlOk(s) && s.listen.EchoOffer? && !Stuck(s) && unused !in s.rpcs
    ensures exists e :: EchoGroup(s, e) && Enabled(s, e)
  {
    hide Key;
    var e := if CLIENT in s.cancelled then OfferAbandoned
             else if s.echo.EchoIdle? then Handoff(false)
             else EchoChoice(s, unused);
    assert EchoGroup(s, e) && Enabled(s, e);
  }

  lemma EchoStep(s: State, unused: Call)
    requires ControlOk(s) && s.listen.ListenExited? && !Orphaned(s) && !AtRest(s) && unused !in s.rpcs
    ensures exists e :: EchoGroup(s, e) && Enabled(s, e)
  {
    hide Key;
    var e := EchoChoice(s, unused);
    assert EchoGroup(s, e) && Enabled(s, e);
  }

  // In every reachable state: listen and echoLoop are without a step exactly if echoLoop waits
  // for a reply while listen offers it an echo request or has exited, or if listen has exited
  // and echoLoop has nothing to do.
  lemma BlockedExactly(s: State)
    requires Reachable(s)
    ensures (forall e :: EchoGroup(s, e) ==> !Enabled(s, e)) <==> Stuck(s) || Orphaned(s) || AtRest(s)
  {
    hide Reachable, EchoGroup, Enabled, Stuck, Orphaned, AtRest;
    if Stuck(s) || Orphaned(s) || AtRest(s) {
      forall e | EchoGroup(s, e) ensures !Enabled(s, e) { NoStep(s, e); }
    } else {
      SomeStep(s);
    }
  }

  // The first echo call is sent and waits for its reply.
  lemma EchoSent() returns (s: State)
    ensures Reachable(s) && EchoAwaits(s) && s.listen.Receiving? && s.close.NotClosing?
  {
    s := EchoStarts();
    hide Reachable, IsRun, After, Initial;
    s := Extend(s, Check(0));
    s := Extend(s, Number(0));
    s := Registers(s);
    s := Extend(s, Send(0, true));
  }

  // A second echo request of the server, received before the reply to the first echo, gets
  // the client there.
  lemma StuckIsReachable() returns (s: State)
    ensures Reachable(s) && Stuck(s) && s.close.NotClosing?
  {
    s := EchoSent();
    hide Reachable;
    s := Extend(s, ReceiveEcho);
  }

  // So does a server that ends the connection instead of replying.
  lemma OrphanedIsReachable() returns (s: State)
    ensures Reachable(s) && Orphaned(s) && s.close.NotClosing?
  {
    s := EchoSent();
    hide Reachable;
    s := Extend(s, ReceiveEnd);
  }

  // The first echo request makes echoLoop start an rpc.
  lemma EchoStarts() returns (s: State)
    ensures Reachable(s) && s.fault.None? && s.close.NotClosing? && s.cancelled == {} && s.callbacks == map[]
    ensures s.listen.Receiving? && s.echo == EchoCalling(0) && s.rpcs == map[0 := NewRpc(CLIENT)]
  {
    s := Initial(false);
    InitialReachable(false);
    hide Reachable, IsRun, After;
    s := Extend(s, ReceiveEcho);
    assert s == Initial(false).(listen := EchoOffer);
    s := Extend(s, Handoff(false));
    s := Extend(s, EchoCheck(0));
  }

  lemma InitialReachable(interval: bool)
    ensures Reachable(Initial(interval))
  {
    assert IsRun(Initial(interval), []) && After(Initial(interval), []) == Initial(interval);
  }

  lemma Registers(s: State) returns (s': State)
    requires Reachable(s) && Enabled(s, Register(0)) && s.callbacks == map[]
    ensures Reachable(s')
      && s' == s.(callbacks := s'.callbacks, rpcs := s.rpcs[0 := s.rpcs[0].(regAt := |s.log|, pc := Sending)])
  {
    hide Reachable, Key;
    s' := Extend(s, Register(0));
  }

  lemma Extend(s: State, e: Event) returns (s': State)
    requires Reachable(s) && Enabled(s, e)
    ensures s' == Apply(s, e) && Reachable(s')
  {
    s' := Apply(s, e);
    ReachableStep(s, e);
  }

  lemma StuckStays(s: State, e: Event)
    requires Inv(s) && Stuck(s) && Enabled(s, e) && !e.CloseCancel?
    ensures Stuck(Apply(s, e))
  {
    hide Key, RpcOk, DistinctIds, CallbacksOk;
    if RpcEvent(e) {
      StuckInRpc(s, e);
    } else {
      hide CallsOk, ListenOk;
    }
  }

  lemma StuckInRpc(s: State, e: Event)
    requires Inv(s) && Stuck(s) && Enabled(s, e) && RpcEvent(e)
    ensures Stuck(Apply(s, e))
  {
    hide Key, RpcOk, DistinctIds, CallbacksOk;
    if EchoGroup(s, e) { NoStep(s, e); }
    if e.Register? { RegisterOk(s, e.t); }
    RpcStepPc(s, e);
    RpcKeepsControl(s, e);
    hide Enabled, CallsOk, ListenOk;
  }

  // Nothing but Close gets the client out, whatever else happens.
  lemma {:induction false} OnlyCloseUnblocks(s: State, events: seq<Event>)
    requires Reachable(s) && (Stuck(s) || Orphaned(s)) && IsRun(s, events) && CloseCancel !in events
    ensures Stuck(s) ==> Stuck(After(s, events))
    ensures Orphaned(s) ==> Orphaned(After(s, events))
    decreases |events|
  {
    hide Reachable, Inv, Stuck, Orphaned, Enabled, Apply;
    if events != [] {
      ReachableInv(s);
      if Stuck(s) { StuckStays(s, events[0]); }
      if Orphaned(s) { OrphanedStays(s, events[0]); }
      ReachableStep(s, events[0]);
      OnlyCloseUnblocks(Apply(s, events[0]), events[1..]);
    }
  }

  lemma OrphanedStays(s: State, e: Event)
    requires Inv(s) && Orphaned(s) && Enabled(s, e) && !e.CloseCancel?
    ensures Orphaned(Apply(s, e))
  {
    assert e != CancelContext(CLIENT);
    OrphanStays(s, e, s.echo.call);
    StepKeeps(s, e);
    hide Enabled, Apply, CallsOk, DistinctIds, CallbacksOk, ListenOk, Ready;
  }

  // Cancelling the client's context, the first step of Close, gives echoLoop its step back.
  lemma CloseUnblocks(s: State)
    requires (Stuck(s) || Orphaned(s)) && s.close.NotClosing?
    ensures Enabled(s, CloseCancel)
    ensures Stuck(s) ==> Enabled(Apply(s, CloseCancel), OfferAbandoned)
    ensures Enabled(Apply(s, CloseCancel), TakeCancel(s.echo.call))
  {
  }
}
