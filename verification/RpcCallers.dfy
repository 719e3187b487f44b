/**
 Callers of rpc and their contexts.  A call whose context is done can always return, on its own
 steps and those of the goroutine that holds the mutex.  Once listen has exited, a call that
 waits for its reply can return in no other way.
 */
module RpcCallers {
  import opened RpcProtocol
  import opened RpcInvariant
  import opened RpcSafety
  import opened RpcShutdown

  // ---------- A done context lets the call return ----------

  // A call whose context is done has its next step, or waits for the mutex whose holder has one.
  lemma CallerGoesOn(s: State, t: Call)
    requires Reachable(s) && t in s.rpcs && s.rpcs[t].ctx in s.cancelled && !s.rpcs[t].pc.Done?
    ensures Enabled(s, RpcNext(t, s.rpcs[t].pc)) || (!LockFree(s) && Enabled(s, ListenNext(s)))
  {
    hide Reachable, RpcOk, Key, DistinctIds, CallbacksOk, CallsOk;
    ReachableInv(s);
    if !LockFree(s) { HolderNeverBlocked(s); }
  }

  // A step of the call itself, or of the holder of the mutex.
  predicate Own(s: State, e: Event, t: Call) {
    (RpcEvent(e) && e.t == t) || (CallbackEvent(e) && !LockFree(s))
  }

  predicate OnlyOwn(s: State, events: seq<Event>, t: Call)
    requires IsRun(s, events)
    decreases |events|
  {
    events == [] || (Own(s, events[0], t) && OnlyOwn(Apply(s, events[0]), events[1..], t))
  }

  // How many steps the holder of the mutex needs to release it.
  function HolderLeft(l: Listen): nat {
    match l
    case Selecting(_, _, _) => 3
    case Deleting(_, _) => 2
    case Closing(_) => 1
    case _ => 0
  }

  function CallLeft(s: State, t: Call): nat
    requires t in s.rpcs
  {
    PcLeft(s.rpcs[t].pc) + HolderLeft(s.listen)
  }

  lemma OwnStep(s: State, t: Call) returns (e: Event)
    requires Reachable(s) && t in s.rpcs && s.rpcs[t].ctx in s.cancelled && !s.rpcs[t].pc.Done?
    ensures Enabled(s, e) && Own(s, e, t) && t in Apply(s, e).rpcs
    ensures Apply(s, e).rpcs[t].ctx in Apply(s, e).cancelled
    ensures CallLeft(Apply(s, e), t) < CallLeft(s, t)
  {
    CallerGoesOn(s, t);
    ReachableInv(s);
    if Enabled(s, RpcNext(t, s.rpcs[t].pc)) {
      e := RpcNext(t, s.rpcs[t].pc);
      CallStepDrops(s, e);
    } else {
      e := ListenNext(s);
      HolderStepDrops(s, e, t);
    }
  }

  lemma CallStepDrops(s: State, e: Event)
    requires Inv(s) && RpcEvent(e) && Enabled(s, e)
    ensures e.t in s.rpcs && e.t in Apply(s, e).rpcs && CallLeft(Apply(s, e), e.t) < CallLeft(s, e.t)
    ensures Apply(s, e).rpcs[e.t].ctx == s.rpcs[e.t].ctx && Apply(s, e).cancelled == s.cancelled
  {
    hide Key, RpcOk, CallsOk, DistinctIds, CallbacksOk, ListenOk;
    if e.Register? { RegisterOk(s, e.t); }
    RpcStepPc(s, e);
  }

  lemma HolderMoves(s: State, e: Event)
    requires !LockFree(s) && e == ListenNext(s) && Enabled(s, e)
    requires !e.CallbackDelete? ==> s.rpcs[s.listen.call].channel.closes == 0
    ensures HolderLeft(Apply(s, e).listen) < HolderLeft(s.listen) && Apply(s, e).cancelled == s.cancelled
  {
    hide Key;
  }

  lemma HolderStepDrops(s: State, e: Event, t: Call)
    requires Inv(s) && t in s.rpcs && !LockFree(s) && e == ListenNext(s) && Enabled(s, e)
    ensures CallbackEvent(e) && t in Apply(s, e).rpcs && CallLeft(Apply(s, e), t) < CallLeft(s, t)
    ensures Apply(s, e).rpcs[t].ctx == s.rpcs[t].ctx && Apply(s, e).cancelled == s.cancelled
  {
    DoneStaysInCallback(s, e, t);
    if !e.CallbackDelete? { NoFaultInCallback(s, e); }
    HolderMoves(s, e);
    hide Inv, Enabled, Apply, PcLeft, HolderLeft;
  }

  // A call whose context is done returns after at most nine steps, all of them its own or the
  // mutex holder's.
  lemma {:induction false} CancelledCallReturns(s: State, t: Call) returns (events: seq<Event>)
    requires Reachable(s) && t in s.rpcs && s.rpcs[t].ctx in s.cancelled
    ensures IsRun(s, events) && OnlyOwn(s, events, t) && |events| <= CallLeft(s, t) <= 9
    ensures t in After(s, events).rpcs && After(s, events).rpcs[t].pc.Done?
    decreases CallLeft(s, t)
  {
    assert CallLeft(s, t) <= 9;
    hide Reachable, Enabled, Apply, Own, CallLeft;
    if s.rpcs[t].pc.Done? {
      events := [];
    } else {
      var e := OwnStep(s, t);
      ReachableStep(s, e);
      events := CancelledCallReturns(Apply(s, e), t);
      assert ([e] + events)[1..] == events;
      events := [e] + events;
    }
  }

  // Cancelling its context is therefore enough to let any call of a user return.
  lemma CancelReturns(s: State, t: Call) returns (events: seq<Event>)
    requires Reachable(s) && t in s.rpcs && s.rpcs[t].ctx != CLIENT
    ensures IsRun(s, [CancelContext(s.rpcs[t].ctx)] + events) && |events| <= 9
    ensures var s' := After(s, [CancelContext(s.rpcs[t].ctx)] + events);
      t in s'.rpcs && s'.rpcs[t].pc.Done?
  {
    ReachableInv(s);
    var e := CancelContext(s.rpcs[t].ctx);
    assert Enabled(s, e) && Apply(s, e) == s.(cancelled := s.cancelled + {s.rpcs[t].ctx}) by {
      hide CallsOk, DistinctIds, CallbacksOk, ListenOk;
    }
    hide Reachable, Inv, Enabled, Apply;
    ReachableStep(s, e);
    events := CancelledCallReturns(Apply(s, e), t);
    assert ([e] + events)[1..] == events;
  }

  // ---------- Without listen, only the context ends the wait ----------

  // The call waits for its reply: its channel is not ready and its context not done.
  predicate AwaitsReply(s: State, t: Call) {
    At(s, t, Waiting) && !Ready(s.rpcs[t].channel) && s.rpcs[t].ctx !in s.cancelled
  }

  predicate Orphan(s: State, t: Call) {
    s.listen.ListenExited? && AwaitsReply(s, t)
  }

  predicate Cancels(e: Event, ctx: Context) {
    e == CancelContext(ctx) || (e.CloseCancel? && ctx == CLIENT)
  }

  lemma RpcKeepsControl(s: State, e: Event)
    requires RpcEvent(e) && Enabled(s, e) && (e.Register? ==> !InMap(s, s.rpcs[e.t]))
    ensures Apply(s, e).cancelled == s.cancelled && Apply(s, e).fault == s.fault
  {
    hide Key;
  }

  lemma OrphanInRpc(s: State, e: Event, t: Call)
    requires Inv(s) && Orphan(s, t) && Enabled(s, e) && RpcEvent(e)
    ensures Orphan(Apply(s, e), t) && Apply(s, e).rpcs[t] == s.rpcs[t] && Apply(s, e).echo == s.echo
  {
    KeyIsNew(s, e);
    WaitsForReply(s, e, t);
    hide Inv, Enabled, Apply, Ready, PcLeft, InMap;
    RpcStepPc(s, e);
    RpcKeepsControl(s, e);
  }

  lemma WaitsForReply(s: State, e: Event, t: Call)
    requires AwaitsReply(s, t) && Enabled(s, e) && RpcEvent(e)
    ensures e.t != t
  {
    hide Key;
  }

  lemma OrphanStays(s: State, e: Event, t: Call)
    requires Inv(s) && Orphan(s, t) && Enabled(s, e) && !Cancels(e, s.rpcs[t].ctx)
    ensures Orphan(Apply(s, e), t) && Apply(s, e).rpcs[t] == s.rpcs[t]
    ensures s.echo == EchoCalling(t) ==> Apply(s, e).echo == s.echo
  {
    if RpcEvent(e) {
      OrphanInRpc(s, e, t);
    } else {
      hide Inv, Key, Ready;
    }
  }

  // A call that still waits when listen has exited waits until its own context is done,
  // whatever else happens; and then it can return.
  lemma {:induction false} OnlyContextEndsWait(s: State, events: seq<Event>, t: Call)
    requires Reachable(s) && Orphan(s, t) && IsRun(s, events)
    requires forall e :: e in events ==> !Cancels(e, s.rpcs[t].ctx)
    ensures Orphan(After(s, events), t)
    ensures s.echo == EchoCalling(t) ==> After(s, events).echo == s.echo
    decreases |events|
  {
    hide Reachable, Inv, Enabled, Apply;
    if events != [] {
      ReachableInv(s);
      OrphanStays(s, events[0], t);
      ReachableStep(s, events[0]);
      OnlyContextEndsWait(Apply(s, events[0]), events[1..], t);
    }
  }
}
