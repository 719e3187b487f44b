/** What holds in every run of the client, and what it means for the callers of rpc. */
module RpcSafety {
  import opened RpcProtocol
  import opened RpcInvariant

  // ---------- Every step keeps the invariant ----------

  predicate RpcEvent(e: Event) {
    e.Check? || e.Number? || e.Register? || e.Send? || e.TakeCancel? || e.TakeChannel? || e.Cleanup?
  }

  lemma RpcStepKeeps(s: State, e: Event)
    requires Inv(s) && RpcEvent(e) && Enabled(s, e)
    ensures Inv(Apply(s, e))
  {
    hide Inv, SetPc, DoTakeChannel, DoNumber, DoRegister, DoCleanup;
    match e
    case Check(t) =>
      assert PcStep(s.rpcs[t], if s.rpcs[t].ctx in s.cancelled then Done(NotSent) else Checked, s.cancelled);
      PcKeeps(s, t, if s.rpcs[t].ctx in s.cancelled then Done(NotSent) else Checked);
    case Number(t) => NumberKeeps(s, t);
    case Register(t) => RegisterKeeps(s, t);
    case Send(t, ok) => PcKeeps(s, t, if ok then Waiting else Returning(SendFailed(!ConnOpen(s))));
    case TakeCancel(t) => PcKeeps(s, t, Returning(Cancelled));
    case TakeChannel(t) => TakeChannelKeeps(s, t);
    case Cleanup(t) => CleanupKeeps(s, t);
  }

  predicate CallbackEvent(e: Event) {
    e.Lock? || e.CallbackSend? || e.CallbackSkip? || e.CallbackDelete? || e.CallbackClose?
  }

  lemma CallbackStepKeeps(s: State, e: Event)
    requires Inv(s) && CallbackEvent(e) && Enabled(s, e)
    ensures Inv(Apply(s, e))
  {
    hide Inv, DoLock, DoCallbackSend, DoCallbackSkip, DoCallbackDelete, DoCallbackClose;
    match e
    case Lock => LockKeeps(s);
    case CallbackSend => CallbackSendKeeps(s);
    case CallbackSkip => CallbackSkipKeeps(s);
    case CallbackDelete => CallbackDeleteKeeps(s);
    case CallbackClose => CallbackCloseKeeps(s);
  }

  predicate ListenEvent(e: Event) {
    e.ReceiveMessage? || e.ReceiveEcho? || e.ReceiveError? || e.ReceiveEnd? || e.OfferAbandoned? || e.Handoff?
  }

  lemma ListenStepKeeps(s: State, e: Event)
    requires Inv(s) && ListenEvent(e) && Enabled(s, e)
    ensures Inv(Apply(s, e))
  {
    hide CallsOk, DistinctIds, CallbacksOk, ListenOk;
    if e == Handoff(true) {
      ControlFrameLocked(s, Apply(s, e));
    } else {
      ControlFrame(s, Apply(s, e));
    }
  }

  predicate ControlEvent(e: Event) {
    e.CancelContext? || e.TickFire? || e.TickCheck? || e.TickStop? || e.EchoStop? || e.EchoReport?
    || e.CloseCancel? || e.CloseConn? || e.CloseReturn?
  }

  lemma ControlStepKeeps(s: State, e: Event)
    requires Inv(s) && ControlEvent(e) && Enabled(s, e)
    ensures Inv(Apply(s, e))
  {
    hide CallsOk, DistinctIds, CallbacksOk, ListenOk;
    ControlFrameLocked(s, Apply(s, e));
  }

  lemma StartStepKeeps(s: State, e: Event)
    requires Inv(s) && (e.Begin? || e.EchoCheck?) && Enabled(s, e)
    ensures Inv(Apply(s, e))
  {
    hide CallsOk, DistinctIds, CallbacksOk, ListenOk, NewRpc;
    if e.Begin? {
      BeginKeeps(s, e.t, e.ctx);
    } else if CLIENT in s.cancelled {
      ControlFrameLocked(s, Apply(s, e));
    } else {
      BeginKeeps(s, e.t, CLIENT);
      assert NewRpc(CLIENT).ctx == CLIENT by { NewContext(CLIENT); }
      ControlFrameLocked(s.(rpcs := s.rpcs[e.t := NewRpc(CLIENT)]), Apply(s, e));
    }
  }

  lemma NewContext(ctx: Context)
    ensures NewRpc(ctx).ctx == ctx
  {
  }

  lemma StepKeeps(s: State, e: Event)
    requires Inv(s) && Enabled(s, e)
    ensures Inv(Apply(s, e))
  {
    hide Inv, Enabled, Apply;
    if RpcEvent(e) { RpcStepKeeps(s, e); }
    else if CallbackEvent(e) { CallbackStepKeeps(s, e); }
    else if ListenEvent(e) { ListenStepKeeps(s, e); }
    else if ControlEvent(e) { ControlStepKeeps(s, e); }
    else { StartStepKeeps(s, e); }
  }

  lemma InitialInv(interval: bool)
    ensures Inv(Initial(interval))
  {
  }

  lemma {:induction false} RunKeeps(s: State, events: seq<Event>)
    requires Inv(s) && IsRun(s, events)
    ensures Inv(After(s, events))
    decreases |events|
  {
    hide Inv, Enabled, Apply;
    if events != [] {
      StepKeeps(s, events[0]);
      RunKeeps(Apply(s, events[0]), events[1..]);
    }
  }

  lemma ReachableInv(s: State)
    requires Reachable(s)
    ensures Inv(s)
  {
    hide Inv, IsRun, After, Initial;
    var interval, events :| IsRun(Initial(interval), events) && After(Initial(interval), events) == s;
    InitialInv(interval);
    RunKeeps(Initial(interval), events);
  }

  // ---------- Channels and the mutex ----------

  // No step panics: no ID is registered twice, nothing is sent on a closed channel, and no
  // channel is closed twice.  No channel is sent to twice either.
  lemma ChannelSafety(s: State, e: Event, t: Call)
    requires Reachable(s) && Enabled(s, e) && t in Apply(s, e).rpcs
    ensures Apply(s, e).fault.None?
    ensures var c := Apply(s, e).rpcs[t].channel; c.sends <= 1 && c.closes <= 1
  {
    hide Enabled, Apply, Reachable;
    var s' := Apply(s, e);
    ReachableInv(s);
    StepKeeps(s, e);
    assert CallOk(s', t);
    ChannelOnce(s'.rpcs[t], InMap(s', s'.rpcs[t]), PhaseOf(s'.listen, t), s'.log, s'.cancelled, s'.nextId);
  }

  lemma ChannelOnce(r: Rpc, inMap: bool, phase: Phase, log: seq<Message>, c: set<Context>, n: nat)
    requires RpcOk(r, inMap, phase, log, c, n)
    ensures r.channel.sends <= 1 && r.channel.closes <= 1
  {
    hide Key, NoneBefore;
  }

  // While the mutex is held between steps, its holder can go on: the send in doCallback
  // always finds room, so the mutex is never held by a blocked goroutine.
  lemma HolderNeverBlocked(s: State)
    requires Reachable(s) && !LockFree(s)
    ensures match s.listen
            case Selecting(_, _, _) => Enabled(s, CallbackSend)
            case Deleting(_, _) => Enabled(s, CallbackDelete)
            case _ => Enabled(s, CallbackClose)
  {
    hide Reachable, RpcOk, Key, DistinctIds, CallbacksOk;
    ReachableInv(s);
    assert CallOk(s, s.listen.call);
    if s.listen.Selecting? { RoomInChannel(s, s.listen.call); }
  }

  lemma RoomInChannel(s: State, t: Call)
    requires CallOk(s, t) && s.listen.Selecting? && s.listen.call == t
    ensures s.rpcs[t].channel == FRESH
  {
    hide Key, NoneBefore;
  }

  // ---------- Responses ----------

  // A call that completes with a message got the first message with its ID that was handled
  // after it registered.
  lemma ResponseRouting(s: State, t: Call, m: nat)
    requires Reachable(s) && At(s, t, Done(Got(m)))
    ensures var r := s.rpcs[t];
      && r.regAt <= m < |s.log|
      && s.log[m].id == Key(r.id)
      && forall j :: r.regAt <= j < m ==> s.log[j].id != Key(r.id)
  {
    hide Reachable, Key;
    ReachableInv(s);
    assert CallOk(s, t);
  }

  // No message reaches two calls.
  lemma OneReceiver(s: State, t: Call, u: Call, m: nat)
    requires Reachable(s) && At(s, t, Done(Got(m))) && At(s, u, Done(Got(m)))
    ensures t == u
  {
    hide Reachable, RpcOk, Key;
    ReachableInv(s);
    ResponseRouting(s, t, m);
    ResponseRouting(s, u, m);
    IsNumbered(s, t, m);
    if t != u { KeysDiffer(s, t, u); }
  }

  lemma IsNumbered(s: State, t: Call, m: nat)
    requires CallsOk(s) && At(s, t, Done(Got(m)))
    ensures Numbered(s.rpcs[t])
  {
    hide Key;
    assert CallOk(s, t);
  }

  // The error value rpc returns is nil without a message: ctx.Err() of a live context.
  predicate NilWithoutMessage(o: Outcome) { o.Woken? && !o.ctxDone }

  // Finding the channel closed and empty implies that the context is done.
  lemma NoSilentSuccess(s: State, t: Call, o: Outcome)
    requires Reachable(s) && (At(s, t, Done(o)) || At(s, t, Returning(o)))
    ensures !NilWithoutMessage(o)
    ensures o.Cancelled? || o.NotSent? || o.Woken? ==> s.rpcs[t].ctx in s.cancelled
  {
    hide Reachable, Key;
    ReachableInv(s);
    assert CallOk(s, t);
  }

  // No wakeup is lost: a waiting call is still registered, or listen is serving it, or its
  // channel is ready.
  lemma NoLostWakeup(s: State, t: Call)
    requires Reachable(s) && At(s, t, Waiting)
    ensures InMap(s, s.rpcs[t]) || !PhaseOf(s.listen, t).Idle? || Enabled(s, TakeChannel(t))
  {
    hide Reachable, Key;
    ReachableInv(s);
    assert CallOk(s, t);
  }

  // ---------- No callback is leaked ----------

  predicate SameCall(s: State, s': State, t: Call) {
    && t in s.rpcs && t in s'.rpcs
    && s'.rpcs[t].pc == s.rpcs[t].pc && s'.rpcs[t].id == s.rpcs[t].id && s'.rpcs[t].ctx == s.rpcs[t].ctx
  }

  lemma DoneStays(s: State, e: Event, t: Call)
    requires Enabled(s, e) && t in s.rpcs && s.rpcs[t].pc.Done?
    ensures SameCall(s, Apply(s, e), t)
  {
    hide Key, LockFree, ConnOpen, Ready, AllExited, Consume, CanReceive;
    if CallbackEvent(e) { DoneStaysInCallback(s, e, t); }
  }

  lemma DoneStaysInCallback(s: State, e: Event, t: Call)
    requires CallbackEvent(e) && Enabled(s, e) && t in s.rpcs
    ensures SameCall(s, Apply(s, e), t)
  {
    hide Key;
  }

  lemma {:induction false} DoneForever(s: State, events: seq<Event>, t: Call)
    requires IsRun(s, events) && t in s.rpcs && s.rpcs[t].pc.Done?
    ensures t in After(s, events).rpcs
    ensures After(s, events).rpcs[t].pc == s.rpcs[t].pc && After(s, events).rpcs[t].id == s.rpcs[t].id
    decreases |events|
  {
    hide Enabled, Apply;
    if events != [] {
      DoneStays(s, events[0], t);
      DoneForever(Apply(s, events[0]), events[1..], t);
    }
  }

  // After rpc has returned, its ID is never in the map again.
  lemma NoLeak(s: State, events: seq<Event>, t: Call)
    requires Reachable(s) && IsRun(s, events)
    requires t in s.rpcs && s.rpcs[t].pc.Done? && Numbered(s.rpcs[t])
    ensures Key(s.rpcs[t].id) !in After(s, events).callbacks
  {
    hide Reachable, IsRun, After, Inv, Key;
    ReachableInv(s);
    RunKeeps(s, events);
    DoneForever(s, events, t);
    NotInMap(After(s, events), t);
  }

  lemma NotInMap(s: State, t: Call)
    requires Inv(s) && t in s.rpcs && s.rpcs[t].pc.Done? && Numbered(s.rpcs[t])
    ensures Key(s.rpcs[t].id) !in s.callbacks
  {
    hide Key;
    assert CallOk(s, t);
  }

  ghost function LiveCalls(s: State): set<Call> {
    set t | t in s.rpcs && Live(s.rpcs[t])
  }

  // Stats counts at most the calls in flight; with none in flight it counts zero.
  lemma CallbacksBounded(s: State)
    requires Reachable(s)
    ensures |s.callbacks| <= |LiveCalls(s)|
  {
    hide Reachable, LiveCalls, Inv;
    ReachableInv(s);
    forall k | k in s.callbacks ensures s.callbacks[k].owner in LiveCalls(s) {
      OwnerLive(s, k);
    }
    OwnersDistinct(s);
    CountOwners(s.callbacks, s.callbacks.Keys, LiveCalls(s));
  }

  lemma OwnerLive(s: State, k: string)
    requires Inv(s) && k in s.callbacks
    ensures s.callbacks[k].owner in LiveCalls(s)
  {
    hide Key;
    assert CallOk(s, s.callbacks[k].owner);
  }

  lemma OwnersDistinct(s: State)
    requires Inv(s)
    ensures forall k, k' :: k in s.callbacks && k' in s.callbacks && k != k' ==>
      s.callbacks[k].owner != s.callbacks[k'].owner
  {
    hide Key, CallsOk, DistinctIds;
  }

  lemma {:induction false} CountOwners(callbacks: map<string, Callback>, ks: set<string>, calls: set<Call>)
    requires ks <= callbacks.Keys
    requires forall k :: k in ks ==> callbacks[k].owner in calls
    requires forall k, k' :: k in callbacks && k' in callbacks && k != k' ==> callbacks[k].owner != callbacks[k'].owner
    ensures |ks| <= |calls|
    decreases |ks|
  {
    if ks != {} {
      var k :| k in ks;
      CountOwners(callbacks, ks - {k}, calls - {callbacks[k].owner});
    }
  }
}
