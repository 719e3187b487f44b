/**
 What a caller of rpc gets.  A reply that is handled while the call is registered reaches it; a
 call ends without its reply only if its Send failed or its context is done; and from every
 state in which listen receives, a new call can run to its reply.
 */
module RpcDelivery {
  import opened Wrappers
  import opened RpcProtocol
  import opened RpcInvariant
  import opened RpcSafety
  import opened RpcShutdown
  import opened RpcClient

  // ---------- Runs, step by step ----------

  lemma {:induction false} RunAppend(s: State, a: seq<Event>, b: seq<Event>)
    requires IsRun(s, a) && IsRun(After(s, a), b)
    ensures IsRun(s, a + b) && After(s, a + b) == After(After(s, a), b)
    decreases |a|
  {
    hide Enabled, Apply;
    if a == [] {
      assert a + b == b;
    } else {
      RunAppend(Apply(s, a[0]), a[1..], b);
      assert (a + b)[1..] == a[1..] + b;
    }
  }

  lemma {:induction false} ReachableRun(s: State, events: seq<Event>)
    requires Reachable(s) && IsRun(s, events)
    ensures Reachable(After(s, events))
    decreases |events|
  {
    hide Reachable, Enabled, Apply;
    if events != [] {
      ReachableStep(s, events[0]);
      ReachableRun(Apply(s, events[0]), events[1..]);
    }
  }

  // ---------- A reply reaches its call ----------

  // The steps of doCallback on a reply whose callback is there, and those of the call behind
  // them.
  function Delivery(t: Call): seq<Event> {
    [Lock, CallbackSend, CallbackDelete, CallbackClose] + [TakeChannel(t), Cleanup(t)]
  }

  // A waiting call whose reply listen is about to handle gets that very message.
  lemma ReplyArrives(s: State, t: Call)
    requires Reachable(s) && At(s, t, Waiting) && InMap(s, s.rpcs[t])
    requires s.listen.Dispatching? && s.listen.msg.id == Key(s.rpcs[t].id)
    ensures IsRun(s, Delivery(t)) && At(After(s, Delivery(t)), t, Done(Got(|s.log|)))
    ensures After(s, Delivery(t)).log == s.log + [s.listen.msg]
    ensures After(s, Delivery(t)).callbacks == s.callbacks - {Key(s.rpcs[t].id)}
    ensures After(s, Delivery(t)).listen.Receiving?
  {
    ReachableInv(s);
    OwnerIsUnique(s, t);
    OwnerWaits(s, s.listen.msg.id);
    hide Reachable, Key, CallsOk, DistinctIds, CallbacksOk, IsRun, After;
    var run := CallbackRun(s, false);
    CallbackRunIs(s, false);
    var s1 := After(s, run);
    Served(s, s1, t);
    TakesReply(s1, t, |s.log|);
    RunAppend(s, run, [TakeChannel(t), Cleanup(t)]);
  }

  lemma Served(s: State, s1: State, t: Call)
    requires s.listen.Dispatching? && s.fault.None? && At(s, t, Waiting)
    requires s.listen.msg.id in s.callbacks && s.callbacks[s.listen.msg.id].owner == t
    requires s1 == AfterCallback(s, false)
    ensures At(s1, t, Waiting) && s1.rpcs[t].channel.buffer == Some(|s.log|) && s1.rpcs[t].id == s.rpcs[t].id
    ensures s1.listen.Receiving? && s1.fault.None? && s1.log == s.log + [s.listen.msg]
    ensures s1.callbacks == s.callbacks - {s.listen.msg.id}
  {
  }

  lemma TakesReply(s: State, t: Call, m: nat)
    requires s.fault.None? && s.listen.Receiving? && At(s, t, Waiting) && s.rpcs[t].channel.buffer == Some(m)
    ensures IsRun(s, [TakeChannel(t), Cleanup(t)])
    ensures var s' := After(s, [TakeChannel(t), Cleanup(t)]);
      && At(s', t, Done(Got(m))) && s'.log == s.log && s'.listen.Receiving?
      && s'.callbacks == s.callbacks - {Key(s.rpcs[t].id)}
  {
    hide Key;
    var s1 := Apply(s, TakeChannel(t));
    assert At(s1, t, Returning(Got(m)));
    assert Enabled(s1, Cleanup(t));
    hide IsRun, After;
    RunOne(s1, Cleanup(t));
    RunNext(s, TakeChannel(t), [Cleanup(t)]);
    assert [TakeChannel(t)] + [Cleanup(t)] == [TakeChannel(t), Cleanup(t)];
  }

  // ---------- Without its reply, a call ends only with a reason ----------

  // Send has succeeded.
  predicate Sent(pc: Pc) {
    match pc
    case Waiting => true
    case Returning(o) => !o.SendFailed? && !o.NotSent?
    case Done(o) => !o.SendFailed? && !o.NotSent?
    case _ => false
  }

  lemma SentStays(s: State, e: Event, t: Call)
    requires Enabled(s, e) && t in s.rpcs && Sent(s.rpcs[t].pc)
    ensures t in Apply(s, e).rpcs && Sent(Apply(s, e).rpcs[t].pc) && Apply(s, e).rpcs[t].ctx == s.rpcs[t].ctx
  {
    hide Key, LockFree, ConnOpen, Ready, AllExited, Consume, CanReceive;
    if CallbackEvent(e) { DoneStaysInCallback(s, e, t); }
  }

  lemma {:induction false} SentForever(s: State, events: seq<Event>, t: Call)
    requires IsRun(s, events) && t in s.rpcs && Sent(s.rpcs[t].pc)
    ensures t in After(s, events).rpcs && Sent(After(s, events).rpcs[t].pc)
    ensures After(s, events).rpcs[t].ctx == s.rpcs[t].ctx
    decreases |events|
  {
    hide Enabled, Apply, Sent;
    if events != [] {
      SentStays(s, events[0], t);
      SentForever(Apply(s, events[0]), events[1..], t);
    }
  }

  // A call whose Send succeeded and whose context is not done ends with a message, if it ends.
  lemma OnlyReplyEnds(s: State, events: seq<Event>, t: Call)
    requires Reachable(s) && At(s, t, Waiting) && IsRun(s, events)
    requires s.rpcs[t].ctx !in After(s, events).cancelled
    ensures t in After(s, events).rpcs
    ensures var pc := After(s, events).rpcs[t].pc;
      pc.Waiting? || (pc.Returning? && pc.outcome.Got?) || (pc.Done? && pc.outcome.Got?)
  {
    SentForever(s, events, t);
    ReachableRun(s, events);
    hide Reachable, IsRun, After;
    var s' := After(s, events);
    var pc := s'.rpcs[t].pc;
    if pc.Returning? || pc.Done? { NoSilentSuccess(s', t, pc.outcome); }
  }

  // A call that begins under a done context goes no further than its first check: it is never
  // sent and never registered.
  lemma {:induction false} DoneContextIsNotSent(s: State, events: seq<Event>, t: Call)
    requires IsRun(s, events) && t in s.rpcs && s.rpcs[t].ctx in s.cancelled
    requires s.rpcs[t].pc.Start? || s.rpcs[t].pc == Done(NotSent)
    ensures t in After(s, events).rpcs
    ensures After(s, events).rpcs[t].pc.Start? || After(s, events).rpcs[t].pc == Done(NotSent)
    decreases |events|
  {
    hide Enabled, Apply;
    if events != [] {
      NotSentStays(s, events[0], t);
      DoneContextIsNotSent(Apply(s, events[0]), events[1..], t);
    }
  }

  lemma NotSentStays(s: State, e: Event, t: Call)
    requires Enabled(s, e) && t in s.rpcs && s.rpcs[t].ctx in s.cancelled
    requires s.rpcs[t].pc.Start? || s.rpcs[t].pc == Done(NotSent)
    ensures var s' := Apply(s, e);
      && t in s'.rpcs && s'.rpcs[t].ctx in s'.cancelled
      && (s'.rpcs[t].pc.Start? || s'.rpcs[t].pc == Done(NotSent))
  {
    hide Key, LockFree, ConnOpen, Ready, AllExited, Consume, CanReceive;
    if CallbackEvent(e) { DoneStaysInCallback(s, e, t); }
  }

  // No request leaves once Close has closed the connection.
  lemma SentWhileOpen(s: State, e: Event, t: Call)
    requires Enabled(s, e) && t in s.rpcs && t in Apply(s, e).rpcs
    requires !s.rpcs[t].pc.Waiting? && Apply(s, e).rpcs[t].pc.Waiting?
    ensures ConnOpen(s)
  {
    hide Key, LockFree, Ready, AllExited, Consume, CanReceive;
    if CallbackEvent(e) { DoneStaysInCallback(s, e, t); }
  }

  // ---------- A call from beginning to end ----------

  // What the caller does up to the wait for the reply, and listen up to doCallback.
  function Request(t: Call, ctx: Context, reply: Message): seq<Event> {
    [Begin(t, ctx), Check(t), Number(t)] + [Register(t), Send(t, true), ReceiveMessage(reply)]
  }

  lemma Numbers(s: State, t: Call, ctx: Context)
    requires s.fault.None? && t !in s.rpcs && ctx != CLIENT && ctx !in s.cancelled
    ensures IsRun(s, [Begin(t, ctx), Check(t), Number(t)])
    ensures After(s, [Begin(t, ctx), Check(t), Number(t)]) ==
      s.(nextId := s.nextId + 1, rpcs := s.rpcs[t := Rpc(ctx, s.nextId + 1, 0, Registering, FRESH)])
  {
    var s1 := Apply(s, Begin(t, ctx));
    var s2 := Apply(s1, Check(t));
    assert s2.rpcs == s.rpcs[t := Rpc(ctx, 0, 0, Checked, FRESH)];
    var s3 := Apply(s2, Number(t));
    assert s3.rpcs == s.rpcs[t := Rpc(ctx, s.nextId + 1, 0, Registering, FRESH)];
    hide Enabled, Apply, IsRun, After;
    ThreeSteps(s, s1, s2, Begin(t, ctx), Check(t), Number(t));
  }

  lemma ThreeSteps(s: State, s1: State, s2: State, a: Event, b: Event, c: Event)
    requires Enabled(s, a) && s1 == Apply(s, a) && Enabled(s1, b) && s2 == Apply(s1, b) && Enabled(s2, c)
    ensures IsRun(s, [a, b, c]) && After(s, [a, b, c]) == Apply(s2, c)
  {
    hide *;
    RunOne(s2, c);
    RunNext(s1, b, [c]);
    assert [b] + [c] == [b, c];
    RunNext(s, a, [b, c]);
    assert [a] + [b, c] == [a, b, c];
  }

  lemma Sends(s: State, t: Call, reply: Message)
    requires s.fault.None? && At(s, t, Registering) && s.listen.Receiving? && ConnOpen(s)
    requires !InMap(s, s.rpcs[t])
    ensures var run := [Register(t), Send(t, true), ReceiveMessage(reply)];
      && IsRun(s, run) && At(After(s, run), t, Waiting) && After(s, run).rpcs[t].id == s.rpcs[t].id
      && After(s, run).listen == Dispatching(reply) && After(s, run).log == s.log
      && After(s, run).callbacks == s.callbacks[Key(s.rpcs[t].id) := Callback(s.rpcs[t].ctx, t)]
  {
    hide Key;
    var s1 := Apply(s, Register(t));
    var s2 := Apply(s1, Send(t, true));
    assert At(s1, t, Sending) && At(s2, t, Waiting);
    hide IsRun, After;
    ThreeSteps(s, s1, s2, Register(t), Send(t, true), ReceiveMessage(reply));
  }

  // From every reachable state in which listen receives on an open connection, a new call under
  // a live context can run to its end with the reply to its request, whose ID is the next
  // number, and leaves the callbacks as they were.
  lemma CallCompletes(s: State, t: Call, ctx: Context, payload: int)
    requires Reachable(s) && s.listen.Receiving? && ConnOpen(s)
    requires t !in s.rpcs && ctx != CLIENT && ctx !in s.cancelled
    ensures var reply := Message(Key(s.nextId + 1), payload);
      var run := Request(t, ctx, reply) + Delivery(t);
      && IsRun(s, run) && At(After(s, run), t, Done(Got(|s.log|)))
      && After(s, run).log == s.log + [reply]
      && After(s, run).callbacks == s.callbacks
      && After(s, run).listen.Receiving?
  {
    var reply := Message(Key(s.nextId + 1), payload);
    ReachableInv(s);
    NewKeyUnused(s, s.nextId + 1);
    hide Reachable, IsRun, After, Key, Inv, Enabled, Apply, Delivery, ConnOpen, LockFree;
    var first, second := [Begin(t, ctx), Check(t), Number(t)], [Register(t), Send(t, true), ReceiveMessage(reply)];
    NoFault(s);
    Numbers(s, t, ctx);
    var s1 := After(s, first);
    ReachableRun(s, first);
    Sends(s1, t, reply);
    var s2 := After(s1, second);
    ReachableRun(s1, second);
    ReplyArrives(s2, t);
    RunAppend(s, first, second);
    RunAppend(s, first + second, Delivery(t));
    AddedAndRemoved(s.callbacks, Key(s.nextId + 1), Callback(ctx, t));
  }

  lemma NoFault(s: State)
    requires Inv(s)
    ensures s.fault.None?
  {
    hide CallsOk, DistinctIds, CallbacksOk;
  }

  lemma AddedAndRemoved<K, V>(m: map<K, V>, k: K, v: V)
    requires k !in m
    ensures m[k := v] - {k} == m
  {
  }
}
