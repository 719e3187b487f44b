/**
 The methods of the client of ovsdb/client.go that touch the counter and the callback map,
 on the fields themselves.  Each is proved to take the steps of the protocol, so what
 RpcSafety says of runs holds of the fields.
 */
module RpcClient {
  import opened Wrappers
  import opened RpcProtocol
  import opened RpcInvariant
  import opened RpcSafety

  // The steps of one doCallback; skip says that its select takes the context's case.
  function CallbackRun(s: State, skip: bool): seq<Event>
    requires s.listen.Dispatching?
  {
    if s.listen.msg.id in s.callbacks
    then [Lock, if skip then CallbackSkip else CallbackSend, CallbackDelete, CallbackClose]
    else [Lock]
  }

  // The channel of a call that doCallback has served: sent to at most once, closed once.
  function Served(c: Channel, skip: bool, position: nat): Channel {
    if skip then c.(closes := 1) else Channel(Some(position), c.sends + 1, 1)
  }

  // What doCallback does as a whole: the callback is gone, its channel is closed and, unless
  // the context was done and taken, holds the message.
  function AfterCallback(s: State, skip: bool): State
    requires s.listen.Dispatching?
  {
    var id := s.listen.msg.id;
    var t := s.(log := s.log + [s.listen.msg], listen := Receiving);
    if id !in s.callbacks || s.callbacks[id].owner !in s.rpcs then t
    else
      var owner := s.callbacks[id].owner;
      var r := s.rpcs[owner];
      t.(callbacks := s.callbacks - {id}, rpcs := s.rpcs[owner := r.(channel := Served(r.channel, skip, |s.log|))])
  }

  lemma OwnerWaits(s: State, id: string)
    requires Reachable(s) && s.listen.Dispatching? && id in s.callbacks
    ensures var t := s.callbacks[id].owner;
      t in s.rpcs && s.rpcs[t].channel == FRESH && s.rpcs[t].ctx == s.callbacks[id].ctx
  {
    hide Reachable, RpcOk, Key;
    ReachableInv(s);
    var t := s.callbacks[id].owner;
    assert CallOk(s, t);
    FreshWhileRegistered(s, t);
  }

  lemma FreshWhileRegistered(s: State, t: Call)
    requires CallOk(s, t) && InMap(s, s.rpcs[t]) && Numbered(s.rpcs[t]) && s.listen.Dispatching?
    ensures s.rpcs[t].channel == FRESH
  {
    hide Key, NoneBefore;
  }

  // The four steps of doCallback can be taken one after the other.
  lemma CallbackRunIs(s: State, skip: bool)
    requires Reachable(s) && s.listen.Dispatching? && s.fault.None?
    requires skip && s.listen.msg.id in s.callbacks ==> s.callbacks[s.listen.msg.id].ctx in s.cancelled
    ensures IsRun(s, CallbackRun(s, skip)) && After(s, CallbackRun(s, skip)) == AfterCallback(s, skip)
  {
    hide Reachable;
    var id := s.listen.msg.id;
    if id !in s.callbacks {
      RunOne(s, Lock);
    } else {
      OwnerWaits(s, id);
      var owner := s.callbacks[id].owner;
      var s1 := Apply(s, Lock);
      assert s1 == s.(log := s.log + [s.listen.msg], listen := Selecting(owner, id, |s.log|));
      var e := if skip then CallbackSkip else CallbackSend;
      FourSteps(s, s1, e, owner, id, skip);
    }
  }

  lemma RunOne(s: State, e: Event)
    requires Enabled(s, e)
    ensures IsRun(s, [e]) && After(s, [e]) == Apply(s, e)
  {
    hide Enabled, Apply;
    assert [e][1..] == [];
  }

  lemma RunNext(s: State, e: Event, rest: seq<Event>)
    requires Enabled(s, e) && IsRun(Apply(s, e), rest)
    ensures IsRun(s, [e] + rest) && After(s, [e] + rest) == After(Apply(s, e), rest)
  {
    hide Enabled, Apply;
    assert ([e] + rest)[1..] == rest;
  }

  lemma FourSteps(s: State, s1: State, e: Event, owner: Call, id: string, skip: bool)
    requires Enabled(s, Lock) && s1 == Apply(s, Lock) && s.fault.None?
    requires s.listen.Dispatching?
    requires s1 == s.(log := s.log + [s.listen.msg], listen := Selecting(owner, id, |s.log|))
    requires id == s.listen.msg.id && id in s.callbacks && owner == s.callbacks[id].owner && owner in s.rpcs
    requires s.rpcs[owner].channel == FRESH && (skip ==> s.rpcs[owner].ctx in s.cancelled)
    requires e == if skip then CallbackSkip else CallbackSend
    ensures IsRun(s, [Lock, e, CallbackDelete, CallbackClose])
    ensures After(s, [Lock, e, CallbackDelete, CallbackClose]) == AfterCallback(s, skip)
  {
    hide Enabled, Apply, IsRun, After, AfterCallback, Served;
    var s2 := Selected(s1, e, skip);
    var s3 := s2.(listen := Closing(owner), callbacks := s.callbacks - {id});
    var s4 := AfterCallback(s, skip);
    SelectStep(s1, e, skip);
    DeleteStep(s2, s3);
    CloseStep(s, s3, s4, owner, skip);
    hide *;
    RunFour(s, s1, s2, s3, s4, Lock, e, CallbackDelete, CallbackClose);
  }

  lemma RunFour(s: State, s1: State, s2: State, s3: State, s4: State, a: Event, b: Event, c: Event, d: Event)
    requires Enabled(s, a) && s1 == Apply(s, a)
    requires Enabled(s1, b) && s2 == Apply(s1, b)
    requires Enabled(s2, c) && s3 == Apply(s2, c)
    requires Enabled(s3, d) && s4 == Apply(s3, d)
    ensures IsRun(s, [a, b, c, d]) && After(s, [a, b, c, d]) == s4
  {
    hide *;
    RunOne(s3, d);
    RunNext(s2, c, [d]);
    assert [c] + [d] == [c, d];
    RunNext(s1, b, [c, d]);
    assert [b] + [c, d] == [b, c, d];
    RunNext(s, a, [b, c, d]);
    assert [a] + [b, c, d] == [a, b, c, d];
  }

  // The state after the select.
  function Selected(s: State, e: Event, skip: bool): State
    requires s.listen.Selecting? && s.listen.call in s.rpcs
  {
    var t := s.listen.call;
    var r := s.rpcs[t];
    var s' := s.(listen := Deleting(t, s.listen.id));
    if skip then s'
    else s'.(rpcs := s.rpcs[t := r.(channel := Channel(Some(s.listen.position), r.channel.sends + 1, 0))])
  }

  lemma SelectStep(s: State, e: Event, skip: bool)
    requires s.fault.None? && s.listen.Selecting? && s.listen.call in s.rpcs
    requires s.rpcs[s.listen.call].channel == FRESH && (skip ==> s.rpcs[s.listen.call].ctx in s.cancelled)
    requires e == if skip then CallbackSkip else CallbackSend
    ensures Enabled(s, e) && Apply(s, e) == Selected(s, e, skip)
  {
  }

  lemma DeleteStep(s: State, s': State)
    requires s.fault.None? && s.listen.Deleting? && s.listen.call in s.rpcs
    requires s' == s.(listen := Closing(s.listen.call), callbacks := s.callbacks - {s.listen.id})
    ensures Enabled(s, CallbackDelete) && Apply(s, CallbackDelete) == s'
  {
  }

  lemma CloseStep(s: State, s3: State, s4: State, owner: Call, skip: bool)
    requires s.listen.Dispatching? && s.fault.None? && s4 == AfterCallback(s, skip)
    requires var id := s.listen.msg.id;
      && id in s.callbacks && owner == s.callbacks[id].owner && owner in s.rpcs && s.rpcs[owner].channel == FRESH
      && s3 == Selected(s.(log := s.log + [s.listen.msg], listen := Selecting(owner, id, |s.log|)),
                        if skip then CallbackSkip else CallbackSend, skip)
               .(listen := Closing(owner), callbacks := s.callbacks - {id})
    ensures Enabled(s3, CallbackClose) && Apply(s3, CallbackClose) == s4
  {
    var r := s.rpcs[owner];
    var r3 := s3.rpcs[owner];
    assert r3 == if skip then r else r.(channel := Channel(Some(|s.log|), r.channel.sends + 1, 0));
    assert s3.rpcs[owner := r3.(channel := r3.channel.(closes := 1))]
      == s.rpcs[owner := r.(channel := Served(r.channel, skip, |s.log|))];
  }

  // ---------- The client ----------

  class Client {
    // The counter, the callbacks and the echo counts; the calls in flight hold the channels.
    var rpcID: nat
    var callbacks: map<string, Callback>
    var rpcs: map<Call, Rpc>
    var echoOK: nat
    var echoFail: nat

    // Where the goroutines, the contexts and the connection are.
    ghost var rest: State

    ghost function Current(): State
      reads this
    {
      rest.(nextId := rpcID, callbacks := callbacks, rpcs := rpcs, echoOK := echoOK, echoFail := echoFail)
    }

    constructor (interval: bool)
      ensures Current() == Initial(interval)
    {
      rpcID, callbacks, rpcs, echoOK, echoFail := 0, map[], map[], 0, 0;
      rest := Initial(interval);
    }

    // The next request ID; no other call carries it.
    method RequestID(t: Call) returns (id: string)
      requires Reachable(Current()) && Enabled(Current(), Number(t)) && t in rpcs
      modifies this`rpcID, this`rpcs
      ensures Current() == Apply(old(Current()), Number(t))
      ensures id == Key(rpcID) && id !in callbacks
      ensures forall u :: u in rpcs && u != t ==> rpcs[u].id != rpcID
    {
      hide Reachable, Key;
      ghost var was := Current();
      ReachableInv(was);
      NewIdUnused(was, t);
      rpcID := rpcID + 1;
      id := Key(rpcID);
      rpcs := rpcs[t := rpcs[t].(id := rpcID, pc := Registering)];
    }

    // The panic of a callback already registered is not reached.
    method AddCallback(t: Call, handled: nat)
      requires Reachable(Current()) && Enabled(Current(), Register(t)) && t in rpcs && handled == |rest.log|
      modifies this`callbacks, this`rpcs
      ensures Current() == Apply(old(Current()), Register(t))
      ensures Current().fault.None?
        && callbacks == old(callbacks)[Key(old(rpcs)[t].id) := Callback(old(rpcs)[t].ctx, t)]
    {
      var r := rpcs[t];
      ghost var was := Current();
      NotRegistered(was, t);
      hide Reachable, Key;
      callbacks := callbacks[Key(r.id) := Callback(r.ctx, t)];
      rpcs := rpcs[t := r.(regAt := handled, pc := Sending)];
    }

    // The deferred deletion of rpc; afterwards the ID is not registered.
    method RemoveCallback(t: Call)
      requires Enabled(Current(), Cleanup(t)) && t in rpcs
      modifies this`callbacks, this`rpcs
      ensures Current() == Apply(old(Current()), Cleanup(t))
      ensures Key(rpcs[t].id) !in callbacks
    {
      hide Key;
      var r := rpcs[t];
      rpcs := rpcs[t := r.(pc := Done(r.pc.outcome))];
      callbacks := callbacks - {Key(r.id)};
    }

    // doCallback, run without interference: at the select, skip takes the context's case.
    method DoCallback(id: string, position: nat, skip: bool)
      requires Reachable(Current()) && Current().fault.None?
      requires rest.listen.Dispatching? && rest.listen.msg.id == id && position == |rest.log|
      requires skip && id in callbacks ==> callbacks[id].ctx in rest.cancelled
      modifies this
      ensures var run := CallbackRun(old(Current()), skip);
        IsRun(old(Current()), run) && Current() == After(old(Current()), run) == AfterCallback(old(Current()), skip)
      ensures id !in callbacks
    {
      ghost var was := Current();
      CallbackRunIs(was, skip);
      if id in callbacks { OwnerWaits(was, id); }
      hide Reachable, IsRun, After;
      if id !in callbacks {
        rest := rest.(log := rest.log + [rest.listen.msg], listen := Receiving);
        return;
      }
      var cb := callbacks[id];
      var r := rpcs[cb.owner];
      var sent := if skip then r.channel else Channel(Some(position), r.channel.sends + 1, r.channel.closes);
      callbacks := callbacks - {id};
      rpcs := rpcs[cb.owner := r.(channel := sent.(closes := 1))];
      rest := rest.(log := rest.log + [rest.listen.msg], listen := Receiving);
    }

    // The number of callbacks is at most the number of calls in flight.
    method Stats() returns (current: nat, success: nat, failure: nat)
      requires Reachable(Current())
      ensures current == |callbacks| && success == echoOK && failure == echoFail
      ensures current <= |LiveCalls(Current())|
    {
      hide Reachable, LiveCalls;
      CallbacksBounded(Current());
      current, success, failure := |callbacks|, echoOK, echoFail;
    }
  }

  lemma NewIdUnused(s: State, t: Call)
    requires Inv(s)
    ensures Key(s.nextId + 1) !in s.callbacks
    ensures forall u :: u in s.rpcs ==> s.rpcs[u].id != s.nextId + 1
  {
    hide Key, RpcOk;
    IdsBounded(s);
    NewKeyUnused(s, s.nextId + 1);
  }

  lemma NotRegistered(s: State, t: Call)
    requires Reachable(s) && Enabled(s, Register(t))
    ensures Key(s.rpcs[t].id) !in s.callbacks
  {
    hide Reachable, Key;
    ReachableInv(s);
    assert CallOk(s, t);
  }
}
