/** What every step of the client keeps. */
module RpcInvariant {
  import opened Wrappers
  import opened RpcProtocol
  import Numerals

  // What listen is doing with one call's callback.
  datatype Phase = Idle | InSelect(position: nat) | InDelete | InClose

  function PhaseOf(l: Listen, t: Call): Phase {
    match l
    case Selecting(u, _, m) => if u == t then InSelect(m) else Idle
    case Deleting(u, _) => if u == t then InDelete else Idle
    case Closing(u) => if u == t then InClose else Idle
    case _ => Idle
  }

  // The call has not asked for its callback yet.
  predicate Unregistered(r: Rpc) {
    r.pc.Start? || r.pc.Checked? || r.pc.Registering? || r.pc == Done(NotSent)
  }

  predicate Live(r: Rpc) {
    r.pc.Sending? || r.pc.Waiting? || r.pc.Returning?
  }

  predicate Numbered(r: Rpc) { r.id > 0 }

  // No message with the call's ID was handled from its registration up to position m.
  predicate NoneBefore(key: string, regAt: nat, log: seq<Message>, m: nat) {
    forall j :: regAt <= j < m && j < |log| ==> log[j].id != key
  }

  // Position m holds the first message with the call's ID handled since its registration.
  predicate Routed(key: string, regAt: nat, log: seq<Message>, m: nat) {
    regAt <= m < |log| && log[m].id == key && NoneBefore(key, regAt, log, m)
  }

  predicate HasOutcome(r: Rpc) { r.pc.Returning? || r.pc.Done? }

  // doCallback has chosen a case of its select for this call.
  predicate Handled(r: Rpc, log: seq<Message>, cancelled: set<Context>) {
    var c := r.channel;
    && (c.sends == 0 ==> c.buffer.None? && r.ctx in cancelled)
    && (c.sends == 1 ==>
          if c.buffer.Some? then Routed(Key(r.id), r.regAt, log, c.buffer.value)
          else HasOutcome(r) && r.pc.outcome.Got?)
    && c.sends <= 1
  }

  predicate OutcomeOk(r: Rpc, log: seq<Message>, cancelled: set<Context>) {
    HasOutcome(r) ==>
      match r.pc.outcome
      case Got(m) => Routed(Key(r.id), r.regAt, log, m) && r.channel.sends == 1 && r.channel.buffer.None?
      case Woken(ctxDone) => ctxDone && r.ctx in cancelled
      case Cancelled => r.ctx in cancelled
      case NotSent => r.pc.Done? && r.ctx in cancelled
      case SendFailed(_) => true
  }

  // A registered call, by whether its ID is in the map and by what listen does with it.
  predicate RegisteredOk(r: Rpc, inMap: bool, phase: Phase, log: seq<Message>, cancelled: set<Context>) {
    && Numbered(r) && r.regAt <= |log|
    && (inMap ==> Live(r))
    && match phase
       case Idle =>
         if inMap then r.channel == FRESH && NoneBefore(Key(r.id), r.regAt, log, |log|)
         else (r.channel == FRESH && r.pc.Done?) || (r.channel.closes == 1 && Handled(r, log, cancelled))
       case InSelect(m) => inMap && r.channel == FRESH && Routed(Key(r.id), r.regAt, log, m)
       case InDelete => inMap && r.channel.closes == 0 && Handled(r, log, cancelled)
       case InClose => !inMap && Live(r) && r.channel.closes == 0 && Handled(r, log, cancelled)
  }

  predicate RpcOk(r: Rpc, inMap: bool, phase: Phase, log: seq<Message>, cancelled: set<Context>, nextId: nat) {
    && r.id <= nextId
    && (Numbered(r) <==> !(r.pc.Start? || r.pc.Checked? || r.pc == Done(NotSent)))
    && OutcomeOk(r, log, cancelled)
    && if Unregistered(r) then r.channel == FRESH && (Numbered(r) ==> !inMap) && phase.Idle?
       else RegisteredOk(r, inMap, phase, log, cancelled)
  }

  predicate InMap(s: State, r: Rpc) { Key(r.id) in s.callbacks }

  predicate CallOk(s: State, t: Call) {
    t in s.rpcs && RpcOk(s.rpcs[t], InMap(s, s.rpcs[t]), PhaseOf(s.listen, t), s.log, s.cancelled, s.nextId)
  }

  ghost predicate CallsOk(s: State) {
    forall t :: t in s.rpcs ==> CallOk(s, t)
  }

  // Request IDs are distinct.
  ghost predicate DistinctIds(s: State) {
    forall t, u :: t in s.rpcs && u in s.rpcs && t != u && Numbered(s.rpcs[t]) ==> s.rpcs[t].id != s.rpcs[u].id
  }

  // Every callback belongs to the numbered call that carries its ID.
  ghost predicate CallbacksOk(s: State) {
    forall k :: k in s.callbacks ==>
      var cb := s.callbacks[k];
      cb.owner in s.rpcs && Numbered(s.rpcs[cb.owner]) && k == Key(s.rpcs[cb.owner].id)
        && cb.ctx == s.rpcs[cb.owner].ctx
  }

  predicate ListenOk(s: State) {
    match s.listen
    case Selecting(t, id, _) => t in s.rpcs && id == Key(s.rpcs[t].id)
    case Deleting(t, id) => t in s.rpcs && id == Key(s.rpcs[t].id)
    case Closing(t) => t in s.rpcs
    case _ => true
  }

  predicate ControlOk(s: State) {
    && s.fault.None?
    && (s.echo.EchoCalling? ==> s.echo.call in s.rpcs && s.rpcs[s.echo.call].ctx == CLIENT)
    && (CLIENT in s.cancelled <==> !s.close.NotClosing?)
    && (s.echo.EchoExited? ==> CLIENT in s.cancelled)
  }

  ghost predicate Inv(s: State) {
    CallsOk(s) && DistinctIds(s) && CallbacksOk(s) && ListenOk(s) && ControlOk(s)
  }

  // ---------- Frames ----------

  lemma Monotone(r: Rpc, inMap: bool, phase: Phase, log: seq<Message>,
                 c: set<Context>, n: nat, c': set<Context>, n': nat)
    requires RpcOk(r, inMap, phase, log, c, n) && c <= c' && n <= n'
    ensures RpcOk(r, inMap, phase, log, c', n')
  {
    hide NoneBefore, Key;
  }

  // Nothing a call depends on has changed, except that contexts and IDs may have been added.
  predicate Unaffected(s: State, s': State, u: Call) {
    && u in s.rpcs && u in s'.rpcs && s.rpcs[u] == s'.rpcs[u]
    && InMap(s, s.rpcs[u]) == InMap(s', s'.rpcs[u])
    && PhaseOf(s.listen, u) == PhaseOf(s'.listen, u)
    && s.log == s'.log && s.cancelled <= s'.cancelled && s.nextId <= s'.nextId
  }

  lemma Frame(s: State, s': State, u: Call)
    requires CallsOk(s) && Unaffected(s, s', u)
    ensures CallOk(s', u)
  {
    hide RpcOk;
    var r := s.rpcs[u];
    Monotone(r, InMap(s, r), PhaseOf(s.listen, u), s.log, s.cancelled, s.nextId, s'.cancelled, s'.nextId);
  }

  // A step that touches neither calls nor callbacks nor the log.
  lemma ControlFrame(s: State, s': State)
    requires Inv(s) && ControlOk(s') && LockFree(s) && LockFree(s')
    requires s'.rpcs == s.rpcs && s'.callbacks == s.callbacks && s'.log == s.log
    requires s.cancelled <= s'.cancelled && s'.nextId == s.nextId
    ensures Inv(s')
  {
    hide RpcOk, ControlOk;
    forall t | t in s'.rpcs ensures CallOk(s', t) {
      Frame(s, s', t);
    }
  }

  lemma ControlFrameLocked(s: State, s': State)
    requires Inv(s) && ControlOk(s')
    requires s'.rpcs == s.rpcs && s'.callbacks == s.callbacks && s'.log == s.log && s'.listen == s.listen
    requires s.cancelled <= s'.cancelled && s'.nextId == s.nextId
    ensures Inv(s')
  {
    hide RpcOk, ControlOk;
    forall t | t in s'.rpcs ensures CallOk(s', t) {
      Frame(s, s', t);
    }
  }

  lemma KeysDiffer(s: State, t: Call, u: Call)
    requires DistinctIds(s) && t in s.rpcs && u in s.rpcs && t != u && Numbered(s.rpcs[t])
    ensures Key(s.rpcs[t].id) != Key(s.rpcs[u].id)
  {
    if Key(s.rpcs[t].id) == Key(s.rpcs[u].id) {
      Numerals.DigitsInjective(s.rpcs[t].id, s.rpcs[u].id);
    }
  }

  // A step that changes one numbered call, keeping its ID, the map at its key, and what
  // listen does with it.
  ghost predicate OnlyCall(s: State, s': State, t: Call) {
    && t in s.rpcs && s'.rpcs.Keys == s.rpcs.Keys
    && (forall u :: u in s.rpcs && u != t ==> s'.rpcs[u] == s.rpcs[u] && PhaseOf(s'.listen, u) == PhaseOf(s.listen, u))
    && s'.rpcs[t].id == s.rpcs[t].id && s'.rpcs[t].ctx == s.rpcs[t].ctx
    && (forall k :: k != Key(s.rpcs[t].id) ==> (k in s'.callbacks <==> k in s.callbacks))
    && (forall k :: k != Key(s.rpcs[t].id) && k in s.callbacks ==> s'.callbacks[k] == s.callbacks[k])
    && s'.log == s.log && s'.cancelled == s.cancelled && s'.nextId == s.nextId
  }

  lemma Others(s: State, s': State, t: Call)
    requires CallsOk(s) && DistinctIds(s) && OnlyCall(s, s', t)
    requires Numbered(s.rpcs[t]) || s'.callbacks == s.callbacks
    requires CallOk(s', t)
    ensures CallsOk(s') && DistinctIds(s')
  {
    hide RpcOk, Key, PhaseOf;
    forall u | u in s'.rpcs ensures CallOk(s', u) {
      if u != t {
        if Numbered(s.rpcs[t]) { KeysDiffer(s, t, u); }
        Frame(s, s', u);
      }
    }
  }

  // Callbacks may go away while their calls keep ID and context.
  lemma CallbacksShrink(s: State, s': State)
    requires CallbacksOk(s) && s'.rpcs.Keys == s.rpcs.Keys
    requires forall u :: u in s.rpcs ==> s'.rpcs[u].id == s.rpcs[u].id && s'.rpcs[u].ctx == s.rpcs[u].ctx
    requires forall k :: k in s'.callbacks ==> k in s.callbacks && s'.callbacks[k] == s.callbacks[k]
    ensures CallbacksOk(s')
  {
    hide Key;
  }

  // A step on one call during which callbacks may only go away.
  ghost predicate StepOn(s: State, s': State, t: Call) {
    && OnlyCall(s, s', t) && (Numbered(s.rpcs[t]) || s'.callbacks == s.callbacks)
    && (forall k :: k in s'.callbacks ==> k in s.callbacks && s'.callbacks[k] == s.callbacks[k])
    && ListenOk(s') && ControlOk(s')
  }

  lemma Finish(s: State, s': State, t: Call)
    requires Inv(s) && StepOn(s, s', t) && CallOk(s', t)
    ensures Inv(s')
  {
    hide RpcOk, CallOk, CallsOk, DistinctIds, CallbacksOk;
    Others(s, s', t);
    CallbacksShrink(s, s');
  }

  // A step of one call that leaves everything else alone.
  lemma OneCall(s: State, s': State, t: Call)
    requires Inv(s) && t in s.rpcs && t in s'.rpcs
    requires s' == s.(rpcs := s.rpcs[t := s'.rpcs[t]])
    requires s'.rpcs[t].id == s.rpcs[t].id && s'.rpcs[t].ctx == s.rpcs[t].ctx
    requires CallOk(s', t)
    ensures Inv(s')
  {
    hide RpcOk, Key, PhaseOf, CallsOk, DistinctIds, CallbacksOk;
    Others(s, s', t);
    CallbacksShrink(s, s');
  }

  // ---------- Steps of rpc ----------

  lemma BeginCalls(s: State, s': State, t: Call, ctx: Context)
    requires CallsOk(s) && t !in s.rpcs && PhaseOf(s.listen, t).Idle?
    requires s' == s.(rpcs := s.rpcs[t := NewRpc(ctx)])
    ensures CallsOk(s')
  {
    NewRpcOk(s', t, ctx);
    hide RpcOk, NewRpc;
    forall u | u in s'.rpcs ensures CallOk(s', u) {
      if u != t { Frame(s, s', u); }
    }
  }

  lemma BeginKeeps(s: State, t: Call, ctx: Context)
    requires Inv(s) && t !in s.rpcs
    ensures Inv(s.(rpcs := s.rpcs[t := NewRpc(ctx)]))
  {
    BeginCalls(s, s.(rpcs := s.rpcs[t := NewRpc(ctx)]), t, ctx);
    hide CallsOk, Key, PhaseOf;
  }

  lemma NewRpcOk(s: State, t: Call, ctx: Context)
    requires t in s.rpcs && s.rpcs[t] == NewRpc(ctx) && PhaseOf(s.listen, t).Idle?
    ensures CallOk(s, t)
  {
  }

  // A change of program counter before registration, or to an outcome without a message.
  predicate PcStep(r: Rpc, pc: Pc, c: set<Context>) {
    match r.pc
    case Start => pc == if r.ctx in c then Done(NotSent) else Checked
    case Sending => pc == Waiting || (pc.Returning? && pc.outcome.SendFailed?)
    case Waiting => pc == Returning(Cancelled) && r.ctx in c
    case _ => false
  }

  lemma PcOk(r: Rpc, pc: Pc, inMap: bool, phase: Phase, log: seq<Message>, c: set<Context>, n: nat)
    requires RpcOk(r, inMap, phase, log, c, n) && PcStep(r, pc, c)
    ensures RpcOk(r.(pc := pc), inMap, phase, log, c, n)
  {
    hide NoneBefore, Key;
  }

  lemma PcKeeps(s: State, t: Call, pc: Pc)
    requires Inv(s) && t in s.rpcs && PcStep(s.rpcs[t], pc, s.cancelled)
    ensures Inv(SetPc(s, t, pc))
  {
    assert CallOk(s, t);
    hide RpcOk, Key, PhaseOf, PcStep;
    PcOk(s.rpcs[t], pc, InMap(s, s.rpcs[t]), PhaseOf(s.listen, t), s.log, s.cancelled, s.nextId);
    OneCall(s, SetPc(s, t, pc), t);
  }

  lemma TakeChannelOk(r: Rpc, ok: Rpc, inMap: bool, phase: Phase, log: seq<Message>, c: set<Context>, n: nat)
    requires RpcOk(r, inMap, phase, log, c, n) && r.pc.Waiting? && Ready(r.channel)
    requires ok == match r.channel.buffer
                   case Some(m) => r.(pc := Returning(Got(m)), channel := r.channel.(buffer := None))
                   case None => r.(pc := Returning(Woken(r.ctx in c)))
    ensures RpcOk(ok, inMap, phase, log, c, n)
  {
    hide NoneBefore, Key;
  }

  lemma TakeChannelKeeps(s: State, t: Call)
    requires Inv(s) && Enabled(s, TakeChannel(t))
    ensures Inv(DoTakeChannel(s, t))
  {
    assert CallOk(s, t);
    hide RpcOk, Key, PhaseOf;
    var s' := DoTakeChannel(s, t);
    TakeChannelOk(s.rpcs[t], s'.rpcs[t], InMap(s, s.rpcs[t]), PhaseOf(s.listen, t), s.log, s.cancelled, s.nextId);
    OneCall(s, s', t);
  }

  lemma NumberCalls(s: State, s': State, t: Call)
    requires CallsOk(s) && Enabled(s, Number(t)) && s' == DoNumber(s, t)
    requires CallOk(s', t)
    ensures CallsOk(s')
  {
    hide RpcOk, Key, PhaseOf;
    forall u | u in s'.rpcs ensures CallOk(s', u) {
      if u != t { Frame(s, s', u); }
    }
  }

  lemma NumberKeeps(s: State, t: Call)
    requires Inv(s) && Enabled(s, Number(t))
    ensures Inv(DoNumber(s, t))
  {
    var s' := DoNumber(s, t);
    NumberOk(s, s', t);
    IdsBounded(s);
    NumberCalls(s, s', t);
    hide CallsOk, Key;
  }

  lemma NumberOk(s: State, s': State, t: Call)
    requires Inv(s) && Enabled(s, Number(t)) && s' == DoNumber(s, t)
    ensures CallOk(s', t)
    ensures forall k :: k in s.callbacks ==> s.callbacks[k].owner != t
  {
    assert CallOk(s, t);
    NewKeyUnused(s, s.nextId + 1);
    NotAnOwner(s, t);
    hide Inv, CallsOk, DistinctIds, CallbacksOk, Key, NoneBefore;
  }

  lemma NotAnOwner(s: State, t: Call)
    requires CallbacksOk(s) && At(s, t, Checked) && CallOk(s, t)
    ensures forall k :: k in s.callbacks ==> s.callbacks[k].owner != t
  {
    hide Key;
  }

  lemma IdsBounded(s: State)
    requires Inv(s)
    ensures forall t :: t in s.rpcs ==> s.rpcs[t].id <= s.nextId
  {
    forall t | t in s.rpcs ensures s.rpcs[t].id <= s.nextId {
      assert CallOk(s, t);
    }
  }

  // A number beyond every ID in use is no key of the map.
  lemma NewKeyUnused(s: State, n: nat)
    requires Inv(s) && n > s.nextId
    ensures Key(n) !in s.callbacks
  {
    IdsBounded(s);
    hide RpcOk;
    if Key(n) in s.callbacks {
      Numerals.DigitsInjective(n, s.rpcs[s.callbacks[Key(n)].owner].id);
    }
  }

  // The map never holds the ID of a call that is about to register.
  lemma RegisterOk(s: State, t: Call)
    requires Inv(s) && Enabled(s, Register(t))
    ensures !InMap(s, s.rpcs[t]) && DoRegister(s, t).fault.None?
    ensures Numbered(s.rpcs[t]) && CallOk(DoRegister(s, t), t)
  {
    hide Key;
    assert CallOk(s, t);
  }

  lemma RegisterShape(s: State, t: Call)
    requires Enabled(s, Register(t)) && !InMap(s, s.rpcs[t]) && Numbered(s.rpcs[t])
    requires CallbacksOk(s) && ListenOk(s) && ControlOk(s)
    ensures var s' := DoRegister(s, t);
      OnlyCall(s, s', t) && CallbacksOk(s') && ListenOk(s') && ControlOk(s')
  {
    hide Key, PhaseOf;
  }

  lemma RegisterKeeps(s: State, t: Call)
    requires Inv(s) && Enabled(s, Register(t))
    ensures Inv(DoRegister(s, t))
  {
    RegisterOk(s, t);
    RegisterShape(s, t);
    hide RpcOk, Key, PhaseOf, CallsOk, DistinctIds, CallbacksOk, OnlyCall, DoRegister, Enabled;
    Others(s, DoRegister(s, t), t);
  }

  lemma CleanupOk(s: State, t: Call)
    requires Inv(s) && Enabled(s, Cleanup(t))
    ensures Numbered(s.rpcs[t]) && CallOk(DoCleanup(s, t), t)
  {
    hide Key, NoneBefore;
    assert CallOk(s, t);
  }

  lemma CleanupShape(s: State, t: Call)
    requires Inv(s) && Enabled(s, Cleanup(t)) && Numbered(s.rpcs[t])
    ensures StepOn(s, DoCleanup(s, t), t)
  {
    hide Key, PhaseOf, CallsOk, DistinctIds, CallbacksOk;
  }

  lemma CleanupKeeps(s: State, t: Call)
    requires Inv(s) && Enabled(s, Cleanup(t))
    ensures Inv(DoCleanup(s, t))
  {
    hide *;
    CleanupOk(s, t);
    CleanupShape(s, t);
    Finish(s, DoCleanup(s, t), t);
  }

  // ---------- Steps of doCallback ----------

  lemma LogGrows(r: Rpc, inMap: bool, log: seq<Message>, msg: Message, c: set<Context>, n: nat)
    requires RpcOk(r, inMap, Idle, log, c, n) && (inMap ==> Key(r.id) != msg.id)
    ensures RpcOk(r, inMap, Idle, log + [msg], c, n)
  {
    hide Key;
  }

  lemma LogSelects(r: Rpc, log: seq<Message>, msg: Message, c: set<Context>, n: nat)
    requires RpcOk(r, true, Idle, log, c, n) && Numbered(r) && Key(r.id) == msg.id
    ensures RpcOk(r, true, InSelect(|log|), log + [msg], c, n)
  {
    hide Key;
  }

  lemma LockKeeps(s: State)
    requires Inv(s) && Enabled(s, Lock)
    ensures Inv(DoLock(s))
  {
    var s' := DoLock(s);
    var msg := s.listen.msg;
    assert CallsOk(s') by {
      hide RpcOk, Key;
      forall u | u in s'.rpcs ensures CallOk(s', u) {
        var r := s.rpcs[u];
        assert CallOk(s, u);
        if InMap(s, r) && Key(r.id) == msg.id {
          OwnerIsUnique(s, u);
          LogSelects(r, s.log, msg, s.cancelled, s.nextId);
        } else {
          LogGrows(r, InMap(s, r), s.log, msg, s.cancelled, s.nextId);
          LockOther(s, u);
        }
      }
    }
    hide CallsOk;
  }

  // The callback found under a call's key is the call's own.
  lemma OwnerIsUnique(s: State, t: Call)
    requires CallbacksOk(s) && DistinctIds(s) && t in s.rpcs && InMap(s, s.rpcs[t])
    ensures s.callbacks[Key(s.rpcs[t].id)].owner == t && Numbered(s.rpcs[t])
  {
    var k := Key(s.rpcs[t].id);
    var u := s.callbacks[k].owner;
    Numerals.DigitsInjective(s.rpcs[t].id, s.rpcs[u].id);
  }

  lemma LockOther(s: State, u: Call)
    requires CallbacksOk(s) && Enabled(s, Lock) && u in s.rpcs
    requires !(InMap(s, s.rpcs[u]) && Key(s.rpcs[u].id) == s.listen.msg.id)
    ensures PhaseOf(DoLock(s).listen, u) == Idle == PhaseOf(s.listen, u)
    ensures InMap(DoLock(s), s.rpcs[u]) == InMap(s, s.rpcs[u])
  {
    hide Key;
  }

  lemma SelectSends(r: Rpc, m: nat, inMap: bool, log: seq<Message>, c: set<Context>, n: nat)
    requires RpcOk(r, inMap, InSelect(m), log, c, n)
    ensures r.channel == FRESH
    ensures RpcOk(r.(channel := Channel(Some(m), 1, 0)), inMap, InDelete, log, c, n)
  {
    hide Key, NoneBefore;
  }

  lemma SelectSkips(r: Rpc, m: nat, inMap: bool, log: seq<Message>, c: set<Context>, n: nat)
    requires RpcOk(r, inMap, InSelect(m), log, c, n) && r.ctx in c
    ensures RpcOk(r, inMap, InDelete, log, c, n)
  {
    hide Key, NoneBefore;
  }

  // listen works only on numbered calls.
  lemma InPhase(r: Rpc, inMap: bool, phase: Phase, log: seq<Message>, c: set<Context>, n: nat)
    requires RpcOk(r, inMap, phase, log, c, n) && !phase.Idle?
    ensures Numbered(r)
  {
  }

  lemma InvParts(s: State)
    requires Inv(s)
    ensures CallbacksOk(s) && ListenOk(s) && ControlOk(s)
  {
  }

  lemma CallbackSendKeeps(s: State)
    requires Inv(s) && Enabled(s, CallbackSend)
    ensures Inv(DoCallbackSend(s))
  {
    hide Inv;
    var t := s.listen.call;
    assert s.listen.Selecting?;
    hide *;
    InvParts(s);
    CallbackSendOk(s, t);
    CallbackSendShape(s, t);
    Finish(s, DoCallbackSend(s), t);
  }

  lemma CallbackSendOk(s: State, t: Call)
    requires Inv(s) && Enabled(s, CallbackSend) && s.listen.Selecting? && s.listen.call == t
    ensures t in s.rpcs && Numbered(s.rpcs[t]) && s.rpcs[t].channel == FRESH
    ensures CallOk(DoCallbackSend(s), t)
  {
    hide RpcOk, Key, DistinctIds, CallbacksOk;
    assert CallOk(s, t);
    InPhase(s.rpcs[t], InMap(s, s.rpcs[t]), PhaseOf(s.listen, t), s.log, s.cancelled, s.nextId);
    SelectSends(s.rpcs[t], s.listen.position, InMap(s, s.rpcs[t]), s.log, s.cancelled, s.nextId);
    CallbackSendShape(s, t);
    hide Enabled, DoCallbackSend, InMap, PhaseOf, CallsOk;
  }

  lemma CallbackSendShape(s: State, t: Call)
    requires CallbacksOk(s) && ListenOk(s) && ControlOk(s) && Enabled(s, CallbackSend)
    requires s.listen.Selecting? && s.listen.call == t && Numbered(s.rpcs[t])
      && s.rpcs[t].channel == FRESH
    ensures var s' := DoCallbackSend(s);
      && t in s'.rpcs && s'.rpcs[t] == s.rpcs[t].(channel := Channel(Some(s.listen.position), 1, 0))
      && InMap(s', s'.rpcs[t]) == InMap(s, s.rpcs[t])
      && PhaseOf(s'.listen, t) == InDelete
      && s'.log == s.log && s'.cancelled == s.cancelled && s'.nextId == s.nextId
    ensures StepOn(s, DoCallbackSend(s), t)
  {
    hide Key, CallsOk, DistinctIds, CallbacksOk;
  }

  lemma CallbackSkipKeeps(s: State)
    requires Inv(s) && Enabled(s, CallbackSkip)
    ensures Inv(DoCallbackSkip(s))
  {
    hide Inv;
    var t := s.listen.call;
    assert s.listen.Selecting?;
    hide *;
    InvParts(s);
    CallbackSkipOk(s, t);
    CallbackSkipShape(s, t);
    Finish(s, DoCallbackSkip(s), t);
  }

  lemma CallbackSkipOk(s: State, t: Call)
    requires Inv(s) && Enabled(s, CallbackSkip) && s.listen.Selecting? && s.listen.call == t
    ensures t in s.rpcs && Numbered(s.rpcs[t])
    ensures CallOk(DoCallbackSkip(s), t)
  {
    hide RpcOk, Key, DistinctIds, CallbacksOk;
    assert CallOk(s, t);
    InPhase(s.rpcs[t], InMap(s, s.rpcs[t]), PhaseOf(s.listen, t), s.log, s.cancelled, s.nextId);
    SelectSkips(s.rpcs[t], s.listen.position, InMap(s, s.rpcs[t]), s.log, s.cancelled, s.nextId);
    CallbackSkipShape(s, t);
    hide Enabled, DoCallbackSkip, InMap, PhaseOf, CallsOk;
  }

  lemma CallbackSkipShape(s: State, t: Call)
    requires CallbacksOk(s) && ListenOk(s) && ControlOk(s) && Enabled(s, CallbackSkip)
    requires s.listen.Selecting? && s.listen.call == t && Numbered(s.rpcs[t])
    ensures var s' := DoCallbackSkip(s);
      && t in s'.rpcs && s'.rpcs[t] == s.rpcs[t]
      && InMap(s', s'.rpcs[t]) == InMap(s, s.rpcs[t])
      && PhaseOf(s'.listen, t) == InDelete
      && s'.log == s.log && s'.cancelled == s.cancelled && s'.nextId == s.nextId
    ensures StepOn(s, DoCallbackSkip(s), t)
  {
    hide Key, CallsOk, DistinctIds, CallbacksOk;
  }

  lemma DeleteDone(r: Rpc, log: seq<Message>, c: set<Context>, n: nat, inMap: bool)
    requires RpcOk(r, inMap, InDelete, log, c, n)
    ensures RpcOk(r, false, InClose, log, c, n) && Numbered(r)
  {
    hide Key, NoneBefore;
  }

  lemma CallbackDeleteKeeps(s: State)
    requires Inv(s) && Enabled(s, CallbackDelete)
    ensures Inv(DoCallbackDelete(s))
  {
    hide Inv;
    var t := s.listen.call;
    assert s.listen.Deleting?;
    hide *;
    InvParts(s);
    CallbackDeleteOk(s, t);
    CallbackDeleteShape(s, t);
    Finish(s, DoCallbackDelete(s), t);
  }

  lemma CallbackDeleteOk(s: State, t: Call)
    requires Inv(s) && Enabled(s, CallbackDelete) && s.listen.Deleting? && s.listen.call == t
    ensures t in s.rpcs && Numbered(s.rpcs[t])
    ensures CallOk(DoCallbackDelete(s), t)
  {
    hide RpcOk, Key, DistinctIds, CallbacksOk;
    assert CallOk(s, t);
    InPhase(s.rpcs[t], InMap(s, s.rpcs[t]), PhaseOf(s.listen, t), s.log, s.cancelled, s.nextId);
    DeleteDone(s.rpcs[t], s.log, s.cancelled, s.nextId, InMap(s, s.rpcs[t]));
    CallbackDeleteShape(s, t);
    hide Enabled, DoCallbackDelete, InMap, PhaseOf, CallsOk;
  }

  lemma CallbackDeleteShape(s: State, t: Call)
    requires CallbacksOk(s) && ListenOk(s) && ControlOk(s) && Enabled(s, CallbackDelete)
    requires s.listen.Deleting? && s.listen.call == t && Numbered(s.rpcs[t])
    ensures var s' := DoCallbackDelete(s);
      && t in s'.rpcs && s'.rpcs[t] == s.rpcs[t]
      && InMap(s', s'.rpcs[t]) == false
      && PhaseOf(s'.listen, t) == InClose
      && s'.log == s.log && s'.cancelled == s.cancelled && s'.nextId == s.nextId
    ensures StepOn(s, DoCallbackDelete(s), t)
  {
    hide Key, CallsOk, DistinctIds, CallbacksOk;
  }

  lemma CloseDone(r: Rpc, log: seq<Message>, c: set<Context>, n: nat, inMap: bool)
    requires RpcOk(r, inMap, InClose, log, c, n)
    ensures r.channel.closes == 0 && Numbered(r)
    ensures RpcOk(r.(channel := r.channel.(closes := 1)), inMap, Idle, log, c, n)
  {
    hide Key, NoneBefore;
  }

  lemma CallbackCloseKeeps(s: State)
    requires Inv(s) && Enabled(s, CallbackClose)
    ensures Inv(DoCallbackClose(s))
  {
    hide Inv;
    var t := s.listen.call;
    assert s.listen.Closing?;
    hide *;
    InvParts(s);
    CallbackCloseOk(s, t);
    CallbackCloseShape(s, t);
    Finish(s, DoCallbackClose(s), t);
  }

  lemma CallbackCloseOk(s: State, t: Call)
    requires Inv(s) && Enabled(s, CallbackClose) && s.listen.Closing? && s.listen.call == t
    ensures t in s.rpcs && Numbered(s.rpcs[t]) && s.rpcs[t].channel.closes == 0
    ensures CallOk(DoCallbackClose(s), t)
  {
    hide RpcOk, Key, DistinctIds, CallbacksOk;
    assert CallOk(s, t);
    InPhase(s.rpcs[t], InMap(s, s.rpcs[t]), PhaseOf(s.listen, t), s.log, s.cancelled, s.nextId);
    CloseDone(s.rpcs[t], s.log, s.cancelled, s.nextId, InMap(s, s.rpcs[t]));
    CallbackCloseShape(s, t);
    hide Enabled, DoCallbackClose, InMap, PhaseOf, CallsOk;
  }

  lemma CallbackCloseShape(s: State, t: Call)
    requires CallbacksOk(s) && ListenOk(s) && ControlOk(s) && Enabled(s, CallbackClose)
    requires s.listen.Closing? && s.listen.call == t && Numbered(s.rpcs[t])
      && s.rpcs[t].channel.closes == 0
    ensures var s' := DoCallbackClose(s);
      && t in s'.rpcs && s'.rpcs[t] == s.rpcs[t].(channel := s.rpcs[t].channel.(closes := 1))
      && InMap(s', s'.rpcs[t]) == InMap(s, s.rpcs[t])
      && PhaseOf(s'.listen, t) == Idle
      && s'.log == s.log && s'.cancelled == s.cancelled && s'.nextId == s.nextId
    ensures StepOn(s, DoCallbackClose(s), t)
  {
    hide Key, CallsOk, DistinctIds, CallbacksOk;
  }
}
