/**
 The concurrent protocol of ovsdb/client.go as a state machine.

 Any number of rpc calls, the listen goroutine, echoLoop, echoTicker and Close take steps on
 shared state: the request counter, the callback map under its mutex, one response channel
 per call, the unbuffered echo channel (a joint step of sender and receiver), the contexts
 and the connection.  A select is a choice among its ready cases.  The mutex is held across
 steps only by doCallback, which may wait inside its critical section; the other critical
 sections are single steps that need the mutex free.  What the code would answer with a
 panic is recorded as a fault.
 */
module RpcProtocol {
  import opened Wrappers
  import Numerals

  // A call of rpc, and a context.  Context 0 is the client's own, cancelled by Close.
  type Call = nat
  type Context = nat

  const CLIENT: Context := 0

  // A response, or top-level error, that carries a request ID.
  datatype Message = Message(id: string, payload: int)

  // A response channel with room for one message.  A message is named by its position in
  // the log of handled messages, so that equal payloads stay apart.
  datatype Channel = Channel(buffer: Option<nat>, sends: nat, closes: nat)

  const FRESH := Channel(None, 0, 0)

  datatype Outcome =
    | NotSent                     // context already done on entry: its error
    | SendFailed(connClosed: bool) // the error of Send, and whether Close had closed the connection
    | Cancelled                   // select took the context's case: its error
    | Woken(ctxDone: bool)        // channel closed and empty: the context's error, nil unless done
    | Got(position: nat)          // a message

  datatype Pc =
    | Start | Checked | Registering | Sending | Waiting
    | Returning(outcome: Outcome) | Done(outcome: Outcome)

  datatype Rpc = Rpc(ctx: Context, id: nat, regAt: nat, pc: Pc, channel: Channel)

  datatype Callback = Callback(ctx: Context, owner: Call)

  datatype Listen =
    | Receiving
    | EchoOffer                             // handing an echo request to echoLoop
    | Dispatching(msg: Message)             // about to lock in doCallback
    | Selecting(call: Call, id: string, position: nat)  // locked, callback found, at the select
    | Deleting(call: Call, id: string)      // locked, select done
    | Closing(call: Call)                   // locked, callback removed, close pending
    | ListenExited

  datatype Echo = EchoIdle | EchoTaken | EchoCalling(call: Call) | EchoExited

  datatype Ticker = TickWait | TickTaken | TickOffer | TickExited

  datatype Close = NotClosing | CancelDone | ConnClosed | CloseReturned

  datatype Fault = AlreadyRegistered | SendOnClosed | CloseOfClosed

  datatype State = State(
    nextId: nat,
    callbacks: map<string, Callback>,
    rpcs: map<Call, Rpc>,
    cancelled: set<Context>,
    listen: Listen,
    echo: Echo,
    ticker: Ticker,
    close: Close,
    pending: nat,             // what Receive still returns once the connection is closed
    log: seq<Message>,        // messages handled by doCallback, in order
    echoOK: nat,
    echoFail: nat,
    fault: Option<Fault>)

  datatype Event =
    // rpc
    | Begin(t: Call, ctx: Context)
    | Check(t: Call) | Number(t: Call) | Register(t: Call) | Send(t: Call, ok: bool)
    | TakeCancel(t: Call) | TakeChannel(t: Call) | Cleanup(t: Call)
    | CancelContext(ctx: Context)
    // listen and doCallback
    | ReceiveMessage(msg: Message) | ReceiveEcho | ReceiveError | ReceiveEnd
    | OfferAbandoned | Lock | CallbackSend | CallbackSkip | CallbackDelete | CallbackClose
    // echoTicker and echoLoop
    | TickFire | TickCheck | TickStop
    | Handoff(fromTicker: bool)
    | EchoStop | EchoCheck(t: Call) | EchoReport(ok: bool)
    // Close
    | CloseCancel | CloseConn(left: nat) | CloseReturn

  // The request ID a call sends.
  function Key(id: nat): string { Numerals.Digits(id, 10) }

  predicate LockFree(s: State) {
    s.listen.Receiving? || s.listen.EchoOffer? || s.listen.Dispatching? || s.listen.ListenExited?
  }

  predicate ConnOpen(s: State) { s.close.NotClosing? || s.close.CancelDone? }

  predicate At(s: State, t: Call, pc: Pc) { t in s.rpcs && s.rpcs[t].pc == pc }

  predicate Ready(c: Channel) { c.buffer.Some? || c.closes > 0 }

  predicate AllExited(s: State) {
    s.listen.ListenExited? && s.echo.EchoExited? && s.ticker.TickExited?
  }

  // The ticker runs only if an echo interval is configured.
  function Initial(interval: bool): State {
    State(0, map[], map[], {}, Receiving, EchoIdle, if interval then TickWait else TickExited,
          NotClosing, 0, [], 0, 0, None)
  }

  // Once the connection is closed, Receive returns what was buffered and then an error.
  predicate CanReceive(s: State) { s.listen.Receiving? && (ConnOpen(s) || s.pending > 0) }

  predicate Enabled(s: State, e: Event) {
    s.fault.None? &&
    match e
    case Begin(t, ctx) => t !in s.rpcs && ctx != CLIENT
    case Check(t) => At(s, t, Start)
    case Number(t) => At(s, t, Checked)
    case Register(t) => At(s, t, Registering) && LockFree(s)
    case Send(t, ok) => At(s, t, Sending) && (ok ==> ConnOpen(s))
    case TakeCancel(t) => At(s, t, Waiting) && s.rpcs[t].ctx in s.cancelled
    case TakeChannel(t) => At(s, t, Waiting) && Ready(s.rpcs[t].channel)
    case Cleanup(t) => t in s.rpcs && s.rpcs[t].pc.Returning? && LockFree(s)
    case CancelContext(ctx) => ctx != CLIENT
    case ReceiveMessage(_) => CanReceive(s)
    case ReceiveEcho => CanReceive(s)
    case ReceiveError => CanReceive(s)
    case ReceiveEnd => s.listen.Receiving? && (ConnOpen(s) || s.pending == 0)
    case OfferAbandoned => s.listen.EchoOffer? && CLIENT in s.cancelled
    case Lock => s.listen.Dispatching?
    case CallbackSend => s.listen.Selecting? && s.listen.call in s.rpcs &&
                         (var c := s.rpcs[s.listen.call].channel; c.buffer.None? || c.closes > 0)
    case CallbackSkip => s.listen.Selecting? && s.listen.call in s.rpcs &&
                         s.rpcs[s.listen.call].ctx in s.cancelled
    case CallbackDelete => s.listen.Deleting? && s.listen.call in s.rpcs
    case CallbackClose => s.listen.Closing? && s.listen.call in s.rpcs
    case TickFire => s.ticker.TickWait?
    case TickCheck => s.ticker.TickTaken?
    case TickStop => (s.ticker.TickWait? || s.ticker.TickOffer?) && CLIENT in s.cancelled
    case Handoff(fromTicker) => s.echo.EchoIdle? && if fromTicker then s.ticker.TickOffer? else s.listen.EchoOffer?
    case EchoStop => s.echo.EchoIdle? && CLIENT in s.cancelled
    case EchoCheck(t) => s.echo.EchoTaken? && t !in s.rpcs
    case EchoReport(ok) => s.echo.EchoCalling? && s.echo.call in s.rpcs && s.rpcs[s.echo.call].pc.Done? &&
                           (ok ==> s.rpcs[s.echo.call].pc.outcome.Got?)
    case CloseCancel => s.close.NotClosing?
    case CloseConn(_) => s.close.CancelDone?
    case CloseReturn => s.close.ConnClosed? && AllExited(s)
  }

  function SetPc(s: State, t: Call, pc: Pc): State
    requires t in s.rpcs
  {
    s.(rpcs := s.rpcs[t := s.rpcs[t].(pc := pc)])
  }

  function SetChannel(s: State, t: Call, c: Channel): State
    requires t in s.rpcs
  {
    s.(rpcs := s.rpcs[t := s.rpcs[t].(channel := c)])
  }

  function Consume(s: State): nat { if s.pending > 0 then s.pending - 1 else 0 }

  function NewRpc(ctx: Context): Rpc { Rpc(ctx, 0, 0, Start, FRESH) }

  // ---------- Steps of an rpc call ----------

  function DoCheck(s: State, t: Call): State
    requires Enabled(s, Check(t))
  {
    SetPc(s, t, if s.rpcs[t].ctx in s.cancelled then Done(NotSent) else Checked)
  }

  function DoNumber(s: State, t: Call): State
    requires Enabled(s, Number(t))
  {
    var id := s.nextId + 1;
    s.(nextId := id, rpcs := s.rpcs[t := s.rpcs[t].(id := id, pc := Registering)])
  }

  function DoRegister(s: State, t: Call): State
    requires Enabled(s, Register(t))
  {
    var r := s.rpcs[t];
    if Key(r.id) in s.callbacks then s.(fault := Some(AlreadyRegistered))
    else s.(callbacks := s.callbacks[Key(r.id) := Callback(r.ctx, t)],
            rpcs := s.rpcs[t := r.(regAt := |s.log|, pc := Sending)])
  }

  // A message waiting in the channel is received even after the channel was closed.
  function DoTakeChannel(s: State, t: Call): State
    requires Enabled(s, TakeChannel(t))
  {
    var r := s.rpcs[t];
    match r.channel.buffer
    case Some(m) => s.(rpcs := s.rpcs[t := r.(pc := Returning(Got(m)), channel := r.channel.(buffer := None))])
    case None => SetPc(s, t, Returning(Woken(r.ctx in s.cancelled)))
  }

  function DoCleanup(s: State, t: Call): State
    requires Enabled(s, Cleanup(t))
  {
    var r := s.rpcs[t];
    SetPc(s, t, Done(r.pc.outcome)).(callbacks := s.callbacks - {Key(r.id)})
  }

  // ---------- Steps of doCallback ----------

  function DoLock(s: State): State
    requires Enabled(s, Lock)
  {
    var s' := s.(log := s.log + [s.listen.msg]);
    var id := s.listen.msg.id;
    if id in s.callbacks then s'.(listen := Selecting(s.callbacks[id].owner, id, |s.log|))
    else s'.(listen := Receiving)
  }

  function DoCallbackSend(s: State): State
    requires Enabled(s, CallbackSend)
  {
    var t := s.listen.call;
    var c := s.rpcs[t].channel;
    if c.closes > 0 then s.(fault := Some(SendOnClosed))
    else SetChannel(s, t, Channel(Some(s.listen.position), c.sends + 1, 0)).(listen := Deleting(t, s.listen.id))
  }

  function DoCallbackSkip(s: State): State
    requires Enabled(s, CallbackSkip)
  {
    s.(listen := Deleting(s.listen.call, s.listen.id))
  }

  function DoCallbackDelete(s: State): State
    requires Enabled(s, CallbackDelete)
  {
    s.(listen := Closing(s.listen.call), callbacks := s.callbacks - {s.listen.id})
  }

  function DoCallbackClose(s: State): State
    requires Enabled(s, CallbackClose)
  {
    var t := s.listen.call;
    var c := s.rpcs[t].channel;
    if c.closes > 0 then s.(fault := Some(CloseOfClosed))
    else SetChannel(s, t, c.(closes := 1)).(listen := Receiving)
  }

  // ---------- Steps of the echo goroutines ----------

  function DoHandoff(s: State, fromTicker: bool): State
    requires Enabled(s, Handoff(fromTicker))
  {
    if fromTicker then s.(echo := EchoTaken, ticker := TickWait)
    else s.(echo := EchoTaken, listen := Receiving)
  }

  function DoEchoCheck(s: State, t: Call): State
    requires Enabled(s, EchoCheck(t))
  {
    if CLIENT in s.cancelled then s.(echo := EchoExited)
    else s.(echo := EchoCalling(t), rpcs := s.rpcs[t := NewRpc(CLIENT)])
  }

  // An echo whose Send failed on the closed connection is not counted.
  function DoEchoReport(s: State, ok: bool): State
    requires Enabled(s, EchoReport(ok))
  {
    var skip := s.rpcs[s.echo.call].pc.outcome == SendFailed(true);
    s.(echo := EchoIdle,
       echoOK := s.echoOK + (if ok then 1 else 0),
       echoFail := s.echoFail + (if ok || skip then 0 else 1))
  }

  function Apply(s: State, e: Event): State
    requires Enabled(s, e)
  {
    match e
    case Begin(t, ctx) => s.(rpcs := s.rpcs[t := NewRpc(ctx)])
    case Check(t) => DoCheck(s, t)
    case Number(t) => DoNumber(s, t)
    case Register(t) => DoRegister(s, t)
    case Send(t, ok) => SetPc(s, t, if ok then Waiting else Returning(SendFailed(!ConnOpen(s))))
    case TakeCancel(t) => SetPc(s, t, Returning(Cancelled))
    case TakeChannel(t) => DoTakeChannel(s, t)
    case Cleanup(t) => DoCleanup(s, t)
    case CancelContext(ctx) => s.(cancelled := s.cancelled + {ctx})
    case ReceiveMessage(msg) => s.(listen := Dispatching(msg), pending := Consume(s))
    case ReceiveEcho => s.(listen := EchoOffer, pending := Consume(s))
    case ReceiveError => s.(pending := Consume(s))
    case ReceiveEnd => s.(listen := ListenExited)
    case OfferAbandoned => s.(listen := Receiving)
    case Lock => DoLock(s)
    case CallbackSend => DoCallbackSend(s)
    case CallbackSkip => DoCallbackSkip(s)
    case CallbackDelete => DoCallbackDelete(s)
    case CallbackClose => DoCallbackClose(s)
    case TickFire => s.(ticker := TickTaken)
    case TickCheck => s.(ticker := if CLIENT in s.cancelled then TickExited else TickOffer)
    case TickStop => s.(ticker := TickExited)
    case Handoff(fromTicker) => DoHandoff(s, fromTicker)
    case EchoStop => s.(echo := EchoExited)
    case EchoCheck(t) => DoEchoCheck(s, t)
    case EchoReport(ok) => DoEchoReport(s, ok)
    case CloseCancel => s.(close := CancelDone, cancelled := s.cancelled + {CLIENT})
    case CloseConn(left) => s.(close := ConnClosed, pending := left)
    case CloseReturn => s.(close := CloseReturned)
  }

  // ---------- Runs ----------

  predicate IsRun(s: State, events: seq<Event>)
    decreases |events|
  {
    events == [] || (Enabled(s, events[0]) && IsRun(Apply(s, events[0]), events[1..]))
  }

  function After(s: State, events: seq<Event>): State
    requires IsRun(s, events)
    decreases |events|
  {
    if events == [] then s else After(Apply(s, events[0]), events[1..])
  }

  ghost predicate Reachable(s: State) {
    exists interval, events :: IsRun(Initial(interval), events) && After(Initial(interval), events) == s
  }
}
