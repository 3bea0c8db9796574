/** One connection on the control plane: the read loop, the request and bridge
    tables behind the mutex, and the goroutines of every request and bridge,
    interleaved one critical section or channel operation at a time. */
module Multiplex {
  import opened Wrappers
  import opened Utf8
  import opened Payload
  import opened Ids
  import R = Request

  datatype Frame =
    | ForRequest(id: Id, f: R.ReqFrame)
    | WsUp(id: Id)
    | WsMsg(id: Id, body: Payload)
    | WsClose(id: Id)
    | Unrelated      // telemetry, pong, and kinds this build does not know
    | Malformed

  type Message = seq<Byte>

  /** One bridged socket; `owed` counts the goroutines that took it out of the
      table and have yet to close its queue, `closes` the closes so far. */
  datatype Bridge = Bridge(
    up: bool, messages: seq<Message>, owed: nat, closes: nat,
    log: seq<Message>, taken: seq<Message>, lost: seq<Message>)

  const NEW_BRIDGE: Bridge := Bridge(false, [], 0, 0, [], [], [])

  datatype Loop = Idle | HoldsReq(id: Id, held: R.Held) | HoldsMsg(id: Id, message: Message) | Stopped

  /** The shutdown: the queues it swept up and has still to close. */
  datatype Sweep = NotYet | Sweeping(bridges: set<Id>, requests: set<Id>) | Swept

  /** `panicked` is a history: the read loop sent to a closed queue, and the panic
      ended it. `crashed` would be a channel closed twice, in whichever goroutine;
      the invariant says that it never is. */
  datatype State = State(
    nextId: nat,
    reqs: map<Id, R.Req>, table: set<Id>,
    bridges: map<Id, Bridge>, bridgeTable: set<Id>,
    closed: bool, sweep: Sweep, doneCloses: nat,
    loop: Loop, panicked: bool, crashed: bool)

  const INITIAL: State := State(0, map[], {}, map[], {}, false, NotYet, 0, Idle, false, false)

  datatype Action =
    | Enlist                           // Do takes the lock
    | Own(id: Id, a: R.Local)
    | SettleLock(id: Id) | SettleClose(id: Id)
    | OpenBridge                       // OpenWS takes the lock
    | DropLock(id: Id) | DropClose(id: Id)
    | TakeMessage(id: Id)
    | Receive(f: Frame) | Deliver | LoopStop
    | ShutLock | ShutBridge(id: Id) | ShutRequest(id: Id) | ShutDone

  predicate Enabled(s: State, a: Action) {
    && !s.crashed
    && match a
       case Enlist => !s.closed && s.nextId + 1 < COUNTER_LIMIT
       case Own(id, l) => id in s.reqs && R.LocalEnabled(s.reqs[id], s.doneCloses > 0, l)
       case SettleLock(id) => id in s.reqs && s.reqs[id].pc == R.Settling
       case SettleClose(id) => id in s.reqs && s.reqs[id].pc == R.Closing
       case OpenBridge => !s.closed && s.nextId + 1 < COUNTER_LIMIT
       case DropLock(id) => true
       case DropClose(id) => id in s.bridges && s.bridges[id].owed > 0 && !(s.sweep.Sweeping? && id in s.sweep.bridges)
       case TakeMessage(id) => id in s.bridges && s.bridges[id].messages != []
       case Receive(_) => s.loop == Idle
       case Deliver => CanDeliver(s)
       case LoopStop => s.loop == Idle || s.loop.HoldsMsg? || (s.loop.HoldsReq? && s.loop.held.HeldItem?)
       case ShutLock => s.loop == Stopped
       case ShutBridge(id) => s.sweep.Sweeping? && id in s.sweep.bridges && id in s.bridges && s.bridges[id].owed > 0
       case ShutRequest(id) => s.sweep.Sweeping? && s.sweep.bridges == {} && id in s.sweep.requests && id in s.reqs
       case ShutDone => s.sweep == Sweeping({}, {})
  }

  predicate CanDeliver(s: State) {
    match s.loop
    case HoldsReq(id, h) => id in s.reqs && R.CanSend(s.reqs[id], h)
    case HoldsMsg(id, _) => id in s.bridges && (s.bridges[id].closes > 0 || |s.bridges[id].messages| < R.STREAM_BUFFER)
    case _ => false
  }

  /** Closing a channel twice panics. */
  function CloseMessages(s: State, id: Id): State
    requires id in s.bridges && s.bridges[id].owed > 0
  {
    var b := s.bridges[id];
    if b.closes > 0 then s.(crashed := true)
    else s.(bridges := s.bridges[id := b.(owed := b.owed - 1, closes := 1)])
  }

  function Dispatch(s: State, f: Frame): State {
    match f
    case ForRequest(id, rf) =>
      if id !in s.table || id !in s.reqs then s
      else
        var (r, out) := R.Accept(s.reqs[id], rf);
        var s' := s.(reqs := s.reqs[id := r]);
        (match out
         case Hold(h) => s'.(loop := HoldsReq(id, h))
         case Done => s'
         case Fatal => s'.(loop := Stopped))
    case WsUp(id) =>
      if id !in s.bridgeTable || id !in s.bridges then s
      else s.(bridges := s.bridges[id := s.bridges[id].(up := true)])
    case WsMsg(id, body) =>
      if id !in s.bridgeTable || id !in s.bridges then s
      else (match Bytes(body)
            case Ok(m) =>
              var b := s.bridges[id];
              s.(bridges := s.bridges[id := b.(log := b.log + [m])], loop := HoldsMsg(id, m))
            case Err(_) => s.(loop := Stopped))
    case WsClose(id) => DropBridge(s, id)
    case Unrelated => s
    case Malformed => s.(loop := Stopped)
  }

  /** `dropBridge` under the lock: only who finds the bridge will close it. */
  function DropBridge(s: State, id: Id): State {
    if id !in s.bridgeTable || id !in s.bridges then s
    else
      var b := s.bridges[id];
      s.(bridgeTable := s.bridgeTable - {id}, bridges := s.bridges[id := b.(owed := b.owed + 1)])
  }

  function DeliverHeld(s: State): State
    requires CanDeliver(s)
  {
    match s.loop
    case HoldsReq(id, h) =>
      if R.SendPanics(s.reqs[id], h) then StopLoop(s).(panicked := true)
      else s.(loop := Idle, reqs := s.reqs[id := R.Send(s.reqs[id], h)])
    case HoldsMsg(id, m) =>
      var b := s.bridges[id];
      if b.closes > 0 then StopLoop(s).(panicked := true)
      else s.(loop := Idle, bridges := s.bridges[id := b.(messages := b.messages + [m])])
  }

  function StopLoop(s: State): State {
    match s.loop
    case HoldsReq(id, h) =>
      if id !in s.reqs then s.(loop := Stopped)
      else s.(loop := Stopped, reqs := s.reqs[id := s.reqs[id].(lost := s.reqs[id].lost + R.Items([h]))])
    case HoldsMsg(id, m) =>
      if id !in s.bridges then s.(loop := Stopped)
      else s.(loop := Stopped, bridges := s.bridges[id := s.bridges[id].(lost := s.bridges[id].lost + [m])])
    case _ => s.(loop := Stopped)
  }

  /** The shutdown takes every table entry in one critical section. */
  function ShutTables(s: State): State {
    if s.closed then s
    else s.(closed := true, sweep := Sweeping(s.bridgeTable, s.table), table := {}, bridgeTable := {},
            bridges := map id | id in s.bridges ::
              if id in s.bridgeTable then s.bridges[id].(owed := s.bridges[id].owed + 1) else s.bridges[id])
  }

  /** `Do` and `OpenWS` under the lock. */
  function EnlistRequest(s: State): State {
    var id := RequestId(s.nextId + 1);
    s.(nextId := s.nextId + 1, reqs := s.reqs[id := R.NEW_REQ], table := s.table + {id})
  }

  function EnlistBridge(s: State): State {
    var id := BridgeId(s.nextId + 1);
    s.(nextId := s.nextId + 1, bridges := s.bridges[id := NEW_BRIDGE], bridgeTable := s.bridgeTable + {id})
  }

  /** `settle` under the lock, and the close that follows it. */
  function LeaveTable(s: State, id: Id): State
    requires id in s.reqs
  {
    var pc := if id in s.table then R.Closing else R.Finished;
    s.(table := s.table - {id}, reqs := s.reqs[id := s.reqs[id].(pc := pc)])
  }

  function CloseChunks(s: State, id: Id): State
    requires id in s.reqs
  {
    s.(reqs := s.reqs[id := s.reqs[id].(chunksClosed := true, pc := R.Finished)])
  }

  function TakeNext(s: State, id: Id): State
    requires id in s.bridges && s.bridges[id].messages != []
  {
    var b := s.bridges[id];
    s.(bridges := s.bridges[id := b.(messages := b.messages[1..], taken := b.taken + [b.messages[0]])])
  }

  function SweepBridge(s: State, id: Id): State
    requires s.sweep.Sweeping? && id in s.bridges && s.bridges[id].owed > 0
  {
    var s' := CloseMessages(s, id);
    if s'.crashed then s' else s'.(sweep := Sweeping(s.sweep.bridges - {id}, s.sweep.requests))
  }

  function SweepRequest(s: State, id: Id): State
    requires s.sweep.Sweeping? && id in s.reqs
  {
    s.(sweep := Sweeping(s.sweep.bridges, s.sweep.requests - {id}),
       reqs := s.reqs[id := s.reqs[id].(chunksClosed := true)])
  }

  function CloseDone(s: State): State {
    if s.doneCloses > 0 then s.(crashed := true) else s.(sweep := Swept, doneCloses := 1)
  }

  function Step(s: State, a: Action): State
    requires Enabled(s, a)
  {
    match a
    case Enlist => EnlistRequest(s)
    case Own(id, l) => s.(reqs := s.reqs[id := R.LocalStep(s.reqs[id], l)])
    case SettleLock(id) => LeaveTable(s, id)
    case SettleClose(id) => CloseChunks(s, id)
    case OpenBridge => EnlistBridge(s)
    case DropLock(id) => DropBridge(s, id)
    case DropClose(id) => CloseMessages(s, id)
    case TakeMessage(id) => TakeNext(s, id)
    case Receive(f) => Dispatch(s, f)
    case Deliver => DeliverHeld(s)
    case LoopStop => StopLoop(s)
    case ShutLock => ShutTables(s)
    case ShutBridge(id) => SweepBridge(s, id)
    case ShutRequest(id) => SweepRequest(s, id)
    case ShutDone => CloseDone(s)
  }

  // ── What one request sees of all this ──

  function HeldFor(s: State, id: Id): seq<R.Held> {
    if s.loop.HoldsReq? && s.loop.id == id then [s.loop.held] else []
  }

  function View(s: State, id: Id): R.View
    requires id in s.reqs
  {
    R.View(s.reqs[id], id in s.table, HeldFor(s, id), s.loop == Stopped, s.closed,
           s.sweep.Sweeping? && id in s.sweep.requests, s.doneCloses > 0)
  }

  /** A step of the connection as request `id` sees it: its own steps and frames
      as they are, whatever ends the read loop as an end of the wire, and the
      rest not at all. */
  function Seen(s: State, a: Action, id: Id): Option<R.Action>
    requires Enabled(s, a)
  {
    match a
    case Own(i, l) => if i == id then Some(R.Own(l)) else None
    case SettleLock(i) => if i == id then Some(R.SettleLock) else None
    case SettleClose(i) => if i == id then Some(R.SettleClose) else None
    case Receive(f) =>
      if f.ForRequest? && f.id == id then Some(R.Receive(f.f))
      else if Step(s, a).loop == Stopped then Some(R.Stop) else None
    case Deliver =>
      if s.loop.HoldsReq? && s.loop.id == id then Some(R.Deliver)
      else if Step(s, a).loop == Stopped then Some(R.Stop) else None
    case LoopStop => Some(R.Stop)
    case ShutLock => if s.closed then None else Some(R.Shut)
    case ShutRequest(i) => if i == id then Some(R.Sweep) else None
    case ShutDone => Some(R.Finish)
    case _ => None
  }

  // ── What every step keeps ──

  function HeldMessage(s: State, id: Id): seq<Message> {
    if s.loop.HoldsMsg? && s.loop.id == id then [s.loop.message] else []
  }

  /** Exactly one of: in the table, owed a close, closed; and no message lost,
      repeated or reordered while the read loop lives. */
  predicate BridgeGood(s: State, id: Id)
    requires id in s.bridges
  {
    var b := s.bridges[id];
    && (if id in s.bridgeTable then 1 else 0) + b.owed + b.closes == 1
    && (s.sweep.Sweeping? && id in s.sweep.bridges ==> b.owed == 1)
    && b.log == b.taken + b.messages + HeldMessage(s, id) + b.lost
    && (b.lost != [] ==> s.loop == Stopped)
    && |b.messages| <= R.STREAM_BUFFER
  }

  /** Every id was minted by the counter, so the next one is new. */
  predicate Minted(s: State) {
    && (forall id | id in s.reqs :: id == RequestId(Value(id)) && Value(id) <= s.nextId)
    && (forall id | id in s.bridges :: id == BridgeId(BridgeValue(id)) && BridgeValue(id) <= s.nextId)
  }

  function BridgeValue(id: Id): nat { if id == [] then 0 else Value(id[1..]) }

  function Value(digits: string): nat { if Number(digits) < 0 then 0 else Number(digits) }

  predicate Framed(s: State) {
    && s.table <= s.reqs.Keys && s.bridgeTable <= s.bridges.Keys
    && (s.loop.HoldsReq? ==> s.loop.id in s.reqs) && (s.loop.HoldsMsg? ==> s.loop.id in s.bridges)
    && (s.closed <==> s.sweep != NotYet)
    && (s.closed ==> s.loop == Stopped && s.table == {} && s.bridgeTable == {})
    && (s.sweep.Sweeping? ==> s.sweep.bridges <= s.bridges.Keys && s.sweep.requests <= s.reqs.Keys)
    && s.doneCloses == (if s.sweep == Swept then 1 else 0)
  }

  ghost predicate Inv(s: State) {
    && Minted(s) && Framed(s) && !s.crashed
    && (forall id | id in s.reqs :: R.Good(View(s, id)))
    && (forall id | id in s.bridges :: BridgeGood(s, id))
  }

  lemma NextIdIsNew(s: State)
    requires Minted(s)
    ensures RequestId(s.nextId + 1) !in s.reqs && BridgeId(s.nextId + 1) !in s.bridges
    ensures Value(RequestId(s.nextId + 1)) == s.nextId + 1
    ensures BridgeValue(BridgeId(s.nextId + 1)) == s.nextId + 1
  {
    NumberOfDecimal(s.nextId + 1);
    assert BridgeId(s.nextId + 1)[1..] == Decimal(s.nextId + 1);
  }

  /** Only `Enlist` and `OpenBridge` add entries, each under the next id. */
  lemma DispatchKeys(s: State, f: Frame)
    ensures var t := Dispatch(s, f);
            && t.reqs.Keys == s.reqs.Keys && t.bridges.Keys == s.bridges.Keys && t.nextId == s.nextId
  {
    if f.ForRequest? && f.id in s.table && f.id in s.reqs {
      var r := R.Accept(s.reqs[f.id], f.f).0;
      assert s.reqs[f.id := r].Keys == s.reqs.Keys;
    }
  }

  lemma LoopKeys(s: State, a: Action)
    requires Enabled(s, a) && (a.Deliver? || a.LoopStop?)
    ensures Step(s, a).reqs.Keys == s.reqs.Keys && Step(s, a).bridges.Keys == s.bridges.Keys
    ensures Step(s, a).nextId == s.nextId
  {
  }

  lemma MintKeys(s: State, a: Action)
    requires Enabled(s, a) && (a.Enlist? || a.OpenBridge?)
    ensures Step(s, a).reqs.Keys == s.reqs.Keys + (if a.Enlist? then {RequestId(s.nextId + 1)} else {})
    ensures Step(s, a).bridges.Keys == s.bridges.Keys + (if a.OpenBridge? then {BridgeId(s.nextId + 1)} else {})
    ensures Step(s, a).nextId == s.nextId + 1
  {
  }

  lemma SweepKeys(s: State, a: Action)
    requires Enabled(s, a) && (a.ShutLock? || a.ShutBridge? || a.ShutRequest? || a.ShutDone?)
    ensures Step(s, a).reqs.Keys == s.reqs.Keys && Step(s, a).bridges.Keys == s.bridges.Keys
    ensures Step(s, a).nextId == s.nextId
  {
  }

  lemma OtherKeys(s: State, a: Action)
    requires Enabled(s, a)
    requires !a.Receive? && !a.Deliver? && !a.LoopStop? && !a.Enlist? && !a.OpenBridge?
    ensures Step(s, a).reqs.Keys == s.reqs.Keys && Step(s, a).bridges.Keys == s.bridges.Keys
    ensures Step(s, a).nextId == s.nextId
  {
    if a.ShutLock? || a.ShutBridge? || a.ShutRequest? || a.ShutDone? {
      SweepKeys(s, a);
    }
  }

  lemma StepKeys(s: State, a: Action)
    requires Enabled(s, a)
    ensures Step(s, a).reqs.Keys == s.reqs.Keys + (if a.Enlist? then {RequestId(s.nextId + 1)} else {})
    ensures Step(s, a).bridges.Keys == s.bridges.Keys + (if a.OpenBridge? then {BridgeId(s.nextId + 1)} else {})
    ensures Step(s, a).nextId == s.nextId + (if a.Enlist? || a.OpenBridge? then 1 else 0)
  {
    match a
    case Receive(f) => DispatchKeys(s, f);
    case Deliver => LoopKeys(s, a);
    case LoopStop => LoopKeys(s, a);
    case Enlist => MintKeys(s, a);
    case OpenBridge => MintKeys(s, a);
    case _ => OtherKeys(s, a);
  }

  lemma MintedStep(s: State, a: Action)
    requires Minted(s) && Enabled(s, a)
    ensures Minted(Step(s, a))
  {
    NextIdIsNew(s);
    StepKeys(s, a);
  }

  lemma FramedDispatch(s: State, f: Frame)
    requires Framed(s) && s.loop == Idle
    ensures Framed(Dispatch(s, f))
  {
    DispatchKeys(s, f);
  }

  lemma FramedStop(s: State)
    requires Framed(s)
    ensures Framed(StopLoop(s)) && Framed(StopLoop(s).(panicked := true))
  {
  }

  lemma FramedDeliver(s: State)
    requires Framed(s) && Enabled(s, Deliver)
    ensures Framed(DeliverHeld(s))
  {
    FramedStop(s);
  }

  lemma FramedOther(s: State, a: Action)
    requires Framed(s) && Enabled(s, a) && !Step(s, a).crashed
    requires !a.Receive? && !a.Deliver? && !a.LoopStop?
    ensures Framed(Step(s, a))
  {
    StepKeys(s, a);
  }

  lemma FramedStep(s: State, a: Action)
    requires Framed(s) && Enabled(s, a) && !Step(s, a).crashed
    ensures Framed(Step(s, a))
  {
    match a
    case Receive(f) => FramedDispatch(s, f);
    case Deliver => FramedDeliver(s);
    case LoopStop => FramedStop(s);
    case _ => FramedOther(s, a);
  }

  predicate Agrees(s: State, a: Action, id: Id)
    requires Enabled(s, a) && id in s.reqs
  {
    && id in Step(s, a).reqs
    && match Seen(s, a, id)
       case None => View(Step(s, a), id) == View(s, id)
       case Some(ra) => R.Enabled(View(s, id), ra) && View(Step(s, a), id) == R.Step(View(s, id), ra)
  }

  lemma ViewOfOwnFrame(s: State, f: R.ReqFrame, id: Id)
    requires Framed(s) && Enabled(s, Receive(ForRequest(id, f))) && id in s.reqs
    ensures Agrees(s, Receive(ForRequest(id, f)), id)
  {
  }

  lemma ViewOfOtherFrame(s: State, f: Frame, id: Id)
    requires Framed(s) && Enabled(s, Receive(f)) && id in s.reqs && !(f.ForRequest? && f.id == id)
    ensures Agrees(s, Receive(f), id)
  {
  }

  lemma ViewOfStop(s: State, id: Id)
    requires Framed(s) && id in s.reqs && Enabled(s, LoopStop)
    ensures Agrees(s, LoopStop, id)
  {
  }

  lemma ViewOfSend(s: State, id: Id)
    requires Framed(s) && Enabled(s, Deliver) && !SendsToClosed(s) && id in s.reqs
    ensures Agrees(s, Deliver, id)
  {
  }

  lemma ViewOfPanic(s: State, id: Id)
    requires Framed(s) && Enabled(s, Deliver) && SendsToClosed(s) && id in s.reqs
    ensures Agrees(s, Deliver, id)
  {
    DeliverPanics(s);
  }

  lemma ViewOfLoop(s: State, a: Action, id: Id)
    requires Framed(s) && Enabled(s, a) && id in s.reqs
    requires a.Deliver? || a.LoopStop?
    ensures Agrees(s, a, id)
  {
    if a == LoopStop {
      ViewOfStop(s, id);
    } else if SendsToClosed(s) {
      ViewOfPanic(s, id);
    } else {
      ViewOfSend(s, id);
    }
  }

  lemma ViewOfShutdown(s: State, a: Action, id: Id)
    requires Framed(s) && Enabled(s, a) && !Step(s, a).crashed && id in s.reqs
    requires a.ShutLock? || a.ShutBridge? || a.ShutRequest? || a.ShutDone?
    ensures Agrees(s, a, id)
  {
  }

  lemma ViewOfRest(s: State, a: Action, id: Id)
    requires Framed(s) && Enabled(s, a) && !Step(s, a).crashed && id in s.reqs
    requires a.Own? || a.SettleLock? || a.SettleClose? || a.DropLock? || a.DropClose? || a.TakeMessage?
    ensures Agrees(s, a, id)
  {
  }

  lemma ViewOfMint(s: State, a: Action, id: Id)
    requires Minted(s) && Framed(s) && Enabled(s, a) && id in s.reqs && (a.Enlist? || a.OpenBridge?)
    ensures Agrees(s, a, id)
  {
    NextIdIsNew(s);
  }

  /** Requests do not interfere: a step of the connection moves each request
      exactly as the request by itself would move on what it sees of the step. */
  lemma StepAgrees(s: State, a: Action, id: Id)
    requires Minted(s) && Framed(s) && Enabled(s, a) && !Step(s, a).crashed && id in s.reqs
    ensures Agrees(s, a, id)
  {
    match a
    case Receive(f) =>
      if f.ForRequest? && f.id == id {
        ViewOfOwnFrame(s, f.f, id);
      } else {
        ViewOfOtherFrame(s, f, id);
      }
    case Deliver => ViewOfLoop(s, a, id);
    case LoopStop => ViewOfLoop(s, a, id);
    case Enlist => ViewOfMint(s, a, id);
    case OpenBridge => ViewOfMint(s, a, id);
    case ShutLock => ViewOfShutdown(s, a, id);
    case ShutBridge(_) => ViewOfShutdown(s, a, id);
    case ShutRequest(_) => ViewOfShutdown(s, a, id);
    case ShutDone => ViewOfShutdown(s, a, id);
    case _ => ViewOfRest(s, a, id);
  }

  /** A step that takes no frame accepts nothing for any request. */
  lemma OnlyFramesAreAccepted(s: State, a: Action, id: Id)
    requires Minted(s) && Framed(s) && Enabled(s, a) && !Step(s, a).crashed && id in s.reqs && !a.Receive?
    ensures id in Step(s, a).reqs && Step(s, a).reqs[id].log == s.reqs[id].log
    ensures id in Step(s, a).table ==> id in s.table
    ensures s.loop == Stopped ==> Step(s, a).loop == Stopped
  {
    StepAgrees(s, a, id);
    var v, t := View(s, id), View(Step(s, a), id);
    if Seen(s, a, id).Some? {
      R.OnlyFramesAreAccepted(v, Seen(s, a, id).value);
    }
    assert t.req.log == v.req.log && (t.inTable ==> v.inTable) && (v.stopped ==> t.stopped);
  }

  /** A bridge keeps its log, its table entry is never put back, and the read loop
      stays stopped. */
  predicate NoNewMessage(s: State, t: State, id: Id)
    requires id in s.bridges
  {
    && id in t.bridges && t.bridges[id].log == s.bridges[id].log
    && (id in t.bridgeTable ==> id in s.bridgeTable)
    && (s.loop == Stopped ==> t.loop == Stopped)
  }

  lemma MintBringsNoMessage(s: State, a: Action, id: Id)
    requires Minted(s) && Enabled(s, a) && id in s.bridges && (a.Enlist? || a.OpenBridge?)
    ensures NoNewMessage(s, Step(s, a), id)
  {
    NextIdIsNew(s);
  }

  lemma LoopBringsNoMessage(s: State, a: Action, id: Id)
    requires Enabled(s, a) && id in s.bridges && (a.Deliver? || a.LoopStop?)
    ensures NoNewMessage(s, Step(s, a), id)
  {
  }

  lemma SweepBringsNoMessage(s: State, a: Action, id: Id)
    requires Enabled(s, a) && id in s.bridges && (a.ShutLock? || a.ShutBridge? || a.ShutRequest? || a.ShutDone?)
    ensures NoNewMessage(s, Step(s, a), id)
  {
  }

  lemma OwnersBringNoMessage(s: State, a: Action, id: Id)
    requires Enabled(s, a) && id in s.bridges
    requires a.Own? || a.SettleLock? || a.SettleClose? || a.DropLock? || a.DropClose? || a.TakeMessage?
    ensures NoNewMessage(s, Step(s, a), id)
  {
  }

  /** So for the messages of a bridge. */
  lemma OnlyFramesBringMessages(s: State, a: Action, id: Id)
    requires Minted(s) && Enabled(s, a) && id in s.bridges && !a.Receive?
    ensures NoNewMessage(s, Step(s, a), id)
  {
    match a
    case Enlist => MintBringsNoMessage(s, a, id);
    case OpenBridge => MintBringsNoMessage(s, a, id);
    case Deliver => LoopBringsNoMessage(s, a, id);
    case LoopStop => LoopBringsNoMessage(s, a, id);
    case ShutLock => SweepBringsNoMessage(s, a, id);
    case ShutBridge(_) => SweepBringsNoMessage(s, a, id);
    case ShutRequest(_) => SweepBringsNoMessage(s, a, id);
    case ShutDone => SweepBringsNoMessage(s, a, id);
    case _ => OwnersBringNoMessage(s, a, id);
  }

  /** What a frame leaves alone: the other requests and the request table. */
  lemma DispatchElsewhere(s: State, f: Frame, id: Id)
    requires id in s.reqs && !(f.ForRequest? && f.id == id)
    ensures var t := Dispatch(s, f);
            id in t.reqs && t.reqs[id] == s.reqs[id] && t.table == s.table
  {
  }

  lemma DispatchOwn(s: State, f: R.ReqFrame, id: Id)
    requires id in s.reqs && s.loop == Idle
    ensures var t := Dispatch(s, ForRequest(id, f));
            && id in t.reqs && t.table == s.table
            && t.reqs[id].log == (if id in s.table then R.Accept(s.reqs[id], f).0.log else s.reqs[id].log)
            && (t.loop == Stopped <==> id in s.table && R.Accept(s.reqs[id], f).1.Fatal?)
  {
  }

  lemma BridgeGoodDispatch(s: State, f: Frame, id: Id)
    requires Framed(s) && s.loop == Idle && id in s.bridges && BridgeGood(s, id)
    ensures id in Dispatch(s, f).bridges && BridgeGood(Dispatch(s, f), id)
  {
    DispatchKeys(s, f);
    if f.WsMsg? && f.id == id && id in s.bridgeTable && Bytes(f.body).Ok? {
      var b, m := s.bridges[id], Bytes(f.body).value;
      assert b.log == b.taken + b.messages;
      assert b.log + [m] == b.taken + b.messages + [m] + [];
    }
  }

  lemma BridgeGoodStop(s: State, id: Id)
    requires Framed(s) && s.loop != Stopped && id in s.bridges && BridgeGood(s, id)
    ensures id in StopLoop(s).bridges && BridgeGood(StopLoop(s).(panicked := true), id)
    ensures BridgeGood(StopLoop(s), id)
  {
  }

  lemma BridgeGoodSend(s: State, id: Id)
    requires Framed(s) && Enabled(s, Deliver) && !SendsToClosed(s) && id in s.bridges && BridgeGood(s, id)
    ensures id in Step(s, Deliver).bridges && BridgeGood(Step(s, Deliver), id)
  {
  }

  lemma BridgeGoodLoop(s: State, a: Action, id: Id)
    requires Framed(s) && Enabled(s, a) && id in s.bridges && BridgeGood(s, id)
    requires a.Deliver? || a.LoopStop?
    ensures id in Step(s, a).bridges && BridgeGood(Step(s, a), id)
  {
    if a == Deliver && !SendsToClosed(s) {
      BridgeGoodSend(s, id);
    } else {
      if a == Deliver {
        DeliverPanics(s);
      }
      BridgeGoodStop(s, id);
    }
  }

  lemma BridgeGoodTake(s: State, other: Id, id: Id)
    requires Enabled(s, TakeMessage(other)) && id in s.bridges && BridgeGood(s, id)
    ensures id in Step(s, TakeMessage(other)).bridges && BridgeGood(Step(s, TakeMessage(other)), id)
  {
    var b := s.bridges[other];
    assert b.taken + [b.messages[0]] + b.messages[1..] == b.taken + b.messages;
  }

  lemma BridgeGoodShutdown(s: State, a: Action, id: Id)
    requires Framed(s) && Enabled(s, a) && !Step(s, a).crashed && id in s.bridges && BridgeGood(s, id)
    requires a.ShutLock? || a.ShutBridge? || a.ShutRequest? || a.ShutDone?
    ensures id in Step(s, a).bridges && BridgeGood(Step(s, a), id)
  {
  }

  lemma BridgeGoodTables(s: State, a: Action, id: Id)
    requires Framed(s) && Enabled(s, a) && !Step(s, a).crashed && id in s.bridges && BridgeGood(s, id)
    requires !a.Receive? && !a.Deliver? && !a.LoopStop? && !a.TakeMessage? && !a.Enlist? && !a.OpenBridge?
    ensures id in Step(s, a).bridges && BridgeGood(Step(s, a), id)
  {
    if a.ShutLock? || a.ShutBridge? || a.ShutRequest? || a.ShutDone? {
      BridgeGoodShutdown(s, a, id);
    }
  }

  lemma BridgeGoodEnlist(s: State, id: Id)
    requires Minted(s) && Framed(s) && Enabled(s, Enlist)
    requires id in s.bridges && BridgeGood(s, id)
    ensures id in Step(s, Enlist).bridges && BridgeGood(Step(s, Enlist), id)
  {
  }

  lemma BridgeGoodOpen(s: State, id: Id)
    requires Minted(s) && Framed(s) && Enabled(s, OpenBridge)
    requires id in s.bridges ==> BridgeGood(s, id)
    requires id in Step(s, OpenBridge).bridges
    ensures BridgeGood(Step(s, OpenBridge), id)
  {
    NextIdIsNew(s);
  }

  lemma BridgeGoodStep(s: State, a: Action, id: Id)
    requires Minted(s) && Framed(s) && Enabled(s, a) && !Step(s, a).crashed
    requires id in s.bridges ==> BridgeGood(s, id)
    requires id in Step(s, a).bridges
    ensures BridgeGood(Step(s, a), id)
  {
    StepKeys(s, a);
    match a
    case Enlist => BridgeGoodEnlist(s, id);
    case OpenBridge => BridgeGoodOpen(s, id);
    case Receive(f) => BridgeGoodDispatch(s, f, id);
    case Deliver => BridgeGoodLoop(s, a, id);
    case LoopStop => BridgeGoodLoop(s, a, id);
    case TakeMessage(other) => BridgeGoodTake(s, other, id);
    case _ => BridgeGoodTables(s, a, id);
  }

  lemma NewRequestIsGood(s: State, id: Id)
    requires Minted(s) && Framed(s) && Enabled(s, Enlist) && id == RequestId(s.nextId + 1)
    ensures R.Good(View(Step(s, Enlist), id))
  {
    NextIdIsNew(s);
  }

  /** The invariant holds after every step, a panic of the read loop included. */
  lemma InvStep(s: State, a: Action)
    requires Inv(s) && Enabled(s, a)
    ensures Inv(Step(s, a))
  {
    var t := Step(s, a);
    NeverClosedTwice(s, a);
    MintedStep(s, a);
    FramedStep(s, a);
    StepKeys(s, a);
    forall id | id in t.reqs
      ensures R.Good(View(t, id))
    {
      if id in s.reqs {
        StepAgrees(s, a, id);
        if Seen(s, a, id).Some? {
          R.GoodStep(View(s, id), Seen(s, a, id).value);
        }
      } else {
        NewRequestIsGood(s, id);
      }
    }
    forall id | id in t.bridges
      ensures BridgeGood(t, id)
    {
      BridgeGoodStep(s, a, id);
    }
  }

  // ── Whole runs ──

  ghost predicate Legal(s: State, acts: seq<Action>)
    decreases acts
  {
    acts == [] || (Enabled(s, acts[0]) && Legal(Step(s, acts[0]), acts[1..]))
  }

  ghost function Run(s: State, acts: seq<Action>): State
    requires Legal(s, acts)
    decreases acts
  {
    if acts == [] then s else Run(Step(s, acts[0]), acts[1..])
  }

  lemma {:induction false} InvRun(s: State, acts: seq<Action>)
    requires Inv(s) && Legal(s, acts)
    ensures Inv(Run(s, acts))
    decreases acts
  {
    if acts != [] {
      var t := Step(s, acts[0]);
      InvStep(s, acts[0]);
      InvRun(t, acts[1..]);
    }
  }

  /** `acts` is a run from `s` that ends in `t`. */
  ghost predicate Leads(s: State, acts: seq<Action>, t: State) { Legal(s, acts) && Run(s, acts) == t }

  lemma LeadsOne(s: State, a: Action, rest: seq<Action>, t: State)
    requires Enabled(s, a) && Leads(Step(s, a), rest, t)
    ensures Leads(s, [a] + rest, t)
  {
    assert ([a] + rest)[1..] == rest;
  }

  lemma {:induction false} LeadsOn(s: State, a: seq<Action>, t: State, b: seq<Action>, u: State)
    requires Leads(s, a, t) && Leads(t, b, u)
    ensures Leads(s, a + b, u)
    decreases a
  {
    if a == [] {
      assert a + b == b;
    } else {
      LeadsOn(Step(s, a[0]), a[1..], t, b, u);
      assert a + b == [a[0]] + (a[1..] + b);
      LeadsOne(s, a[0], a[1..] + b, u);
    }
  }

  /** Every state a fresh connection can come to satisfies the invariant. */
  lemma ReachableIsInv(acts: seq<Action>)
    requires Legal(INITIAL, acts)
    ensures Inv(Run(INITIAL, acts))
  {
    InvRun(INITIAL, acts);
  }

  /** What request `id` sees of a whole run. */
  ghost function SeenRun(s: State, acts: seq<Action>, id: Id): seq<R.Action>
    requires Legal(s, acts)
    decreases acts
  {
    if acts == [] then []
    else
      var seen := Seen(s, acts[0], id);
      (if seen.Some? then [seen.value] else []) + SeenRun(Step(s, acts[0]), acts[1..], id)
  }

  /** Demultiplexing does not interfere: over any run, with any interleaving of
      other requests, bridges and frames, a request's counter, queues, pipe and
      slot end exactly as if the request had run by itself on its own frames,
      its own steps and the end of the connection. */
  lemma {:induction false} RequestsAreIndependent(s: State, acts: seq<Action>, id: Id)
    requires Inv(s) && Legal(s, acts) && id in s.reqs
    ensures id in Run(s, acts).reqs
    ensures R.Legal(View(s, id), SeenRun(s, acts, id))
    ensures View(Run(s, acts), id) == R.Run(View(s, id), SeenRun(s, acts, id))
    decreases acts
  {
    if acts != [] {
      var t := Step(s, acts[0]);
      IndependentStep(s, acts[0], id);
      RequestsAreIndependent(t, acts[1..], id);
      SeenFirst(View(s, id), Seen(s, acts[0], id), View(t, id), SeenRun(t, acts[1..], id));
    }
  }

  lemma SeenFirst(v: R.View, seen: Option<R.Action>, t: R.View, rest: seq<R.Action>)
    requires R.Legal(t, rest)
    requires match seen case None => t == v case Some(a) => R.Enabled(v, a) && t == R.Step(v, a)
    ensures var all := (if seen.Some? then [seen.value] else []) + rest;
            R.Legal(v, all) && R.Run(v, all) == R.Run(t, rest)
  {
    if seen.Some? {
      R.RunCons(v, seen.value, rest);
    } else {
      assert [] + rest == rest;
    }
  }

  lemma IndependentStep(s: State, a: Action, id: Id)
    requires Inv(s) && Enabled(s, a) && id in s.reqs
    ensures Inv(Step(s, a)) && Agrees(s, a, id)
  {
    NeverClosedTwice(s, a);
    StepAgrees(s, a, id);
    InvStep(s, a);
  }

  /** The frames of request `id` in a run, in order. */
  function FramesFor(acts: seq<Action>, id: Id): seq<R.ReqFrame> {
    if acts == [] then []
    else
      (if acts[0].Receive? && acts[0].f.ForRequest? && acts[0].f.id == id then [acts[0].f.f] else []) +
      FramesFor(acts[1..], id)
  }

  /** A request sees every one of its frames, in order, and no other frame. */
  lemma {:induction false} SeesItsOwnFrames(s: State, acts: seq<Action>, id: Id)
    requires Legal(s, acts)
    ensures R.FramesIn(SeenRun(s, acts, id)) == FramesFor(acts, id)
    decreases acts
  {
    if acts != [] {
      SeesItsOwnFrames(Step(s, acts[0]), acts[1..], id);
      var rest := SeenRun(Step(s, acts[0]), acts[1..], id);
      var seen := Seen(s, acts[0], id);
      if seen.Some? {
        assert ([seen.value] + rest)[1..] == rest;
      } else {
        assert [] + rest == rest;
      }
    }
  }

  // ── Teardown ──

  /** No channel is ever closed twice. */
  lemma NeverClosedTwice(s: State, a: Action)
    requires Framed(s) && Enabled(s, a)
    requires forall id | id in s.bridges :: BridgeGood(s, id)
    ensures !Step(s, a).crashed
  {
    match a
    case DropClose(id) => assert BridgeGood(s, id);
    case ShutBridge(id) => assert BridgeGood(s, id);
    case Receive(f) => DispatchKeys(s, f);
    case _ =>
  }

  /** The read loop is about to send to a closed queue. */
  predicate SendsToClosed(s: State) {
    match s.loop
    case HoldsReq(id, h) => id in s.reqs && R.SendPanics(s.reqs[id], h)
    case HoldsMsg(id, _) => id in s.bridges && s.bridges[id].closes > 0
    case _ => false
  }

  lemma DispatchKeepsPanic(s: State, f: Frame)
    ensures Dispatch(s, f).panicked == s.panicked
  {
  }

  lemma OthersKeepPanic(s: State, a: Action)
    requires Enabled(s, a) && a != Deliver
    ensures Step(s, a).panicked == s.panicked
  {
    if a.Receive? {
      DispatchKeepsPanic(s, a.f);
    }
  }

  lemma DeliverPanics(s: State)
    requires Enabled(s, Deliver)
    ensures SendsToClosed(s) ==> Step(s, Deliver) == StopLoop(s).(panicked := true)
    ensures !SendsToClosed(s) ==> Step(s, Deliver).panicked == s.panicked
  {
  }

  /** The one panic there is: the read loop sends to a queue that is closed. It ends
      the loop, which loses what it held. */
  lemma PanicsExactlyOnClosedQueue(s: State, a: Action)
    requires Inv(s) && Enabled(s, a)
    ensures !Step(s, a).crashed
    ensures Step(s, a).panicked <==> s.panicked || (a == Deliver && SendsToClosed(s))
    ensures a == Deliver && SendsToClosed(s) ==> Step(s, a) == StopLoop(s).(panicked := true)
    ensures SendsToClosed(s) ==> Enabled(s, Deliver)
  {
    NeverClosedTwice(s, a);
    if a == Deliver {
      DeliverPanics(s);
    } else {
      OthersKeepPanic(s, a);
    }
  }

  lemma ClosedStep(s: State, a: Action)
    requires Inv(s) && s.closed && Enabled(s, a)
    ensures var t := Step(s, a);
            && t.closed && t.table == {} && t.bridgeTable == {}
            && t.reqs.Keys == s.reqs.Keys && t.bridges.Keys == s.bridges.Keys
  {
    NeverClosedTwice(s, a);
    FramedStep(s, a);
    StepKeys(s, a);
    if a.Receive? {
      assert false;
    }
  }

  /** Once closed, a connection stays closed with both tables empty, and takes
      no new request or bridge, for the rest of every run. */
  lemma {:induction false} ClosedIsForever(s: State, acts: seq<Action>)
    requires Inv(s) && s.closed && Legal(s, acts)
    ensures var t := Run(s, acts);
            && t.closed && t.table == {} && t.bridgeTable == {}
            && t.reqs.Keys == s.reqs.Keys && t.bridges.Keys == s.bridges.Keys
    decreases acts
  {
    if acts != [] {
      var t := Step(s, acts[0]);
      ClosedStep(s, acts[0]);
      InvStep(s, acts[0]);
      ClosedIsForever(t, acts[1..]);
    }
  }

  /** When `done` closes, nothing slipped past the shutdown: every request ever
      enlisted has its chunk queue closed, or its owner is just about to close
      it, and every bridge's queue is closed exactly once, or owed that close by
      the one goroutine that took the bridge out of the table. */
  lemma NothingSlipsPastShutdown(s: State, id: Id)
    requires Inv(s) && s.doneCloses > 0
    ensures s.doneCloses == 1 && s.closed && s.table == {} && s.bridgeTable == {}
    ensures id in s.reqs ==> s.reqs[id].chunksClosed || s.reqs[id].pc == R.Closing
    ensures id in s.bridges ==> s.bridges[id].closes + s.bridges[id].owed == 1
  {
    if id in s.reqs {
      assert R.Good(View(s, id));
    }
    if id in s.bridges {
      assert BridgeGood(s, id);
    }
  }

  /** From when it is enlisted, a request accepts its frames in order and without
      a gap: its log is what one stretch of the frames sent under its id carries. */
  lemma {:induction false} AcceptsAStretch(s: State, acts: seq<Action>, id: Id) returns (m: nat, n: nat)
    requires Inv(s) && Legal(s, acts) && id in Run(s, acts).reqs
    requires id in s.reqs ==> s.reqs[id].log == []
    ensures m <= n <= |FramesFor(acts, id)|
    ensures Run(s, acts).reqs[id].log == R.ItemsOf(FramesFor(acts, id)[m..n])
    decreases acts
  {
    if id in s.reqs {
      m := 0;
      n := AcceptsFromHere(s, acts, id);
    } else {
      InvStep(s, acts[0]);
      EnlistedEmpty(s, acts[0], id);
      m, n := AcceptsAStretch(Step(s, acts[0]), acts[1..], id);
      m, n := LaterFrames(acts, id, m, n);
    }
  }

  lemma AcceptsFromHere(s: State, acts: seq<Action>, id: Id) returns (n: nat)
    requires Inv(s) && Legal(s, acts) && id in s.reqs
    requires s.reqs[id].log == []
    ensures n <= |FramesFor(acts, id)| && id in Run(s, acts).reqs
    ensures Run(s, acts).reqs[id].log == R.ItemsOf(FramesFor(acts, id)[0..n])
  {
    RequestsAreIndependent(s, acts, id);
    SeesItsOwnFrames(s, acts, id);
    n := R.AcceptedFrames(View(s, id), SeenRun(s, acts, id));
    assert FramesFor(acts, id)[0..n] == FramesFor(acts, id)[..n];
  }

  lemma LaterFrames(acts: seq<Action>, id: Id, m: nat, n: nat) returns (m': nat, n': nat)
    requires acts != [] && m <= n <= |FramesFor(acts[1..], id)|
    ensures m' <= n' <= |FramesFor(acts, id)|
    ensures FramesFor(acts, id)[m'..n'] == FramesFor(acts[1..], id)[m..n]
  {
    var head := if acts[0].Receive? && acts[0].f.ForRequest? && acts[0].f.id == id then [acts[0].f.f] else [];
    LaterSlice(head, FramesFor(acts[1..], id), m, n);
    m', n' := |head| + m, |head| + n;
  }

  lemma LaterSlice(head: seq<R.ReqFrame>, tail: seq<R.ReqFrame>, m: nat, n: nat)
    requires m <= n <= |tail|
    ensures (head + tail)[|head| + m..|head| + n] == tail[m..n]
  {
  }

  lemma EnlistedEmpty(s: State, a: Action, id: Id)
    requires Enabled(s, a) && id !in s.reqs
    ensures id in Step(s, a).reqs ==> Step(s, a).reqs[id].log == []
  {
    StepKeys(s, a);
  }

  /** Against any node whatever, with `sent` the frames it sent under one id: a
      reader has a prefix of what a stretch of them carries, and a pipe that ended
      cleanly means that this stretch carried chunks 0 to n-1, which the reader
      has, and then an end counting n. */
  lemma ReadersSeeWholeBodies(acts: seq<Action>, id: Id) returns (first: nat, last: nat, n: nat)
    requires Legal(INITIAL, acts) && id in Run(INITIAL, acts).reqs
    ensures first <= last <= |FramesFor(acts, id)|
    ensures var sent, r := R.ItemsOf(FramesFor(acts, id)[first..last]), Run(INITIAL, acts).reqs[id];
            && r.delivered <= R.Body(sent)
            && (r.pipe == R.Eof ==>
                && n < |sent| && sent[n] == R.EndMark(n)
                && (forall i | 0 <= i < n :: sent[i].Chunk? && sent[i].seqNo == i)
                && r.delivered == R.Body(sent[..n]))
  {
    ReachableIsInv(acts);
    first, last := AcceptsAStretch(INITIAL, acts, id);
    var v := View(Run(INITIAL, acts), id);
    assert R.Good(v);
    R.DeliveredIsPrefix(v);
    n := 0;
    if v.req.pipe == R.Eof {
      n := R.CleanEofIsComplete(v);
    }
  }
}
