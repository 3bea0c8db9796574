/** Runs in which the read loop panics: it sends to a queue that is closed. The
    queue was closed while the loop held something for it, or, by a second failure
    of its request, before. */
module Panics {
  import opened Wrappers
  import Utf8
  import opened Payload
  import opened Ids
  import opened Multiplex
  import R = Request

  lemma TwoSteps(s: State, a: Action, b: Action, t: State)
    requires Enabled(s, a) && Enabled(Step(s, a), b) && Step(Step(s, a), b) == t
    ensures Leads(s, [a, b], t)
  {
    LeadsOne(Step(s, a), b, [], t);
    LeadsOne(s, a, [b], t);
  }

  /** The connection with one bridge and a message the read loop holds for it. */
  function Holding(b: Bridge, inTable: bool, m: Message): State {
    State(1, map[], {}, map[BridgeId(1) := b], if inTable then {BridgeId(1)} else {}, false, NotYet, 0,
          HoldsMsg(BridgeId(1), m), false, false)
  }

  lemma MessageArrives(body: Payload)
    requires Bytes(body).Ok?
    ensures var m := Bytes(body).value;
            Leads(INITIAL, [OpenBridge, Receive(WsMsg(BridgeId(1), body))], Holding(NEW_BRIDGE.(log := [m]), true, m))
  {
    var id, m := BridgeId(1), Bytes(body).value;
    var t := Holding(NEW_BRIDGE.(log := [m]), true, m);
    var s1 := Step(INITIAL, OpenBridge);
    assert s1.bridges == map[id := NEW_BRIDGE] && [] + [m] == [m];
    assert s1.bridges[id := NEW_BRIDGE.(log := [m])] == t.bridges;
    TwoSteps(INITIAL, OpenBridge, Receive(WsMsg(id, body)), t);
  }

  lemma BridgeDropped(b: Bridge, m: Message)
    requires b.owed == 0 && b.closes == 0
    ensures Leads(Holding(b, true, m), [DropLock(BridgeId(1)), DropClose(BridgeId(1))],
                  Holding(b.(closes := 1), false, m))
  {
    var id := BridgeId(1);
    assert map[id := b][id := b.(owed := 1)] == map[id := b.(owed := 1)];
    assert map[id := b.(owed := 1)][id := b.(closes := 1)] == map[id := b.(closes := 1)];
    assert Step(Holding(b, true, m), DropLock(id)) == Holding(b.(owed := 1), false, m);
    assert Step(Holding(b.(owed := 1), false, m), DropClose(id)) == Holding(b.(closes := 1), false, m);
    TwoSteps(Holding(b, true, m), DropLock(id), DropClose(id), Holding(b.(closes := 1), false, m));
  }

  lemma SendsLate(b: Bridge, m: Message)
    requires b.closes == 1
    ensures var s := Holding(b, false, m);
            Enabled(s, Deliver) && Step(s, Deliver).panicked && Leads(s, [Deliver], Step(s, Deliver))
  {
    LeadsOne(Holding(b, false, m), Deliver, [], Step(Holding(b, false, m), Deliver));
  }

  /** A bridge is dropped while the read loop holds a message for it. */
  function Drop(body: Payload): seq<Action> {
    [OpenBridge, Receive(WsMsg(BridgeId(1), body))] + [DropLock(BridgeId(1)), DropClose(BridgeId(1))] + [Deliver]
  }

  lemma LateMessagePanics(body: Payload)
    requires Bytes(body).Ok?
    ensures Legal(INITIAL, Drop(body)) && Run(INITIAL, Drop(body)).panicked
  {
    var m := Bytes(body).value;
    var b := NEW_BRIDGE.(log := [m]);
    var s1, s2 := Holding(b, true, m), Holding(b.(closes := 1), false, m);
    var first := [OpenBridge, Receive(WsMsg(BridgeId(1), body))];
    var second := [DropLock(BridgeId(1)), DropClose(BridgeId(1))];
    MessageArrives(body);
    BridgeDropped(b, m);
    SendsLate(b.(closes := 1), m);
    LeadsOn(INITIAL, first, s1, second, s2);
    LeadsOn(INITIAL, first + second, s2, [Deliver], Step(s2, Deliver));
  }

  // ── The same for a response ──

  /** The connection with one request and nothing else. */
  function Only(r: R.Req, inTable: bool, loop: Loop): State {
    State(1, map[RequestId(1) := r], if inTable then {RequestId(1)} else {}, map[], {}, false, NotYet, 0, loop,
          false, false)
  }

  function Held(item: R.Item): Loop { HoldsReq(RequestId(1), R.HeldItem(item)) }

  lemma OnlyOwn(r: R.Req, l: R.Local)
    requires R.LocalEnabled(r, false, l)
    ensures Enabled(Only(r, true, Idle), Own(RequestId(1), l))
    ensures Step(Only(r, true, Idle), Own(RequestId(1), l)) == Only(R.LocalStep(r, l), true, Idle)
  {
    assert map[RequestId(1) := r][RequestId(1) := R.LocalStep(r, l)] == map[RequestId(1) := R.LocalStep(r, l)];
  }

  lemma OnlyReceive(r: R.Req, f: R.ReqFrame)
    requires R.Accept(r, f).1.Hold?
    ensures var a := Receive(ForRequest(RequestId(1), f));
            && Enabled(Only(r, true, Idle), a)
            && Step(Only(r, true, Idle), a) ==
               Only(R.Accept(r, f).0, true, HoldsReq(RequestId(1), R.Accept(r, f).1.held))
  {
    assert map[RequestId(1) := r][RequestId(1) := R.Accept(r, f).0] == map[RequestId(1) := R.Accept(r, f).0];
  }

  lemma OnlyDeliver(r: R.Req, h: R.Held)
    requires R.CanSend(r, h) && !R.SendPanics(r, h)
    ensures var s := Only(r, true, HoldsReq(RequestId(1), h));
            Enabled(s, Deliver) && Step(s, Deliver) == Only(R.Send(r, h), true, Idle)
  {
    assert map[RequestId(1) := r][RequestId(1) := R.Send(r, h)] == map[RequestId(1) := R.Send(r, h)];
  }

  function Waiting(): R.Req { R.NEW_REQ.(pc := R.Waiting) }

  function Pumping(status: int): R.Req { R.NEW_REQ.(pc := R.Pumping, got := Some(status)) }

  /** The request is written and its head arrives. */
  lemma HeadArrives(status: int)
    ensures Leads(INITIAL, [Enlist, Own(RequestId(1), R.Written)], Only(Waiting(), true, Idle))
    ensures Leads(Only(Waiting(), true, Idle), [Receive(ForRequest(RequestId(1), R.Head(status))), Deliver],
                  Only(Waiting().(heads := [status]), true, Idle))
    ensures Leads(Only(Waiting().(heads := [status]), true, Idle), [Own(RequestId(1), R.TakeHead)],
                  Only(Pumping(status), true, Idle))
  {
    assert Step(INITIAL, Enlist) == Only(R.NEW_REQ, true, Idle);
    OnlyOwn(R.NEW_REQ, R.Written);
    TwoSteps(INITIAL, Enlist, Own(RequestId(1), R.Written), Only(Waiting(), true, Idle));
    OnlyReceive(Waiting(), R.Head(status));
    OnlyDeliver(Waiting(), R.HeldHead(status));
    assert R.Send(Waiting(), R.HeldHead(status)) == Waiting().(heads := [status]);
    TwoSteps(Only(Waiting(), true, Idle), Receive(ForRequest(RequestId(1), R.Head(status))), Deliver,
             Only(Waiting().(heads := [status]), true, Idle));
    OnlyOwn(Waiting().(heads := [status]), R.TakeHead);
    assert R.LocalStep(Waiting().(heads := [status]), R.TakeHead) == Pumping(status);
    LeadsOne(Only(Waiting().(heads := [status]), true, Idle), Own(RequestId(1), R.TakeHead), [],
             Only(Pumping(status), true, Idle));
  }

  function Queued(status: int, b: seq<Utf8.Byte>): R.Req {
    Pumping(status).(chunks := [R.Chunk(0, b)], nextSeq := 1, log := [R.Chunk(0, b)])
  }

  function Taken(status: int, b: seq<Utf8.Byte>): R.Req {
    Queued(status, b).(chunks := [], taken := [R.Chunk(0, b)], pc := R.Pushing(b))
  }

  /** A request whose reader has gone. */
  function Deserted(status: int, b: seq<Utf8.Byte>): R.Req {
    Taken(status, b).(readerClosed := true, pipe := R.Broken, pc := R.Settling)
  }

  /** A chunk reaches the pump, and the reader leaves. */
  lemma ReaderLeaves(status: int, body: Payload)
    requires Bytes(body).Ok?
    ensures var id, b := RequestId(1), Bytes(body).value;
            && Leads(Only(Pumping(status), true, Idle), [Receive(ForRequest(id, R.Data(0, body))), Deliver],
                     Only(Queued(status, b), true, Idle))
            && Leads(Only(Queued(status, b), true, Idle), [Own(id, R.PumpTake), Own(id, R.ReaderClose)],
                     Only(Taken(status, b).(readerClosed := true), true, Idle))
            && Leads(Only(Taken(status, b).(readerClosed := true), true, Idle), [Own(id, R.PumpBroken)],
                     Only(Deserted(status, b), true, Idle))
  {
    var id, b := RequestId(1), Bytes(body).value;
    var accepted := R.Accept(Pumping(status), R.Data(0, body)).0;
    OnlyReceive(Pumping(status), R.Data(0, body));
    OnlyDeliver(accepted, R.HeldItem(R.Chunk(0, b)));
    assert R.Send(accepted, R.HeldItem(R.Chunk(0, b))) == Queued(status, b);
    TwoSteps(Only(Pumping(status), true, Idle), Receive(ForRequest(id, R.Data(0, body))), Deliver,
             Only(Queued(status, b), true, Idle));
    OnlyOwn(Queued(status, b), R.PumpTake);
    assert R.LocalStep(Queued(status, b), R.PumpTake) == Taken(status, b);
    OnlyOwn(Taken(status, b), R.ReaderClose);
    TwoSteps(Only(Queued(status, b), true, Idle), Own(id, R.PumpTake), Own(id, R.ReaderClose),
             Only(Taken(status, b).(readerClosed := true), true, Idle));
    OnlyOwn(Taken(status, b).(readerClosed := true), R.PumpBroken);
    LeadsOne(Only(Taken(status, b).(readerClosed := true), true, Idle), Own(id, R.PumpBroken), [],
             Only(Deserted(status, b), true, Idle));
  }

  lemma SettlesMeanwhile(r: R.Req, loop: Loop)
    requires r.pc == R.Settling
    ensures Leads(Only(r, true, loop), [SettleLock(RequestId(1)), SettleClose(RequestId(1))],
                  Only(r.(pc := R.Finished, chunksClosed := true), false, loop))
  {
    var id := RequestId(1);
    var r2, r3 := r.(pc := R.Closing), r.(pc := R.Finished, chunksClosed := true);
    assert map[id := r][id := r2] == map[id := r2] && map[id := r2][id := r3] == map[id := r3];
    assert Step(Only(r, true, loop), SettleLock(id)) == Only(r2, false, loop);
    assert Step(Only(r2, false, loop), SettleClose(id)) == Only(r3, false, loop);
    TwoSteps(Only(r, true, loop), SettleLock(id), SettleClose(id), Only(r3, false, loop));
  }

  lemma SendsToClosedQueue(r: R.Req, inTable: bool, item: R.Item)
    requires r.chunksClosed
    ensures var s := Only(r, inTable, Held(item));
            Enabled(s, Deliver) && Step(s, Deliver).panicked && Leads(s, [Deliver], Step(s, Deliver))
  {
    LeadsOne(Only(r, inTable, Held(item)), Deliver, [], Step(Only(r, inTable, Held(item)), Deliver));
  }

  lemma TakesUp(r: R.Req, body: Payload)
    requires Bytes(body).Ok?
    ensures var f := R.Data(r.nextSeq, body);
            Leads(Only(r, true, Idle), [Receive(ForRequest(RequestId(1), f))],
                  Only(R.Accept(r, f).0, true, Held(R.Chunk(r.nextSeq, Bytes(body).value))))
  {
    var f := R.Data(r.nextSeq, body);
    OnlyReceive(r, f);
    LeadsOne(Only(r, true, Idle), Receive(ForRequest(RequestId(1), f)), [],
             Only(R.Accept(r, f).0, true, Held(R.Chunk(r.nextSeq, Bytes(body).value))));
  }

  /** The read loop takes the next chunk up, the pump settles the request, and the
      loop sends. */
  lemma LateChunkPanics(r: R.Req, body: Payload)
    requires r.pc == R.Settling && Bytes(body).Ok?
    ensures var id := RequestId(1);
            var acts := [Receive(ForRequest(id, R.Data(r.nextSeq, body)))] +
                        [SettleLock(id), SettleClose(id)] + [Deliver];
            Legal(Only(r, true, Idle), acts) && Run(Only(r, true, Idle), acts).panicked
  {
    var id, item := RequestId(1), R.Chunk(r.nextSeq, Bytes(body).value);
    var r1 := R.Accept(r, R.Data(r.nextSeq, body)).0;
    var r2 := r1.(pc := R.Finished, chunksClosed := true);
    var s, s1, s2 := Only(r, true, Idle), Only(r1, true, Held(item)), Only(r2, false, Held(item));
    var first, second := [Receive(ForRequest(id, R.Data(r.nextSeq, body)))], [SettleLock(id), SettleClose(id)];
    TakesUp(r, body);
    SettlesMeanwhile(r1, Held(item));
    SendsToClosedQueue(r2, false, item);
    LeadsOn(s, first, s1, second, s2);
    LeadsOn(s, first + second, s2, [Deliver], Step(s2, Deliver));
  }

  /** The whole run: an ordinary response of two chunks whose reader leaves after
      the first. */
  function Departure(status: int, body: Payload): seq<Action> {
    var id := RequestId(1);
    [Enlist, Own(id, R.Written)] + [Receive(ForRequest(id, R.Head(status))), Deliver] + [Own(id, R.TakeHead)] +
    [Receive(ForRequest(id, R.Data(0, body))), Deliver] + [Own(id, R.PumpTake), Own(id, R.ReaderClose)] +
    [Own(id, R.PumpBroken)] +
    ([Receive(ForRequest(id, R.Data(1, body)))] + [SettleLock(id), SettleClose(id)] + [Deliver])
  }

  lemma DepartedReaderPanics(status: int, body: Payload)
    requires Bytes(body).Ok?
    ensures Legal(INITIAL, Departure(status, body)) && Run(INITIAL, Departure(status, body)).panicked
  {
    var id, b := RequestId(1), Bytes(body).value;
    var s1, s2 := Only(Waiting(), true, Idle), Only(Waiting().(heads := [status]), true, Idle);
    var s3, s4 := Only(Pumping(status), true, Idle), Only(Queued(status, b), true, Idle);
    var s5 := Only(Taken(status, b).(readerClosed := true), true, Idle);
    var s6 := Only(Deserted(status, b), true, Idle);
    var a0, a1 := [Enlist, Own(id, R.Written)], [Receive(ForRequest(id, R.Head(status))), Deliver];
    var a2 := [Own(id, R.TakeHead)];
    var a3, a4, a5 := [Receive(ForRequest(id, R.Data(0, body))), Deliver],
                      [Own(id, R.PumpTake), Own(id, R.ReaderClose)], [Own(id, R.PumpBroken)];
    var a6 := [Receive(ForRequest(id, R.Data(1, body)))] + [SettleLock(id), SettleClose(id)] + [Deliver];
    HeadArrives(status);
    ReaderLeaves(status, body);
    LateChunkPanics(Deserted(status, b), body);
    LeadsOn(INITIAL, a0, s1, a1, s2);
    LeadsOn(INITIAL, a0 + a1, s2, a2, s3);
    LeadsOn(INITIAL, a0 + a1 + a2, s3, a3, s4);
    LeadsOn(INITIAL, a0 + a1 + a2 + a3, s4, a4, s5);
    LeadsOn(INITIAL, a0 + a1 + a2 + a3 + a4, s5, a5, s6);
    LeadsOn(INITIAL, a0 + a1 + a2 + a3 + a4 + a5, s6, a6, Run(s6, a6));
  }

  // ── Without anybody leaving ──

  /** A request its caller gave up on, with so many failures. */
  function Failed(fails: nat): R.Req {
    R.NEW_REQ.(pc := R.Abandoned, fails := if fails > 0 then 1 else 0, chunksClosed := fails > 1)
  }

  lemma FailsAgain(n: nat)
    ensures Leads(Only(Failed(n), true, Idle), [Receive(ForRequest(RequestId(1), R.ReqFrame.Err))],
                  Only(Failed(n + 1), true, Idle))
  {
    var id := RequestId(1);
    assert R.Accept(Failed(n), R.ReqFrame.Err).0 == Failed(n + 1);
    assert map[id := Failed(n)][id := Failed(n + 1)] == map[id := Failed(n + 1)];
    LeadsOne(Only(Failed(n), true, Idle), Receive(ForRequest(id, R.ReqFrame.Err)), [], Only(Failed(n + 1), true, Idle));
  }

  /** Two failures nobody reads, and a chunk after them. */
  function Relapse(body: Payload): seq<Action> {
    var id := RequestId(1);
    [Enlist, Own(id, R.Written)] + [Own(id, R.Cancelled)] +
    [Receive(ForRequest(id, R.ReqFrame.Err))] + [Receive(ForRequest(id, R.ReqFrame.Err))] +
    [Receive(ForRequest(id, R.Data(0, body)))] + [Deliver]
  }

  /** The second failure closes the queue and leaves the slot, so the chunk is
      looked up, accepted and sent to the closed queue: no teardown takes part. */
  lemma SecondFailurePanics(body: Payload)
    requires Bytes(body).Ok?
    ensures Legal(INITIAL, Relapse(body))
    ensures Run(INITIAL, Relapse(body)).panicked && RequestId(1) in Run(INITIAL, Relapse(body)).table
  {
    var id, item := RequestId(1), R.Chunk(0, Bytes(body).value);
    var held := R.Accept(Failed(2), R.Data(0, body)).0;
    var s1, s2, s3 := Only(Waiting(), true, Idle), Only(Failed(0), true, Idle), Only(Failed(1), true, Idle);
    var s4, s5 := Only(Failed(2), true, Idle), Only(held, true, Held(item));
    var a0, a1 := [Enlist, Own(id, R.Written)], [Own(id, R.Cancelled)];
    var fail, data := [Receive(ForRequest(id, R.ReqFrame.Err))], [Receive(ForRequest(id, R.Data(0, body)))];
    HeadArrives(200);
    OnlyOwn(Waiting(), R.Cancelled);
    LeadsOne(s1, Own(id, R.Cancelled), [], s2);
    FailsAgain(0);
    FailsAgain(1);
    TakesUp(Failed(2), body);
    SendsToClosedQueue(held, true, item);
    LeadsOn(INITIAL, a0, s1, a1, s2);
    LeadsOn(INITIAL, a0 + a1, s2, fail, s3);
    LeadsOn(INITIAL, a0 + a1 + fail, s3, fail, s4);
    LeadsOn(INITIAL, a0 + a1 + fail + fail, s4, data, s5);
    LeadsOn(INITIAL, a0 + a1 + fail + fail + data, s5, [Deliver], Step(s5, Deliver));
  }
}
