/** `Conn` itself: the tables, counters and queues the connection's goroutines
    share, updated in place. Each method is one stretch of the program between
    two points where another goroutine may run; each request carries the state
    Request reasons about, and the connection the state Multiplex reasons about:
    every method keeps the object equal to the state and moves the state by the
    steps of the machine that it is. */
module Conn {
  import opened Wrappers
  import opened Ids
  import Payload
  import R = Request
  import M = Multiplex
  import T = Teardown

  /** The delivery state of one request, shared by reference. */
  class Pending {
    var heads: seq<int>
    var fails: nat
    var chunks: seq<R.Item>
    var chunksClosed: bool
    var nextSeq: nat
    ghost var req: R.Req
    ghost const id: Id

    ghost predicate Valid()
      reads this
    {
      heads == req.heads && fails == req.fails && chunks == req.chunks &&
      chunksClosed == req.chunksClosed && nextSeq == req.nextSeq
    }

    constructor (ghost id: Id)
      ensures Valid() && req == R.NEW_REQ && this.id == id
    {
      this.id := id;
      heads, fails, chunks, chunksClosed, nextSeq, req := [], 0, [], false, 0, R.NEW_REQ;
    }

    /** One frame of this request, up to the channel send. */
    method Accept(f: R.ReqFrame) returns (out: R.Outcome)
      requires Valid()
      modifies this
      ensures Valid() && (req, out) == R.Accept(old(req), f)
    {
      ghost var next := R.Accept(req, f).0;
      match f {
        case Head(status) =>
          out := R.Hold(R.HeldHead(status));
        case Data(seqNo, body) =>
          if seqNo != nextSeq {
            return R.Fatal;
          }
          nextSeq := nextSeq + 1;
          var bytes := Payload.Bytes(body);
          match bytes {
            case Ok(b) => out := R.Hold(R.HeldItem(R.Chunk(seqNo, b)));
            case Err(_) => out := R.Fatal;
          }
        case End(n) =>
          if n != nextSeq {
            return R.Fatal;
          }
          out := R.Hold(R.HeldItem(R.EndMark(n)));
        case Err =>
          // A full buffer means that an earlier failure is still there.
          if fails < 1 {
            fails := fails + 1;
          } else {
            CloseChunks();
          }
          out := R.Done;
      }
      req := next;
    }

    /** The channel send; the caller waited until there was room. */
    method Send(h: R.Held)
      requires Valid() && R.CanSend(req, h) && !R.SendPanics(req, h)
      modifies this
      ensures Valid() && req == R.Send(old(req), h)
    {
      match h {
        case HeldHead(status) => heads := heads + [status];
        case HeldItem(item) => chunks := chunks + [item];
      }
      req := R.Send(req, h);
    }

    /** Closing the queue happens at most once, through a sync.Once. */
    method CloseChunks()
      requires Valid()
      modifies this
      ensures Valid() && req == old(req).(chunksClosed := true)
    {
      if !chunksClosed {
        chunksClosed := true;
      }
      req := req.(chunksClosed := true);
    }
  }

  /** One browser socket relayed to the node. */
  class Bridge {
    var up: bool
    var messages: seq<M.Message>
    var closes: nat
    ghost const id: Id

    constructor (ghost id: Id)
      ensures !up && messages == [] && closes == 0 && this.id == id
    {
      this.id := id;
      up, messages, closes := false, [], 0;
    }

    /** Closing the queue; a second close would panic. */
    method Close()
      requires closes == 0
      modifies this`closes
      ensures closes == 1
    {
      closes := closes + 1;
    }
  }

  /** No later id is this one. */
  lemma LaterIdsDiffer(n: nat)
    ensures forall k: nat | k > n :: RequestId(k) != RequestId(n) && BridgeId(k) != BridgeId(n)
  {
    NumberOfDecimal(n);
    forall k: nat | k > n
      ensures RequestId(k) != RequestId(n) && BridgeId(k) != BridgeId(n)
    {
      NumberOfDecimal(k);
      assert BridgeId(k)[1..] == Decimal(k) && BridgeId(n)[1..] == Decimal(n);
    }
  }

  datatype Outcome = Nothing | HoldRequest(id: Id, held: R.Held) | HoldMessage(id: Id, message: M.Message) | Fatal

  /** The connection. `Valid` says that the fields are the machine's tables, entry
      by entry, so a method that steps the state has made that step. */
  class Conn {
    var nextId: nat
    var pending: map<Id, Pending>
    var bridges: map<Id, Bridge>
    var closed: bool
    var doneCloses: nat
    /** The machine's state, whose tables the fields are. */
    ghost var state: M.State

    ghost predicate RequestsValid()
      reads this, pending.Values
    {
      && (forall id :: id in pending <==> id in state.table)
      && (forall id | id in pending ::
            && pending[id].Valid() && pending[id].id == id
            && id in state.reqs && pending[id].req == state.reqs[id])
    }

    ghost predicate BridgesValid()
      reads this, bridges.Values
    {
      && (forall id :: id in bridges <==> id in state.bridgeTable)
      && (forall id | id in bridges ::
            && bridges[id].closes == 0 && bridges[id].id == id
            && id in state.bridges && bridges[id].closes == state.bridges[id].closes
            && bridges[id].up == state.bridges[id].up && bridges[id].messages == state.bridges[id].messages)
    }

    ghost predicate Shown()
      reads this, pending.Values, bridges.Values
    {
      && RequestsValid() && BridgesValid()
      && (forall k: nat | k > nextId :: RequestId(k) !in pending && BridgeId(k) !in bridges)
      && nextId == state.nextId && closed == state.closed && doneCloses == state.doneCloses
      && (closed ==> pending == map[] && bridges == map[])
    }

    ghost predicate Valid()
      reads this, pending.Values, bridges.Values
    {
      Shown() && doneCloses == if closed then 1 else 0
    }

    constructor ()
      ensures Valid() && state == M.INITIAL
    {
      state := M.INITIAL;
      nextId, pending, bridges, closed, doneCloses := 0, map[], map[], false, 0;
    }

    /** `Do` under the lock: refused once closed, and otherwise a fresh slot
        under an id no entry has. */
    method Enlist() returns (r: Option<Id>)
      requires Valid() && nextId + 1 < COUNTER_LIMIT
      modifies this`nextId, this`pending, this`state
      ensures Valid() && (r == None <==> closed)
      ensures state == if closed then old(state) else M.EnlistRequest(old(state))
      ensures closed ==> nextId == old(nextId) && pending == old(pending)
      ensures r.Some? ==>
                && r.value !in old(pending) && r.value == RequestId(nextId) && nextId == old(nextId) + 1
                && r.value in pending && fresh(pending[r.value]) && pending[r.value].req == R.NEW_REQ
                && pending == old(pending)[r.value := pending[r.value]]
    {
      if closed {
        return None;
      }
      nextId := nextId + 1;
      var id := RequestId(nextId);
      LaterIdsDiffer(nextId);
      var p := new Pending(id);
      pending := pending[id := p];
      state := M.EnlistRequest(state);
      return Some(id);
    }

    /** `OpenWS` under the lock. */
    method OpenBridge() returns (r: Option<Id>)
      requires Valid() && nextId + 1 < COUNTER_LIMIT
      modifies this`nextId, this`bridges, this`state
      ensures Valid() && (r == None <==> closed)
      ensures state == if closed then old(state) else M.EnlistBridge(old(state))
      ensures closed ==> nextId == old(nextId) && bridges == old(bridges)
      ensures r.Some? ==>
                && r.value !in old(bridges) && r.value == BridgeId(nextId) && nextId == old(nextId) + 1
                && r.value in bridges && fresh(bridges[r.value])
                && !bridges[r.value].up && bridges[r.value].messages == []
                && bridges == old(bridges)[r.value := bridges[r.value]]
    {
      if closed {
        return None;
      }
      nextId := nextId + 1;
      var id := BridgeId(nextId);
      LaterIdsDiffer(nextId);
      var b := new Bridge(id);
      bridges := bridges[id := b];
      state := M.EnlistBridge(state);
      return Some(id);
    }

    /** A request frame: the one request it names does what the request by
        itself would do, and every other entry is as it was. */
    method DispatchRequest(id: Id, f: R.ReqFrame) returns (out: Outcome)
      requires Valid()
      modifies this`state, if id in pending then {pending[id]} else {}
      ensures Valid() && state == M.Dispatch(old(state), M.ForRequest(id, f))
      ensures id !in pending ==> out == Nothing
      ensures id in pending ==>
                var (r, o) := R.Accept(old(pending[id].req), f);
                && pending[id].req == r
                && out == match o case Hold(h) => HoldRequest(id, h) case Done => Nothing case Fatal => Fatal
    {
      state := M.Dispatch(state, M.ForRequest(id, f));
      if id !in pending {
        return Nothing;
      }
      var o := pending[id].Accept(f);
      match o {
        case Hold(h) => out := HoldRequest(id, h);
        case Done => out := Nothing;
        case Fatal => out := Fatal;
      }
    }

    /** The channel send of a held chunk or head, through the reference the lookup
        left; the caller waited until there was room. */
    method Deliver(p: Pending, h: R.Held)
      requires Valid() && state.loop == M.HoldsReq(p.id, h) && p.id in state.reqs
      requires p.Valid() && p.req == state.reqs[p.id] && (p.id in pending ==> pending[p.id] == p)
      requires R.CanSend(p.req, h) && !R.SendPanics(p.req, h)
      modifies p, this`state
      ensures Valid() && state == M.DeliverHeld(old(state))
      ensures p.Valid() && p.req == state.reqs[p.id]
    {
      state := M.DeliverHeld(state);
      p.Send(h);
    }

    /** The channel send of a held message. */
    method DeliverMessage(b: Bridge, m: M.Message)
      requires Valid() && state.loop == M.HoldsMsg(b.id, m) && b.id in state.bridges
      requires b.messages == state.bridges[b.id].messages && b.closes == state.bridges[b.id].closes == 0
      requires b.id in bridges ==> bridges[b.id] == b
      requires |b.messages| < R.STREAM_BUFFER
      modifies b, this`state
      ensures Valid() && state == M.DeliverHeld(old(state))
      ensures b.messages == state.bridges[b.id].messages
    {
      state := M.DeliverHeld(state);
      b.messages := b.messages + [m];
    }

    /** `settle`: the slot leaves the table and its queue is closed. */
    method Settle(id: Id)
      requires Valid() && id in state.reqs
      modifies this`pending, this`state, if id in pending then {pending[id]} else {}
      ensures state == T.Settled(old(state), id)
      ensures Valid() && pending == old(pending) - {id}
      ensures id in old(pending) ==>
                var p := old(pending[id]);
                p.Valid() && p.req == old(p.req).(chunksClosed := true)
    {
      if id in pending {
        var p := pending[id];
        pending := pending - {id};
        p.CloseChunks();
      }
      state := T.Settled(state, id);
    }

    /** `dropBridge`: only the caller that finds the entry closes its queue. */
    method DropBridge(id: Id)
      requires Valid()
      modifies this`bridges, this`state, if id in bridges then {bridges[id]} else {}
      ensures state == T.Dropped(old(state), id)
      ensures Valid() && bridges == old(bridges) - {id}
      ensures id in old(bridges) ==>
                var b := old(bridges[id]);
                b.closes == 1 && b.messages == old(b.messages) && b.up == old(b.up)
    {
      if id in bridges {
        var b := bridges[id];
        bridges := bridges - {id};
        b.Close();
      }
      state := T.Dropped(state, id);
    }

    /** `ws.close`: the bridge leaves the table and its queue is closed once, which
        wakes the browser's reader, with the messages it has not taken still in it;
        every other entry stays. */
    method DispatchWsClose(id: Id)
      requires Valid()
      modifies this`bridges, this`state, if id in bridges then {bridges[id]} else {}
      ensures Valid() && state == T.Dropped(old(state), id)
      ensures id !in bridges
      ensures forall k | k != id :: (k in bridges <==> k in old(bridges))
      ensures forall k | k in bridges :: bridges[k] == old(bridges)[k]
      ensures id in old(bridges) ==>
                var b := old(bridges[id]);
                b.closes == 1 && b.messages == old(b.messages) && b.up == old(b.up)
    {
      DropBridge(id);
    }

    /** `ws.up`. */
    method DispatchWsUp(id: Id)
      requires Valid()
      modifies this`state, if id in bridges then {bridges[id]} else {}
      ensures Valid() && state == M.Dispatch(old(state), M.WsUp(id))
      ensures id in bridges ==> bridges[id].up && bridges[id].messages == old(bridges[id].messages)
    {
      state := M.Dispatch(state, M.WsUp(id));
      if id in bridges {
        bridges[id].up := true;
      }
    }

    /** `ws.msg`, up to the channel send: a message for an unknown bridge is
        dropped, and one that does not decode ends the connection. */
    method DispatchWsMsg(id: Id, body: Payload.Payload) returns (out: Outcome)
      requires Valid()
      modifies this`state
      ensures Valid() && state == M.Dispatch(old(state), M.WsMsg(id, body))
      ensures id !in bridges ==> out == Nothing
      ensures id in bridges ==>
                out == match Payload.Bytes(body)
                       case Ok(m) => HoldMessage(id, m)
                       case Err(_) => Fatal
    {
      state := M.Dispatch(state, M.WsMsg(id, body));
      if id !in bridges {
        return Nothing;
      }
      var bytes := Payload.Bytes(body);
      match bytes {
        case Ok(m) => out := HoldMessage(id, m);
        case Err(_) => out := Fatal;
      }
    }

    static method CloseBridges(sockets: map<Id, Bridge>)
      requires forall id | id in sockets :: sockets[id].id == id && sockets[id].closes == 0
      modifies sockets.Values
      ensures forall id | id in sockets :: sockets[id].closes == 1
    {
      var todo := sockets.Keys;
      while todo != {}
        invariant todo <= sockets.Keys
        invariant forall id | id in sockets :: sockets[id].closes == if id in todo then 0 else 1
      {
        var id :| id in todo;
        sockets[id].Close();
        todo := todo - {id};
      }
    }

    static method CloseQueues(live: map<Id, Pending>)
      requires forall id | id in live :: live[id].id == id && live[id].Valid()
      modifies live.Values
      ensures forall id | id in live ::
                live[id].Valid() && live[id].req == old(live[id].req).(chunksClosed := true)
    {
      var todo := live.Keys;
      while todo != {}
        invariant todo <= live.Keys
        invariant forall id | id in live ::
                    && live[id].Valid()
                    && live[id].req == if id in todo then old(live[id].req)
                                       else old(live[id].req).(chunksClosed := true)
      {
        var id :| id in todo;
        live[id].CloseChunks();
        todo := todo - {id};
      }
    }

    static method CloseAll(sockets: map<Id, Bridge>, live: map<Id, Pending>)
      requires forall id | id in sockets :: sockets[id].id == id && sockets[id].closes == 0
      requires forall id | id in live :: live[id].id == id && live[id].Valid()
      modifies sockets.Values, live.Values
      ensures forall id | id in sockets :: sockets[id].closes == 1
      ensures forall id | id in live ::
                live[id].Valid() && live[id].req == old(live[id].req).(chunksClosed := true)
    {
      CloseBridges(sockets);
      CloseQueues(live);
    }

    /** The part of the shutdown under the lock. */
    method Sweep() returns (sockets: map<Id, Bridge>, live: map<Id, Pending>)
      requires Valid() && !closed
      modifies this`closed, this`pending, this`bridges, this`state
      ensures Shown() && state == M.ShutTables(old(state)) && doneCloses == old(doneCloses)
      ensures closed && pending == map[] && bridges == map[]
      ensures sockets == old(bridges) && live == old(pending)
      ensures forall id | id in sockets :: sockets[id].id == id && sockets[id].closes == 0
      ensures forall id | id in live :: live[id].id == id && live[id].Valid()
    {
      closed := true;
      sockets, live := bridges, pending;
      pending, bridges := map[], map[];
      state := M.ShutTables(state);
    }

    /** The end of the connection: both tables emptied at once, then every
        queue in them closed, and `done` last. A second call does nothing. */
    method Shutdown()
      requires Valid()
      modifies this, pending.Values, bridges.Values
      ensures Valid() && closed && pending == map[] && bridges == map[] && doneCloses == 1
      ensures state == if old(closed) then old(state) else T.Ended(old(state))
      ensures forall id | id in old(pending) ::
                old(pending)[id].Valid() && old(pending)[id].req == old(pending[id].req).(chunksClosed := true)
      ensures forall id | id in old(bridges) :: old(bridges)[id].closes == 1
    {
      if closed {
        return;
      }
      EndOnce();
    }

    /** The first end. */
    method EndOnce()
      requires Valid() && !closed
      modifies this, pending.Values, bridges.Values
      ensures Valid() && closed && state == T.Ended(old(state))
      ensures forall id | id in old(pending) ::
                old(pending)[id].Valid() && old(pending)[id].req == old(pending[id].req).(chunksClosed := true)
      ensures forall id | id in old(bridges) :: old(bridges)[id].closes == 1
    {
      var sockets, live := Sweep();
      CloseAll(sockets, live);
      doneCloses := doneCloses + 1;
      state := T.Ended(old(state));
      EmptyIsValid();
    }

    /** With both tables empty there is little left to keep. */
    lemma EmptyIsValid()
      requires closed && state.closed && nextId == state.nextId && doneCloses == state.doneCloses == 1
      requires pending == map[] && bridges == map[] && state.table == {} && state.bridgeTable == {}
      ensures Valid()
    {
    }
  }
}
