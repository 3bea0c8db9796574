/** What each frame and each step brings about on one connection, told by what can be
    seen of it and not by the step function. */
module ConnectionEffects {
  import opened Wrappers
  import opened Ids
  import P = Payload
  import R = Request
  import M = Multiplex

  // ── Frames of a request ──

  /** The read loop refuses a frame, and with it the connection, exactly when it is
      malformed, when a chunk or an end of a request it knows carries another number
      than the one that is next, or when a body it has to decode does not. */
  predicate Refused(s: M.State, f: M.Frame) {
    match f
    case Malformed => true
    case ForRequest(id, rf) =>
      id in s.table && id in s.reqs &&
      (match rf
       case Data(seqNo, body) => seqNo != s.reqs[id].nextSeq || P.Bytes(body).Err?
       case End(n) => n != s.reqs[id].nextSeq
       case _ => false)
    case WsMsg(id, body) => id in s.bridgeTable && id in s.bridges && P.Bytes(body).Err?
    case _ => false
  }

  lemma RefusedExactly(s: M.State, f: M.Frame)
    requires s.loop == M.Idle
    ensures M.Dispatch(s, f).loop == M.Stopped <==> Refused(s, f)
  {
  }

  /** A frame for a request or bridge that is in no table changes nothing, and so
      does a kind this build does not know. */
  lemma StrangersAreIgnored(s: M.State, f: M.Frame)
    requires match f
             case ForRequest(id, _) => id !in s.table
             case WsUp(id) => id !in s.bridgeTable
             case WsMsg(id, _) => id !in s.bridgeTable
             case WsClose(id) => id !in s.bridgeTable
             case Unrelated => true
             case Malformed => false
    ensures M.Dispatch(s, f) == s
  {
  }

  /** What the read loop holds after a frame it does not refuse. */
  lemma RequestFrameIsHeld(s: M.State, id: Id, rf: R.ReqFrame)
    requires s.loop == M.Idle && id in s.table && id in s.reqs && !Refused(s, M.ForRequest(id, rf))
    ensures var t := M.Dispatch(s, M.ForRequest(id, rf));
            match rf
            case Head(status) => t == s.(loop := M.HoldsReq(id, R.HeldHead(status)))
            case Data(seqNo, body) =>
              t.loop == M.HoldsReq(id, R.HeldItem(R.Chunk(seqNo, P.Bytes(body).value))) &&
              id in t.reqs && t.reqs[id].nextSeq == seqNo + 1
            case End(n) =>
              t.loop == M.HoldsReq(id, R.HeldItem(R.EndMark(n))) && id in t.reqs && t.reqs[id].nextSeq == n
            case Err =>
              && t.loop == M.Idle && id in t.reqs
              && t.reqs[id].fails == (if s.reqs[id].fails == 0 then 1 else s.reqs[id].fails)
  {
    assert s.reqs[id := s.reqs[id]] == s.reqs;
  }

  /** And what it held is queued, oldest first, once there is room. */
  lemma HeldIsQueued(s: M.State)
    requires M.Enabled(s, M.Deliver) && !M.SendsToClosed(s)
    ensures var t := M.Step(s, M.Deliver);
            && t.loop == M.Idle
            && (match s.loop
                case HoldsReq(id, HeldHead(status)) => id in t.reqs && t.reqs[id].heads == s.reqs[id].heads + [status]
                case HoldsReq(id, HeldItem(item)) => id in t.reqs && t.reqs[id].chunks == s.reqs[id].chunks + [item]
                case HoldsMsg(id, m) => id in t.bridges && t.bridges[id].messages == s.bridges[id].messages + [m]
                case _ => false)
  {
  }

  /** A queue takes up to 32 chunks or messages before the read loop waits. */
  lemma RoomExactly(s: M.State)
    requires M.Framed(s) && !s.crashed
    ensures M.Enabled(s, M.Deliver) <==>
              match s.loop
              case HoldsReq(id, HeldHead(_)) => s.reqs[id].heads == []
              case HoldsReq(id, HeldItem(_)) => s.reqs[id].chunksClosed || |s.reqs[id].chunks| < 32
              case HoldsMsg(id, _) => s.bridges[id].closes > 0 || |s.bridges[id].messages| < 32
              case _ => false
  {
  }

  // ── Frames of a bridge ──

  /** Nothing but one bridge is other than before. */
  ghost predicate OnlyBridge(s: M.State, t: M.State, id: Id) {
    && t == s.(bridges := t.bridges, bridgeTable := t.bridgeTable)
    && (forall k | k in s.bridges && k != id :: k in t.bridges && t.bridges[k] == s.bridges[k])
    && (forall k | k != id :: k in t.bridgeTable <==> k in s.bridgeTable)
  }

  lemma BridgeComesUp(s: M.State, id: Id)
    requires id in s.bridgeTable && id in s.bridges
    ensures var t := M.Dispatch(s, M.WsUp(id));
            && OnlyBridge(s, t, id) && id in t.bridgeTable
            && id in t.bridges && t.bridges[id] == s.bridges[id].(up := true)
  {
  }

  lemma MessageIsHeld(s: M.State, id: Id, body: P.Payload)
    requires s.loop == M.Idle && id in s.bridgeTable && id in s.bridges && P.Bytes(body).Ok?
    ensures M.Dispatch(s, M.WsMsg(id, body)).loop == M.HoldsMsg(id, P.Bytes(body).value)
  {
  }

  /** `ws.close` takes the bridge out of the table and leaves exactly one close of
      its queue owed, which wakes the browser's reader; its queued messages, every
      other bridge and every request are as before. */
  lemma BridgeCloses(s: M.State, id: Id)
    requires M.Inv(s) && s.loop == M.Idle && id in s.bridgeTable
    ensures M.Enabled(s, M.Receive(M.WsClose(id)))
    ensures var t := M.Step(s, M.Receive(M.WsClose(id)));
            && OnlyBridge(s, t, id) && id !in t.bridgeTable
            && id in s.bridges && id in t.bridges && t.bridges[id].owed == 1 && t.bridges[id].closes == 0
            && t.bridges[id].messages == s.bridges[id].messages && t.bridges[id].up == s.bridges[id].up
  {
    assert M.BridgeGood(s, id);
  }

  /** Whoever drops a bridge that stands owes the close in the same way. */
  lemma BridgeDrops(s: M.State, id: Id)
    requires M.Inv(s) && M.Enabled(s, M.DropLock(id)) && id in s.bridgeTable
    ensures var t := M.Step(s, M.DropLock(id));
            && OnlyBridge(s, t, id) && id !in t.bridgeTable
            && id in s.bridges && id in t.bridges && t.bridges[id].owed == 1 && t.bridges[id].closes == 0
            && t.bridges[id].messages == s.bridges[id].messages
  {
    assert M.BridgeGood(s, id);
  }

  /** The close that is owed can be made, and wakes the reader for good. */
  lemma OwedCloseCloses(s: M.State, id: Id)
    requires M.Inv(s) && M.Enabled(s, M.DropClose(id))
    ensures var t := M.Step(s, M.DropClose(id));
            && OnlyBridge(s, t, id) && id in t.bridges && t.bridges[id].owed == 0 && t.bridges[id].closes == 1
            && t.bridges[id].messages == s.bridges[id].messages
  {
    assert M.BridgeGood(s, id);
  }

  /** The browser's end takes the oldest message. */
  lemma OldestMessageIsTaken(s: M.State, id: Id)
    requires M.Enabled(s, M.TakeMessage(id))
    ensures var t, b := M.Step(s, M.TakeMessage(id)), s.bridges[id];
            && OnlyBridge(s, t, id) && id in t.bridges
            && t.bridges[id].taken == b.taken + [b.messages[0]]
            && [b.messages[0]] + t.bridges[id].messages == b.messages
  {
  }

  lemma FrameKeepsOut(s: M.State, f: M.Frame, id: Id)
    requires id !in s.bridgeTable
    ensures id !in M.Dispatch(s, f).bridgeTable
  {
  }

  lemma OutStep(s: M.State, a: M.Action, id: Id)
    requires M.Inv(s) && M.Enabled(s, a) && id in s.bridges && id !in s.bridgeTable
    ensures id in M.Step(s, a).bridges && id !in M.Step(s, a).bridgeTable
  {
    M.StepKeys(s, a);
    if a.Receive? {
      FrameKeepsOut(s, a.f, id);
    } else {
      M.OnlyFramesBringMessages(s, a, id);
    }
  }

  /** Once a bridge is out of the table, it is owed its one close or closed, in every
      later state. */
  lemma {:induction false} ClosedBridgeStaysClosed(s: M.State, acts: seq<M.Action>, id: Id)
    requires M.Inv(s) && M.Legal(s, acts) && id in s.bridges && id !in s.bridgeTable
    ensures var t := M.Run(s, acts);
            id in t.bridges && id !in t.bridgeTable && t.bridges[id].owed + t.bridges[id].closes == 1
    decreases acts
  {
    assert M.BridgeGood(s, id);
    if acts != [] {
      OutStep(s, acts[0], id);
      M.InvStep(s, acts[0]);
      ClosedBridgeStaysClosed(M.Step(s, acts[0]), acts[1..], id);
    }
  }

  /** So after its `ws.close`, whatever happens next. */
  lemma WsCloseIsFinal(s: M.State, id: Id, acts: seq<M.Action>)
    requires M.Inv(s) && M.Enabled(s, M.Receive(M.WsClose(id))) && id in s.bridgeTable
    requires M.Legal(M.Step(s, M.Receive(M.WsClose(id))), acts)
    ensures var t := M.Run(M.Step(s, M.Receive(M.WsClose(id))), acts);
            id in t.bridges && id !in t.bridgeTable && t.bridges[id].owed + t.bridges[id].closes == 1
  {
    BridgeCloses(s, id);
    M.InvStep(s, M.Receive(M.WsClose(id)));
    ClosedBridgeStaysClosed(M.Step(s, M.Receive(M.WsClose(id))), acts, id);
  }

  // ── Minting, and the end of the read loop ──

  /** `Do` and `OpenWS` add an entry that stands in the table and holds nothing. */
  lemma MintsStand(s: M.State)
    requires M.Enabled(s, M.Enlist)
    ensures var id, t := RequestId(s.nextId + 1), M.Step(s, M.Enlist);
            && id in t.table && id in t.reqs && t.reqs[id] == R.NEW_REQ && t.table == s.table + {id}
            && t.bridgeTable == s.bridgeTable && t.bridges == s.bridges
    ensures M.Enabled(s, M.OpenBridge)
    ensures var id, t := BridgeId(s.nextId + 1), M.Step(s, M.OpenBridge);
            && id in t.bridgeTable && id in t.bridges && t.bridgeTable == s.bridgeTable + {id}
            && !t.bridges[id].up && t.bridges[id].messages == [] && t.table == s.table && t.reqs == s.reqs
  {
  }

  /** When the wire or its context ends, the read loop stops, and what it held is
      given up. */
  lemma LoopEnds(s: M.State)
    requires M.Framed(s) && M.Enabled(s, M.LoopStop)
    ensures var t := M.Step(s, M.LoopStop);
            && t.loop == M.Stopped && t.table == s.table && t.bridgeTable == s.bridgeTable
            && (s.loop.HoldsReq? ==>
                t.reqs[s.loop.id].lost == s.reqs[s.loop.id].lost + R.Items([s.loop.held]) &&
                t.reqs[s.loop.id].chunks == s.reqs[s.loop.id].chunks)
            && (s.loop.HoldsMsg? ==>
                t.bridges[s.loop.id].lost == s.bridges[s.loop.id].lost + [s.loop.message] &&
                t.bridges[s.loop.id].messages == s.bridges[s.loop.id].messages)
    ensures !s.closed ==> M.Enabled(M.Step(s, M.LoopStop), M.ShutLock)
  {
  }
}
