/** Why a queue the read loop sends to can be closed: its request or bridge has left
    the table, or a second failure closed the queue of a request still there. */
module Failures {
  import opened Ids
  import R = Request
  import M = Multiplex
  import E = EndToEnd

  // ── Any node ──

  predicate ClosedInTable(s: M.State, id: Id) { id in s.table && id in s.reqs && s.reqs[id].chunksClosed }

  lemma OwnerKeeps(r: R.Req, l: R.Local)
    requires R.LocalEnabled(r, true, l)
    ensures R.LocalStep(r, l).chunksClosed == r.chunksClosed && R.LocalStep(r, l).fails <= r.fails
  {
  }

  /** A frame closes the queue only as a second failure. */
  lemma FrameCloses(r: R.Req, f: R.ReqFrame)
    requires r.fails <= 1
    ensures R.Accept(r, f).0.chunksClosed <==> r.chunksClosed || (f.Err? && r.fails == 1)
  {
  }

  lemma ViewClosedByFailure(v: R.View, a: R.Action)
    requires R.Good(v) && R.Enabled(v, a) && !(v.inTable && v.req.chunksClosed)
    requires R.Step(v, a).inTable && R.Step(v, a).req.chunksClosed
    ensures a == R.Receive(R.ReqFrame.Err) && v.inTable && v.req.fails == 1
  {
    match a
    case Own(l) => OwnerKeeps(v.req, l);
    case Receive(f) => FrameCloses(v.req, f);
    case _ =>
  }

  lemma NewRequestIsOpen(s: M.State, a: M.Action, id: Id)
    requires M.Enabled(s, a) && id !in s.reqs
    ensures !ClosedInTable(M.Step(s, a), id)
  {
    M.StepKeys(s, a);
  }

  /** A slot in the table gets a closed queue by a failure frame that finds an
      earlier failure unread, and by nothing else. */
  lemma ClosedByFailure(s: M.State, a: M.Action, id: Id)
    requires M.Inv(s) && M.Enabled(s, a) && !ClosedInTable(s, id) && ClosedInTable(M.Step(s, a), id)
    ensures a == M.Receive(M.ForRequest(id, R.ReqFrame.Err))
    ensures id in s.table && id in s.reqs && s.reqs[id].fails == 1
  {
    if id !in s.reqs {
      NewRequestIsOpen(s, a, id);
    } else {
      M.NeverClosedTwice(s, a);
      M.StepAgrees(s, a, id);
      SeenClosing(s, a, id);
    }
  }

  lemma SeenClosing(s: M.State, a: M.Action, id: Id)
    requires M.Enabled(s, a) && id in s.reqs && M.Agrees(s, a, id) && R.Good(M.View(s, id))
    requires !ClosedInTable(s, id) && ClosedInTable(M.Step(s, a), id)
    ensures M.Seen(s, a, id).Some? && M.Seen(s, a, id).value == R.Receive(R.ReqFrame.Err)
    ensures id in s.table && s.reqs[id].fails == 1
  {
    assert M.View(M.Step(s, a), id).inTable && M.View(M.Step(s, a), id).req.chunksClosed;
    if M.Seen(s, a, id).Some? {
      ViewClosedByFailure(M.View(s, id), M.Seen(s, a, id).value);
    }
  }

  /** The failure that closed the queue of a slot still in the table. */
  lemma {:induction false} SecondFailureBefore(s: M.State, acts: seq<M.Action>, id: Id) returns (m: nat)
    requires M.Inv(s) && M.Legal(s, acts) && !ClosedInTable(s, id) && ClosedInTable(M.Run(s, acts), id)
    ensures m < |acts| && acts[m] == M.Receive(M.ForRequest(id, R.ReqFrame.Err)) && M.Legal(s, acts[..m])
    ensures var t := M.Run(s, acts[..m]); id in t.table && id in t.reqs && t.reqs[id].fails == 1
    decreases acts
  {
    var t := M.Step(s, acts[0]);
    if ClosedInTable(t, id) {
      m := 0;
      ClosedByFailure(s, acts[0], id);
    } else {
      M.InvStep(s, acts[0]);
      var k := SecondFailureBefore(t, acts[1..], id);
      m := k + 1;
      OneMoreStep(s, acts, k);
    }
  }

  lemma OneMoreStep(s: M.State, acts: seq<M.Action>, k: nat)
    requires acts != [] && M.Enabled(s, acts[0]) && k < |acts| - 1
    requires M.Legal(M.Step(s, acts[0]), acts[1..][..k])
    ensures M.Legal(s, acts[..k + 1]) && M.Run(s, acts[..k + 1]) == M.Run(M.Step(s, acts[0]), acts[1..][..k])
  {
    assert acts[..k + 1][1..] == acts[1..][..k];
  }

  /** Against any node whatever, the read loop panics on a message only when the
      bridge is out of the table, and on a chunk or end only when the request is, or
      when a failure of it was taken while an earlier one was unread. */
  lemma WhyItPanics(acts: seq<M.Action>) returns (m: nat)
    requires M.Legal(M.INITIAL, acts) && M.SendsToClosed(M.Run(M.INITIAL, acts))
    ensures var s := M.Run(M.INITIAL, acts);
            && (s.loop.HoldsMsg? ==> s.loop.id !in s.bridgeTable)
            && (s.loop.HoldsReq? && s.loop.id in s.table ==>
                && m < |acts| && acts[m] == M.Receive(M.ForRequest(s.loop.id, R.ReqFrame.Err))
                && M.Legal(M.INITIAL, acts[..m])
                && var t := M.Run(M.INITIAL, acts[..m]);
                   s.loop.id in t.table && s.loop.id in t.reqs && t.reqs[s.loop.id].fails == 1)
  {
    M.ReachableIsInv(acts);
    var s := M.Run(M.INITIAL, acts);
    m := 0;
    match s.loop {
      case HoldsMsg(id, _) => assert M.BridgeGood(s, id);
      case HoldsReq(id, _) =>
        if id in s.table {
          m := SecondFailureBefore(M.INITIAL, acts, id);
        }
      case _ =>
    }
  }

  // ── A node that follows the protocol ──

  function Errs(wire: seq<M.Frame>, id: Id): nat {
    if wire == [] then 0 else (if IsErr(wire[0], id) then 1 else 0) + Errs(wire[1..], id)
  }

  predicate IsErr(f: M.Frame, id: Id) { f == M.ForRequest(id, R.ReqFrame.Err) }

  lemma {:induction false} ErrsSnoc(wire: seq<M.Frame>, f: M.Frame, id: Id)
    ensures Errs(wire + [f], id) == Errs(wire, id) + (if IsErr(f, id) then 1 else 0)
  {
    if wire == [] {
      assert wire + [f] == [f] && [f][1..] == [];
    } else {
      ErrsSnoc(wire[1..], f, id);
      assert (wire + [f])[1..] == wire[1..] + [f] && (wire + [f])[0] == wire[0];
    }
  }

  function Fails(s: M.State, id: Id): nat { if id in s.reqs then s.reqs[id].fails else 0 }

  function Sent(s: E.System, id: Id): nat { if id in s.streams && s.streams[id].status == E.Failed then 1 else 0 }

  /** A stream fails once, so at most one failure of it is on the wire or unread. */
  predicate OneFailure(s: E.System, id: Id) { Errs(s.wire, id) + Fails(s.conn, id) <= Sent(s, id) }

  lemma ViewKeepsFails(v: R.View, a: R.Action)
    requires R.Enabled(v, a) && !a.Receive?
    ensures R.Step(v, a).req.fails <= v.req.fails
  {
    if a.Own? {
      OwnerKeeps(v.req, a.a);
    }
  }

  lemma ControlKeepsFails(s: M.State, a: M.Action, id: Id)
    requires M.Inv(s) && M.Enabled(s, a) && !a.Receive?
    ensures Fails(M.Step(s, a), id) <= Fails(s, id)
  {
    if id in s.reqs {
      M.NeverClosedTwice(s, a);
      M.StepAgrees(s, a, id);
      if M.Seen(s, a, id).Some? {
        ViewKeepsFails(M.View(s, id), M.Seen(s, a, id).value);
      }
      assert M.View(M.Step(s, a), id).req.fails <= M.View(s, id).req.fails;
    } else {
      NewRequestHasNoFails(s, a, id);
    }
  }

  lemma NewRequestHasNoFails(s: M.State, a: M.Action, id: Id)
    requires M.Enabled(s, a) && id !in s.reqs
    ensures Fails(M.Step(s, a), id) == 0
  {
    M.StepKeys(s, a);
  }

  lemma DispatchFails(s: M.State, f: M.Frame, id: Id)
    ensures Fails(M.Dispatch(s, f), id) <= Fails(s, id) + (if IsErr(f, id) then 1 else 0)
  {
    M.DispatchKeys(s, f);
    if id in s.reqs && f.ForRequest? && f.id == id {
      assert M.Dispatch(s, f).reqs[id].fails <= s.reqs[id].fails + (if f.f.Err? then 1 else 0);
    } else if id in s.reqs {
      M.DispatchElsewhere(s, f, id);
    }
  }

  predicate OfRequest(id: Id) { id == [] || id[0] != 'w' }

  lemma NodeFails(s: E.System, a: E.Action, id: Id)
    requires E.Enabled(s, a) && !a.Control? && !a.Arrive? && OneFailure(s, id) && OfRequest(id)
    requires s.streams.Keys <= s.conn.reqs.Keys
    ensures OneFailure(E.Step(s, a), id)
  {
    var t := E.Step(s, a);
    assert t.conn == s.conn;
    if t.wire != s.wire {
      ErrsSnoc(s.wire, t.wire[|t.wire| - 1], id);
      assert t.wire == s.wire + [t.wire[|t.wire| - 1]];
    }
  }

  lemma OneFailureStep(s: E.System, a: E.Action, id: Id)
    requires E.Inv(s) && E.Enabled(s, a) && OneFailure(s, id) && OfRequest(id)
    ensures OneFailure(E.Step(s, a), id)
  {
    match a
    case Control(c) => ControlKeepsFails(s.conn, c, id);
    case Arrive => DispatchFails(s.conn, s.wire[0], id);
    case _ => NodeFails(s, a, id);
  }

  /** So a slot in the table never has a closed queue. */
  lemma StaysOpen(s: E.System, a: E.Action, id: Id)
    requires E.Inv(s) && E.Enabled(s, a) && OneFailure(s, id) && !ClosedInTable(s.conn, id)
    ensures !ClosedInTable(E.Step(s, a).conn, id)
  {
    if ClosedInTable(E.Step(s, a).conn, id) {
      match a
      case Control(c) => ClosedByFailure(s.conn, c, id);
      case Arrive => ClosedByFailure(s.conn, M.Receive(s.wire[0]), id);
      case _ =>
    }
  }

  lemma {:induction false} HonestRun(s: E.System, acts: seq<E.Action>, id: Id)
    requires E.Inv(s) && E.Legal(s, acts) && OfRequest(id) && OneFailure(s, id) && !ClosedInTable(s.conn, id)
    ensures OneFailure(E.Run(s, acts), id) && !ClosedInTable(E.Run(s, acts).conn, id)
    decreases acts
  {
    if acts != [] {
      E.InvStep(s, acts[0]);
      OneFailureStep(s, acts[0], id);
      StaysOpen(s, acts[0], id);
      HonestRun(E.Step(s, acts[0]), acts[1..], id);
    }
  }

  lemma RequestIdsAreDigits(s: M.State, id: Id)
    requires M.Minted(s) && id in s.reqs
    ensures OfRequest(id)
  {
    assert id == Decimal(M.Value(id));
  }

  /** Against a node that follows the protocol, the read loop panics only by a late
      send: what it holds is for a request or bridge that has left its table. */
  lemma HonestPanicsAreLate(acts: seq<E.Action>)
    requires E.Legal(E.START, acts) && M.SendsToClosed(E.Run(E.START, acts).conn)
    ensures var s := E.Run(E.START, acts).conn;
            && (s.loop.HoldsReq? ==> s.loop.id !in s.table)
            && (s.loop.HoldsMsg? ==> s.loop.id !in s.bridgeTable)
  {
    E.InvRun(E.START, acts);
    var s := E.Run(E.START, acts).conn;
    match s.loop
    case HoldsMsg(id, _) => assert M.BridgeGood(s, id);
    case HoldsReq(id, _) =>
      RequestIdsAreDigits(s, id);
      HonestRun(E.START, acts, id);
    case _ =>
  }
}
