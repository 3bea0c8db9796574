/** What `settle`, `dropBridge` and the shutdown leave behind when nothing
    interrupts them, and that each is a run of the machine. */
module Teardown {
  import opened Ids
  import R = Request
  import M = Multiplex

  function Closed(bridges: map<Id, M.Bridge>, some: set<Id>): map<Id, M.Bridge> {
    map id | id in bridges ::
      if id in some && bridges[id].owed > 0 then bridges[id].(owed := bridges[id].owed - 1, closes := 1)
      else bridges[id]
  }

  function Drained(reqs: map<Id, R.Req>, some: set<Id>): map<Id, R.Req> {
    map id | id in reqs :: if id in some then reqs[id].(chunksClosed := true) else reqs[id]
  }

  /** Both tables swept, every queue in them closed, and `done` closed. */
  function Ended(s: M.State): M.State {
    var t := M.ShutTables(s);
    t.(sweep := M.Swept, doneCloses := 1, bridges := Closed(t.bridges, s.bridgeTable), reqs := Drained(t.reqs, s.table))
  }

  lemma CloseOne(bridges: map<Id, M.Bridge>, some: set<Id>, id: Id)
    requires id in some && id in bridges && bridges[id].owed > 0
    ensures var b := bridges[id].(owed := bridges[id].owed - 1, closes := 1);
            Closed(bridges[id := b], some - {id}) == Closed(bridges, some)
  {
  }

  lemma SweepsOne(s: M.State, id: Id)
    requires !s.crashed && s.sweep.Sweeping? && id in s.sweep.bridges
    requires id in s.bridges && s.bridges[id].owed > 0 && s.bridges[id].closes == 0
    ensures var b := s.bridges[id].(owed := s.bridges[id].owed - 1, closes := 1);
            && M.Enabled(s, M.ShutBridge(id))
            && M.Step(s, M.ShutBridge(id)) ==
               s.(sweep := M.Sweeping(s.sweep.bridges - {id}, s.sweep.requests), bridges := s.bridges[id := b])
  {
  }

  lemma {:induction false} CloseEach(s: M.State, some: set<Id>) returns (acts: seq<M.Action>)
    requires !s.crashed && s.sweep.Sweeping? && s.sweep.bridges == some
    requires forall id | id in some :: id in s.bridges && s.bridges[id].owed > 0 && s.bridges[id].closes == 0
    ensures M.Leads(s, acts, s.(sweep := M.Sweeping({}, s.sweep.requests), bridges := Closed(s.bridges, some)))
    decreases some
  {
    acts := [];
    if some == {} {
      assert Closed(s.bridges, some) == s.bridges;
    } else {
      var id :| id in some;
      var b := s.bridges[id].(owed := s.bridges[id].owed - 1, closes := 1);
      var t := s.(sweep := M.Sweeping(some - {id}, s.sweep.requests), bridges := s.bridges[id := b]);
      SweepsOne(s, id);
      CloseOne(s.bridges, some, id);
      var rest := CloseEach(t, some - {id});
      M.LeadsOne(s, M.ShutBridge(id), rest,
                 s.(sweep := M.Sweeping({}, s.sweep.requests), bridges := Closed(s.bridges, some)));
      acts := [M.ShutBridge(id)] + rest;
    }
  }

  lemma DrainOne(reqs: map<Id, R.Req>, some: set<Id>, id: Id)
    requires id in some && id in reqs
    ensures Drained(reqs[id := reqs[id].(chunksClosed := true)], some - {id}) == Drained(reqs, some)
  {
  }

  lemma {:induction false} DrainEach(s: M.State, some: set<Id>) returns (acts: seq<M.Action>)
    requires !s.crashed && s.sweep == M.Sweeping({}, some) && some <= s.reqs.Keys
    ensures M.Leads(s, acts, s.(sweep := M.Sweeping({}, {}), reqs := Drained(s.reqs, some)))
    decreases some
  {
    acts := [];
    if some == {} {
      assert Drained(s.reqs, some) == s.reqs;
    } else {
      var id :| id in some;
      var t := M.Step(s, M.ShutRequest(id));
      DrainOne(s.reqs, some, id);
      var rest := DrainEach(t, some - {id});
      M.LeadsOne(s, M.ShutRequest(id), rest, s.(sweep := M.Sweeping({}, {}), reqs := Drained(s.reqs, some)));
      acts := [M.ShutRequest(id)] + rest;
    }
  }

  /** Once the read loop has stopped, a shutdown that nothing interrupts is a run
      from any state the connection can be in. */
  lemma ShutdownIsARun(s: M.State) returns (acts: seq<M.Action>)
    requires M.Inv(s) && s.loop == M.Stopped && !s.closed
    ensures M.Leads(s, acts, Ended(s))
  {
    var t := M.Step(s, M.ShutLock);
    forall id | id in s.bridgeTable
      ensures id in t.bridges && t.bridges[id].owed > 0 && t.bridges[id].closes == 0
    {
      assert M.BridgeGood(s, id);
    }
    var first := CloseEach(t, s.bridgeTable);
    var u := t.(sweep := M.Sweeping({}, s.table), bridges := Closed(t.bridges, s.bridgeTable));
    var second := DrainEach(u, s.table);
    var v := u.(sweep := M.Sweeping({}, {}), reqs := Drained(t.reqs, s.table));
    LastStep(s, v);
    M.LeadsOn(u, second, v, [M.ShutDone], Ended(s));
    M.LeadsOn(t, first, u, second + [M.ShutDone], Ended(s));
    M.LeadsOne(s, M.ShutLock, first + (second + [M.ShutDone]), Ended(s));
    acts := [M.ShutLock] + (first + (second + [M.ShutDone]));
  }

  /** A panic unwinds the read loop through its deferred shutdown, so it ends the
      connection as any other end of the loop does. */
  lemma PanicEndsInShutdown(s: M.State) returns (acts: seq<M.Action>)
    requires M.Inv(s) && M.SendsToClosed(s)
    ensures M.Enabled(s, M.Deliver) && M.Step(s, M.Deliver).panicked
    ensures M.Leads(M.Step(s, M.Deliver), acts, Ended(M.Step(s, M.Deliver)))
    ensures Ended(M.Step(s, M.Deliver)).closed && Ended(M.Step(s, M.Deliver)).doneCloses == 1
  {
    M.PanicsExactlyOnClosedQueue(s, M.Deliver);
    M.InvStep(s, M.Deliver);
    acts := ShutdownIsARun(M.Step(s, M.Deliver));
  }

  lemma LastStep(s: M.State, v: M.State)
    requires !v.crashed && v.sweep == M.Sweeping({}, {}) && v.doneCloses == 0
    requires v.(sweep := M.Swept, doneCloses := 1) == Ended(s)
    ensures M.Leads(v, [M.ShutDone], Ended(s))
  {
    M.LeadsOne(v, M.ShutDone, [], Ended(s));
  }

  /** `settle`: the slot leaves the table, and then its queue is closed. */
  function Settled(s: M.State, id: Id): M.State
    requires id in s.reqs
  {
    var t := M.LeaveTable(s, id);
    if id in s.table then M.CloseChunks(t, id) else t
  }

  /** What that changes: one entry of the table, and nothing of any other request. */
  lemma SettledTables(s: M.State, id: Id)
    requires id in s.reqs
    ensures var t := Settled(s, id);
            && t == s.(table := t.table, reqs := t.reqs)
            && (forall k :: k in t.table <==> k in s.table && k != id)
            && (forall k | k in s.reqs :: k in t.reqs && (k != id ==> t.reqs[k] == s.reqs[k]))
  {
  }

  lemma SettleIsARun(s: M.State, id: Id)
    requires M.Enabled(s, M.SettleLock(id))
    ensures M.Leads(s, if id in s.table then [M.SettleLock(id), M.SettleClose(id)] else [M.SettleLock(id)],
                    Settled(s, id))
  {
    var t := M.Step(s, M.SettleLock(id));
    if id in s.table {
      M.LeadsOne(t, M.SettleClose(id), [], Settled(s, id));
      M.LeadsOne(s, M.SettleLock(id), [M.SettleClose(id)], Settled(s, id));
    } else {
      M.LeadsOne(s, M.SettleLock(id), [], Settled(s, id));
    }
  }

  /** `dropBridge`: the bridge leaves the table, and who found it closes it. */
  function Dropped(s: M.State, id: Id): M.State {
    var t := M.DropBridge(s, id);
    if id in s.bridgeTable && id in s.bridges then M.CloseMessages(t, id) else t
  }

  lemma DropIsARun(s: M.State, id: Id)
    requires M.Inv(s)
    ensures !Dropped(s, id).crashed
    ensures M.Leads(s, if id in s.bridgeTable then [M.DropLock(id), M.DropClose(id)] else [M.DropLock(id)],
                    Dropped(s, id))
  {
    if id in s.bridgeTable {
      assert M.BridgeGood(s, id);
      DropFound(s, id);
    } else {
      M.LeadsOne(s, M.DropLock(id), [], Dropped(s, id));
    }
  }

  lemma DropFound(s: M.State, id: Id)
    requires !s.crashed && id in s.bridgeTable && id in s.bridges && M.BridgeGood(s, id)
    requires M.Framed(s)
    ensures !Dropped(s, id).crashed && M.Leads(s, [M.DropLock(id), M.DropClose(id)], Dropped(s, id))
  {
    var t := M.Step(s, M.DropLock(id));
    M.LeadsOne(t, M.DropClose(id), [], Dropped(s, id));
    M.LeadsOne(s, M.DropLock(id), [M.DropClose(id)], Dropped(s, id));
  }

  /** What that changes: the one bridge, which is out of the table and closed once. */
  lemma DroppedTables(s: M.State, id: Id)
    requires id in s.bridgeTable && id in s.bridges && s.bridges[id].owed == 0 && s.bridges[id].closes == 0
    ensures var t := Dropped(s, id);
            && t == s.(bridgeTable := t.bridgeTable, bridges := t.bridges)
            && t.bridgeTable == s.bridgeTable - {id} && t.bridges.Keys == s.bridges.Keys
            && t.bridges[id] == s.bridges[id].(closes := 1)
            && (forall k | k in s.bridges && k != id :: t.bridges[k] == s.bridges[k])
  {
  }

  lemma WsCloseFound(s: M.State, id: Id)
    requires !s.crashed && s.loop == M.Idle && id in s.bridgeTable && id in s.bridges && M.Framed(s)
    requires s.bridges[id].owed == 0 && s.bridges[id].closes == 0
    ensures M.Leads(s, [M.Receive(M.WsClose(id)), M.DropClose(id)], Dropped(s, id))
  {
    var t := M.Step(s, M.Receive(M.WsClose(id)));
    M.LeadsOne(t, M.DropClose(id), [], Dropped(s, id));
    M.LeadsOne(s, M.Receive(M.WsClose(id)), [M.DropClose(id)], Dropped(s, id));
  }

  /** A `ws.close` frame and the close it owes do the same. */
  lemma WsCloseIsARun(s: M.State, id: Id)
    requires M.Inv(s) && s.loop == M.Idle && id in s.bridgeTable
    ensures M.Leads(s, [M.Receive(M.WsClose(id)), M.DropClose(id)], Dropped(s, id))
    ensures id in s.bridges && id in Dropped(s, id).bridges
    ensures Dropped(s, id).bridges[id] == s.bridges[id].(closes := 1)
  {
    assert M.BridgeGood(s, id);
    DroppedTables(s, id);
    WsCloseFound(s, id);
  }
}
