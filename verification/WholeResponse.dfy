/** That a response can arrive: for every body there is a run, from a fresh
    connection, in which its reader gets its status and all of it. */
module WholeResponse {
  import opened Wrappers
  import opened Utf8
  import opened Ids
  import opened NodeStream
  import P = Payload
  import R = Request
  import M = Multiplex
  import E = EndToEnd
  import D = Delivery

  const ID: Id := "1"

  /** A connection with this one request on it. */
  function Alone(r: R.Req, st: E.Stream, loop: M.Loop, wire: seq<M.Frame>): E.System {
    var conn := M.State(1, map[ID := r], {ID}, map[], {}, false, M.NotYet, 0, loop, false, false);
    E.System(conn, wire, map[ID := st], [])
  }

  ghost predicate Leads(s: E.System, acts: seq<E.Action>, t: E.System) { E.Legal(s, acts) && E.Run(s, acts) == t }

  lemma Nothing(s: E.System)
    ensures Leads(s, [], s)
  {
  }

  lemma One(s: E.System, a: E.Action)
    requires E.Enabled(s, a)
    ensures Leads(s, [a], E.Step(s, a))
  {
    assert [a][1..] == [];
  }

  lemma {:induction false} Then(s: E.System, a: seq<E.Action>, t: E.System, b: seq<E.Action>, u: E.System)
    requires Leads(s, a, t) && Leads(t, b, u)
    ensures Leads(s, a + b, u)
    decreases a
  {
    if a == [] {
      assert a + b == b;
    } else {
      Then(E.Step(s, a[0]), a[1..], t, b, u);
      assert (a + b)[1..] == a[1..] + b;
    }
  }

  lemma {:induction false} ReadsConcat(a: seq<E.Action>, b: seq<E.Action>)
    ensures D.ReadsOf(a + b, ID) == D.ReadsOf(a, ID) + D.ReadsOf(b, ID)
  {
    if a == [] {
      assert a + b == b;
    } else {
      ReadsConcat(a[1..], b);
      assert (a + b)[1..] == a[1..] + b;
    }
  }

  lemma ReadsOne(a: E.Action)
    ensures D.ReadsOf([a], ID) == if a.NodeRead? && a.id == ID then [a.value] else []
  {
    assert [a][1..] == [];
  }

  /** The pump waits, nothing is under way, and the next number is the one to come. */
  predicate Ready(r: R.Req, st: E.Stream, status: int) {
    && r.pc == R.Pumping && r.chunks == [] && !r.chunksClosed && !r.readerClosed && r.pipe == R.Open
    && r.nextSeq == |st.chunks| && st.status == E.Streaming && r.got == Some(status)
  }

  // ── One item from the wire to the pump ──

  /** The item the connection has let in, as the request keeps it. */
  function Logged(r: R.Req, item: R.Item): R.Req {
    r.(nextSeq := if item.Chunk? then r.nextSeq + 1 else r.nextSeq, log := r.log + [item])
  }

  lemma Arrives(r: R.Req, st: E.Stream, f: R.ReqFrame, item: R.Item)
    requires R.Accept(r, f) == (Logged(r, item), R.Hold(R.HeldItem(item)))
    ensures var s := Alone(r, st, M.Idle, [M.ForRequest(ID, f)]);
            Leads(s, [E.Arrive], Alone(Logged(r, item), st, M.HoldsReq(ID, R.HeldItem(item)), []))
  {
    var s := Alone(r, st, M.Idle, [M.ForRequest(ID, f)]);
    assert map[ID := r][ID := Logged(r, item)] == map[ID := Logged(r, item)];
    assert s.wire[1..] == [];
    One(s, E.Arrive);
  }

  lemma Queues(r: R.Req, st: E.Stream, item: R.Item)
    requires r.chunks == [] && !r.chunksClosed
    ensures var s := Alone(r, st, M.HoldsReq(ID, R.HeldItem(item)), []);
            Leads(s, [E.Control(M.Deliver)], Alone(r.(chunks := [item]), st, M.Idle, []))
  {
    var s := Alone(r, st, M.HoldsReq(ID, R.HeldItem(item)), []);
    assert map[ID := r][ID := r.(chunks := [item])] == map[ID := r.(chunks := [item])];
    assert [] + [item] == [item];
    One(s, E.Control(M.Deliver));
  }

  lemma Owns(r: R.Req, st: E.Stream, l: R.Local)
    requires R.LocalEnabled(r, false, l)
    ensures Leads(Alone(r, st, M.Idle, []), [E.Control(M.Own(ID, l))], Alone(R.LocalStep(r, l), st, M.Idle, []))
  {
    var s := Alone(r, st, M.Idle, []);
    assert map[ID := r][ID := R.LocalStep(r, l)] == map[ID := R.LocalStep(r, l)];
    One(s, E.Control(M.Own(ID, l)));
  }

  /** From the wire through the queue into the pump's hands. */
  lemma Passes(r: R.Req, st: E.Stream, f: R.ReqFrame, item: R.Item) returns (acts: seq<E.Action>)
    requires r.pc == R.Pumping && r.chunks == [] && !r.chunksClosed
    requires R.Accept(r, f) == (Logged(r, item), R.Hold(R.HeldItem(item)))
    ensures Leads(Alone(r, st, M.Idle, [M.ForRequest(ID, f)]), acts, Alone(Pumped(r, item), st, M.Idle, []))
    ensures D.ReadsOf(acts, ID) == []
  {
    var a, b := Logged(r, item), Logged(r, item).(chunks := [item]);
    Arrives(r, st, f, item);
    Queues(a, st, item);
    Owns(b, st, R.PumpTake);
    assert [item][1..] == [];
    assert R.LocalStep(b, R.PumpTake) == Pumped(r, item);
    var s := Alone(r, st, M.Idle, [M.ForRequest(ID, f)]);
    Then(s, [E.Arrive], Alone(a, st, M.HoldsReq(ID, R.HeldItem(item)), []), [E.Control(M.Deliver)],
         Alone(b, st, M.Idle, []));
    Then(s, [E.Arrive] + [E.Control(M.Deliver)], Alone(b, st, M.Idle, []), [E.Control(M.Own(ID, R.PumpTake))],
         Alone(Pumped(r, item), st, M.Idle, []));
    acts := [E.Arrive] + [E.Control(M.Deliver)] + [E.Control(M.Own(ID, R.PumpTake))];
    ReadsConcat([E.Arrive], [E.Control(M.Deliver)]);
    ReadsConcat([E.Arrive] + [E.Control(M.Deliver)], [E.Control(M.Own(ID, R.PumpTake))]);
    ReadsOne(E.Arrive);
    ReadsOne(E.Control(M.Deliver));
    ReadsOne(E.Control(M.Own(ID, R.PumpTake)));
  }

  /** The request once its pump has taken the item. */
  function Pumped(r: R.Req, item: R.Item): R.Req {
    var t := Logged(r, item).(chunks := [], taken := r.taken + [item]);
    if item.Chunk? then t.(pc := R.Pushing(item.bytes)) else t.(pc := R.Settling, pipe := R.Eof)
  }

  // ── One chunk, one buffer, one body ──

  lemma Sends(r: R.Req, st: E.Stream)
    requires st.status == E.Streaming && st.rest != []
    ensures var n := E.Cut(st.rest, st.limit);
            var t := st.(rest := st.rest[n..], chunks := st.chunks + [st.rest[..n]]);
            var f := R.Data(|st.chunks|, P.EncodePayload(st.rest[..n], st.textual));
            0 < n <= |st.rest| &&
            Leads(Alone(r, st, M.Idle, []), [E.NodeSend(ID)], Alone(r, t, M.Idle, [M.ForRequest(ID, f)]))
  {
    var s, n := Alone(r, st, M.Idle, []), E.Cut(st.rest, st.limit);
    var t := st.(rest := st.rest[n..], chunks := st.chunks + [st.rest[..n]]);
    assert map[ID := st][ID := t] == map[ID := t];
    var f := M.ForRequest(ID, R.Data(|st.chunks|, P.EncodePayload(st.rest[..n], st.textual)));
    assert [] + [f] == [f];
    One(s, E.NodeSend(ID));
  }

  lemma ChunkRun(r: R.Req, st: E.Stream, status: int) returns (r': R.Req, st': E.Stream, acts: seq<E.Action>)
    requires Ready(r, st, status) && st.rest != []
    ensures Leads(Alone(r, st, M.Idle, []), acts, Alone(r', st', M.Idle, [])) && D.ReadsOf(acts, ID) == []
    ensures Ready(r', st', status) && |st'.rest| < |st.rest|
  {
    var n := E.Cut(st.rest, st.limit);
    var chunk := st.rest[..n];
    var item := R.Chunk(|st.chunks|, P.Carried(chunk, st.textual));
    st' := st.(rest := st.rest[n..], chunks := st.chunks + [chunk]);
    var f := R.Data(|st.chunks|, P.EncodePayload(chunk, st.textual));
    Sends(r, st);
    P.EncodePayloadCarries(chunk, st.textual);
    var pass := Passes(r, st', f, item);
    var p := Pumped(r, item);
    var read := R.Read(|item.bytes|);
    Owns(p, st', read);
    r' := R.LocalStep(p, read);
    var s := Alone(r, st, M.Idle, []);
    Then(s, [E.NodeSend(ID)], Alone(r, st', M.Idle, [M.ForRequest(ID, f)]), pass, Alone(p, st', M.Idle, []));
    Then(s, [E.NodeSend(ID)] + pass, Alone(p, st', M.Idle, []), [E.Control(M.Own(ID, read))],
         Alone(r', st', M.Idle, []));
    acts := [E.NodeSend(ID)] + pass + [E.Control(M.Own(ID, read))];
    ReadsConcat([E.NodeSend(ID)], pass);
    ReadsConcat([E.NodeSend(ID)] + pass, [E.Control(M.Own(ID, read))]);
    ReadsOne(E.NodeSend(ID));
    ReadsOne(E.Control(M.Own(ID, read)));
  }

  lemma {:induction false} RestRun(r: R.Req, st: E.Stream, status: int)
    returns (r': R.Req, st': E.Stream, acts: seq<E.Action>)
    requires Ready(r, st, status)
    ensures Leads(Alone(r, st, M.Idle, []), acts, Alone(r', st', M.Idle, [])) && D.ReadsOf(acts, ID) == []
    ensures Ready(r', st', status) && st'.rest == []
    decreases |st.rest|
  {
    if st.rest == [] {
      Nothing(Alone(r, st, M.Idle, []));
      r', st', acts := r, st, [];
    } else {
      var r1, st1, first := ChunkRun(r, st, status);
      var more;
      r', st', more := RestRun(r1, st1, status);
      Then(Alone(r, st, M.Idle, []), first, Alone(r1, st1, M.Idle, []), more, Alone(r', st', M.Idle, []));
      ReadsConcat(first, more);
      acts := first + more;
    }
  }

  lemma BufferRun(r: R.Req, st: E.Stream, status: int, value: seq<Byte>)
    returns (r': R.Req, st': E.Stream, acts: seq<E.Action>)
    requires Ready(r, st, status) && st.rest == []
    ensures Leads(Alone(r, st, M.Idle, []), acts, Alone(r', st', M.Idle, [])) && D.ReadsOf(acts, ID) == [value]
    ensures Ready(r', st', status) && st'.rest == []
  {
    var s, a := Alone(r, st, M.Idle, []), E.NodeRead(ID, value);
    var t := st.(buffers := st.buffers + [value], rest := value);
    assert map[ID := st][ID := t] == map[ID := t];
    One(s, a);
    var more;
    r', st', more := RestRun(r, t, status);
    Then(s, [a], Alone(r, t, M.Idle, []), more, Alone(r', st', M.Idle, []));
    ReadsConcat([a], more);
    ReadsOne(a);
    acts := [a] + more;
  }

  lemma {:induction false} BodyRun(r: R.Req, st: E.Stream, status: int, buffers: seq<seq<Byte>>)
    returns (r': R.Req, st': E.Stream, acts: seq<E.Action>)
    requires Ready(r, st, status) && st.rest == []
    ensures Leads(Alone(r, st, M.Idle, []), acts, Alone(r', st', M.Idle, [])) && D.ReadsOf(acts, ID) == buffers
    ensures Ready(r', st', status) && st'.rest == []
    decreases buffers
  {
    if buffers == [] {
      Nothing(Alone(r, st, M.Idle, []));
      r', st', acts := r, st, [];
    } else {
      var r1, st1, first := BufferRun(r, st, status, buffers[0]);
      var more;
      r', st', more := BodyRun(r1, st1, status, buffers[1..]);
      Then(Alone(r, st, M.Idle, []), first, Alone(r1, st1, M.Idle, []), more, Alone(r', st', M.Idle, []));
      ReadsConcat(first, more);
      assert [buffers[0]] + buffers[1..] == buffers;
      acts := first + more;
    }
  }

  lemma EndRun(r: R.Req, st: E.Stream, status: int) returns (r': R.Req, st': E.Stream, acts: seq<E.Action>)
    requires Ready(r, st, status) && st.rest == []
    ensures Leads(Alone(r, st, M.Idle, []), acts, Alone(r', st', M.Idle, [])) && D.ReadsOf(acts, ID) == []
    ensures r'.pipe == R.Eof && r'.got == Some(status)
  {
    var s, f := Alone(r, st, M.Idle, []), R.End(|st.chunks|);
    st' := st.(status := E.Ended);
    assert map[ID := st][ID := st'] == map[ID := st'];
    assert [] + [M.ForRequest(ID, f)] == [M.ForRequest(ID, f)];
    One(s, E.NodeDone(ID));
    var pass := Passes(r, st', f, R.EndMark(|st.chunks|));
    r' := Pumped(r, R.EndMark(|st.chunks|));
    Then(s, [E.NodeDone(ID)], Alone(r, st', M.Idle, [M.ForRequest(ID, f)]), pass, Alone(r', st', M.Idle, []));
    ReadsConcat([E.NodeDone(ID)], pass);
    ReadsOne(E.NodeDone(ID));
    acts := [E.NodeDone(ID)] + pass;
  }

  // ── From a fresh connection to the status ──

  function Fresh(limit: E.Limit, textual: bool, status: int): E.Stream {
    E.Stream(Some(status), limit, textual, [], [], [], E.Streaming)
  }

  /** The connection before the node has answered. */
  function Early(r: R.Req): E.System {
    E.System(M.State(1, map[ID := r], {ID}, map[], {}, false, M.NotYet, 0, M.Idle, false, false), [], map[], [])
  }

  lemma Asks() returns (acts: seq<E.Action>)
    ensures Leads(E.START, acts, Early(R.NEW_REQ.(pc := R.Waiting))) && D.ReadsOf(acts, ID) == [] && |acts| == 2
  {
    var waiting := R.NEW_REQ.(pc := R.Waiting);
    var a, b := E.Control(M.Enlist), E.Control(M.Own(ID, R.Written));
    FirstIds();
    assert E.Step(E.START, a) == Early(R.NEW_REQ);
    One(E.START, a);
    assert map[ID := R.NEW_REQ][ID := waiting] == map[ID := waiting];
    One(Early(R.NEW_REQ), b);
    Then(E.START, [a], Early(R.NEW_REQ), [b], Early(waiting));
    ReadsConcat([a], [b]);
    ReadsOne(a);
    ReadsOne(b);
    acts := [a] + [b];
  }

  lemma HeadArrives(r: R.Req, st: E.Stream, status: int)
    requires r.heads == []
    ensures Leads(Alone(r, st, M.Idle, [M.ForRequest(ID, R.Head(status))]), [E.Arrive] + [E.Control(M.Deliver)],
                  Alone(r.(heads := [status]), st, M.Idle, []))
  {
    var s := Alone(r, st, M.Idle, [M.ForRequest(ID, R.Head(status))]);
    var t := Alone(r, st, M.HoldsReq(ID, R.HeldHead(status)), []);
    assert map[ID := r][ID := r] == map[ID := r] && s.wire[1..] == [];
    One(s, E.Arrive);
    assert map[ID := r][ID := r.(heads := [status])] == map[ID := r.(heads := [status])];
    assert [] + [status] == [status];
    One(t, E.Control(M.Deliver));
    Then(s, [E.Arrive], t, [E.Control(M.Deliver)], Alone(r.(heads := [status]), st, M.Idle, []));
  }

  lemma HeadIsTaken(st: E.Stream, status: int) returns (r: R.Req, acts: seq<E.Action>)
    requires st.chunks == [] && st.status == E.Streaming
    ensures Leads(Alone(R.NEW_REQ.(pc := R.Waiting), st, M.Idle, [M.ForRequest(ID, R.Head(status))]), acts,
                  Alone(r, st, M.Idle, []))
    ensures Ready(r, st, status) && D.ReadsOf(acts, ID) == []
  {
    var waiting := R.NEW_REQ.(pc := R.Waiting);
    var full := waiting.(heads := [status]);
    var two, take := [E.Arrive] + [E.Control(M.Deliver)], E.Control(M.Own(ID, R.TakeHead));
    HeadArrives(waiting, st, status);
    Owns(full, st, R.TakeHead);
    r := R.LocalStep(full, R.TakeHead);
    Then(Alone(waiting, st, M.Idle, [M.ForRequest(ID, R.Head(status))]), two, Alone(full, st, M.Idle, []), [take],
         Alone(r, st, M.Idle, []));
    ReadsConcat([E.Arrive], [E.Control(M.Deliver)]);
    ReadsConcat(two, [take]);
    ReadsOne(E.Arrive);
    ReadsOne(E.Control(M.Deliver));
    ReadsOne(take);
    acts := two + [take];
  }

  lemma StatusRun(limit: E.Limit, textual: bool, status: int) returns (r: R.Req, acts: seq<E.Action>)
    ensures Leads(E.START, acts, Alone(r, Fresh(limit, textual, status), M.Idle, [])) && D.ReadsOf(acts, ID) == []
    ensures Ready(r, Fresh(limit, textual, status), status)
    ensures |acts| > 2 && acts[2] == E.NodeStart(ID, status, limit, textual)
  {
    var st, start := Fresh(limit, textual, status), E.NodeStart(ID, status, limit, textual);
    var waiting := R.NEW_REQ.(pc := R.Waiting);
    var told := Alone(waiting, st, M.Idle, [M.ForRequest(ID, R.Head(status))]);
    var asks := Asks();
    assert E.Step(Early(waiting), start) == told;
    One(Early(waiting), start);
    Then(E.START, asks, Early(waiting), [start], told);
    var rest;
    r, rest := HeadIsTaken(st, status);
    Then(E.START, asks + [start], told, rest, Alone(r, st, M.Idle, []));
    ReadsConcat(asks, [start]);
    ReadsConcat(asks + [start], rest);
    ReadsOne(start);
    acts := asks + [start] + rest;
  }

  /** The reader has what the run ends with. */
  lemma HasAll(
    acts: seq<E.Action>, r: R.Req, st: E.Stream, status: int, buffers: seq<seq<Byte>>, limit: E.Limit, textual: bool)
    requires Leads(E.START, acts, Alone(r, st, M.Idle, [])) && D.ReadsOf(acts, ID) == buffers && r.pipe == R.Eof
    requires |acts| > 2 && acts[2] == E.NodeStart(ID, status, limit, textual)
    ensures r.delivered == Join(E.Carry(AllSlices(buffers, limit), textual))
  {
    D.ResponseArrivesWhole(acts, 2, ID);
  }

  lemma InARow(a: seq<E.Action>, s: E.System, b: seq<E.Action>, t: E.System, c: seq<E.Action>, u: E.System)
    requires Leads(E.START, a, s) && Leads(s, b, t) && Leads(t, c, u)
    requires D.ReadsOf(a, ID) == [] && D.ReadsOf(c, ID) == [] && |a| > 2
    ensures Leads(E.START, a + b + c, u) && D.ReadsOf(a + b + c, ID) == D.ReadsOf(b, ID)
    ensures (a + b + c)[2] == a[2]
  {
    Then(E.START, a, s, b, t);
    Then(E.START, a + b, t, c, u);
    ReadsConcat(a, b);
    ReadsConcat(a + b, c);
  }

  /** For every status and body, whatever the limit and the encoding: a run in which
      the caller gets the status, and the reader all that the body carries and then
      a clean end. */
  lemma ResponseCanArrive(status: int, buffers: seq<seq<Byte>>, limit: E.Limit, textual: bool)
    returns (acts: seq<E.Action>)
    ensures E.Legal(E.START, acts) && D.ReadsOf(acts, ID) == buffers
    ensures var s := E.Run(E.START, acts);
            ID in s.conn.reqs &&
            var r := s.conn.reqs[ID];
            && r.got == Some(status) && r.pipe == R.Eof
            && r.delivered == Join(E.Carry(AllSlices(buffers, limit), textual))
  {
    var st := Fresh(limit, textual, status);
    var r, opening := StatusRun(limit, textual, status);
    var r1, st1, body := BodyRun(r, st, status, buffers);
    var r2, st2, end := EndRun(r1, st1, status);
    acts := opening + body + end;
    InARow(opening, Alone(r, st, M.Idle, []), body, Alone(r1, st1, M.Idle, []), end, Alone(r2, st2, M.Idle, []));
    HasAll(acts, r2, st2, status, buffers, limit, textual);
  }
}
