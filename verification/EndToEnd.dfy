/** A node's streams, the FIFO wire and the control plane's connection together,
    over one connection epoch. */
module EndToEnd {
  import opened Wrappers
  import opened Utf8
  import opened Ids
  import opened NodeStream
  import P = Payload
  import R = Request
  import M = Multiplex

  datatype Status = Streaming | Ended | Failed

  /** What a node may adopt as its chunk limit. */
  type Limit = n: nat | n > 0 witness 1

  /** One response on the node: the status it answered, if it did, the limit in
      force when it began, the buffers read so far, what is left to send of the last
      one, and the chunks sent. */
  datatype Stream = Stream(
    code: Option<int>, limit: Limit, textual: bool, buffers: seq<seq<Byte>>, rest: seq<Byte>,
    chunks: seq<seq<Byte>>, status: Status)

  /** `told` is a history: the frames the node sent that belong to no request. */
  datatype System = System(conn: M.State, wire: seq<M.Frame>, streams: map<Id, Stream>, told: seq<M.Frame>)

  const START: System := System(M.INITIAL, [], map[], [])

  datatype Action =
    | Control(a: M.Action)                              // any step but a receive
    | Arrive                                            // the read loop takes the next frame
    | NodeStart(id: Id, status: int, limit: Limit, textual: bool)   // head
    | NodeRefuse(id: Id)                                // err instead of head
    | NodeRead(id: Id, value: seq<Byte>)
    | NodeSend(id: Id)
    | NodeDone(id: Id)
    | NodeFail(id: Id)                                  // err after head
    | NodeTells(f: M.Frame)                             // telemetry, pong, a bridge up or closed
    | NodeRelays(id: Id, text: seq<Scalar>)                    // a message of a bridge's local socket

  predicate StreamingIn(s: System, id: Id) { id in s.streams && s.streams[id].status == Streaming }

  /** A frame that belongs to no request and decodes; a node that cannot dial a
      bridge answers with an `err` under the bridge's id. */
  predicate Aside(f: M.Frame) {
    || f.WsUp? || f.WsClose? || f.Unrelated? || (f.WsMsg? && P.Bytes(f.body).Ok?)
    || (f.ForRequest? && f.f.Err? && f.id != [] && f.id[0] == 'w')
  }

  predicate Enabled(s: System, a: Action) {
    && !s.conn.crashed
    && match a
       case Control(c) => !c.Receive? && M.Enabled(s.conn, c)
       case Arrive => s.wire != [] && s.conn.loop == M.Idle
       // the node serves a request once, after its `req` frame was written
       case NodeStart(id, _, _, _) => id in s.conn.reqs && s.conn.reqs[id].pc != R.Writing && id !in s.streams
       case NodeRefuse(id) => id in s.conn.reqs && s.conn.reqs[id].pc != R.Writing && id !in s.streams
       case NodeRead(id, _) => StreamingIn(s, id) && s.streams[id].rest == []
       case NodeSend(id) => StreamingIn(s, id) && s.streams[id].rest != []
       case NodeDone(id) => StreamingIn(s, id) && s.streams[id].rest == []
       case NodeFail(id) => StreamingIn(s, id)
       // a bridge has messages once its `ws.open` was written
       case NodeTells(f) => Aside(f) && !f.WsMsg?
       case NodeRelays(id, _) => id in s.conn.bridges
  }

  function Relay(id: Id, text: seq<Scalar>): M.Frame { M.WsMsg(id, P.EncodePayload(Encode(text), true)) }

  function Cut(rest: seq<Byte>, limit: Limit): nat
  {
    if limit <= |rest| then limit else |rest|
  }

  function Say(s: System, id: Id, st: Stream, f: R.ReqFrame): System {
    s.(streams := s.streams[id := st], wire := s.wire + [M.ForRequest(id, f)])
  }

  function Step(s: System, a: Action): System
    requires Enabled(s, a)
  {
    match a
    case Control(c) => s.(conn := M.Step(s.conn, c))
    case Arrive => s.(conn := M.Dispatch(s.conn, s.wire[0]), wire := s.wire[1..])
    case NodeStart(id, status, limit, textual) =>
      Say(s, id, Stream(Some(status), limit, textual, [], [], [], Streaming), R.Head(status))
    case NodeRefuse(id) => Say(s, id, Stream(None, 1, false, [], [], [], Failed), R.Err)
    case NodeRead(id, value) =>
      s.(streams := s.streams[id := s.streams[id].(buffers := s.streams[id].buffers + [value], rest := value)])
    case NodeSend(id) =>
      var st := s.streams[id];
      var n := Cut(st.rest, st.limit);
      Say(s, id, st.(rest := st.rest[n..], chunks := st.chunks + [st.rest[..n]]),
          R.Data(|st.chunks|, P.EncodePayload(st.rest[..n], st.textual)))
    case NodeDone(id) =>
      var st := s.streams[id];
      Say(s, id, st.(status := Ended), R.End(|st.chunks|))
    case NodeFail(id) => Say(s, id, s.streams[id].(status := Failed), R.Err)
    case NodeTells(f) => s.(wire := s.wire + [f], told := s.told + [f])
    case NodeRelays(id, text) => s.(wire := s.wire + [Relay(id, text)], told := s.told + [Relay(id, text)])
  }

  // ── The items a stream has sent, and those still on the wire ──

  function Carry(chunks: seq<seq<Byte>>, textual: bool): seq<seq<Byte>> {
    seq(|chunks|, i requires 0 <= i < |chunks| => P.Carried(chunks[i], textual))
  }

  function ChunkItems(chunks: seq<seq<Byte>>, textual: bool): seq<R.Item> {
    seq(|chunks|, i requires 0 <= i < |chunks| => R.Chunk(i, P.Carried(chunks[i], textual)))
  }

  function Sent(st: Stream): seq<R.Item> {
    ChunkItems(st.chunks, st.textual) + (if st.status == Ended then [R.EndMark(|st.chunks|)] else [])
  }

  function SentFor(s: System, id: Id): seq<R.Item> {
    if id in s.streams then Sent(s.streams[id]) else []
  }

  function ItemsOf(f: M.Frame, id: Id): seq<R.Item> {
    if f.ForRequest? && f.id == id then R.ItemOf(f.f) else []
  }

  function OnWire(wire: seq<M.Frame>, id: Id): seq<R.Item> {
    if wire == [] then [] else ItemsOf(wire[0], id) + OnWire(wire[1..], id)
  }

  lemma OnWireCons(f: M.Frame, wire: seq<M.Frame>, id: Id)
    ensures OnWire([f] + wire, id) == ItemsOf(f, id) + OnWire(wire, id)
  {
    assert ([f] + wire)[1..] == wire;
  }

  lemma OnWireOne(f: M.Frame, id: Id)
    ensures OnWire([] + [f], id) == OnWire([], id) + ItemsOf(f, id)
  {
    OnWireCons(f, [], id);
    assert [] + [f] == [f] + [];
  }

  lemma OnWireMore(first: M.Frame, rest: seq<M.Frame>, f: M.Frame, id: Id)
    requires OnWire(rest + [f], id) == OnWire(rest, id) + ItemsOf(f, id)
    ensures OnWire([first] + rest + [f], id) == OnWire([first] + rest, id) + ItemsOf(f, id)
  {
    OnWireCons(first, rest, id);
    OnWireCons(first, rest + [f], id);
    assert [first] + rest + [f] == [first] + (rest + [f]);
    Associates(ItemsOf(first, id), OnWire(rest, id), ItemsOf(f, id));
  }

  lemma {:induction false} OnWireSnoc(wire: seq<M.Frame>, f: M.Frame, id: Id)
    ensures OnWire(wire + [f], id) == OnWire(wire, id) + ItemsOf(f, id)
  {
    if wire == [] {
      OnWireOne(f, id);
    } else {
      OnWireSnoc(wire[1..], f, id);
      OnWireMore(wire[0], wire[1..], f, id);
      assert [wire[0]] + wire[1..] == wire;
    }
  }

  /** What the connection has accepted for `id` is the first part of what the
      node has sent for it, and as long as the slot is there the wire holds
      exactly the rest. */
  predicate Linked(s: System, id: Id)
    requires id in s.conn.reqs
  {
    var log := s.conn.reqs[id].log;
    && log <= SentFor(s, id)
    && (id in s.conn.table && s.conn.loop != M.Stopped ==> log + OnWire(s.wire, id) == SentFor(s, id))
  }

  /** The node only sends what decodes, for requests it serves. */
  predicate Sane(f: M.Frame, streams: map<Id, Stream>) {
    Aside(f) || (f.ForRequest? && f.id in streams && (f.f.Data? ==> P.Bytes(f.f.body).Ok?))
  }

  /** The chunks sent and the bytes left are the buffers read, chunk by chunk as
      the limit cuts them. */
  predicate StreamGood(st: Stream)
  {
    && Join(st.chunks) + st.rest == Join(st.buffers)
    && st.chunks + Slices(st.rest, st.limit) == AllSlices(st.buffers, st.limit)
    && (st.status == Ended ==> st.rest == [])
  }

  ghost predicate Inv(s: System)
  {
    && M.Inv(s.conn)
    && s.streams.Keys <= s.conn.reqs.Keys
    && (forall i | 0 <= i < |s.wire| :: Sane(s.wire[i], s.streams))
    && (forall id | id in s.streams :: StreamGood(s.streams[id]))
    && (forall id | id in s.conn.reqs :: Linked(s, id))
  }

  lemma DataFrameItem(id: Id, n: nat, chunk: seq<Byte>, textual: bool)
    ensures ItemsOf(DataFrame(id, n, chunk, textual), id) == [R.Chunk(n, P.Carried(chunk, textual))]
  {
    P.EncodePayloadCarries(chunk, textual);
  }

  lemma DataFramesSnoc(id: Id, front: seq<seq<Byte>>, last: seq<Byte>, textual: bool)
    ensures DataFrames(id, 0, front + [last], textual) ==
            DataFrames(id, 0, front, textual) + [DataFrame(id, |front|, last, textual)]
  {
    DataFramesConcat(id, 0, front, [last], textual);
    DataFramesCons(id, |front|, last, [], textual);
    assert [last] + [] == [last];
  }

  lemma ChunkItemsSnoc(front: seq<seq<Byte>>, last: seq<Byte>, textual: bool)
    ensures ChunkItems(front + [last], textual) ==
            ChunkItems(front, textual) + [R.Chunk(|front|, P.Carried(last, textual))]
  {
  }

  lemma OnWireOfMore(id: Id, front: seq<seq<Byte>>, last: seq<Byte>, textual: bool)
    requires OnWire(DataFrames(id, 0, front, textual), id) == ChunkItems(front, textual)
    ensures OnWire(DataFrames(id, 0, front + [last], textual), id) == ChunkItems(front + [last], textual)
  {
    DataFramesSnoc(id, front, last, textual);
    ChunkItemsSnoc(front, last, textual);
    DataFrameItem(id, |front|, last, textual);
    OnWireSnoc(DataFrames(id, 0, front, textual), DataFrame(id, |front|, last, textual), id);
  }

  lemma OnWireOfNone(id: Id, textual: bool)
    ensures OnWire(DataFrames(id, 0, [], textual), id) == ChunkItems([], textual)
  {
    assert DataFrames(id, 0, [], textual) == [] && ChunkItems([], textual) == [];
  }

  lemma {:induction false} OnWireOfDataFrames(id: Id, chunks: seq<seq<Byte>>, textual: bool)
    ensures OnWire(DataFrames(id, 0, chunks, textual), id) == ChunkItems(chunks, textual)
  {
    if chunks == [] {
      OnWireOfNone(id, textual);
    } else {
      var front, last := chunks[..|chunks| - 1], chunks[|chunks| - 1];
      assert chunks == front + [last];
      OnWireOfDataFrames(id, front, textual);
      OnWireOfMore(id, front, last, textual);
    }
  }

  /** A stream that has ended sent, step by step among all others, exactly what
      the node's loop sends for the same body on its own. */
  lemma EndedAsTheLoopDoes(st: Stream, id: Id, status: int)
    requires StreamGood(st) && st.status == Ended
    ensures OnWire(ResponseFrames(id, status, st.buffers, false, st.limit, st.textual), id) == Sent(st)
  {
    var head, last := M.ForRequest(id, R.Head(status)), M.ForRequest(id, R.End(|st.chunks|));
    var data := DataFrames(id, 0, st.chunks, st.textual);
    assert st.chunks + [] == st.chunks == AllSlices(st.buffers, st.limit);
    OnWireOfDataFrames(id, st.chunks, st.textual);
    OnWireSnoc(data, last, id);
    OnWireCons(head, data + [last], id);
    assert ResponseFrames(id, status, st.buffers, false, st.limit, st.textual) == [head] + (data + [last]);
    assert ItemsOf(head, id) == [];
  }

  // ── Steps of the control plane ──

  lemma {:induction false} NothingOnWire(wire: seq<M.Frame>, streams: map<Id, Stream>, id: Id)
    requires id !in streams && forall i | 0 <= i < |wire| :: Sane(wire[i], streams)
    ensures OnWire(wire, id) == []
  {
    if wire != [] {
      assert Sane(wire[0], streams);
      NothingOnWire(wire[1..], streams, id);
    }
  }

  lemma LinkedOld(s: System, conn: M.State, id: Id)
    requires id in s.conn.reqs && Linked(s, id) && id in conn.reqs && conn.reqs[id].log == s.conn.reqs[id].log
    requires id in conn.table ==> id in s.conn.table
    requires s.conn.loop == M.Stopped ==> conn.loop == M.Stopped
    ensures Linked(s.(conn := conn), id)
  {
  }

  lemma LinkedNew(s: System, conn: M.State, id: Id)
    requires id !in s.streams && forall i | 0 <= i < |s.wire| :: Sane(s.wire[i], s.streams)
    requires id in conn.reqs && conn.reqs[id].log == []
    ensures Linked(s.(conn := conn), id)
  {
    NothingOnWire(s.wire, s.streams, id);
  }

  lemma LinkedControl(s: System, c: M.Action, id: Id)
    requires Inv(s) && Enabled(s, Control(c))
    requires id in M.Step(s.conn, c).reqs
    ensures Linked(s.(conn := M.Step(s.conn, c)), id)
  {
    var conn := M.Step(s.conn, c);
    M.NeverClosedTwice(s.conn, c);
    if id in s.conn.reqs {
      M.OnlyFramesAreAccepted(s.conn, c, id);
      LinkedOld(s, conn, id);
    } else {
      M.StepKeys(s.conn, c);
      LinkedNew(s, conn, id);
    }
  }

  /** The next item of an honest stream is the one the counter asks for. */
  lemma NextItemIsExpected(v: R.View, st: Stream, item: R.Item, rest: seq<R.Item>)
    requires R.Good(v) && v.inTable && !v.stopped
    requires v.req.log + ([item] + rest) == Sent(st)
    ensures (if item.Chunk? then item.seqNo else item.chunks) == v.req.nextSeq
    ensures v.req.log + [item] + rest == Sent(st)
  {
    var log := v.req.log;
    assert item == Sent(st)[|log|];
    assert forall i | 0 <= i < |log| :: log[i] == Sent(st)[i];
    R.OnlyChunksCount(log);
  }

  lemma AcceptsNextItem(s: System, f: R.ReqFrame, id: Id)
    requires s.wire != [] && s.wire[0] == M.ForRequest(id, f) && id in s.conn.reqs && id in s.conn.table
    requires s.conn.loop == M.Idle && R.Good(M.View(s.conn, id)) && Linked(s, id) && Sane(s.wire[0], s.streams)
    ensures var (r, out) := R.Accept(s.conn.reqs[id], f);
            !out.Fatal? && r.log + OnWire(s.wire[1..], id) == SentFor(s, id)
  {
    var v, rest := M.View(s.conn, id), OnWire(s.wire[1..], id);
    R.AcceptedItem(v.req, f);
    match f
    case Data(seqNo, body) => NextItemIsExpected(v, s.streams[id], R.Chunk(seqNo, P.Bytes(body).value), rest);
    case End(n) => NextItemIsExpected(v, s.streams[id], R.EndMark(n), rest);
    case _ => assert OnWire(s.wire, id) == rest;
  }

  /** A frame of `id` is never refused, and moves its item from the wire to the
      accepted log. */
  lemma LinkedOwnFrame(s: System, f: R.ReqFrame, id: Id)
    requires s.conn.loop == M.Idle && s.wire != [] && s.wire[0] == M.ForRequest(id, f)
    requires id in s.conn.reqs && R.Good(M.View(s.conn, id)) && Linked(s, id) && Sane(s.wire[0], s.streams)
    ensures var conn := M.Dispatch(s.conn, s.wire[0]);
            && conn.loop != M.Stopped && id in conn.reqs
            && Linked(s.(conn := conn, wire := s.wire[1..]), id)
  {
    M.DispatchOwn(s.conn, f, id);
    if id in s.conn.table {
      AcceptsNextItem(s, f, id);
    }
  }

  lemma LinkedOtherFrame(s: System, id: Id)
    requires s.conn.loop == M.Idle && s.wire != [] && !(s.wire[0].ForRequest? && s.wire[0].id == id)
    requires id in s.conn.reqs && Linked(s, id)
    ensures var conn := M.Dispatch(s.conn, s.wire[0]);
            id in conn.reqs && Linked(s.(conn := conn, wire := s.wire[1..]), id)
  {
    M.DispatchElsewhere(s.conn, s.wire[0], id);
    assert OnWire(s.wire, id) == OnWire(s.wire[1..], id);
  }

  // ── Steps of the node ──

  lemma SentGrows(st: Stream, chunk: seq<Byte>)
    requires st.status != Ended
    ensures Sent(st.(chunks := st.chunks + [chunk])) == Sent(st) + [R.Chunk(|st.chunks|, P.Carried(chunk, st.textual))]
    ensures Sent(st.(status := Ended)) == Sent(st) + [R.EndMark(|st.chunks|)]
  {
  }

  /** Saying one more thing keeps the link when it is the item, if any, by which
      what was sent has grown. */
  lemma LinkedSay(s: System, t: System, f: M.Frame, id: Id)
    requires id in s.conn.reqs && Linked(s, id) && t.conn == s.conn && t.wire == s.wire + [f]
    requires SentFor(t, id) == SentFor(s, id) + ItemsOf(f, id)
    ensures Linked(t, id)
  {
    OnWireSnoc(s.wire, f, id);
    var log := s.conn.reqs[id].log;
    assert log + (OnWire(s.wire, id) + ItemsOf(f, id)) == log + OnWire(s.wire, id) + ItemsOf(f, id);
  }

  /** One frame more on the wire, and its item, if any, more sent. */
  ghost predicate Says(s: System, t: System, id: Id) {
    && t.wire != [] && t.wire[..|t.wire| - 1] == s.wire && t.conn == s.conn
    && Sane(t.wire[|t.wire| - 1], t.streams)
    && SentFor(t, id) == SentFor(s, id) + ItemsOf(t.wire[|t.wire| - 1], id)
  }

  lemma SendSays(s: System, i: Id, id: Id)
    requires Enabled(s, NodeSend(i))
    ensures Says(s, Step(s, NodeSend(i)), id)
  {
    var st := s.streams[i];
    var chunk := st.rest[..Cut(st.rest, st.limit)];
    P.EncodePayloadCarries(chunk, st.textual);
    SentGrows(st, chunk);
  }

  lemma DoneSays(s: System, i: Id, id: Id)
    requires Enabled(s, NodeDone(i))
    ensures Says(s, Step(s, NodeDone(i)), id)
  {
    SentGrows(s.streams[i], []);
  }

  lemma SaysItsItem(s: System, a: Action, id: Id)
    requires Enabled(s, a) && !a.Control? && !a.Arrive? && !a.NodeRead?
    ensures Says(s, Step(s, a), id)
  {
    match a
    case NodeSend(i) => SendSays(s, i, id);
    case NodeDone(i) => DoneSays(s, i, id);
    case NodeRelays(_, text) => P.EncodePayloadCarries(Encode(text), true);
    case _ =>
  }

  lemma ReadGood(st: Stream, value: seq<Byte>)
    requires StreamGood(st) && st.rest == [] && st.status == Streaming
    ensures StreamGood(st.(buffers := st.buffers + [value], rest := value))
  {
    var buffers := st.buffers + [value];
    assert buffers[..|buffers| - 1] == st.buffers;
    assert st.chunks + [] == st.chunks && Join(st.chunks) + [] == Join(st.chunks);
  }

  lemma SendRejoins(chunks: seq<seq<Byte>>, chunk: seq<Byte>, rest: seq<Byte>)
    ensures Join(chunks + [chunk]) + rest == Join(chunks) + (chunk + rest)
  {
    JoinOne(chunk);
    JoinConcat(chunks, [chunk]);
  }

  lemma SendSlices(chunks: seq<seq<Byte>>, left: seq<Byte>, limit: Limit)
    requires left != []
    ensures var n := Cut(left, limit);
            chunks + [left[..n]] + Slices(left[n..], limit) == chunks + Slices(left, limit)
  {
    var n := Cut(left, limit);
    assert left[0..] == left && left[0..n] == left[..n];
    SlicesStep(left, 0, n, limit);
  }

  lemma SendGood(st: Stream)
    requires StreamGood(st) && st.rest != [] && st.status == Streaming
    ensures var n := Cut(st.rest, st.limit);
            StreamGood(st.(rest := st.rest[n..], chunks := st.chunks + [st.rest[..n]]))
  {
    var n := Cut(st.rest, st.limit);
    assert st.rest[..n] + st.rest[n..] == st.rest;
    SendRejoins(st.chunks, st.rest[..n], st.rest[n..]);
    SendSlices(st.chunks, st.rest, st.limit);
  }

  lemma StreamGoodStep(s: System, a: Action, id: Id)
    requires Enabled(s, a) && id in Step(s, a).streams
    requires forall id | id in s.streams :: StreamGood(s.streams[id])
    ensures StreamGood(Step(s, a).streams[id])
  {
    match a
    case NodeRead(i, value) => ReadGood(s.streams[i], value);
    case NodeSend(i) => SendGood(s.streams[i]);
    case _ =>
  }

  lemma LinkedNode(s: System, a: Action, id: Id)
    requires Enabled(s, a) && !a.Control? && !a.Arrive?
    requires forall id | id in s.streams :: StreamGood(s.streams[id])
    requires id in s.conn.reqs && Linked(s, id)
    ensures Linked(Step(s, a), id)
  {
    var t := Step(s, a);
    if a.NodeRead? {
      assert SentFor(t, id) == SentFor(s, id);
    } else {
      SaysItsItem(s, a, id);
      var f := t.wire[|t.wire| - 1];
      assert t.wire == s.wire + [f];
      LinkedSay(s, t, f, id);
    }
  }

  /** An honest node never makes the read loop give up, whatever else goes on. */
  lemma HonestNodeIsNeverRefused(s: System)
    requires Inv(s) && Enabled(s, Arrive)
    ensures Step(s, Arrive).conn.loop != M.Stopped
  {
    var f := s.wire[0];
    assert Sane(f, s.streams);
    M.NeverClosedTwice(s.conn, M.Receive(f));
    if f.ForRequest? && f.id in s.conn.reqs {
      assert R.Good(M.View(s.conn, f.id)) && Linked(s, f.id);
      LinkedOwnFrame(s, f.f, f.id);
    }
  }

  lemma LinkedArrive(s: System, id: Id)
    requires Inv(s) && Enabled(s, Arrive) && id in s.conn.reqs
    ensures id in Step(s, Arrive).conn.reqs && Linked(Step(s, Arrive), id)
  {
    var f := s.wire[0];
    assert Sane(f, s.streams) && R.Good(M.View(s.conn, id)) && Linked(s, id);
    if f.ForRequest? && f.id == id {
      LinkedOwnFrame(s, f.f, id);
    } else {
      LinkedOtherFrame(s, id);
    }
  }

  lemma InvControl(s: System, c: M.Action)
    requires Inv(s) && Enabled(s, Control(c))
    ensures Inv(Step(s, Control(c)))
  {
    M.InvStep(s.conn, c);
    M.StepKeys(s.conn, c);
    forall id | id in M.Step(s.conn, c).reqs
      ensures Linked(Step(s, Control(c)), id)
    {
      LinkedControl(s, c, id);
    }
  }

  lemma ConnArrive(s: System)
    requires Inv(s) && Enabled(s, Arrive)
    ensures M.Inv(M.Dispatch(s.conn, s.wire[0]))
    ensures M.Dispatch(s.conn, s.wire[0]).reqs.Keys == s.conn.reqs.Keys
  {
    HonestNodeIsNeverRefused(s);
    M.InvStep(s.conn, M.Receive(s.wire[0]));
    M.DispatchKeys(s.conn, s.wire[0]);
  }

  lemma InvArrive(s: System)
    requires Inv(s) && Enabled(s, Arrive)
    ensures Inv(Step(s, Arrive))
  {
    ConnArrive(s);
    var t := Step(s, Arrive);
    forall i | 0 <= i < |t.wire|
      ensures Sane(t.wire[i], t.streams)
    {
      assert t.wire[i] == s.wire[i + 1] && Sane(s.wire[i + 1], s.streams);
    }
    forall id | id in t.conn.reqs
      ensures Linked(t, id)
    {
      LinkedArrive(s, id);
    }
  }

  lemma SaneStep(s: System, a: Action, i: nat)
    requires Enabled(s, a) && !a.Control? && !a.Arrive?
    requires forall id | id in s.streams :: StreamGood(s.streams[id])
    requires forall j | 0 <= j < |s.wire| :: Sane(s.wire[j], s.streams)
    requires i < |Step(s, a).wire|
    ensures Sane(Step(s, a).wire[i], Step(s, a).streams)
  {
    var t := Step(s, a);
    if i < |s.wire| {
      assert Sane(s.wire[i], s.streams) && t.wire[i] == s.wire[i];
    } else {
      assert a.NodeRead? ==> t.wire == s.wire;
      SaysItsItem(s, a, "");
      assert i == |t.wire| - 1;
    }
  }

  lemma InvNode(s: System, a: Action)
    requires Inv(s) && Enabled(s, a) && !a.Control? && !a.Arrive?
    ensures Inv(Step(s, a))
  {
    var t := Step(s, a);
    forall i | 0 <= i < |t.wire|
      ensures Sane(t.wire[i], t.streams)
    {
      SaneStep(s, a, i);
    }
    forall id | id in t.streams
      ensures StreamGood(t.streams[id])
    {
      StreamGoodStep(s, a, id);
    }
    forall id | id in t.conn.reqs
      ensures Linked(t, id)
    {
      LinkedNode(s, a, id);
    }
  }

  lemma InvStep(s: System, a: Action)
    requires Inv(s) && Enabled(s, a)
    ensures Inv(Step(s, a))
  {
    match a
    case Control(c) => InvControl(s, c);
    case Arrive => InvArrive(s);
    case _ => InvNode(s, a);
  }

  // ── Whole runs ──

  ghost predicate Legal(s: System, acts: seq<Action>)
    decreases acts
  {
    acts == [] || (Enabled(s, acts[0]) && Legal(Step(s, acts[0]), acts[1..]))
  }

  ghost function Run(s: System, acts: seq<Action>): System
    requires Legal(s, acts)
    decreases acts
  {
    if acts == [] then s else Run(Step(s, acts[0]), acts[1..])
  }

  lemma {:induction false} InvRun(s: System, acts: seq<Action>)
    requires Inv(s) && Legal(s, acts)
    ensures Inv(Run(s, acts))
    decreases acts
  {
    if acts != [] {
      var t := Step(s, acts[0]);
      InvStep(s, acts[0]);
      InvRun(t, acts[1..]);
    }
  }

  /** The bytes of sent chunks, as they arrive. */
  lemma {:induction false} BodyOfChunkItems(chunks: seq<seq<Byte>>, textual: bool)
    ensures R.Body(ChunkItems(chunks, textual)) == Join(Carry(chunks, textual))
  {
    if chunks != [] {
      var front, last := chunks[..|chunks| - 1], chunks[|chunks| - 1];
      BodyOfChunkItems(front, textual);
      R.BodySnoc(ChunkItems(front, textual), R.Chunk(|front|, P.Carried(last, textual)));
      assert ChunkItems(chunks, textual) == ChunkItems(front, textual) + [R.Chunk(|front|, P.Carried(last, textual))];
      assert Carry(chunks, textual)[..|chunks| - 1] == Carry(front, textual);
    }
  }

  lemma BodyOfSent(st: Stream)
    ensures R.Body(Sent(st)) == Join(Carry(st.chunks, st.textual))
  {
    var items := ChunkItems(st.chunks, st.textual);
    BodyOfChunkItems(st.chunks, st.textual);
    if st.status == Ended {
      R.BodySnoc(items, R.EndMark(|st.chunks|));
    } else {
      assert items + [] == items;
    }
  }

  lemma DeliveredFollowsStream(v: R.View, st: Stream)
    requires R.Good(v) && v.req.log <= Sent(st)
    ensures v.req.delivered <= Join(Carry(st.chunks, st.textual))
  {
    var sent, log := Sent(st), v.req.log;
    R.DeliveredIsPrefix(v);
    assert sent[..|log|] == log;
    R.BodyOfPrefix(sent, |log|);
    BodyOfSent(st);
  }

  lemma EofFollowsEnd(v: R.View, st: Stream)
    requires R.Good(v) && v.req.log <= Sent(st) && v.req.pipe == R.Eof
    ensures st.status == Ended && v.req.delivered == Join(Carry(st.chunks, st.textual))
  {
    var sent, items := Sent(st), ChunkItems(st.chunks, st.textual);
    var n := R.CleanEofIsComplete(v);
    assert sent[n] == v.req.log[n] == R.EndMark(n);
    assert v.req.log[..n] == sent[..n] == items;
    BodyOfChunkItems(st.chunks, st.textual);
  }

  /** What the reader has read is a prefix of what the node has sent, and a pipe
      that ended cleanly means that the node ended the stream and that the reader
      has all of it. */
  lemma ReaderFollowsStream(s: System, id: Id)
    requires Inv(s) && id in s.conn.reqs && id in s.streams
    ensures var st, r := s.streams[id], s.conn.reqs[id];
            && r.delivered <= Join(Carry(st.chunks, st.textual))
            && (r.pipe == R.Eof ==> st.status == Ended && r.delivered == Join(Carry(st.chunks, st.textual)))
  {
    var v := M.View(s.conn, id);
    assert R.Good(v) && Linked(s, id);
    DeliveredFollowsStream(v, s.streams[id]);
    if v.req.pipe == R.Eof {
      EofFollowsEnd(v, s.streams[id]);
    }
  }

  /** Before the node has taken a request up, its reader has seen nothing. */
  lemma NothingBeforeTheStream(s: System, id: Id)
    requires Inv(s) && id in s.conn.reqs && id !in s.streams
    ensures s.conn.reqs[id].delivered == [] && s.conn.reqs[id].pipe != R.Eof
  {
    var v := M.View(s.conn, id);
    assert R.Good(v) && Linked(s, id);
    R.DeliveredIsPrefix(v);
  }

  /** No chunk the node cut begins with a byte order mark in valid text. */
  predicate NoMarks(st: Stream) {
    forall c | c in st.chunks :: !(st.textual && Valid(c) && StartsWithBom(c))
  }

  lemma JoinSnoc(front: seq<seq<Byte>>, last: seq<Byte>)
    ensures Join(front + [last]) == Join(front) + last
  {
    assert (front + [last])[..|front|] == front;
  }

  lemma CarrySnoc(front: seq<seq<Byte>>, last: seq<Byte>, textual: bool)
    ensures Carry(front + [last], textual) == Carry(front, textual) + [P.Carried(last, textual)]
    ensures |P.Carried(last, textual)| <= |last|
    ensures |P.Carried(last, textual)| == |last| ==> P.Carried(last, textual) == last
  {
  }

  lemma {:induction false} CarryOnlyShortens(chunks: seq<seq<Byte>>, textual: bool)
    ensures |Join(Carry(chunks, textual))| <= |Join(chunks)|
    ensures |Join(Carry(chunks, textual))| == |Join(chunks)| ==> Carry(chunks, textual) == chunks
  {
    if chunks != [] {
      var front, last := chunks[..|chunks| - 1], chunks[|chunks| - 1];
      CarryOnlyShortens(front, textual);
      assert chunks == front + [last];
      CarrySnoc(front, last, textual);
      JoinSnoc(front, last);
      JoinSnoc(Carry(front, textual), P.Carried(last, textual));
    }
  }

  /** The bytes sent arrive as they are exactly when no chunk begins with a byte
      order mark that its encoding drops. */
  lemma CarriesUnchanged(st: Stream)
    ensures Join(Carry(st.chunks, st.textual)) == Join(st.chunks) <==> NoMarks(st)
  {
    CarryOnlyShortens(st.chunks, st.textual);
    if NoMarks(st) {
      forall i | 0 <= i < |st.chunks|
        ensures P.Carried(st.chunks[i], st.textual) == st.chunks[i]
      {
        P.EncodePayloadCarries(st.chunks[i], st.textual);
      }
      assert Carry(st.chunks, st.textual) == st.chunks;
    } else {
      var c :| c in st.chunks && st.textual && Valid(c) && StartsWithBom(c);
      var i :| 0 <= i < |st.chunks| && st.chunks[i] == c;
      P.EncodePayloadCarries(c, st.textual);
      assert Carry(st.chunks, st.textual)[i] != st.chunks[i];
    }
  }

  /** End to end, over every run of any number of requests on one connection: the
      reader of a response only ever sees a prefix of the node's body as it is
      carried, and a clean end means all of it, cut as the stream's limit demands.
      What is carried is the body itself exactly when no chunk of valid text
      begins with a byte order mark. */
  lemma BodyArrivesWhole(acts: seq<Action>, id: Id)
    requires Legal(START, acts)
    requires var s := Run(START, acts); id in s.conn.reqs && id in s.streams
    ensures var s := Run(START, acts);
            var st, r := s.streams[id], s.conn.reqs[id];
            && r.delivered <= Join(Carry(st.chunks, st.textual))
            && (NoMarks(st) ==> r.delivered <= Join(st.buffers))
            && (r.pipe == R.Eof ==>
                && st.status == Ended && st.chunks == AllSlices(st.buffers, st.limit)
                && (r.delivered == Join(st.buffers) <==> NoMarks(st)))
  {
    InvRun(START, acts);
    var s := Run(START, acts);
    ReaderFollowsStream(s, id);
    CarriesUnchanged(s.streams[id]);
    assert StreamGood(s.streams[id]);
  }
}
