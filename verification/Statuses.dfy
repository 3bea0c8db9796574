/** The status a caller gets is the one the node's server answered for its request. */
module Statuses {
  import opened Wrappers
  import opened Ids
  import R = Request
  import M = Multiplex
  import E = EndToEnd

  /** Every status this request holds, queued or taken, is `code`. */
  predicate Answers(v: R.View, code: Option<int>) {
    && (forall i | 0 <= i < |v.req.heads| :: code == Some(v.req.heads[i]))
    && (v.held != [] && v.held[0].HeldHead? ==> code == Some(v.held[0].status))
    && (v.req.got.Some? ==> v.req.got == code)
  }

  lemma OwnAnswers(v: R.View, l: R.Local, code: Option<int>)
    requires Answers(v, code) && R.Enabled(v, R.Own(l))
    ensures Answers(R.Step(v, R.Own(l)), code)
  {
  }

  lemma ReceiveAnswers(v: R.View, f: R.ReqFrame, code: Option<int>)
    requires Answers(v, code) && R.Enabled(v, R.Receive(f)) && (f.Head? ==> code == Some(f.status))
    ensures Answers(R.Step(v, R.Receive(f)), code)
  {
  }

  lemma DeliverAnswers(v: R.View, code: Option<int>)
    requires Answers(v, code) && R.Enabled(v, R.Deliver)
    ensures Answers(R.Step(v, R.Deliver), code)
  {
  }

  lemma RestAnswers(v: R.View, a: R.Action, code: Option<int>)
    requires Answers(v, code) && R.Enabled(v, a) && !a.Own? && !a.Receive? && !a.Deliver?
    ensures Answers(R.Step(v, a), code)
  {
  }

  lemma ViewAnswers(v: R.View, a: R.Action, code: Option<int>)
    requires Answers(v, code) && R.Enabled(v, a)
    requires a.Receive? && a.f.Head? ==> code == Some(a.f.status)
    ensures Answers(R.Step(v, a), code)
  {
    match a
    case Own(l) => OwnAnswers(v, l, code);
    case Receive(f) => ReceiveAnswers(v, f, code);
    case Deliver => DeliverAnswers(v, code);
    case _ => RestAnswers(v, a, code);
  }

  lemma SeenAnswers(s: M.State, a: M.Action, id: Id, code: Option<int>)
    requires M.Enabled(s, a) && id in s.reqs && M.Agrees(s, a, id) && Answers(M.View(s, id), code)
    requires a.Receive? && a.f.ForRequest? && a.f.id == id && a.f.f.Head? ==> code == Some(a.f.f.status)
    ensures Answers(M.View(M.Step(s, a), id), code)
  {
    if M.Seen(s, a, id).Some? {
      ViewAnswers(M.View(s, id), M.Seen(s, a, id).value, code);
    }
  }

  lemma ConnAnswers(s: M.State, a: M.Action, id: Id, code: Option<int>)
    requires M.Inv(s) && M.Enabled(s, a) && id in s.reqs && Answers(M.View(s, id), code)
    requires a.Receive? && a.f.ForRequest? && a.f.id == id && a.f.f.Head? ==> code == Some(a.f.f.status)
    ensures id in M.Step(s, a).reqs && Answers(M.View(M.Step(s, a), id), code)
  {
    M.NeverClosedTwice(s, a);
    M.StepAgrees(s, a, id);
    SeenAnswers(s, a, id, code);
  }

  lemma NewAnswers(s: M.State, a: M.Action, id: Id, code: Option<int>)
    requires M.Inv(s) && M.Enabled(s, a) && id !in s.reqs && id in M.Step(s, a).reqs
    ensures Answers(M.View(M.Step(s, a), id), code)
  {
    M.StepKeys(s, a);
    M.NeverClosedTwice(s, a);
    M.FramedStep(s, a);
  }

  // ── With the node and the wire ──

  function Code(s: E.System, id: Id): Option<int> { if id in s.streams then s.streams[id].code else None }

  predicate IsHead(f: M.Frame, id: Id) { f.ForRequest? && f.id == id && f.f.Head? }

  ghost predicate Told(s: E.System, id: Id) {
    && (forall i | 0 <= i < |s.wire| && IsHead(s.wire[i], id) :: Code(s, id) == Some(s.wire[i].f.status))
    && (id in s.conn.reqs ==> Answers(M.View(s.conn, id), Code(s, id)))
  }

  lemma ControlAnswers(s: M.State, c: M.Action, id: Id, code: Option<int>)
    requires M.Inv(s) && M.Enabled(s, c) && !c.Receive? && (id in s.reqs ==> Answers(M.View(s, id), code))
    ensures id in M.Step(s, c).reqs ==> Answers(M.View(M.Step(s, c), id), code)
  {
    if id in s.reqs {
      ConnAnswers(s, c, id, code);
    } else if id in M.Step(s, c).reqs {
      NewAnswers(s, c, id, code);
    }
  }

  lemma ToldElsewhere(s: E.System, conn: M.State, id: Id)
    requires Told(s, id) && (id in conn.reqs ==> Answers(M.View(conn, id), Code(s, id)))
    ensures Told(s.(conn := conn), id)
  {
  }

  lemma ToldControl(s: E.System, c: M.Action, id: Id)
    requires E.Inv(s) && E.Enabled(s, E.Control(c)) && Told(s, id)
    ensures Told(E.Step(s, E.Control(c)), id)
  {
    ControlAnswers(s.conn, c, id, Code(s, id));
    ToldElsewhere(s, M.Step(s.conn, c), id);
  }

  lemma ToldLess(s: E.System, conn: M.State, id: Id)
    requires Told(s, id) && s.wire != [] && (id in conn.reqs ==> Answers(M.View(conn, id), Code(s, id)))
    ensures Told(s.(conn := conn, wire := s.wire[1..]), id)
  {
    var wire := s.wire[1..];
    assert forall i | 0 <= i < |wire| :: wire[i] == s.wire[i + 1];
  }

  lemma ToldArrive(s: E.System, id: Id)
    requires E.Inv(s) && E.Enabled(s, E.Arrive) && Told(s, id)
    ensures Told(E.Step(s, E.Arrive), id)
  {
    M.DispatchKeys(s.conn, s.wire[0]);
    if id in s.conn.reqs {
      ConnAnswers(s.conn, M.Receive(s.wire[0]), id, Code(s, id));
    }
    ToldLess(s, M.Dispatch(s.conn, s.wire[0]), id);
  }

  /** A node answers a request once, with a status or a refusal, and nothing it says
      later is another status. */
  lemma CodeIsKept(s: E.System, a: E.Action, id: Id)
    requires E.Enabled(s, a)
    ensures id in s.streams ==> id in E.Step(s, a).streams && Code(E.Step(s, a), id) == Code(s, id)
    ensures id !in s.streams && id in E.Step(s, a).streams ==>
              || (a.NodeStart? && a.id == id && Code(E.Step(s, a), id) == Some(a.status))
              || (a == E.NodeRefuse(id) && Code(E.Step(s, a), id) == None)
  {
  }

  lemma SaysOwnStatus(s: E.System, a: E.Action, id: Id)
    requires E.Enabled(s, a) && !a.Control? && !a.Arrive?
    ensures var t := E.Step(s, a);
            && t.conn == s.conn && |s.wire| <= |t.wire| <= |s.wire| + 1 && t.wire[..|s.wire|] == s.wire
            && (|t.wire| > |s.wire| && IsHead(t.wire[|s.wire|], id) ==> Code(t, id) == Some(t.wire[|s.wire|].f.status))
  {
  }

  lemma ToldMore(s: E.System, t: E.System, id: Id)
    requires Told(s, id) && t.conn == s.conn && (Code(s, id).Some? ==> Code(t, id) == Code(s, id))
    requires |s.wire| <= |t.wire| <= |s.wire| + 1 && t.wire[..|s.wire|] == s.wire
    requires |t.wire| > |s.wire| && IsHead(t.wire[|s.wire|], id) ==> Code(t, id) == Some(t.wire[|s.wire|].f.status)
    ensures Told(t, id)
  {
    forall i | 0 <= i < |t.wire| && IsHead(t.wire[i], id)
      ensures Code(t, id) == Some(t.wire[i].f.status)
    {
      if i < |s.wire| {
        assert t.wire[i] == t.wire[..|s.wire|][i] == s.wire[i];
      }
    }
  }

  lemma ToldNode(s: E.System, a: E.Action, id: Id)
    requires E.Enabled(s, a) && !a.Control? && !a.Arrive? && Told(s, id)
    ensures Told(E.Step(s, a), id)
  {
    CodeIsKept(s, a, id);
    SaysOwnStatus(s, a, id);
    ToldMore(s, E.Step(s, a), id);
  }

  lemma ToldStep(s: E.System, a: E.Action, id: Id)
    requires E.Inv(s) && E.Enabled(s, a) && Told(s, id)
    ensures Told(E.Step(s, a), id)
  {
    match a
    case Control(c) => ToldControl(s, c, id);
    case Arrive => ToldArrive(s, id);
    case _ => ToldNode(s, a, id);
  }

  lemma {:induction false} ToldRun(s: E.System, acts: seq<E.Action>, id: Id)
    requires E.Inv(s) && E.Legal(s, acts) && Told(s, id)
    ensures Told(E.Run(s, acts), id)
    decreases acts
  {
    if acts != [] {
      E.InvStep(s, acts[0]);
      ToldStep(s, acts[0], id);
      ToldRun(E.Step(s, acts[0]), acts[1..], id);
    }
  }

  /** Where the status of a stream comes from. */
  lemma {:induction false} CodeWasAnswered(s: E.System, acts: seq<E.Action>, id: Id) returns (m: nat)
    requires E.Legal(s, acts) && id !in s.streams && Code(E.Run(s, acts), id).Some?
    ensures m < |acts| && acts[m].NodeStart? && acts[m].id == id && Code(E.Run(s, acts), id) == Some(acts[m].status)
    decreases acts
  {
    var t := E.Step(s, acts[0]);
    CodeIsKept(s, acts[0], id);
    if id in t.streams {
      CodeStays(t, acts[1..], id);
      m := 0;
    } else {
      var k := CodeWasAnswered(t, acts[1..], id);
      m := k + 1;
    }
  }

  lemma {:induction false} CodeStays(s: E.System, acts: seq<E.Action>, id: Id)
    requires E.Legal(s, acts) && id in s.streams
    ensures Code(E.Run(s, acts), id) == Code(s, id)
    decreases acts
  {
    if acts != [] {
      CodeIsKept(s, acts[0], id);
      CodeStays(E.Step(s, acts[0]), acts[1..], id);
    }
  }

  /** Over every run: a status that a caller got, or that is queued for it, is the
      one with which the node began to answer that very request. */
  lemma StatusIsTheNodes(acts: seq<E.Action>, id: Id) returns (m: nat)
    requires E.Legal(E.START, acts) && id in E.Run(E.START, acts).conn.reqs
    ensures var r := E.Run(E.START, acts).conn.reqs[id];
            r.got.Some? || r.heads != [] ==>
              && m < |acts| && acts[m].NodeStart? && acts[m].id == id
              && (r.got.Some? ==> r.got == Some(acts[m].status))
              && (forall i | 0 <= i < |r.heads| :: r.heads[i] == acts[m].status)
  {
    m := 0;
    ToldRun(E.START, acts, id);
    var s := E.Run(E.START, acts);
    var r := s.conn.reqs[id];
    assert Answers(M.View(s.conn, id), Code(s, id));
    if r.got.Some? || r.heads != [] {
      if r.heads != [] {
        assert Code(s, id) == Some(r.heads[0]);
      }
      m := CodeWasAnswered(E.START, acts, id);
    }
  }

  /** A node that refuses a request, and one whose stream fails, say so in one `err`
      frame for that request, and change nothing else. */
  lemma FailureIsSaid(s: E.System, id: Id)
    ensures E.Enabled(s, E.NodeRefuse(id)) ==>
              var t := E.Step(s, E.NodeRefuse(id));
              t.wire == s.wire + [M.ForRequest(id, R.ReqFrame.Err)] && t.conn == s.conn && Code(t, id) == None
    ensures E.Enabled(s, E.NodeFail(id)) ==>
              var t := E.Step(s, E.NodeFail(id));
              t.wire == s.wire + [M.ForRequest(id, R.ReqFrame.Err)] && t.conn == s.conn && Code(t, id) == Code(s, id)
  {
  }
}
