/** The handler of one connection from its entry in the registry to its return:
    `welcome` is written first, and only then does the read loop run. */
module Lifecycle {
  import opened Ids
  import R = Request
  import M = Multiplex

  datatype Phase = Registered | Serving | Returned

  datatype State = State(phase: Phase, welcomed: bool, conn: M.State)

  const START: State := State(Registered, false, M.INITIAL)

  datatype Action =
    | WelcomeWritten
    | WelcomeFails        // the handler returns at once
    | Connection(a: M.Action)
    | Return              // after the shutdown that ends the read loop

  /** What the handler's own goroutine does: the read loop and the shutdown. */
  predicate OfHandler(a: M.Action) {
    || a.Receive? || a.Deliver? || a.LoopStop?
    || a.ShutLock? || a.ShutBridge? || a.ShutRequest? || a.ShutDone?
  }

  predicate Enabled(s: State, a: Action) {
    match a
    case WelcomeWritten => s.phase == Registered
    case WelcomeFails => s.phase == Registered
    case Connection(c) => M.Enabled(s.conn, c) && (OfHandler(c) ==> s.phase == Serving)
    case Return => s.phase == Serving && s.conn.doneCloses > 0
  }

  function Step(s: State, a: Action): State
    requires Enabled(s, a)
  {
    match a
    case WelcomeWritten => s.(phase := Serving, welcomed := true)
    case WelcomeFails => s.(phase := Returned)
    case Connection(c) => s.(conn := M.Step(s.conn, c))
    case Return => s.(phase := Returned)
  }

  ghost predicate Legal(s: State, acts: seq<Action>)
    decreases acts
  {
    acts == [] || (Enabled(s, acts[0]) && Legal(Step(s, acts[0]), acts[1..]))
  }

  ghost function Run(s: State, acts: seq<Action>): State
    requires Legal(s, acts)
    decreases acts
  {
    if acts == [] then s else Run(Step(s, acts[0]), acts[1..])
  }

  /** Nothing of the read loop or the shutdown has happened. */
  predicate Untouched(s: M.State) { !s.closed && s.doneCloses == 0 && s.loop == M.Idle }

  ghost predicate Inv(s: State) {
    && M.Inv(s.conn)
    && (!s.welcomed ==> s.phase != Serving && Untouched(s.conn))
    && (s.phase == Registered ==> !s.welcomed)
    && (s.phase == Returned && s.welcomed ==> s.conn.doneCloses > 0)
  }

  lemma OthersLeaveUntouched(s: M.State, a: M.Action)
    requires M.Enabled(s, a) && !OfHandler(a) && Untouched(s)
    ensures Untouched(M.Step(s, a))
  {
  }

  lemma DoneStays(s: M.State, a: M.Action)
    requires M.Inv(s) && M.Enabled(s, a) && s.doneCloses > 0
    ensures M.Step(s, a).doneCloses > 0
  {
    M.NeverClosedTwice(s, a);
    if a.Receive? {
      M.DispatchKeys(s, a.f);
    }
  }

  lemma InvStep(s: State, a: Action)
    requires Inv(s) && Enabled(s, a)
    ensures Inv(Step(s, a))
  {
    if a.Connection? {
      M.InvStep(s.conn, a.a);
      if !s.welcomed {
        OthersLeaveUntouched(s.conn, a.a);
      } else if s.conn.doneCloses > 0 {
        DoneStays(s.conn, a.a);
      }
    }
  }

  lemma {:induction false} InvRun(s: State, acts: seq<Action>)
    requires Inv(s) && Legal(s, acts)
    ensures Inv(Run(s, acts))
    decreases acts
  {
    if acts != [] {
      InvStep(s, acts[0]);
      InvRun(Step(s, acts[0]), acts[1..]);
    }
  }

  /** After its handler has returned, a connection is closed with both tables empty
      exactly when `welcome` was written. */
  lemma ReturnedIsClosedExactlyWhenWelcomed(acts: seq<Action>)
    requires Legal(START, acts) && Run(START, acts).phase == Returned
    ensures var s := Run(START, acts);
            s.conn.closed && s.conn.table == {} && s.conn.bridgeTable == {} <==> s.welcomed
  {
    InvRun(START, acts);
  }

  // ── A request enlisted before a `welcome` that fails ──

  /** The caller waits, or has given up, in a slot that nothing will free. */
  predicate Stuck(s: State, id: Id) {
    && s.phase == Returned && !s.welcomed
    && id in s.conn.reqs && id in s.conn.table
    && s.conn.reqs[id].pc in {R.Waiting, R.Abandoned}
    && s.conn.reqs[id].heads == [] && s.conn.reqs[id].fails == 0
  }

  lemma StuckStep(s: State, a: Action, id: Id)
    requires Inv(s) && Enabled(s, a) && Stuck(s, id)
    ensures Stuck(Step(s, a), id)
  {
    if a.Connection? {
      StuckThroughConnection(s, a.a, id);
    }
  }

  predicate StuckView(v: R.View) {
    v.inTable && v.req.pc in {R.Waiting, R.Abandoned} && v.req.heads == [] && v.req.fails == 0
  }

  lemma StuckAlone(v: R.View, a: R.Action)
    requires StuckView(v) && !v.done && R.Enabled(v, a) && (a.Own? || a.SettleLock? || a.SettleClose?)
    ensures StuckView(R.Step(v, a))
  {
  }

  lemma SeenOfOthers(s: M.State, a: M.Action, id: Id)
    requires M.Enabled(s, a) && !OfHandler(a)
    ensures var seen := M.Seen(s, a, id);
            seen.Some? ==> seen.value.Own? || seen.value.SettleLock? || seen.value.SettleClose?
  {
  }

  lemma StuckInView(s: M.State, a: M.Action, id: Id)
    requires M.Enabled(s, a) && !OfHandler(a) && id in s.reqs && M.Agrees(s, a, id)
    requires StuckView(M.View(s, id)) && s.doneCloses == 0
    ensures StuckView(M.View(M.Step(s, a), id))
  {
    SeenOfOthers(s, a, id);
    if M.Seen(s, a, id).Some? {
      StuckAlone(M.View(s, id), M.Seen(s, a, id).value);
    }
  }

  lemma StuckThroughConnection(s: State, a: M.Action, id: Id)
    requires Inv(s) && Enabled(s, Connection(a)) && Stuck(s, id)
    ensures Stuck(Step(s, Connection(a)), id)
  {
    M.NeverClosedTwice(s.conn, a);
    M.StepAgrees(s.conn, a, id);
    assert StuckView(M.View(s.conn, id));
    StuckInView(s.conn, a, id);
  }

  lemma {:induction false} StuckForGood(s: State, acts: seq<Action>, id: Id)
    requires Inv(s) && Legal(s, acts) && Stuck(s, id)
    ensures Stuck(Run(s, acts), id)
    decreases acts
  {
    if acts != [] {
      StuckStep(s, acts[0], id);
      InvStep(s, acts[0]);
      StuckForGood(Step(s, acts[0]), acts[1..], id);
    }
  }

  /** A request came in before `welcome`, which failed. */
  function Early(): State {
    State(Returned, false, M.INITIAL.(nextId := 1, reqs := map[RequestId(1) := R.NEW_REQ.(pc := R.Waiting)],
                                      table := {RequestId(1)}))
  }

  lemma RunCons(s: State, a: Action, rest: seq<Action>)
    requires Enabled(s, a) && Legal(Step(s, a), rest)
    ensures Legal(s, [a] + rest) && Run(s, [a] + rest) == Run(Step(s, a), rest)
  {
    assert ([a] + rest)[1..] == rest;
  }

  lemma EarlyIsReached()
    ensures var acts := [Connection(M.Enlist)] + ([Connection(M.Own(RequestId(1), R.Written))] + ([WelcomeFails] + []));
            Legal(START, acts) && Run(START, acts) == Early()
  {
    var a, b := Connection(M.Enlist), Connection(M.Own(RequestId(1), R.Written));
    var s1 := Step(START, a);
    assert s1.conn.reqs == map[RequestId(1) := R.NEW_REQ];
    var s2 := Step(s1, b);
    assert s2.conn.reqs == Early().conn.reqs && Step(s2, WelcomeFails) == Early();
    RunCons(s2, WelcomeFails, []);
    RunCons(s1, b, [WelcomeFails] + []);
    RunCons(START, a, [b] + ([WelcomeFails] + []));
  }

  /** A request that comes in before `welcome` waits for good when that fails: the
      connection never ends for it, whatever is done afterwards. */
  lemma EarlyRequestIsStuck(more: seq<Action>)
    requires Legal(Early(), more)
    ensures Stuck(Run(Early(), more), RequestId(1))
  {
    EarlyIsReached();
    InvRun(START, [Connection(M.Enlist)] + ([Connection(M.Own(RequestId(1), R.Written))] + ([WelcomeFails] + [])));
    StuckForGood(Early(), more, RequestId(1));
  }

  /** What each of the handler's own steps decides: the read loop runs after
      `welcome` was written, not at all after it failed, and the handler returns once
      the connection's `done` is closed. */
  lemma HandlerSteps(s: State)
    requires Inv(s)
    ensures s.phase == Registered ==>
              && Enabled(s, WelcomeWritten) && Step(s, WelcomeWritten) == s.(phase := Serving, welcomed := true)
              && Enabled(s, WelcomeFails) && Step(s, WelcomeFails) == s.(phase := Returned)
              && !Enabled(s, Return)
    ensures s.phase == Serving ==>
              && s.welcomed && !Enabled(s, WelcomeFails) && (Enabled(s, Return) <==> s.conn.doneCloses == 1)
              && (Enabled(s, Return) ==> Step(s, Return) == s.(phase := Returned))
    ensures s.phase != Serving ==> forall a | OfHandler(a) :: !Enabled(s, Connection(a))
  {
  }
}
