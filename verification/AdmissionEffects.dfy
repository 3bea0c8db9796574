/** What each step of the handshake answers, in the codes that travel, and that a
    good credential does lead to a registered connection. */
module AdmissionEffects {
  import opened Wrappers
  import opened Credentials
  import opened Admission
  import CE = CredentialEffects

  /** The handshakes of the others, and who is registered, stay as they are. */
  predicate OnlyStage(s: State, t: State, conn: ConnId) {
    && t.registry == s.registry && t.enrolment == s.enrolment && conn in t.stages
    && (forall c | c in s.stages && c != conn :: c in t.stages && t.stages[c] == s.stages[c])
    && (forall c | c in t.stages && c != conn :: c in s.stages)
  }

  // ── The codes ──

  /** No credential at all is 4005 and another protocol version 4003, before any
      table is read. */
  lemma UnreadableHello(s: State, conn: ConnId)
    requires Enabled(s, Check(conn))
    ensures var h, t := s.stages[conn].hello, Step(s, Check(conn));
            && OnlyStage(s, t, conn) && t.tables == s.tables
            && (t.stages[conn] == Refused(4005) <==> h.machine == "" || h.token == "")
            && (t.stages[conn] == Refused(4003) <==> h.machine != "" && h.token != "" && h.protocol != 1)
  {
  }

  /** A machine's own token: admitted, or 4001 for a revoked machine, and 4002 for an
      unknown one and for a wrong token alike. */
  lemma MachineIsAnswered(s: State, conn: ConnId)
    requires Enabled(s, Check(conn))
    requires var h := s.stages[conn].hello;
             h.machine != "" && h.token != "" && h.protocol == 1 && h.username == ""
    ensures var h, st := s.stages[conn].hello, Step(s, Check(conn)).stages[conn];
            var known := h.machine in s.tables.machines;
            var revoked := known && s.tables.machines[h.machine].revoked;
            var good := known && s.tables.machines[h.machine].token == Some(h.token);
            st == if revoked then Refused(4001) else if good then Admitted(h) else Refused(4002)
  {
  }

  /** A person's name: found when an enabled account has it, 4002 when none has, and
      1011 when the deployment takes no personal tokens. */
  lemma PersonIsAnswered(s: State, conn: ConnId)
    requires Enabled(s, Check(conn)) && Consistent(s.tables)
    requires var h := s.stages[conn].hello;
             h.machine != "" && h.token != "" && h.protocol == 1 && h.username != ""
    ensures var h, st := s.stages[conn].hello, Step(s, Check(conn)).stages[conn];
            && (!s.enrolment ==> st == Refused(1011))
            && (s.enrolment ==>
                && (forall u: UserId :: st == Found(h, u) <==> Answers(s.tables.users, h.username, u))
                && ((forall u | u in s.tables.users :: !Answers(s.tables.users, h.username, u)) ==>
                    st == Refused(4002)))
  {
  }

  lemma TokensAreAnswered(s: State, conn: ConnId)
    requires Enabled(s, ReadTokens(conn))
    ensures var st, t := s.stages[conn], Step(s, ReadTokens(conn));
            && OnlyStage(s, t, conn) && t.tables == s.tables
            && t.stages[conn] ==
               if exists k | k in s.tables.tokens :: LiveToken(s.tables.tokens, st.owner, st.hello.token, k)
               then Recognised(st.hello, st.owner) else Refused(4002)
  {
  }

  /** The name is claimed when it is free or the person's own, and otherwise 4002,
      whether it is another account's or has a token of its own. */
  lemma ClaimIsAnswered(s: State, conn: ConnId)
    requires Enabled(s, ClaimName(conn)) && s.stages[conn].owner in s.tables.users
    ensures var st, t := s.stages[conn], Step(s, ClaimName(conn));
            var machines := s.tables.machines;
            && OnlyStage(s, t, conn)
            && (if st.hello.machine !in machines || machines[st.hello.machine].owner == Some(st.owner)
                then t.stages[conn] == Admitted(st.hello)
                else t.stages[conn] == Refused(4002) && t.tables == s.tables)
  {
  }

  /** A claim for an account that is gone by then breaks the reference, which is 1011. */
  lemma OrphanedClaim(s: State, conn: ConnId)
    requires Enabled(s, ClaimName(conn)) && s.stages[conn].owner !in s.tables.users && Consistent(s.tables)
    ensures var st, t := s.stages[conn], Step(s, ClaimName(conn));
            && t.tables == s.tables
            && t.stages[conn] == Refused(if st.hello.machine in s.tables.machines then 4002 else 1011)
  {
    if s.stages[conn].hello.machine in s.tables.machines {
      assert OneCredential(s.tables.machines[s.stages[conn].hello.machine]);
    }
  }

  /** A query that fails is 4002 while a person is looked up, and 1011 otherwise. */
  lemma FailureIsAnswered(s: State, conn: ConnId)
    requires Enabled(s, QueryFails(conn))
    ensures var st, t := s.stages[conn], Step(s, QueryFails(conn));
            && OnlyStage(s, t, conn) && t.tables == s.tables
            && t.stages[conn] ==
               Refused(if st.Found? || (st.Arrived? && st.hello.username != "") then 4002 else 1011)
  {
  }

  /** The first connection of a machine is registered, any other refused with 4004,
      and the entry goes with the connection that has it. */
  lemma RegistryIsAnswered(s: State, conn: ConnId)
    requires conn in s.stages
    ensures Enabled(s, Enter(conn)) ==>
              var h, t := s.stages[conn].hello, Step(s, Enter(conn));
              if h.machine in s.registry then OnlyStage(s, t, conn) && t.stages[conn] == Refused(4004)
              else
                && t.stages[conn] == Online(h) && h.machine in t.registry && t.registry[h.machine] == conn
                && (forall m | m != h.machine :: m in t.registry <==> m in s.registry)
                && (forall m | m in s.registry :: m in t.registry && t.registry[m] == s.registry[m])
    ensures Enabled(s, Leave(conn)) && RegistryGood(s) ==>
              var h, t := s.stages[conn].hello, Step(s, Leave(conn));
              && t.stages[conn] == Gone && h.machine !in t.registry
              && (forall m | m in s.registry && m != h.machine :: m in t.registry && t.registry[m] == s.registry[m])
  {
  }

  // ── A good credential gets in ──

  /** A machine whose token is good, and that nobody is connected as, is online after
      its own steps alone. */
  lemma MachineGetsOnline(s: State, conn: ConnId, h: Hello)
    requires conn !in s.stages && h.machine != "" && h.token != "" && h.protocol == 1 && h.username == ""
    requires Authenticate(s.tables.machines, h.machine, h.token) == Ok(()) && h.machine !in s.registry
    ensures Enabled(s, Arrive(conn, h))
    ensures var a := Step(s, Arrive(conn, h));
            Enabled(a, Check(conn)) &&
            var b := Step(a, Check(conn));
            Enabled(b, Enter(conn)) &&
            var t := Step(b, Enter(conn));
            && t.tables == s.tables && t.stages[conn] == Online(h)
            && h.machine in t.registry && t.registry[h.machine] == conn
  {
  }

  lemma PersonIsRecognised(s: State, conn: ConnId, h: Hello, user: UserId)
    requires conn !in s.stages && h.machine != "" && h.token != "" && h.protocol == 1 && h.username != ""
    requires Consistent(s.tables) && s.enrolment && Holds(s.tables, h.username, h.token, user)
    ensures Enabled(s, Arrive(conn, h))
    ensures var a := Step(s, Arrive(conn, h));
            Enabled(a, Check(conn)) &&
            var b := Step(a, Check(conn));
            Enabled(b, ReadTokens(conn)) &&
            Step(b, ReadTokens(conn)) == s.(stages := s.stages[conn := Recognised(h, user)])
  {
    var a := Step(s, Arrive(conn, h));
    PersonIsAnswered(a, conn);
    var b := Step(a, Check(conn));
    assert b.stages[conn] == Found(h, user);
    var t := Step(b, ReadTokens(conn));
    assert t.stages[conn] == Recognised(h, user);
    assert t.stages == s.stages[conn := Recognised(h, user)];
  }

  /** And so is a person with a live token, under a name that is free or their own;
      the machine is then theirs and not revoked. */
  lemma PersonGetsOnline(s: State, conn: ConnId, h: Hello, user: UserId)
    requires conn !in s.stages && Consistent(s.tables) && h.machine !in s.registry
    requires Answers(s.tables.users, h.username, user)
    requires h.machine in s.tables.machines ==> s.tables.machines[h.machine].owner == Some(user)
    ensures var b := s.(stages := s.stages[conn := Recognised(h, user)]);
            Enabled(b, ClaimName(conn)) &&
            var d := Step(b, ClaimName(conn));
            Enabled(d, Enter(conn)) &&
            var t := Step(d, Enter(conn));
            && t.stages[conn] == Online(h) && h.machine in t.registry && t.registry[h.machine] == conn
            && CE.OnlyMachine(s.tables, t.tables, h.machine) && h.machine in t.tables.machines
            && t.tables.machines[h.machine].owner == Some(user) && !t.tables.machines[h.machine].revoked
  {
    CE.ClaimedMachine(s.tables, h.machine, user, h.name);
  }

  /** What the last registration or reissue of a machine gave out. */
  predicate Issues(c: Change, id: MachineId, secret: Secret) {
    (c.Add? || c.Reissue?) && c.id == id && c.secret == secret
  }

  predicate EndsLogin(a: Action, id: MachineId) {
    a.Change? && (a.c.RevokeMachine? || a.c.Reissue?) && a.c.id == id
  }

  lemma LoginStep(s: State, a: Action, id: MachineId, secret: Secret)
    requires Inv(s) && Enabled(s, a) && !EndsLogin(a, id)
    requires Authenticate(s.tables.machines, id, secret) == Ok(())
    ensures Authenticate(Step(s, a).tables.machines, id, secret) == Ok(())
  {
    TablesStep(s, a);
    if Statement(s, a).Some? {
      CE.LoginStands(s.tables, Statement(s, a).value, id, secret);
    }
  }

  lemma LoginAt(states: seq<State>, acts: seq<Action>, n: nat, id: MachineId, secret: Secret)
    requires IsRun(states, acts) && n < |acts| && !EndsLogin(acts[n], id)
    requires Authenticate(states[n].tables.machines, id, secret) == Ok(())
    ensures Authenticate(states[n + 1].tables.machines, id, secret) == Ok(())
  {
    InvAt(states, acts, n);
    LoginStep(states[n], acts[n], id, secret);
  }

  /** The secret that step `m` gave out is the last before step `n`. */
  ghost predicate LastIssued(states: seq<State>, acts: seq<Action>, m: nat, n: nat, id: MachineId, secret: Secret)
    requires |states| == |acts| + 1
  {
    && m < n <= |acts| && acts[m].Change? && Issues(acts[m].c, id, secret) && Apply(states[m].tables, acts[m].c).Ok?
    && forall j | m < j < n :: !EndsLogin(acts[j], id)
  }

  lemma IssuedLogsIn(states: seq<State>, acts: seq<Action>, m: nat, id: MachineId, secret: Secret)
    requires IsRun(states, acts) && m < |acts| && acts[m].Change? && Issues(acts[m].c, id, secret)
    requires Apply(states[m].tables, acts[m].c).Ok?
    ensures Authenticate(states[m + 1].tables.machines, id, secret) == Ok(())
  {
    StepAt(states, acts, m);
    match acts[m].c
    case Add(_, name, _) => CE.AddedMachineLogsIn(states[m].tables, id, name, secret);
    case Reissue(_, name, _) => CE.ReissuedMachineLogsIn(states[m].tables, id, name, secret);
  }

  lemma {:induction false} LoginInRun(
    states: seq<State>, acts: seq<Action>, m: nat, n: nat, id: MachineId, secret: Secret)
    requires IsRun(states, acts) && LastIssued(states, acts, m, n, id, secret)
    ensures Authenticate(states[n].tables.machines, id, secret) == Ok(())
  {
    if n == m + 1 {
      IssuedLogsIn(states, acts, m, id, secret);
    } else {
      LoginInRun(states, acts, m, n - 1, id, secret);
      LoginAt(states, acts, n - 1, id, secret);
    }
  }

  /** Over every run, whatever else happens to the tables: the secret a machine was
      last given, by registration or reissue, admits it as long as the machine was
      not revoked and no later secret was issued. */
  lemma LastSecretAdmits(states: seq<State>, acts: seq<Action>, m: nat, n: nat, id: MachineId, secret: Secret)
    requires IsRun(states, acts) && LastIssued(states, acts, m, n, id, secret)
    requires n < |acts| && acts[n].Check? && Enabled(states[n], acts[n])
    requires var h := states[n].stages[acts[n].conn].hello;
             h.protocol == 1 && h.machine == id != "" && h.username == "" && h.token == secret != ""
    ensures states[n + 1].stages[acts[n].conn] == Admitted(states[n].stages[acts[n].conn].hello)
  {
    LoginInRun(states, acts, m, n, id, secret);
    StepAt(states, acts, n);
    MachineIsAnswered(states[n], acts[n].conn);
  }
}
