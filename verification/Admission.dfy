/** The uplink handshake and the registry of live connections, interleaved with
    each other and with every change to the credential tables. */
module Admission {
  import opened Wrappers
  import opened Credentials
  import Registry
  import Reconnect

  type ConnId = nat

  const PROTOCOL_VERSION := 1

  const BAD_TOKEN := 4001
  const UNKNOWN_NODE := 4002
  const BAD_PROTOCOL := 4003
  const DUPLICATE := 4004
  const AUTH_TIMEOUT := 4005
  const INTERNAL_ERROR := 1011

  datatype Hello = Hello(protocol: int, machine: MachineId, username: string, token: Secret, name: string)

  datatype Stage =
    | Arrived(hello: Hello)
    | Found(hello: Hello, owner: UserId)        // a person's account was found, its tokens not yet read
    | Recognised(hello: Hello, owner: UserId)   // a person's token verified, the name not yet claimed
    | Admitted(hello: Hello)                    // authenticated, not yet in the registry
    | Online(hello: Hello)
    | Refused(code: int)
    | Gone

  datatype State = State(enrolment: bool, tables: Tables, stages: map<ConnId, Stage>, registry: map<MachineId, ConnId>)

  datatype Action =
    | Change(c: Change)
    | Arrive(conn: ConnId, hello: Hello)
    | Check(conn: ConnId)         // the machine's row, or the person's account, is read
    | ReadTokens(conn: ConnId)    // the account's live tokens are read and tried
    | ClaimName(conn: ConnId)
    | Enter(conn: ConnId)
    | Leave(conn: ConnId)
    | QueryFails(conn: ConnId)

  ghost predicate Proves(t: Tables, user: UserId, secret: Secret) {
    exists k | k in t.tokens :: LiveToken(t.tokens, user, secret, k)
  }

  /** The account a name and a secret belong to, when they authenticate. */
  ghost predicate Holds(t: Tables, name: string, secret: Secret, user: UserId) {
    Answers(t.users, name, user) && Proves(t, user, secret)
  }

  ghost function ByUsername(t: Tables, name: string): (r: Option<UserId>)
    ensures r.Some? ==> Answers(t.users, name, r.value)
    ensures r.None? ==> forall u | u in t.users :: !Answers(t.users, name, u)
  {
    if exists u | u in t.users :: Answers(t.users, name, u) then
      var u :| u in t.users && Answers(t.users, name, u);
      Some(u)
    else None
  }

  /** The close code a refusal travels as. */
  function CodeFor(e: Error): int {
    match e
    case Revoked => BAD_TOKEN
    case NotFound => UNKNOWN_NODE
    case BadToken => UNKNOWN_NODE
    case Foreign => UNKNOWN_NODE
    case HasOwnToken => UNKNOWN_NODE
    case _ => INTERNAL_ERROR
  }

  predicate WellFormed(h: Hello) { h.machine != "" && h.token != "" && h.protocol == PROTOCOL_VERSION }

  /** The handshake up to the end of its first query. */
  ghost function Checked(t: Tables, h: Hello, enrolment: bool): Stage {
    if h.machine == "" || h.token == "" then Refused(AUTH_TIMEOUT)
    else if h.protocol != PROTOCOL_VERSION then Refused(BAD_PROTOCOL)
    else if h.username == "" then
      (match Authenticate(t.machines, h.machine, h.token)
       case Ok(_) => Admitted(h)
       case Err(e) => Refused(CodeFor(e)))
    else if !enrolment then Refused(CodeFor(NoEnrolment))
    else
      (match ByUsername(t, h.username)
       case Some(u) => Found(h, u)
       case None => Refused(CodeFor(BadToken)))
  }

  /** The second query of a person's handshake, which may find other tables. */
  ghost function Verified(t: Tables, h: Hello, user: UserId): Stage {
    if Proves(t, user, h.token) then Recognised(h, user) else Refused(CodeFor(BadToken))
  }

  /** Both queries against the same tables. */
  ghost function Outcome(t: Tables, h: Hello, enrolment: bool): Stage {
    var st := Checked(t, h, enrolment);
    if st.Found? then Verified(t, h, st.owner) else st
  }

  /** What a failing query is reported as. The lookup of a person passes on its
      error as an unknown name, whatever the error is. */
  function FailureOf(stage: Stage): Error
    requires stage.Arrived? || stage.Found? || stage.Recognised?
  {
    if stage.Found? || (stage.Arrived? && stage.hello.username != "") then NotFound else Database
  }

  /** A handshake that is about to query the database. */
  predicate Querying(stage: Stage, enrolment: bool) {
    || stage.Found? || stage.Recognised?
    || (stage.Arrived? && WellFormed(stage.hello) && (stage.hello.username == "" || enrolment))
  }

  ghost predicate Enabled(s: State, a: Action) {
    match a
    case Change(c) => !c.Claim? && Fresh(s.tables, c)
    case Arrive(conn, _) => conn !in s.stages
    case Check(conn) => conn in s.stages && s.stages[conn].Arrived?
    case ReadTokens(conn) => conn in s.stages && s.stages[conn].Found?
    case ClaimName(conn) => conn in s.stages && s.stages[conn].Recognised?
    case QueryFails(conn) => conn in s.stages && Querying(s.stages[conn], s.enrolment)
    case Enter(conn) => conn in s.stages && s.stages[conn].Admitted?
    case Leave(conn) => conn in s.stages && s.stages[conn].Online?
  }

  /** The table statement a step makes, if any. */
  function Statement(s: State, a: Action): Option<Change>
    requires a.ClaimName? ==> a.conn in s.stages && s.stages[a.conn].Recognised?
  {
    match a
    case Change(c) => Some(c)
    case ClaimName(conn) =>
      var st := s.stages[conn];
      Some(Claim(st.hello.machine, st.owner, st.hello.name))
    case _ => None
  }

  ghost function Step(s: State, a: Action): State
    requires Enabled(s, a)
  {
    match a
    case Change(c) => s.(tables := After(s.tables, c))
    case Arrive(conn, hello) => s.(stages := s.stages[conn := Arrived(hello)])
    case Check(conn) => s.(stages := s.stages[conn := Checked(s.tables, s.stages[conn].hello, s.enrolment)])
    case ReadTokens(conn) =>
      s.(stages := s.stages[conn := Verified(s.tables, s.stages[conn].hello, s.stages[conn].owner)])
    case QueryFails(conn) => s.(stages := s.stages[conn := Refused(CodeFor(FailureOf(s.stages[conn])))])
    case ClaimName(conn) =>
      var h, claim := s.stages[conn].hello, Statement(s, a).value;
      var stage := match Apply(s.tables, claim)
                   case Ok(_) => Admitted(h)
                   case Err(e) => Refused(CodeFor(e));
      s.(tables := After(s.tables, claim), stages := s.stages[conn := stage])
    case Enter(conn) =>
      var h := s.stages[conn].hello;
      if h.machine in s.registry then s.(stages := s.stages[conn := Refused(DUPLICATE)])
      else s.(stages := s.stages[conn := Online(h)], registry := s.registry[h.machine := conn])
    case Leave(conn) =>
      var m := s.stages[conn].hello.machine;
      s.(stages := s.stages[conn := Gone],
         registry := if m in s.registry && s.registry[m] == conn then s.registry - {m} else s.registry)
  }

  /** The registry holds exactly the connections that are online, one a machine. */
  ghost predicate RegistryGood(s: State) {
    && (forall m | m in s.registry :: s.registry[m] in s.stages && s.stages[s.registry[m]].Online?
                                      && s.stages[s.registry[m]].hello.machine == m)
    && (forall c | c in s.stages && s.stages[c].Online? ::
          s.stages[c].hello.machine in s.registry && s.registry[s.stages[c].hello.machine] == c)
  }

  ghost predicate Inv(s: State) { Consistent(s.tables) && RegistryGood(s) }

  lemma TablesStep(s: State, a: Action)
    requires Enabled(s, a)
    ensures var c := Statement(s, a);
            Step(s, a).tables == if c.Some? then After(s.tables, c.value) else s.tables
    ensures Statement(s, a).Some? ==> Fresh(s.tables, Statement(s, a).value)
  {
  }

  /** A newcomer never displaces a live connection, and a departing one never
      removes another's entry. */
  lemma RegistryStep(s: State, a: Action)
    requires RegistryGood(s) && Enabled(s, a)
    ensures RegistryGood(Step(s, a))
    ensures forall m | m in s.registry && !(a.Leave? && s.registry[m] == a.conn) ::
              m in Step(s, a).registry && Step(s, a).registry[m] == s.registry[m]
  {
  }

  lemma InvStep(s: State, a: Action)
    requires Inv(s) && Enabled(s, a)
    ensures Inv(Step(s, a))
  {
    RegistryStep(s, a);
    TablesStep(s, a);
    if Statement(s, a).Some? {
      ConsistentAfter(s.tables, Statement(s, a).value);
    }
  }

  // ── Whole runs ──

  /** A run is its steps and the states between them. */
  ghost predicate IsRun(states: seq<State>, acts: seq<Action>) {
    && |states| == |acts| + 1 && Inv(states[0]) && states[0].stages == map[]
    && forall i | 0 <= i < |acts| :: Enabled(states[i], acts[i]) && states[i + 1] == Step(states[i], acts[i])
  }

  lemma {:induction false} InvAt(states: seq<State>, acts: seq<Action>, n: nat)
    requires IsRun(states, acts) && n < |states|
    ensures Inv(states[n])
  {
    if n > 0 {
      InvAt(states, acts, n - 1);
      InvStep(states[n - 1], acts[n - 1]);
    }
  }

  /** The machine is still there, with the same owner and kind of credential. */
  predicate KeepsKind(before: map<MachineId, Machine>, after: map<MachineId, Machine>, id: MachineId)
    requires id in before
  {
    id in after && after[id].owner == before[id].owner && (after[id].token.Some? <==> before[id].token.Some?)
  }

  lemma KindStep(s: State, a: Action, id: MachineId)
    requires Inv(s) && Enabled(s, a) && id in s.tables.machines
    ensures KeepsKind(s.tables.machines, Step(s, a).tables.machines, id)
  {
    TablesStep(s, a);
    if Statement(s, a).Some? {
      MachinesKeepTheirKind(s.tables, Statement(s, a).value, id);
    }
  }

  lemma KindAt(states: seq<State>, acts: seq<Action>, n: nat, id: MachineId)
    requires IsRun(states, acts) && n < |acts| && id in states[n].tables.machines
    ensures KeepsKind(states[n].tables.machines, states[n + 1].tables.machines, id)
  {
    InvAt(states, acts, n);
    KindStep(states[n], acts[n], id);
  }

  lemma RetiredStep(s: State, a: Action, secret: Secret)
    requires Inv(s) && Enabled(s, a) && Retired(s.tables, secret)
    ensures Retired(Step(s, a).tables, secret)
  {
    TablesStep(s, a);
    if Statement(s, a).Some? {
      RetiredStays(s.tables, Statement(s, a).value, secret);
    }
  }

  lemma RetiredAt(states: seq<State>, acts: seq<Action>, n: nat, secret: Secret)
    requires IsRun(states, acts) && n < |acts| && Retired(states[n].tables, secret)
    ensures Retired(states[n + 1].tables, secret)
  {
    InvAt(states, acts, n);
    RetiredStep(states[n], acts[n], secret);
  }

  lemma {:induction false} KindInRun(
    states: seq<State>, acts: seq<Action>, m: nat, n: nat, id: MachineId)
    requires IsRun(states, acts) && m <= n < |states| && id in states[m].tables.machines
    ensures KeepsKind(states[m].tables.machines, states[n].tables.machines, id)
  {
    if m < n {
      KindInRun(states, acts, m, n - 1, id);
      KindAt(states, acts, n - 1, id);
    }
  }

  /** Over every run, each machine keeps its owner and its kind of credential,
      and has exactly one. */
  lemma CredentialsAreStable(
    states: seq<State>, acts: seq<Action>, m: nat, n: nat, id: MachineId)
    requires IsRun(states, acts) && m <= n < |states| && id in states[m].tables.machines
    ensures var before, after := states[m].tables.machines, states[n].tables.machines;
            && id in after && after[id].owner == before[id].owner
            && (after[id].token.Some? <==> before[id].token.Some?) && OneCredential(after[id])
  {
    KindInRun(states, acts, m, n, id);
    InvAt(states, acts, n);
  }

  /** Once retired, a secret stays so for the rest of the run. */
  lemma {:induction false} RetiredForGood(
    states: seq<State>, acts: seq<Action>, m: nat, n: nat, secret: Secret)
    requires IsRun(states, acts) && m <= n < |states| && Retired(states[m].tables, secret)
    ensures Retired(states[n].tables, secret)
  {
    if m < n {
      RetiredForGood(states, acts, m, n - 1, secret);
      RetiredAt(states, acts, n - 1, secret);
    }
  }

  /** Neither a machine's check nor a person's accepts a retired secret. */
  lemma RetiredIsRefused(s: State, a: Action, secret: Secret)
    requires Enabled(s, a) && (a.Check? || a.ReadTokens?)
    requires s.stages[a.conn].hello.token == secret && Retired(s.tables, secret)
    ensures var st := Step(s, a).stages[a.conn];
            st.Refused? || (a.Check? && st.Found?)
  {
    RetiredAuthenticatesNothing(s.tables, secret, s.stages[a.conn].hello.machine, 0, 0);
    if a.ReadTokens? {
      forall k | k in s.tables.tokens
        ensures !LiveToken(s.tables.tokens, s.stages[a.conn].owner, secret, k)
      {
        RetiredAuthenticatesNothing(s.tables, secret, "", s.stages[a.conn].owner, k);
      }
    }
  }

  /** A revoked user token, a token of a deleted account, a revoked machine's own
      token and a reissued one never pass a handshake again: a machine's check
      refuses it, a person's finds the account at most, and then refuses it. */
  lemma SpentSecretsNeverAdmit(
    states: seq<State>, acts: seq<Action>, spent: nat, later: nat, secret: Secret)
    requires IsRun(states, acts) && spent < later < |acts|
    requires acts[spent].Change? && Apply(states[spent].tables, acts[spent].c).Ok?
    requires var t, c := states[spent].tables, acts[spent].c;
             || (c.Withdraw? && secret == t.tokens[c.token].secret)
             || (c.Delete? && exists k | k in t.tokens :: t.tokens[k].owner == c.user && t.tokens[k].secret == secret)
             || (c.Reissue? && Some(secret) == t.machines[c.id].token)
             || (c.RevokeMachine? && Some(secret) == t.machines[c.id].token)
    requires acts[later].Check? || acts[later].ReadTokens?
    requires states[later].stages[acts[later].conn].hello.token == secret
    ensures var st := states[later + 1].stages[acts[later].conn];
            st.Refused? || (acts[later].Check? && st.Found?)
  {
    InvAt(states, acts, spent);
    WhatRetires(states[spent].tables, acts[spent].c);
    RetiredForGood(states, acts, spent + 1, later, secret);
    StepAt(states, acts, later);
    RetiredIsRefused(states[later], acts[later], secret);
  }

  // ── How a connection came to be online ──

  lemma StepAt(states: seq<State>, acts: seq<Action>, n: nat)
    requires IsRun(states, acts) && n < |acts|
    ensures Enabled(states[n], acts[n]) && states[n + 1] == Step(states[n], acts[n])
  {
  }

  ghost predicate MachineVerified(states: seq<State>, acts: seq<Action>, i: nat, conn: ConnId, h: Hello)
    requires |states| == |acts| + 1
  {
    && i < |acts| && acts[i] == Check(conn) && h.username == "" && h.protocol == PROTOCOL_VERSION
    && Authenticate(states[i].tables.machines, h.machine, h.token) == Ok(())
  }

  /** The account was found, enabled and of that name, at step `i`. */
  ghost predicate PersonFound(states: seq<State>, acts: seq<Action>, i: nat, conn: ConnId, h: Hello, owner: UserId)
    requires |states| == |acts| + 1
  {
    && i < |acts| && acts[i] == Check(conn) && h.username != "" && h.protocol == PROTOCOL_VERSION
    && Answers(states[i].tables.users, h.username, owner)
  }

  /** The secret was a live token of the account at step `k`. */
  ghost predicate TokenVerified(states: seq<State>, acts: seq<Action>, k: nat, conn: ConnId, h: Hello, owner: UserId)
    requires |states| == |acts| + 1
  {
    k < |acts| && acts[k] == ReadTokens(conn) && Proves(states[k].tables, owner, h.token)
  }

  ghost predicate NameClaimed(states: seq<State>, acts: seq<Action>, j: nat, conn: ConnId, h: Hello, owner: UserId)
    requires |states| == |acts| + 1
  {
    && j < |acts| && acts[j] == ClaimName(conn) && h.machine in states[j + 1].tables.machines
    && states[j + 1].tables.machines[h.machine].owner == Some(owner)
    && !states[j + 1].tables.machines[h.machine].revoked
  }

  /** Found and recognised are reached by their own steps only. */
  lemma FoundBefore(s: State, a: Action, conn: ConnId)
    requires Enabled(s, a) && conn in Step(s, a).stages
    ensures var st := Step(s, a).stages[conn];
            && (st.Found? && a != Check(conn) ==> conn in s.stages && s.stages[conn] == st)
            && (st.Recognised? && a != ReadTokens(conn) ==> conn in s.stages && s.stages[conn] == st)
  {
  }

  lemma FoundByCheck(s: State, conn: ConnId)
    requires Enabled(s, Check(conn)) && Step(s, Check(conn)).stages[conn].Found?
    ensures var st := Step(s, Check(conn)).stages[conn];
            && st.hello.username != "" && st.hello.protocol == PROTOCOL_VERSION
            && Answers(s.tables.users, st.hello.username, st.owner)
  {
  }

  lemma RecognisedByTokens(s: State, conn: ConnId)
    requires Enabled(s, ReadTokens(conn)) && Step(s, ReadTokens(conn)).stages[conn].Recognised?
    ensures var st, before := Step(s, ReadTokens(conn)).stages[conn], s.stages[conn];
            && before == Found(st.hello, st.owner) && Proves(s.tables, st.owner, st.hello.token)
  {
  }

  lemma {:induction false} FoundIsEarned(states: seq<State>, acts: seq<Action>, n: nat, conn: ConnId) returns (i: nat)
    requires IsRun(states, acts) && n < |states|
    requires conn in states[n].stages && states[n].stages[conn].Found?
    ensures i < n && PersonFound(states, acts, i, conn, states[n].stages[conn].hello, states[n].stages[conn].owner)
  {
    assert n > 0;
    StepAt(states, acts, n - 1);
    FoundBefore(states[n - 1], acts[n - 1], conn);
    if acts[n - 1] == Check(conn) {
      i := n - 1;
      FoundByCheck(states[i], conn);
    } else {
      i := FoundIsEarned(states, acts, n - 1, conn);
    }
  }

  lemma {:induction false} RecognisedIsEarned(states: seq<State>, acts: seq<Action>, n: nat, conn: ConnId)
    returns (i: nat, k: nat)
    requires IsRun(states, acts) && n < |states|
    requires conn in states[n].stages && states[n].stages[conn].Recognised?
    ensures var st := states[n].stages[conn];
            && i < k < n && PersonFound(states, acts, i, conn, st.hello, st.owner)
            && TokenVerified(states, acts, k, conn, st.hello, st.owner)
  {
    assert n > 0;
    StepAt(states, acts, n - 1);
    FoundBefore(states[n - 1], acts[n - 1], conn);
    if acts[n - 1] == ReadTokens(conn) {
      k := n - 1;
      RecognisedByTokens(states[k], conn);
      i := FoundIsEarned(states, acts, k, conn);
    } else {
      i, k := RecognisedIsEarned(states, acts, n - 1, conn);
    }
  }

  lemma ClaimGives(s: State, conn: ConnId)
    requires Enabled(s, ClaimName(conn)) && Step(s, ClaimName(conn)).stages[conn].Admitted?
    ensures var st, t := s.stages[conn], Step(s, ClaimName(conn));
            && t.stages[conn] == Admitted(st.hello) && st.hello.machine in t.tables.machines
            && t.tables.machines[st.hello.machine].owner == Some(st.owner)
            && !t.tables.machines[st.hello.machine].revoked
  {
  }

  predicate Earned(stage: Stage) { stage.Admitted? || stage.Online? }

  /** The steps by which a connection was authenticated: for a machine its check
      `i`; for a person the lookup `i`, the tokens `k` and the claim `j`. */
  datatype Credit = Credit(i: nat, k: nat, j: nat, owner: UserId)

  ghost predicate EarnedBy(states: seq<State>, acts: seq<Action>, n: nat, conn: ConnId, h: Hello, c: Credit)
    requires |states| == |acts| + 1 && n < |states|
  {
    && c.i < n && (h.username == "" ==> MachineVerified(states, acts, c.i, conn, h))
    && (h.username != "" ==>
        && PersonFound(states, acts, c.i, conn, h, c.owner) && c.i < c.k < c.j < n
        && TokenVerified(states, acts, c.k, conn, h, c.owner)
        && NameClaimed(states, acts, c.j, conn, h, c.owner)
        && h.machine in states[n].tables.machines && states[n].tables.machines[h.machine].owner == Some(c.owner))
  }

  lemma EarnedBefore(s: State, a: Action, conn: ConnId)
    requires Enabled(s, a) && a != Check(conn) && a != ClaimName(conn)
    requires conn in Step(s, a).stages && Earned(Step(s, a).stages[conn])
    ensures conn in s.stages && Earned(s.stages[conn])
    ensures s.stages[conn].hello == Step(s, a).stages[conn].hello
  {
  }

  /** How the last step left a connection admitted or online. */
  lemma EarnedCases(states: seq<State>, acts: seq<Action>, n: nat, conn: ConnId)
    requires IsRun(states, acts) && n < |acts|
    requires conn in states[n + 1].stages && Earned(states[n + 1].stages[conn])
    ensures acts[n] != Check(conn) ==> conn in states[n].stages
    ensures acts[n] == ClaimName(conn) ==> states[n].stages[conn].Recognised?
    ensures acts[n] != Check(conn) && acts[n] != ClaimName(conn) ==>
              && Earned(states[n].stages[conn])
              && states[n].stages[conn].hello == states[n + 1].stages[conn].hello
  {
    StepAt(states, acts, n);
    if acts[n] != Check(conn) && acts[n] != ClaimName(conn) {
      EarnedBefore(states[n], acts[n], conn);
    }
  }

  lemma EarnedByCheck(states: seq<State>, acts: seq<Action>, n: nat, conn: ConnId)
    requires IsRun(states, acts) && n < |acts| && acts[n] == Check(conn)
    requires Earned(states[n + 1].stages[conn])
    ensures EarnedBy(states, acts, n + 1, conn, states[n + 1].stages[conn].hello, Credit(n, 0, 0, 0))
  {
    StepAt(states, acts, n);
  }

  lemma EarnedByClaim(states: seq<State>, acts: seq<Action>, n: nat, conn: ConnId) returns (c: Credit)
    requires IsRun(states, acts) && n < |acts| && acts[n] == ClaimName(conn)
    requires Earned(states[n + 1].stages[conn]) && conn in states[n].stages && states[n].stages[conn].Recognised?
    ensures EarnedBy(states, acts, n + 1, conn, states[n + 1].stages[conn].hello, c)
  {
    var i, k := RecognisedIsEarned(states, acts, n, conn);
    c := Credit(i, k, n, states[n].stages[conn].owner);
    StepAt(states, acts, n);
    ClaimGives(states[n], conn);
  }

  lemma EarnedStays(states: seq<State>, acts: seq<Action>, n: nat, conn: ConnId, h: Hello, c: Credit)
    requires IsRun(states, acts) && n < |acts| && EarnedBy(states, acts, n, conn, h, c)
    ensures EarnedBy(states, acts, n + 1, conn, h, c)
  {
    if h.username != "" {
      KindAt(states, acts, n, h.machine);
    }
  }

  /** A connection that is admitted or online once presented the credential of
      its machine's own kind: the machine's unrevoked token, or the name of an
      enabled account and then, at a later step, a live token of that account,
      which then claimed the machine and owns it still. */
  lemma {:induction false} OnlineIsEarned(states: seq<State>, acts: seq<Action>, n: nat, conn: ConnId)
    returns (c: Credit)
    requires IsRun(states, acts) && n < |states|
    requires conn in states[n].stages && Earned(states[n].stages[conn])
    ensures EarnedBy(states, acts, n, conn, states[n].stages[conn].hello, c)
  {
    assert n > 0;
    EarnedCases(states, acts, n - 1, conn);
    if acts[n - 1] == Check(conn) {
      c := Credit(n - 1, 0, 0, 0);
      EarnedByCheck(states, acts, n - 1, conn);
    } else if acts[n - 1] == ClaimName(conn) {
      c := EarnedByClaim(states, acts, n - 1, conn);
    } else {
      c := OnlineIsEarned(states, acts, n - 1, conn);
      EarnedStays(states, acts, n - 1, conn, states[n].stages[conn].hello, c);
    }
  }

  /** Which refusal a machine's own hello meets, for every state of the tables. */
  lemma MachineVerdict(t: Tables, h: Hello, enrolment: bool)
    requires WellFormed(h) && h.username == ""
    ensures var known := h.machine in t.machines;
            && (Checked(t, h, enrolment) == Refused(BAD_TOKEN) <==> known && t.machines[h.machine].revoked)
            && (Checked(t, h, enrolment) == Admitted(h) <==>
                known && !t.machines[h.machine].revoked && t.machines[h.machine].token == Some(h.token))
            && (Checked(t, h, enrolment) == Refused(UNKNOWN_NODE) <==>
                !known || (!t.machines[h.machine].revoked && t.machines[h.machine].token != Some(h.token)))
  {
  }

  /** When the tables stay as they are, a person's hello passes exactly with a live
      token of an enabled account of that name, and it never meets the code of a
      revoked token: every failure of the credential looks like an unknown name. */
  lemma PersonVerdict(t: Tables, h: Hello)
    requires Consistent(t) && WellFormed(h) && h.username != ""
    ensures var end := Outcome(t, h, true);
            && (end.Recognised? <==> exists u | u in t.users :: Holds(t, h.username, h.token, u))
            && (end.Recognised? ==> Holds(t, h.username, h.token, end.owner))
            && (!end.Recognised? ==> end == Refused(UNKNOWN_NODE))
  {
  }

  /** Its two queries see two states of the tables: an account that is disabled
      between them still passes. */
  lemma DisabledMeanwhile(s: State, conn: ConnId, disable: Change)
    requires conn in s.stages && s.stages[conn].Found?
    requires Proves(s.tables, s.stages[conn].owner, s.stages[conn].hello.token)
    requires disable == SetDisabled(s.stages[conn].owner, true) && s.stages[conn].owner in s.tables.users
    ensures Enabled(s, Change(disable)) && Enabled(Step(s, Change(disable)), ReadTokens(conn))
    ensures var t := Step(Step(s, Change(disable)), ReadTokens(conn));
            t.stages[conn].Recognised? && t.tables.users[t.stages[conn].owner].disabled
  {
    var t := Step(s, Change(disable));
    var k :| k in s.tables.tokens && LiveToken(s.tables.tokens, s.stages[conn].owner, s.stages[conn].hello.token, k);
    assert LiveToken(t.tables.tokens, t.stages[conn].owner, t.stages[conn].hello.token, k);
  }

  /** A database failure makes the node give up for good exactly when it strikes
      while a person is looked up: it is then reported as an unknown name. */
  lemma FailedLookupIsFatal(s: State, conn: ConnId)
    requires Enabled(s, QueryFails(conn))
    ensures var st, after := s.stages[conn], Step(s, QueryFails(conn)).stages[conn];
            && after.Refused?
            && (Reconnect.Fatal(after.code) <==> st.Found? || (st.Arrived? && st.hello.username != ""))
            && (!Reconnect.Fatal(after.code) ==> after.code == INTERNAL_ERROR)
  {
  }

  /** Entering and leaving change the registry as its `Add` and `Remove` do. */
  lemma RegistryAlike(s: State, conn: ConnId, h: Registry.History<ConnId>, machine: ConnId -> MachineId)
    requires conn in s.stages && (s.stages[conn].Admitted? || s.stages[conn].Online?)
    requires h.live == s.registry && machine(conn) == s.stages[conn].hello.machine
    ensures s.stages[conn].Admitted? ==>
              && Registry.Occur(h, Registry.Added(conn), machine).live == Step(s, Enter(conn)).registry
              && (Step(s, Enter(conn)).stages[conn].Online? <==>
                  conn in Registry.Occur(h.(added := {}), Registry.Added(conn), machine).added)
    ensures s.stages[conn].Online? ==>
              Registry.Occur(h, Registry.Removed(conn), machine).live == Step(s, Leave(conn)).registry
  {
  }
}
