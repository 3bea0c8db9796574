/** The credential tables: accounts, the tokens people hold, and machines, with
    the statements that change them. A stored hash is modelled by the secret it
    verifies, and minted secrets are new. */
module Credentials {
  import opened Wrappers

  type UserId = nat
  type TokenId = nat
  type MachineId = string
  type Secret = string

  datatype User = User(username: string, disabled: bool)

  datatype UserToken = UserToken(owner: UserId, secret: Secret, revoked: bool)

  /** One machine; the schema wants exactly one of `token` and `owner`. */
  datatype Machine = Machine(name: Option<string>, token: Option<Secret>, owner: Option<UserId>, revoked: bool)

  datatype Tables = Tables(
    users: map<UserId, User>, tokens: map<TokenId, UserToken>, machines: map<MachineId, Machine>, issued: set<Secret>)

  datatype Error =
    | NotFound | Revoked | Exists | Foreign | HasOwnToken | BadToken | Constraint
    | NoEnrolment   // the deployment takes no personal tokens
    | Database      // a query failed

  // ── Machines ──

  /** NULLIF(label, ''). */
  function Named(name: string): Option<string> { if name == "" then None else Some(name) }

  /** COALESCE(first, second). */
  function Coalesce<T>(first: Option<T>, second: Option<T>): Option<T> { if first.Some? then first else second }

  function Register(machines: map<MachineId, Machine>, id: MachineId, name: string, secret: Secret)
    : Result<map<MachineId, Machine>, Error>
  {
    if id in machines then Err(Exists)
    else Ok(machines[id := Machine(Named(name), Some(secret), None, false)])
  }

  function Rotate(machines: map<MachineId, Machine>, id: MachineId, name: string, secret: Secret)
    : Result<map<MachineId, Machine>, Error>
  {
    if id !in machines || machines[id].owner.Some? then Err(NotFound)
    else
      var m := machines[id];
      Ok(machines[id := m.(token := Some(secret), name := Coalesce(Named(name), m.name), revoked := false)])
  }

  function EnsureOwned(
    machines: map<MachineId, Machine>, users: set<UserId>, id: MachineId, owner: UserId, name: string)
    : Result<map<MachineId, Machine>, Error>
  {
    if id !in machines then
      (if owner !in users then Err(Constraint)
       else Ok(machines[id := Machine(Named(name), None, Some(owner), false)]))
    else
      var m := machines[id];
      if m.owner == Some(owner) then
        Ok(machines[id := m.(name := Coalesce(m.name, Named(name)), revoked := false)])
      else Err(WhyNotClaimable(m))
  }

  function WhyNotClaimable(m: Machine): Error { if m.token.Some? then HasOwnToken else Foreign }

  function Authenticate(machines: map<MachineId, Machine>, id: MachineId, token: Secret): Result<(), Error> {
    if id !in machines then Err(NotFound)
    else if machines[id].revoked then Err(Revoked)
    else if machines[id].token == Some(token) then Ok(()) else Err(NotFound)
  }

  function Revoke(machines: map<MachineId, Machine>, id: MachineId): Result<map<MachineId, Machine>, Error> {
    if id !in machines || machines[id].revoked then Err(NotFound)
    else Ok(machines[id := machines[id].(revoked := true)])
  }

  // ── People ──

  /** Account names are matched without regard to case or surrounding blanks. */
  function Fold(name: string): string { Lower(Trim(name)) }

  function Lower(name: string): string {
    seq(|name|, i requires 0 <= i < |name| =>
      if 'A' <= name[i] <= 'Z' then (name[i] as int + 32) as char else name[i])
  }

  function Trim(name: string): string {
    if name != [] && Blank(name[0]) then Trim(name[1..])
    else if name != [] && Blank(name[|name| - 1]) then Trim(name[..|name| - 1])
    else name
  }

  predicate Blank(c: char) { c in {' ', '\t', '\n', '\r'} }

  /** The enabled account of that name. */
  predicate Answers(users: map<UserId, User>, name: string, user: UserId) {
    user in users && Lower(users[user].username) == Fold(name) && !users[user].disabled
  }

  predicate LiveToken(tokens: map<TokenId, UserToken>, user: UserId, secret: Secret, token: TokenId) {
    token in tokens && tokens[token].owner == user && tokens[token].secret == secret && !tokens[token].revoked
  }

  function RevokeToken(tokens: map<TokenId, UserToken>, user: UserId, token: TokenId)
    : Result<map<TokenId, UserToken>, Error>
  {
    if token !in tokens || tokens[token].owner != user || tokens[token].revoked then Err(BadToken)
    else Ok(tokens[token := tokens[token].(revoked := true)])
  }

  /** The constraint on a machine's row. */
  predicate OneCredential(m: Machine) { m.token.Some? <==> m.owner.None? }

  /** ON DELETE CASCADE of the account's tokens. */
  function WithoutTokensOf(tokens: map<TokenId, UserToken>, user: UserId): map<TokenId, UserToken> {
    map k | k in tokens && tokens[k].owner != user :: tokens[k]
  }

  /** ON DELETE SET NULL of the account's machines. */
  function Disowned(machines: map<MachineId, Machine>, user: UserId): map<MachineId, Machine> {
    map id | id in machines ::
      if machines[id].owner == Some(user) then machines[id].(owner := None) else machines[id]
  }

  /** Deleting an account with what the foreign keys do to the rows that refer to
      it; the statement fails when a row it changes breaks its constraint. */
  function DeleteUser(t: Tables, user: UserId): Result<Tables, Error> {
    if user !in t.users then Err(NotFound)
    else
      var machines := Disowned(t.machines, user);
      if exists id | id in machines :: machines[id] != t.machines[id] && !OneCredential(machines[id]) then
        Err(Constraint)
      else
        Ok(t.(users := t.users - {user}, tokens := WithoutTokensOf(t.tokens, user), machines := machines))
  }

  // ── What the tables keep ──

  /** The schema: one credential a machine, references that resolve, names that
      differ by more than case. */
  ghost predicate Referential(t: Tables) {
    && (forall id | id in t.machines :: OneCredential(t.machines[id]))
    && (forall id | id in t.machines && t.machines[id].owner.Some? :: t.machines[id].owner.value in t.users)
    && (forall k | k in t.tokens :: t.tokens[k].owner in t.users)
    && (forall u, v | u in t.users && v in t.users &&
                      Lower(t.users[u].username) == Lower(t.users[v].username) :: u == v)
  }

  /** Secrets are issued once: no two rows share one. */
  ghost predicate Distinct(t: Tables) {
    && (forall k | k in t.tokens :: t.tokens[k].secret in t.issued)
    && (forall id | id in t.machines && t.machines[id].token.Some? :: t.machines[id].token.value in t.issued)
    && (forall j, k | j in t.tokens && k in t.tokens && t.tokens[j].secret == t.tokens[k].secret :: j == k)
    && (forall i, j | i in t.machines && j in t.machines && t.machines[i].token.Some? &&
                      t.machines[i].token == t.machines[j].token :: i == j)
    && (forall k, i | k in t.tokens && i in t.machines :: t.machines[i].token != Some(t.tokens[k].secret))
  }

  ghost predicate Consistent(t: Tables) { Referential(t) && Distinct(t) }

  datatype Change =
    | CreateUser(user: UserId, username: string)
    | SetDisabled(user: UserId, disabled: bool)
    | Delete(user: UserId)
    | Mint(user: UserId, token: TokenId, secret: Secret)
    | Withdraw(user: UserId, token: TokenId)
    | Add(id: MachineId, name: string, secret: Secret)
    | Reissue(id: MachineId, name: string, secret: Secret)
    | RevokeMachine(id: MachineId)
    | Claim(id: MachineId, owner: UserId, name: string)

  /** New keys and new secrets are new. */
  predicate Fresh(t: Tables, c: Change) {
    match c
    case CreateUser(user, _) => user !in t.users
    case Mint(_, token, secret) => token !in t.tokens && secret !in t.issued
    case Add(_, _, secret) => secret !in t.issued
    case Reissue(_, _, secret) => secret !in t.issued
    case _ => true
  }

  function Apply(t: Tables, c: Change): Result<Tables, Error> {
    match c
    case CreateUser(user, username) =>
      var name := Trim(username);
      if name == "" then Err(Constraint)
      else if exists u | u in t.users :: Lower(t.users[u].username) == Lower(name) then Err(Exists)
      else Ok(t.(users := t.users[user := User(name, false)]))
    case SetDisabled(user, disabled) =>
      if user !in t.users then Err(NotFound)
      else Ok(t.(users := t.users[user := t.users[user].(disabled := disabled)]))
    case Delete(user) => DeleteUser(t, user)
    case Mint(user, token, secret) =>
      if user !in t.users then Err(Constraint)
      else Ok(t.(tokens := t.tokens[token := UserToken(user, secret, false)], issued := t.issued + {secret}))
    case Withdraw(user, token) =>
      (match RevokeToken(t.tokens, user, token)
       case Ok(tokens) => Ok(t.(tokens := tokens))
       case Err(e) => Err(e))
    case Add(id, name, secret) =>
      (match Register(t.machines, id, name, secret)
       case Ok(machines) => Ok(t.(machines := machines, issued := t.issued + {secret}))
       case Err(e) => Err(e))
    case Reissue(id, name, secret) =>
      (match Rotate(t.machines, id, name, secret)
       case Ok(machines) => Ok(t.(machines := machines, issued := t.issued + {secret}))
       case Err(e) => Err(e))
    case RevokeMachine(id) =>
      (match Revoke(t.machines, id)
       case Ok(machines) => Ok(t.(machines := machines))
       case Err(e) => Err(e))
    case Claim(id, owner, name) =>
      (match EnsureOwned(t.machines, t.users.Keys, id, owner, name)
       case Ok(machines) => Ok(t.(machines := machines))
       case Err(e) => Err(e))
  }

  /** The tables after a statement: a refused one changes nothing. */
  function After(t: Tables, c: Change): Tables {
    match Apply(t, c)
    case Ok(t') => t'
    case Err(_) => t
  }

  lemma ReferentialAfter(t: Tables, c: Change)
    requires Referential(t) && Fresh(t, c)
    ensures Referential(After(t, c))
  {
  }

  lemma DistinctNewMachineSecret(t: Tables, id: MachineId, m: Machine, secret: Secret)
    requires Distinct(t) && secret !in t.issued && m.token == Some(secret)
    ensures Distinct(t.(machines := t.machines[id := m], issued := t.issued + {secret}))
  {
  }

  lemma DistinctOldMachineSecret(t: Tables, id: MachineId, m: Machine)
    requires Distinct(t) && (m.token.None? || (id in t.machines && m.token == t.machines[id].token))
    ensures Distinct(t.(machines := t.machines[id := m]))
  {
  }

  lemma DistinctAfter(t: Tables, c: Change)
    requires Distinct(t) && Fresh(t, c)
    ensures Distinct(After(t, c))
  {
    if Apply(t, c).Ok? {
      match c
      case Add(id, _, secret) => DistinctNewMachineSecret(t, id, After(t, c).machines[id], secret);
      case Reissue(id, _, secret) => DistinctNewMachineSecret(t, id, After(t, c).machines[id], secret);
      case RevokeMachine(id) => DistinctOldMachineSecret(t, id, After(t, c).machines[id]);
      case Claim(id, _, _) => DistinctOldMachineSecret(t, id, After(t, c).machines[id]);
      case _ =>
    }
  }

  /** No statement breaks the schema's constraints or the uniqueness of secrets. */
  lemma ConsistentAfter(t: Tables, c: Change)
    requires Consistent(t) && Fresh(t, c)
    ensures Consistent(After(t, c))
  {
    ReferentialAfter(t, c);
    DistinctAfter(t, c);
  }

  /** A machine is never deleted, and keeps its owner and its kind of credential. */
  lemma MachinesKeepTheirKind(t: Tables, c: Change, id: MachineId)
    requires Consistent(t) && id in t.machines
    ensures var after := After(t, c);
            && id in after.machines
            && after.machines[id].owner == t.machines[id].owner
            && (after.machines[id].token.Some? <==> t.machines[id].token.Some?)
  {
    assert OneCredential(t.machines[id]);
    if c.Delete? && c.user in t.users {
      DeleteVerdict(t, c.user);
    }
  }

  /** Claiming a name succeeds exactly when it is free or already the claimant's;
      the two refusals say which credential the machine has. */
  lemma ClaimVerdict(t: Tables, id: MachineId, owner: UserId, name: string)
    requires Consistent(t) && owner in t.users
    ensures var r := Apply(t, Claim(id, owner, name));
            && (r.Ok? <==> id !in t.machines || t.machines[id].owner == Some(owner))
            && (r == Err(HasOwnToken) <==> id in t.machines && t.machines[id].token.Some?)
            && (r == Err(Foreign) <==>
                id in t.machines && t.machines[id].owner.Some? && t.machines[id].owner != Some(owner))
            && (r.Ok? ==> r.value.machines[id].owner == Some(owner) && !r.value.machines[id].revoked)
  {
    if id in t.machines {
      assert OneCredential(t.machines[id]);
    }
  }

  /** A machine is never renamed to nothing: a reissue takes the new name unless it
      is blank, and a claim only names what has no name yet. */
  lemma NamesAreKept(t: Tables, c: Change, id: MachineId)
    requires id in t.machines
    ensures var before, after := t.machines[id].name, After(t, c).machines[id].name;
            && (before.Some? ==> after.Some?)
            && (c.Reissue? && c.id == id && Apply(t, c).Ok? && c.name != "" ==> after == Some(c.name))
            && (c.Claim? && c.id == id && Apply(t, c).Ok? && before.None? && c.name != "" ==> after == Some(c.name))
            && (after != before ==> (c.Reissue? || (c.Claim? && before.None?)) && c.id == id && c.name != "")
  {
  }

  // ── Secrets that are spent ──

  /** No row accepts this secret, and none will be given it again. */
  ghost predicate Retired(t: Tables, secret: Secret) {
    && secret in t.issued
    && (forall id | id in t.machines && t.machines[id].token == Some(secret) :: t.machines[id].revoked)
    && (forall k | k in t.tokens && t.tokens[k].secret == secret :: t.tokens[k].revoked)
  }

  lemma RetiredStays(t: Tables, c: Change, secret: Secret)
    requires Consistent(t) && Fresh(t, c) && Retired(t, secret)
    ensures Retired(After(t, c), secret)
  {
  }

  /** A retired secret authenticates no machine and no person. */
  lemma RetiredAuthenticatesNothing(t: Tables, secret: Secret, id: MachineId, user: UserId, token: TokenId)
    requires Retired(t, secret)
    ensures !Authenticate(t.machines, id, secret).Ok?
    ensures !LiveToken(t.tokens, user, secret, token)
  {
  }

  /** A user token is spent when it is revoked or its account deleted, and a
      machine token when the machine is revoked or its token reissued. */
  lemma WhatRetires(t: Tables, c: Change)
    requires Consistent(t) && Fresh(t, c) && Apply(t, c).Ok?
    ensures c.Withdraw? ==> Retired(After(t, c), t.tokens[c.token].secret)
    ensures c.Delete? ==>
              forall k | k in t.tokens && t.tokens[k].owner == c.user :: Retired(After(t, c), t.tokens[k].secret)
    ensures c.Reissue? ==> c.id in t.machines && t.machines[c.id].token.Some? &&
                           Retired(After(t, c), t.machines[c.id].token.value)
    ensures c.RevokeMachine? && t.machines[c.id].token.Some? ==>
              Retired(After(t, c), t.machines[c.id].token.value)
  {
  }

  /** Revoking a machine does not outlast its owner's next claim: a claim lifts
      the revocation exactly when the claimant owns the machine. */
  lemma ClaimLiftsRevocation(t: Tables, id: MachineId, owner: UserId, name: string)
    requires Consistent(t) && id in t.machines && t.machines[id].revoked
    ensures After(t, Claim(id, owner, name)).machines[id].revoked <==> t.machines[id].owner != Some(owner)
  {
  }

  /** A machine that loses its owner is left without a credential, so an account
      can be deleted exactly when it owns no machine, and then no machine changes. */
  lemma DeleteVerdict(t: Tables, user: UserId)
    requires Consistent(t) && user in t.users
    ensures Apply(t, Delete(user)).Ok? <==> forall id | id in t.machines :: t.machines[id].owner != Some(user)
    ensures After(t, Delete(user)).machines == t.machines
    ensures Apply(t, Delete(user)).Err? ==> Apply(t, Delete(user)) == Err(Constraint)
  {
    var machines := Disowned(t.machines, user);
    forall id | id in t.machines && t.machines[id].owner == Some(user)
      ensures id in machines && machines[id] != t.machines[id] && !OneCredential(machines[id])
    {
      assert OneCredential(t.machines[id]);
    }
    if forall id | id in t.machines :: t.machines[id].owner != Some(user) {
      assert machines == t.machines;
    }
  }
}
