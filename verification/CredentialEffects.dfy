/** What each statement on the credential tables brings about: whom it lets in, and
    that every row it does not name stays as it was. */
module CredentialEffects {
  import opened Wrappers
  import opened Credentials

  /** Nothing is other than before but one machine's row and the secrets issued. */
  predicate OnlyMachine(t: Tables, t': Tables, id: MachineId) {
    && t'.users == t.users && t'.tokens == t.tokens
    && (forall k | k in t.machines && k != id :: k in t'.machines && t'.machines[k] == t.machines[k])
    && (forall k | k in t'.machines && k != id :: k in t.machines)
  }

  predicate OnlyToken(t: Tables, t': Tables, token: TokenId) {
    && t'.users == t.users && t'.machines == t.machines
    && (forall k | k in t.tokens && k != token :: k in t'.tokens && t'.tokens[k] == t.tokens[k])
    && (forall k | k in t'.tokens && k != token :: k in t.tokens)
  }

  predicate OnlyUser(t: Tables, t': Tables, user: UserId) {
    && t'.tokens == t.tokens && t'.machines == t.machines && t'.issued == t.issued
    && (forall u | u in t.users && u != user :: u in t'.users && t'.users[u] == t.users[u])
    && (forall u | u in t'.users && u != user :: u in t.users)
  }

  /** This secret and no other is the machine's way in. */
  ghost predicate Opens(t: Tables, id: MachineId, secret: Secret) {
    forall x: Secret :: Authenticate(t.machines, id, x) == (if x == secret then Ok(()) else Err(NotFound))
  }

  // ── Machines ──

  /** A machine can be registered exactly when its id is free, and then its secret is
      its way in. */
  lemma AddedMachineLogsIn(t: Tables, id: MachineId, name: string, secret: Secret)
    ensures var r := Apply(t, Add(id, name, secret));
            if id in t.machines then r == Err(Exists)
            else
              && r.Ok? && OnlyMachine(t, r.value, id) && r.value.issued == t.issued + {secret}
              && Opens(r.value, id, secret) && id in r.value.machines
              && r.value.machines[id].owner == None
              && r.value.machines[id].name == (if name == "" then None else Some(name))
  {
  }

  /** A token can be reissued exactly to a machine that has no owner, revoked or not,
      and then the new secret is its way in. */
  lemma ReissuedMachineLogsIn(t: Tables, id: MachineId, name: string, secret: Secret)
    ensures var r := Apply(t, Reissue(id, name, secret));
            if id !in t.machines || t.machines[id].owner.Some? then r == Err(NotFound)
            else
              && r.Ok? && OnlyMachine(t, r.value, id) && r.value.issued == t.issued + {secret}
              && Opens(r.value, id, secret) && id in r.value.machines
              && r.value.machines[id].owner == None
              && r.value.machines[id].name == (if name == "" then t.machines[id].name else Some(name))
  {
  }

  /** A claim of a free name adds a machine without a token, and one of the
      claimant's own machine names it if it has no name, and lifts a revocation. */
  lemma ClaimedMachine(t: Tables, id: MachineId, owner: UserId, name: string)
    ensures var r := Apply(t, Claim(id, owner, name));
            && (r.Ok? <==> if id in t.machines then t.machines[id].owner == Some(owner) else owner in t.users)
            && (r.Ok? ==>
                && OnlyMachine(t, r.value, id) && r.value.issued == t.issued && id in r.value.machines
                && var m := r.value.machines[id];
                   && m.owner == Some(owner) && !m.revoked
                   && (id !in t.machines ==> m.token == None && m.name == (if name == "" then None else Some(name)))
                   && (id in t.machines ==>
                       && m.token == t.machines[id].token
                       && m.name == (if t.machines[id].name.Some? then t.machines[id].name
                                     else if name == "" then None else Some(name))))
            && (id !in t.machines && owner !in t.users ==> r == Err(Constraint))
  {
  }

  /** A machine is revoked once, and then nothing is its way in. */
  lemma RevokedMachine(t: Tables, id: MachineId)
    ensures var r := Apply(t, RevokeMachine(id));
            if id !in t.machines || t.machines[id].revoked then r == Err(NotFound)
            else
              && r.Ok? && OnlyMachine(t, r.value, id) && r.value.issued == t.issued && id in r.value.machines
              && r.value.machines[id] == t.machines[id].(revoked := true)
              && forall x: Secret :: Authenticate(r.value.machines, id, x) == Err(Revoked)
  {
  }

  /** A machine's way in stays so under every statement but a revocation and a
      reissue of that very machine. */
  lemma LoginStands(t: Tables, c: Change, id: MachineId, secret: Secret)
    requires Consistent(t) && Fresh(t, c) && Authenticate(t.machines, id, secret) == Ok(())
    ensures Authenticate(After(t, c).machines, id, secret) == Ok(()) <==>
            !(c.RevokeMachine? && c.id == id) && !(c.Reissue? && c.id == id)
  {
    assert OneCredential(t.machines[id]) && secret in t.issued;
    if c.Delete? && c.user in t.users {
      DeleteVerdict(t, c.user);
    }
  }

  // ── People ──

  /** Trimming removes the blanks around a name, all of them and nothing else. */
  lemma {:induction false} TrimIsExact(name: string) returns (i: nat, j: nat)
    ensures i <= j <= |name| && Trim(name) == name[i..j]
    ensures forall k | 0 <= k < i || j <= k < |name| :: Blank(name[k])
    ensures i < j ==> !Blank(name[i]) && !Blank(name[j - 1])
    decreases |name|
  {
    if name != [] && Blank(name[0]) {
      i, j := TrimIsExact(name[1..]);
      assert name[1..][i..j] == name[i + 1..j + 1];
      assert forall k | 1 <= k < |name| :: name[k] == name[1..][k - 1];
      i, j := i + 1, j + 1;
    } else if name != [] && Blank(name[|name| - 1]) {
      i, j := TrimIsExact(name[..|name| - 1]);
      assert name[..|name| - 1][i..j] == name[i..j];
    } else {
      i, j := 0, |name|;
    }
  }

  /** Letters are compared without regard to case, and nothing else is changed. */
  lemma FoldIgnoresCase(name: string, k: nat)
    requires k < |name|
    ensures |Lower(name)| == |name|
    ensures Lower(name)[k] == name[k] <==> !('A' <= name[k] <= 'Z')
    ensures Lower("Ada") == Lower("aDA") == "ada" && Fold(" Ada\n") == "ada"
  {
    var trimmed := " Ada\n";
    assert trimmed[1..] == "Ada\n" && "Ada\n"[..3] == "Ada";
    assert Trim("Ada\n") == Trim("Ada") == "Ada";
  }

  /** A token can be minted for every account there is, and is live at once. */
  lemma MintedTokenIsLive(t: Tables, user: UserId, token: TokenId, secret: Secret)
    requires Fresh(t, Mint(user, token, secret))
    ensures var r := Apply(t, Mint(user, token, secret));
            if user !in t.users then r == Err(Constraint)
            else
              && r.Ok? && OnlyToken(t, r.value, token) && r.value.issued == t.issued + {secret}
              && LiveToken(r.value.tokens, user, secret, token)
  {
  }

  /** A person withdraws their own live tokens, and no others. */
  lemma WithdrawnToken(t: Tables, user: UserId, token: TokenId)
    ensures var r := Apply(t, Withdraw(user, token));
            if token !in t.tokens || t.tokens[token].owner != user || t.tokens[token].revoked then r == Err(BadToken)
            else
              && r.Ok? && OnlyToken(t, r.value, token) && r.value.issued == t.issued && token in r.value.tokens
              && r.value.tokens[token] == t.tokens[token].(revoked := true)
  {
  }

  /** An account needs a name that no other has, in whatever case, and is enabled. */
  lemma CreatedUserIsEnabled(t: Tables, user: UserId, username: string)
    requires Fresh(t, CreateUser(user, username))
    ensures var r := Apply(t, CreateUser(user, username));
            && (r == Err(Constraint) <==> Trim(username) == "")
            && (r == Err(Exists) <==>
                Trim(username) != "" && exists u | u in t.users :: Lower(t.users[u].username) == Fold(username))
            && (r.Ok? <==>
                Trim(username) != "" && forall u | u in t.users :: Lower(t.users[u].username) != Fold(username))
            && (r.Ok? ==> OnlyUser(t, r.value, user) && Answers(r.value.users, username, user))
  {
  }

  /** Disabling takes an account's logins away and enabling gives them back. */
  lemma AccessIsSet(t: Tables, user: UserId, disabled: bool, name: string)
    ensures var r := Apply(t, SetDisabled(user, disabled));
            if user !in t.users then r == Err(NotFound)
            else
              && r.Ok? && OnlyUser(t, r.value, user) && user in r.value.users
              && r.value.users[user].username == t.users[user].username
              && (Answers(r.value.users, name, user) <==> !disabled && Lower(t.users[user].username) == Fold(name))
  {
  }

  /** A deleted account takes its tokens along, and nothing else. */
  lemma DeletedUserIsGone(t: Tables, user: UserId)
    requires Consistent(t) && user in t.users && forall id | id in t.machines :: t.machines[id].owner != Some(user)
    ensures var r := Apply(t, Delete(user));
            && r.Ok? && r.value.machines == t.machines && r.value.issued == t.issued && user !in r.value.users
            && (forall u | u in t.users && u != user :: u in r.value.users && r.value.users[u] == t.users[u])
            && (forall k | k in t.tokens && t.tokens[k].owner != user ::
                  k in r.value.tokens && r.value.tokens[k] == t.tokens[k])
            && (forall k | k in r.value.tokens :: k in t.tokens && t.tokens[k].owner != user)
            && (forall u | u in r.value.users :: u in t.users)
  {
    DeleteVerdict(t, user);
  }

  /** A person's token stays good under every statement but a withdrawal of it and
      the disabling or deletion of its account. */
  lemma TokenStands(t: Tables, c: Change, name: string, secret: Secret, user: UserId, token: TokenId)
    requires Consistent(t) && Fresh(t, c)
    requires Answers(t.users, name, user) && LiveToken(t.tokens, user, secret, token)
    requires c != Withdraw(user, token) && c != Delete(user) && c != SetDisabled(user, true)
    ensures Answers(After(t, c).users, name, user) && LiveToken(After(t, c).tokens, user, secret, token)
  {
  }
}
