/** The stores over the credential tables, and the part of the handshake that
    calls them. The methods change rows in place; what they do to a table is the
    statement of the same name in Credentials. */
module Stores {
  import opened Wrappers
  import opened Credentials
  import A = Admission

  class NodeStore {
    var machines: map<MachineId, Machine>

    constructor ()
      ensures machines == map[]
    {
      machines := map[];
    }

    method Register(id: MachineId, name: string, secret: Secret) returns (r: Result<Secret, Error>)
      modifies this
      ensures match Credentials.Register(old(machines), id, name, secret)
              case Ok(m) => machines == m && r == Ok(secret)
              case Err(e) => machines == old(machines) && r == Err(e)
      ensures id !in old(machines) ==>
                && id in machines && machines[id].token == Some(secret) && machines[id].owner == None
                && !machines[id].revoked && machines[id].name == (if name == "" then None else Some(name))
    {
      if id in machines {
        return Err(Exists);
      }
      machines := machines[id := Machine(Named(name), Some(secret), None, false)];
      return Ok(secret);
    }

    method Rotate(id: MachineId, name: string, secret: Secret) returns (r: Result<Secret, Error>)
      modifies this
      ensures match Credentials.Rotate(old(machines), id, name, secret)
              case Ok(m) => machines == m && r == Ok(secret)
              case Err(e) => machines == old(machines) && r == Err(e)
      ensures id in old(machines) && old(machines)[id].owner == None ==>
                && id in machines && machines[id].token == Some(secret) && machines[id].owner == None
                && !machines[id].revoked
    {
      var affected := 0;
      if id in machines && machines[id].owner == None {
        var m := machines[id];
        machines := machines[id := Machine(Coalesce(Named(name), m.name), Some(secret), m.owner, false)];
        affected := 1;
      }
      if affected == 0 {
        return Err(NotFound);
      }
      return Ok(secret);
    }

    /** The upsert, and the second query that explains why it changed no row. */
    method EnsureOwned(users: set<UserId>, id: MachineId, owner: UserId, name: string) returns (r: Result<(), Error>)
      modifies this
      ensures match Credentials.EnsureOwned(old(machines), users, id, owner, name)
              case Ok(m) => machines == m && r == Ok(())
              case Err(e) => machines == old(machines) && r == Err(e)
    {
      var affected := 0;
      if id !in machines {
        if owner !in users {
          return Err(Constraint);
        }
        machines := machines[id := Machine(Named(name), None, Some(owner), false)];
        affected := 1;
      } else if machines[id].owner == Some(owner) {
        var m := machines[id];
        machines := machines[id := Machine(Coalesce(m.name, Named(name)), m.token, m.owner, false)];
        affected := 1;
      }
      if affected == 0 {
        var why := WhyRefused(id);
        return Err(why);
      }
      return Ok(());
    }

    method WhyRefused(id: MachineId) returns (e: Error)
      ensures e == if id in machines then WhyNotClaimable(machines[id]) else NotFound
    {
      if id !in machines {
        return NotFound;
      }
      if machines[id].token.Some? {
        return HasOwnToken;
      }
      return Foreign;
    }

    method Authenticate(id: MachineId, token: Secret) returns (r: Result<(), Error>)
      ensures r == Credentials.Authenticate(machines, id, token)
    {
      if id !in machines {
        return Err(NotFound);
      }
      var m := machines[id];
      if m.revoked {
        return Err(Revoked);
      }
      if m.token.None? {
        return Err(NotFound);
      }
      if m.token.value != token {
        return Err(NotFound);
      }
      return Ok(());
    }

    method Revoke(id: MachineId) returns (r: Result<(), Error>)
      modifies this
      ensures match Credentials.Revoke(old(machines), id)
              case Ok(m) => machines == m && r == Ok(())
              case Err(e) => machines == old(machines) && r == Err(e)
    {
      if id !in machines || machines[id].revoked {
        return Err(NotFound);
      }
      machines := machines[id := machines[id].(revoked := true)];
      return Ok(());
    }
  }

  class UserStore {
    var users: map<UserId, User>
    var tokens: map<TokenId, UserToken>

    constructor ()
      ensures users == map[] && tokens == map[]
    {
      users, tokens := map[], map[];
    }

    /** A token needs a name, and its account must exist. */
    method MintToken(user: UserId, name: string, token: TokenId, secret: Secret) returns (r: Result<Secret, Error>)
      requires token !in tokens
      modifies this`tokens
      ensures r.Ok? <==> Trim(name) != "" && user in users
      ensures r.Ok? ==> r.value == secret && tokens == old(tokens)[token := UserToken(user, secret, false)]
      ensures r.Err? ==> tokens == old(tokens)
    {
      if Trim(name) == "" || user !in users {
        return Err(Constraint);
      }
      tokens := tokens[token := UserToken(user, secret, false)];
      return Ok(secret);
    }

    method RevokeToken(user: UserId, token: TokenId) returns (r: Result<(), Error>)
      modifies this`tokens
      ensures match Credentials.RevokeToken(old(tokens), user, token)
              case Ok(t) => tokens == t && r == Ok(())
              case Err(e) => tokens == old(tokens) && r == Err(e)
    {
      if token in tokens && tokens[token].owner == user && !tokens[token].revoked {
        tokens := tokens[token := tokens[token].(revoked := true)];
        return Ok(());
      }
      return Err(BadToken);
    }

    /** The enabled account of that name. */
    method ByUsername(name: string) returns (r: Result<UserId, Error>)
      requires forall u, v | u in users && v in users && Lower(users[u].username) == Lower(users[v].username) :: u == v
      ensures forall u: UserId :: r == Ok(u) <==> Answers(users, name, u)
      ensures r.Err? ==> r == Err(BadToken)
    {
      var folded := Fold(name);
      if u :| u in users && Lower(users[u].username) == folded {
        if users[u].disabled {
          return Err(BadToken);
        }
        return Ok(u);
      } else {
        return Err(BadToken);
      }
    }

    /** Every live token of the account is tried in turn. */
    method AuthenticateToken(name: string, secret: Secret) returns (r: Result<UserId, Error>)
      requires forall u, v | u in users && v in users && Lower(users[u].username) == Lower(users[v].username) :: u == v
      ensures forall u: UserId :: r == Ok(u) <==>
                Answers(users, name, u) && exists k | k in tokens :: LiveToken(tokens, u, secret, k)
      ensures r.Err? ==> r == Err(BadToken)
    {
      var found := ByUsername(name);
      if found.Err? {
        return Err(BadToken);
      }
      var user := found.value;
      var candidates: seq<TokenId> := [];
      var rows := tokens.Keys;
      while rows != {}
        invariant rows <= tokens.Keys
        invariant forall i | 0 <= i < |candidates| ::
                    candidates[i] in tokens && tokens[candidates[i]].owner == user && !tokens[candidates[i]].revoked
        invariant forall k | k in tokens && tokens[k].owner == user && !tokens[k].revoked ::
                    k in rows || k in candidates
      {
        var k :| k in rows;
        if tokens[k].owner == user && !tokens[k].revoked {
          candidates := candidates + [k];
        }
        rows := rows - {k};
      }
      var i := 0;
      while i < |candidates|
        invariant i <= |candidates|
        invariant forall j | 0 <= j < i :: tokens[candidates[j]].secret != secret
      {
        if tokens[candidates[i]].secret == secret {
          assert LiveToken(tokens, user, secret, candidates[i]);
          return Ok(user);
        }
        i := i + 1;
      }
      return Err(BadToken);
    }
  }

  /** The queries of a handshake. */
  datatype Query = MachineRow | Account | Tokens | ClaimName

  predicate LookupFails(down: set<Query>) { Account in down || Tokens in down }

  /** The uplink handler's two checks. */
  class Handler {
    const nodes: NodeStore
    const people: UserStore
    const enrolment: bool

    constructor (nodes: NodeStore, people: UserStore, enrolment: bool)
      ensures this.nodes == nodes && this.people == people && this.enrolment == enrolment
    {
      this.nodes, this.people, this.enrolment := nodes, people, enrolment;
    }

    /** The tables behind the two stores. */
    ghost function Tables(issued: set<Secret>): Tables
      reads nodes, people
    {
      Credentials.Tables(people.users, people.tokens, nodes.machines, issued)
    }

    /** `enrol`: the person's token first, the name only after it verified. A
        failing lookup is passed on as an unknown name. */
    method Enrol(h: A.Hello, down: set<Query>, ghost issued: set<Secret>) returns (r: Result<(), Error>)
      requires Referential(Tables(issued))
      modifies nodes
      ensures people.users == old(people.users) && people.tokens == old(people.tokens)
      ensures !enrolment ==> r == Err(NoEnrolment)
      ensures enrolment && LookupFails(down) ==> r == Err(NotFound) || r == Err(BadToken)
      ensures r.Err? ==> nodes.machines == old(nodes.machines)
      ensures enrolment && !LookupFails(down) ==>
                && ((forall u | u in people.users :: !A.Holds(old(Tables(issued)), h.username, h.token, u)) ==>
                    r == Err(BadToken))
                && (forall u | A.Holds(old(Tables(issued)), h.username, h.token, u) ::
                      if ClaimName in down then r == Err(Database)
                      else match Apply(old(Tables(issued)), Claim(h.machine, u, h.name))
                           case Ok(t) => r == Ok(()) && nodes.machines == t.machines
                           case Err(e) => r == Err(e))
    {
      if !enrolment {
        return Err(NoEnrolment);
      }
      if LookupFails(down) {
        return Err(NotFound);
      }
      var owner := people.AuthenticateToken(h.username, h.token);
      ghost var t := old(Tables(issued));
      assert forall u: UserId :: owner == Ok(u) <==> A.Holds(t, h.username, h.token, u);
      if owner.Err? {
        assert forall u: UserId :: owner != Ok(u) && !A.Holds(t, h.username, h.token, u);
        return Err(BadToken);
      }
      if ClaimName in down {
        return Err(Database);
      }
      r := nodes.EnsureOwned(people.users.Keys, h.machine, owner.value, h.name);
    }

    /** The sequence of the handshake before the registry, with `down` the queries
        that fail; `None` admits. */
    method Admit(h: A.Hello, down: set<Query>, ghost issued: set<Secret>) returns (code: Option<int>)
      requires Referential(Tables(issued))
      modifies nodes
      ensures code.Some? ==> nodes.machines == old(nodes.machines)
      ensures down == {} ==>
                var t := old(Tables(issued));
                match A.Outcome(t, h, enrolment)
                case Refused(c) => code == Some(c)
                case Admitted(_) => code == None && nodes.machines == old(nodes.machines)
                case Recognised(_, u) =>
                  (match Apply(t, Claim(h.machine, u, h.name))
                   case Ok(t') => code == None && nodes.machines == t'.machines
                   case Err(e) => code == Some(A.CodeFor(e)))
                case _ => false
      ensures A.WellFormed(h) && h.username == "" && MachineRow in down ==> code == Some(A.INTERNAL_ERROR)
      ensures enrolment && A.WellFormed(h) && h.username != "" && LookupFails(down) ==>
                code == Some(A.UNKNOWN_NODE)
      ensures enrolment && A.WellFormed(h) && h.username != "" && !LookupFails(down) && ClaimName in down ==>
                if exists u | u in people.users :: A.Holds(old(Tables(issued)), h.username, h.token, u)
                then code == Some(A.INTERNAL_ERROR) else code == Some(A.UNKNOWN_NODE)
    {
      if h.machine == "" || h.token == "" {
        return Some(A.AUTH_TIMEOUT);
      }
      if h.protocol != A.PROTOCOL_VERSION {
        return Some(A.BAD_PROTOCOL);
      }
      var r: Result<(), Error>;
      if h.username != "" {
        r := Enrol(h, down, issued);
      } else if MachineRow in down {
        r := Err(Database);
      } else {
        r := nodes.Authenticate(h.machine, h.token);
      }
      match r {
        case Ok(_) => return None;
        case Err(e) => return Some(A.CodeFor(e));
      }
    }
  }
}
