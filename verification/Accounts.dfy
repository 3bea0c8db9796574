/** Console accounts and the page that changes them: nobody may remove the last
    enabled administrator, or lock themselves out. */
module Accounts {
  import opened Wrappers

  type UserId = nat

  datatype Account = Account(admin: bool, disabled: bool)

  datatype Action = Reset | Promote | Demote | Disable | Enable | Delete | Unknown

  datatype Reply = Applied | RefusedSelf | RefusedLast | RefusedUnchecked | Failed | NotAnAction

  /** The accounts that can still administer the console. */
  function Admins(accounts: map<UserId, Account>): set<UserId> {
    set u | u in accounts && accounts[u].admin && !accounts[u].disabled
  }

  /** What a database error can do to the two reads of the guard. */
  datatype Faults = Faults(list: bool, count: bool)

  const NO_FAULTS := Faults(false, false)

  predicate Guarded(action: Action) { action in {Delete, Demote, Disable} }

  /** `refuseLockout`: a list that cannot be read counts as "not an admin". */
  function Refusal(accounts: map<UserId, Account>, me: UserId, id: UserId, action: Action, f: Faults): Option<Reply> {
    if me == id && action in {Delete, Disable} then Some(RefusedSelf)
    else if f.list || id !in Admins(accounts) then None
    else if f.count then Some(RefusedUnchecked)
    else if |Admins(accounts)| <= 1 then Some(RefusedLast)
    else None
  }

  /** The change itself; `owners` hold machines, which the schema keeps from
      losing their owner. */
  function Changed(accounts: map<UserId, Account>, owners: set<UserId>, id: UserId, action: Action)
    : (map<UserId, Account>, Reply)
  {
    if action == Unknown then (accounts, NotAnAction)
    else if action == Reset then (accounts, Applied)
    else if id !in accounts then (accounts, Failed)
    else match action
      case Promote => (accounts[id := accounts[id].(admin := true)], Applied)
      case Demote => (accounts[id := accounts[id].(admin := false)], Applied)
      case Disable => (accounts[id := accounts[id].(disabled := true)], Applied)
      case Enable => (accounts[id := accounts[id].(disabled := false)], Applied)
      case _ => if id in owners then (accounts, Failed) else (accounts - {id}, Applied)
  }

  function Updated(
    accounts: map<UserId, Account>, owners: set<UserId>, me: UserId, id: UserId, action: Action, f: Faults)
    : (map<UserId, Account>, Reply)
  {
    if Guarded(action) && Refusal(accounts, me, id, action, f).Some? then
      (accounts, Refusal(accounts, me, id, action, f).value)
    else Changed(accounts, owners, id, action)
  }

  lemma SoleMember(s: set<UserId>, id: UserId)
    requires id in s
    ensures |s| <= 1 <==> s == {id}
  {
    assert s == (s - {id}) + {id};
  }

  class People {
    var accounts: map<UserId, Account>
    const owners: set<UserId>

    constructor (accounts: map<UserId, Account>, owners: set<UserId>)
      ensures this.accounts == accounts && this.owners == owners
    {
      this.accounts, this.owners := accounts, owners;
    }

    /** One query in the store. */
    function CountAdmins(): (n: nat)
      reads this
    {
      |Admins(accounts)|
    }

    /** A scan of the listed accounts for the one with this id. */
    method TargetIsAdmin(list: seq<UserId>, id: UserId) returns (admin: bool)
      requires forall u :: u in list <==> u in accounts
      ensures admin <==> id in Admins(accounts)
    {
      var i := 0;
      while i < |list|
        invariant i <= |list| && id !in list[..i]
      {
        if list[i] == id {
          return accounts[id].admin && !accounts[id].disabled;
        }
        i := i + 1;
      }
      return false;
    }

    method RefuseLockout(me: UserId, list: seq<UserId>, id: UserId, action: Action, f: Faults)
      returns (r: Option<Reply>)
      requires forall u :: u in list <==> u in accounts
      ensures r == Refusal(accounts, me, id, action, f)
      ensures r == Some(RefusedSelf) <==> me == id && (action == Delete || action == Disable)
      ensures r == Some(RefusedLast) <==>
                && !(me == id && (action == Delete || action == Disable))
                && f == NO_FAULTS && Admins(accounts) == {id}
      ensures r == Some(RefusedUnchecked) <==>
                && !(me == id && (action == Delete || action == Disable))
                && !f.list && f.count && id in Admins(accounts)
    {
      if id in Admins(accounts) {
        SoleMember(Admins(accounts), id);
      }
      if me == id {
        match action {
          case Delete => return Some(RefusedSelf);
          case Disable => return Some(RefusedSelf);
          case _ =>
        }
      }
      if f.list {
        return None;
      }
      var target := TargetIsAdmin(list, id);
      if !target {
        return None;
      }
      if f.count {
        return Some(RefusedUnchecked);
      }
      if CountAdmins() <= 1 {
        return Some(RefusedLast);
      }
      return None;
    }

    method SetAdmin(id: UserId, admin: bool) returns (ok: bool)
      modifies this
      ensures ok <==> id in old(accounts)
      ensures accounts == if ok then old(accounts)[id := old(accounts)[id].(admin := admin)] else old(accounts)
    {
      ok := id in accounts;
      if ok {
        accounts := accounts[id := Account(admin, accounts[id].disabled)];
      }
    }

    method SetDisabled(id: UserId, disabled: bool) returns (ok: bool)
      modifies this
      ensures ok <==> id in old(accounts)
      ensures accounts == if ok then old(accounts)[id := old(accounts)[id].(disabled := disabled)] else old(accounts)
    {
      ok := id in accounts;
      if ok {
        accounts := accounts[id := Account(accounts[id].admin, disabled)];
      }
    }

    method DeleteAccount(id: UserId) returns (ok: bool)
      modifies this
      ensures ok <==> id in old(accounts) && id !in owners
      ensures accounts == if ok then old(accounts) - {id} else old(accounts)
    {
      ok := id in accounts && id !in owners;
      if ok {
        accounts := accounts - {id};
      }
    }

    /** One change to one account, behind the guard. */
    method Update(me: UserId, list: seq<UserId>, id: UserId, action: Action, f: Faults) returns (reply: Reply)
      requires forall u :: u in list <==> u in accounts
      modifies this
      ensures (accounts, reply) == Updated(old(accounts), owners, me, id, action, f)
      ensures f == NO_FAULTS ==>
                && (reply == RefusedSelf <==> me == id && (action == Delete || action == Disable))
                && (reply == RefusedLast <==>
                    && reply != RefusedSelf && Admins(old(accounts)) == {id}
                    && (action == Delete || action == Demote || action == Disable))
      ensures reply != Applied ==> accounts == old(accounts)
    {
      if action == Delete || action == Demote || action == Disable {
        var refused := RefuseLockout(me, list, id, action, f);
        if refused.Some? {
          return refused.value;
        }
      }
      var ok := true;
      match action {
        case Reset =>
        case Promote => ok := SetAdmin(id, true);
        case Demote => ok := SetAdmin(id, false);
        case Disable => ok := SetDisabled(id, true);
        case Enable => ok := SetDisabled(id, false);
        case Delete => ok := DeleteAccount(id);
        case Unknown => return NotAnAction;
      }
      return if ok then Applied else Failed;
    }
  }

  /** Without a database fault an update is refused in exactly two cases: who is
      signed in deletes or disables that very account, or the only enabled
      administrator is to be deleted, demoted or disabled. */
  lemma RefusedExactly(accounts: map<UserId, Account>, owners: set<UserId>, me: UserId, id: UserId, action: Action)
    ensures var (after, reply) := Updated(accounts, owners, me, id, action, NO_FAULTS);
            && (reply == RefusedSelf <==> me == id && (action == Delete || action == Disable))
            && (reply == RefusedLast <==>
                && !(me == id && (action == Delete || action == Disable))
                && (action == Delete || action == Demote || action == Disable)
                && id in accounts && accounts[id] == Account(true, false)
                && forall u | u in accounts && u != id :: accounts[u] != Account(true, false))
            && reply != RefusedUnchecked
            && (reply == RefusedSelf || reply == RefusedLast ==> after == accounts)
  {
    if id in Admins(accounts) {
      SoleMember(Admins(accounts), id);
      assert Admins(accounts) == {id} <==> forall u | u in Admins(accounts) :: u == id;
    }
    assert forall u | u in accounts :: u in Admins(accounts) <==> accounts[u] == Account(true, false);
  }

  /** Every other update of an account makes its own change and no other; an account
      that holds machines is not deleted. */
  lemma AppliedExactly(accounts: map<UserId, Account>, owners: set<UserId>, me: UserId, id: UserId, action: Action)
    requires var reply := Updated(accounts, owners, me, id, action, NO_FAULTS).1;
             reply != RefusedSelf && reply != RefusedLast
    ensures var (after, reply) := Updated(accounts, owners, me, id, action, NO_FAULTS);
            && (action == Unknown ==> reply == NotAnAction && after == accounts)
            && (action == Reset ==> reply == Applied && after == accounts)
            && (action != Unknown && action != Reset && id !in accounts ==> reply == Failed && after == accounts)
            && (id in accounts ==>
                var a := accounts[id];
                && (action == Promote ==> reply == Applied && after == accounts[id := Account(true, a.disabled)])
                && (action == Demote ==> reply == Applied && after == accounts[id := Account(false, a.disabled)])
                && (action == Disable ==> reply == Applied && after == accounts[id := Account(a.admin, true)])
                && (action == Enable ==> reply == Applied && after == accounts[id := Account(a.admin, false)])
                && (action == Delete && id in owners ==> reply == Failed && after == accounts)
                && (action == Delete && id !in owners ==> reply == Applied && after == accounts - {id}))
  {
    RefusedExactly(accounts, owners, me, id, action);
  }

  /** When the accounts cannot be listed only a change of one's own is refused; when
      they can be listed and the administrators not counted, so is every removal of
      an administrator. */
  lemma FaultyVerdict(
    accounts: map<UserId, Account>, owners: set<UserId>, me: UserId, id: UserId, action: Action, f: Faults)
    requires f != NO_FAULTS && !(me == id && (action == Delete || action == Disable))
    ensures var (after, reply) := Updated(accounts, owners, me, id, action, f);
            && reply != RefusedSelf && reply != RefusedLast
            && (reply == RefusedUnchecked <==>
                && !f.list && (action == Delete || action == Demote || action == Disable)
                && id in accounts && accounts[id] == Account(true, false))
            && (reply == RefusedUnchecked ==> after == accounts)
            && (id in accounts && action == Demote && reply != RefusedUnchecked ==>
                reply == Applied && after == accounts[id := Account(false, accounts[id].disabled)])
  {
  }

  /** Only the target's standing can change: it stops being an administrator
      exactly by a guarded action that goes through, and becomes one exactly by
      the missing one of the two conditions being met. */
  lemma AdminsAfter(
    accounts: map<UserId, Account>, owners: set<UserId>, me: UserId, id: UserId, action: Action, f: Faults)
    ensures var after := Admins(Updated(accounts, owners, me, id, action, f).0);
            && Admins(accounts) - {id} == after - {id}
            && (id in Admins(accounts) && id !in after <==>
                && id in Admins(accounts) && Guarded(action) && Refusal(accounts, me, id, action, f).None?
                && !(action == Delete && id in owners))
            && (id !in Admins(accounts) && id in after <==>
                && id in accounts
                && ((action == Promote && !accounts[id].admin && !accounts[id].disabled) ||
                    (action == Enable && accounts[id].admin && accounts[id].disabled)))
  {
  }

  /** An update by itself takes the last administrator away exactly when the guard
      could not list the accounts: nothing else lets it through. */
  lemma LockoutExactly(
    accounts: map<UserId, Account>, owners: set<UserId>, me: UserId, id: UserId, action: Action, f: Faults)
    requires Admins(accounts) != {}
    ensures Admins(Updated(accounts, owners, me, id, action, f).0) == {} <==>
            && f.list && Guarded(action) && Admins(accounts) == {id}
            && !(me == id && action in {Delete, Disable}) && !(action == Delete && id in owners)
  {
    AdminsAfter(accounts, owners, me, id, action, f);
    var after := Admins(Updated(accounts, owners, me, id, action, f).0);
    if id in Admins(accounts) {
      SoleMember(Admins(accounts), id);
    }
    assert Admins(accounts) == {id} ==> Admins(accounts) - {id} == {};
    if after == {} {
      assert Admins(accounts) - {id} == {};
      assert Admins(accounts) <= {id};
    }
  }

  /** A list that cannot be read lets the only administrator step down. */
  lemma LastAdminCanLeave()
    ensures Updated(map[0 := Account(true, false)], {}, 0, 0, Demote, Faults(true, false)) ==
            (map[0 := Account(false, false)], Applied)
  {
    assert map[0 := Account(true, false)][0 := Account(false, false)] == map[0 := Account(false, false)];
  }

  /** Nobody deletes or disables the account they are signed in as. */
  lemma NobodyLocksThemselvesOut(
    accounts: map<UserId, Account>, owners: set<UserId>, me: UserId, action: Action, f: Faults)
    requires action in {Delete, Disable}
    ensures Updated(accounts, owners, me, me, action, f) == (accounts, RefusedSelf)
  {
  }

  // ── Two requests at once ──

  /** The guard lets the request through to its change. */
  predicate Passes(accounts: map<UserId, Account>, me: UserId, id: UserId, action: Action) {
    Guarded(action) ==> Refusal(accounts, me, id, action, NO_FAULTS).None?
  }

  /** The change goes through and ends the target's standing, if it had one. */
  predicate Removes(owners: set<UserId>, id: UserId, action: Action) {
    Guarded(action) && !(action == Delete && id in owners)
  }

  lemma ChangedAdmins(accounts: map<UserId, Account>, owners: set<UserId>, id: UserId, action: Action)
    ensures var after := Admins(Changed(accounts, owners, id, action).0);
            && after - {id} == Admins(accounts) - {id}
            && (id in Admins(accounts) ==> (id !in after <==> Removes(owners, id, action)))
            && (Guarded(action) && id !in Admins(accounts) ==> id !in after)
  {
  }

  lemma Passed(accounts: map<UserId, Account>, me: UserId, id: UserId, action: Action)
    requires Passes(accounts, me, id, action)
    ensures Guarded(action) && id in Admins(accounts) ==> exists u | u in Admins(accounts) :: u != id
  {
    var all := Admins(accounts);
    if Guarded(action) && id in all {
      SoleMember(all, id);
      assert all != {id};
      assert exists u | u in all :: u != id by {
        assert all - {id} != {};
        var u :| u in all - {id};
      }
    }
  }

  /** `a` before, `b` between and `c` after two changes. */
  lemma TwoChanges(
    a: set<UserId>, b: set<UserId>, c: set<UserId>, id1: UserId, id2: UserId, removes1: bool, removes2: bool)
    requires a != {} && b - {id1} == a - {id1} && c - {id2} == b - {id2}
    requires id1 in a ==> (id1 !in b <==> removes1)
    requires id2 in b ==> (id2 !in c <==> removes2)
    requires removes1 && id1 in a ==> exists u | u in a :: u != id1
    requires removes2 && id2 in a ==> exists u | u in a :: u != id2
    ensures c == {} <==> id1 != id2 && a == {id1, id2} && removes1 && removes2
  {
    assert forall u :: u != id1 ==> (u in b <==> u in b - {id1}) && (u in a <==> u in a - {id1});
    assert forall u :: u != id2 ==> (u in c <==> u in c - {id2}) && (u in b <==> u in b - {id2});
  }

  /** The guard and the change are not one transaction. When two requests both pass
      their guards before either makes its change, nobody is left exactly when they
      take away the only two administrators there are. */
  lemma TwoAtOnce(
    accounts: map<UserId, Account>, owners: set<UserId>,
    me1: UserId, id1: UserId, action1: Action, me2: UserId, id2: UserId, action2: Action)
    requires Admins(accounts) != {}
    requires Passes(accounts, me1, id1, action1) && Passes(accounts, me2, id2, action2)
    ensures var between := Changed(accounts, owners, id1, action1).0;
            var after := Changed(between, owners, id2, action2).0;
            Admins(after) == {} <==>
              && id1 != id2 && Admins(accounts) == {id1, id2}
              && Removes(owners, id1, action1) && Removes(owners, id2, action2)
  {
    var between := Changed(accounts, owners, id1, action1).0;
    var after := Changed(between, owners, id2, action2).0;
    ChangedAdmins(accounts, owners, id1, action1);
    ChangedAdmins(between, owners, id2, action2);
    Passed(accounts, me1, id1, action1);
    Passed(accounts, me2, id2, action2);
    TwoChanges(Admins(accounts), Admins(between), Admins(after), id1, id2,
               Removes(owners, id1, action1), Removes(owners, id2, action2));
  }

  /** Two administrators who demote each other at the same moment. */
  lemma MutualDemotion()
    ensures var two := map[0 := Account(true, false), 1 := Account(true, false)];
            && Passes(two, 0, 1, Demote) && Passes(two, 1, 0, Demote)
            && Admins(Changed(Changed(two, {}, 1, Demote).0, {}, 0, Demote).0) == {}
  {
    var two := map[0 := Account(true, false), 1 := Account(true, false)];
    assert Admins(two) == {0, 1};
    TwoAtOnce(two, {}, 0, 1, Demote, 1, 0, Demote);
  }

  // ── Any sequence of requests ──

  datatype Request = Create(id: UserId, admin: bool) | Update(me: UserId, id: UserId, action: Action)

  /** Requests one after another, each with the database answering; a new account
      has a new id. */
  function AfterAll(accounts: map<UserId, Account>, owners: set<UserId>, requests: seq<Request>): map<UserId, Account>
    decreases requests
  {
    if requests == [] then accounts
    else
      var next := match requests[0]
                  case Create(id, admin) => if id in accounts then accounts else accounts[id := Account(admin, false)]
                  case Update(me, id, action) => Updated(accounts, owners, me, id, action, NO_FAULTS).0;
      AfterAll(next, owners, requests[1..])
  }

  /** However the accounts are changed, an enabled administrator remains. */
  lemma {:induction false} AnAdminRemains(accounts: map<UserId, Account>, owners: set<UserId>, requests: seq<Request>)
    requires Admins(accounts) != {}
    ensures Admins(AfterAll(accounts, owners, requests)) != {}
    decreases requests
  {
    if requests != [] {
      match requests[0]
      case Create(id, admin) =>
        var u :| u in Admins(accounts);
        var next := if id in accounts then accounts else accounts[id := Account(admin, false)];
        assert u in Admins(next);
        AnAdminRemains(next, owners, requests[1..]);
      case Update(me, id, action) =>
        LockoutExactly(accounts, owners, me, id, action, NO_FAULTS);
        AnAdminRemains(Updated(accounts, owners, me, id, action, NO_FAULTS).0, owners, requests[1..]);
    }
  }
}
