/** The registry of live connections: one per machine, and a newcomer loses. */
module Registry {
  import opened Wrappers

  type MachineId = string

  class Conn {
    const machine: MachineId

    constructor (machine: MachineId)
      ensures this.machine == machine
    {
      this.machine := machine;
    }
  }

  /** Byte order, as strings are sorted. */
  predicate Below(a: string, b: string) {
    if b == [] then false
    else if a == [] then true
    else if a[0] != b[0] then a[0] < b[0]
    else Below(a[1..], b[1..])
  }

  lemma {:induction false} BelowIsTotal(a: string, b: string)
    ensures Below(a, b) || a == b || Below(b, a)
  {
    if a != [] && b != [] && a[0] == b[0] {
      BelowIsTotal(a[1..], b[1..]);
      assert a == [a[0]] + a[1..] && b == [b[0]] + b[1..];
    }
  }

  lemma {:induction false} BelowIsTransitive(a: string, b: string, c: string)
    requires Below(a, b) && Below(b, c)
    ensures Below(a, c)
  {
    if a != [] && a[0] == b[0] == c[0] {
      BelowIsTransitive(a[1..], b[1..], c[1..]);
    }
  }

  lemma {:induction false} BelowIsStrict(a: string)
    ensures !Below(a, a)
  {
    if a != [] {
      BelowIsStrict(a[1..]);
    }
  }

  /** The first place where two strings differ decides, and a proper prefix comes
      first. */
  lemma {:induction false} BelowIsLexicographic(a: string, b: string, k: nat)
    requires k <= |a| && k <= |b| && a[..k] == b[..k] && (k < |a| && k < |b| ==> a[k] != b[k])
    ensures Below(a, b) <==> k < |b| && (k == |a| || a[k] < b[k])
  {
    if k > 0 {
      assert a[0] == a[..k][0] == b[..k][0] == b[0];
      assert a[1..][..k - 1] == a[..k][1..] && b[1..][..k - 1] == b[..k][1..];
      BelowIsLexicographic(a[1..], b[1..], k - 1);
    }
  }

  /** Strictly increasing, hence without duplicates. */
  predicate Increasing(ids: seq<string>) {
    forall i, j | 0 <= i < j < |ids| :: Below(ids[i], ids[j])
  }

  /** A set has one such listing, so `Online` answers the same in every call that
      sees the same connections. */
  lemma {:induction false} ListingIsUnique(a: seq<string>, b: seq<string>)
    requires Increasing(a) && Increasing(b)
    requires forall x :: x in a <==> x in b
    ensures a == b
  {
    assert a != [] ==> a[0] in a;
    assert b != [] ==> b[0] in b;
    if a != [] {
      var i :| 0 <= i < |b| && b[i] == a[0];
      var j :| 0 <= j < |a| && a[j] == b[0];
      if a[0] != b[0] {
        BelowIsTransitive(a[0], b[0], a[0]);
        BelowIsStrict(a[0]);
      }
      TailsAgree(a, b);
      ListingIsUnique(a[1..], b[1..]);
      assert a == [a[0]] + a[1..] && b == [b[0]] + b[1..];
    }
  }

  lemma TailsAgree(a: seq<string>, b: seq<string>)
    requires a != [] && b != [] && a[0] == b[0] && Increasing(a) && Increasing(b)
    requires forall x :: x in a <==> x in b
    ensures forall x :: x in a[1..] <==> x in b[1..]
  {
    BelowIsStrict(a[0]);
    forall x
      ensures x in a[1..] <==> x in b[1..]
    {
      assert x in a[1..] <==> x in a && x != a[0];
      assert x in b[1..] <==> x in b && x != b[0];
    }
  }

  class Registry {
    var conns: map<MachineId, Conn>
    /** The adds and removes so far, as the lifecycles below count them. */
    ghost var past: History<Conn>

    /** Every entry stands under its own machine. */
    ghost predicate Valid()
      reads this
    {
      conns == past.live && forall m | m in conns :: conns[m].machine == m
    }

    constructor ()
      ensures Valid() && conns == map[] && past == Nothing()
    {
      conns, past := map[], Nothing();
    }

    method Add(c: Conn) returns (ok: bool)
      requires Valid()
      modifies this
      ensures Valid() && (ok <==> c.machine !in old(conns))
      ensures conns == if ok then old(conns)[c.machine := c] else old(conns)
      ensures past == Occur(old(past), Added(c), MachineOf)
    {
      past := Occur(past, Added(c), MachineOf);
      if c.machine in conns {
        return false;
      }
      conns := conns[c.machine := c];
      return true;
    }

    /** Only the registered connection itself is taken out. */
    method Remove(c: Conn)
      requires Valid()
      modifies this
      ensures Valid()
      ensures conns == if c in old(conns).Values then old(conns) - {c.machine} else old(conns)
      ensures past == Occur(old(past), Removed(c), MachineOf)
    {
      past := Occur(past, Removed(c), MachineOf);
      if c.machine in conns && conns[c.machine] == c {
        conns := conns - {c.machine};
      }
    }

    /** The connection of that machine whose add succeeded and whose remove has
        not run, if there is one. */
    method Get(machine: MachineId) returns (c: Option<Conn>)
      requires Valid() && Exact(past, MachineOf)
      ensures c.Some? ==> c.value.machine == machine && c.value in past.added - past.removed
      ensures c.None? ==> forall x | x in past.added - past.removed :: x.machine != machine
    {
      c := if machine in conns then Some(conns[machine]) else None;
    }

    /** The machines that are online, in order, each once. */
    method Online() returns (ids: seq<string>)
      ensures Increasing(ids) && forall m :: m in ids <==> m in conns
    {
      ids := [];
      var todo := conns.Keys;
      while todo != {}
        invariant todo <= conns.Keys
        invariant Distinct(ids) && forall m :: m in ids <==> m in conns.Keys - todo
      {
        var m :| m in todo;
        assert m !in ids;
        ids := ids + [m];
        todo := todo - {m};
      }
      ids := Sort(ids);
    }
  }

  predicate Distinct(ids: seq<string>) {
    forall i, j | 0 <= i < j < |ids| :: ids[i] != ids[j]
  }

  method Sort(ids: seq<string>) returns (r: seq<string>)
    requires Distinct(ids)
    ensures Increasing(r) && forall m :: m in r <==> m in ids
  {
    r := [];
    var i := 0;
    while i < |ids|
      invariant i <= |ids| && Increasing(r)
      invariant forall m :: m in r <==> m in ids[..i]
    {
      r := Insert(r, ids[i]);
      i := i + 1;
    }
  }

  /** One step of sorting: `x` goes where it keeps the order. */
  method Insert(ids: seq<string>, x: string) returns (r: seq<string>)
    requires Increasing(ids) && x !in ids
    ensures Increasing(r) && forall m :: m in r <==> m in ids || m == x
  {
    var i := 0;
    while i < |ids| && Below(ids[i], x)
      invariant i <= |ids|
      invariant forall k | 0 <= k < i :: Below(ids[k], x)
    {
      i := i + 1;
    }
    r := ids[..i] + [x] + ids[i..];
    forall k | i <= k < |ids|
      ensures Below(x, ids[k])
    {
      BelowIsTotal(x, ids[i]);
      if i < k {
        BelowIsTransitive(x, ids[i], ids[k]);
      }
    }
  }

  // ── Every lifecycle, interleaved ──

  function MachineOf(c: Conn): MachineId { c.machine }

  datatype Event<C> = Added(c: C) | Removed(c: C)

  /** The registry over values, with which calls of `Add` succeeded and which
      connections have been removed. */
  datatype History<C> = History(live: map<MachineId, C>, added: set<C>, tried: set<C>, removed: set<C>)

  function Nothing<C>(): History<C> { History(map[], {}, {}, {}) }

  /** A handler adds its connection once, and removes it once, after an add that
      succeeded. */
  predicate Allowed<C(==)>(h: History<C>, e: Event<C>) {
    match e
    case Added(c) => c !in h.tried
    case Removed(c) => c in h.added && c !in h.removed
  }

  function Occur<C(==)>(h: History<C>, e: Event<C>, machine: C -> MachineId): History<C> {
    match e
    case Added(c) =>
      if machine(c) in h.live then h.(tried := h.tried + {c})
      else h.(live := h.live[machine(c) := c], added := h.added + {c}, tried := h.tried + {c})
    case Removed(c) =>
      h.(live := if machine(c) in h.live && h.live[machine(c)] == c then h.live - {machine(c)} else h.live,
         removed := h.removed + {c})
  }

  ghost predicate Lifecycle<C>(h: History<C>, events: seq<Event<C>>, machine: C -> MachineId)
    decreases events
  {
    events == [] || (Allowed(h, events[0]) && Lifecycle(Occur(h, events[0], machine), events[1..], machine))
  }

  function After<C(==)>(h: History<C>, events: seq<Event<C>>, machine: C -> MachineId): History<C>
    decreases events
  {
    if events == [] then h else After(Occur(h, events[0], machine), events[1..], machine)
  }

  predicate Exact<C(==)>(h: History<C>, machine: C -> MachineId) {
    && h.removed <= h.added <= h.tried
    && (forall m | m in h.live :: h.live[m] in h.added - h.removed && machine(h.live[m]) == m)
    && (forall c | c in h.added - h.removed :: machine(c) in h.live && h.live[machine(c)] == c)
  }

  lemma {:induction false} ExactAfter<C>(h: History<C>, events: seq<Event<C>>, machine: C -> MachineId)
    requires Exact(h, machine) && Lifecycle(h, events, machine)
    ensures Exact(After(h, events, machine), machine)
    decreases events
  {
    if events != [] {
      ExactAfter(Occur(h, events[0], machine), events[1..], machine);
    }
  }

  /** Whatever the order of adds and removes, a machine is answered with exactly
      the connection whose add succeeded and whose remove has not run. */
  lemma GetIsExact<C>(events: seq<Event<C>>, machine: C -> MachineId, m: MachineId, c: C)
    requires Lifecycle(Nothing(), events, machine)
    ensures var h := After(Nothing(), events, machine);
            m in h.live && h.live[m] == c <==> machine(c) == m && c in h.added && c !in h.removed
  {
    ExactAfter(Nothing(), events, machine);
  }
}
