/** The node's reconnect machine: one socket or one armed retry timer, backoff
    between them, and nothing at all once it has been stopped or refused. */
module Reconnect {
  import opened Wrappers

  type Handle = nat

  datatype Config = Config(base: nat, max: nat)

  /** What the configuration check lets through. */
  predicate Usable(c: Config) { 100 <= c.base <= c.max && 1000 <= c.max }

  // ── Backoff ──

  function Power2(n: nat): nat { if n == 0 then 1 else 2 * Power2(n - 1) }

  function Min(a: nat, b: nat): nat { if a <= b then a else b }

  /** The ceiling of the delay after this many failures in a row. */
  function Ceiling(c: Config, attempt: nat): nat
    requires attempt > 0
  {
    Min(c.max, c.base * Power2(attempt - 1))
  }

  /** `Math.round`: the nearest integer, halves upwards. */
  function Round(x: real): int { (x + 0.5).Floor }

  function Delay(ceiling: nat, random: real): int { Round(ceiling as real * (0.5 + random * 0.5)) }

  lemma DelayWithinCeiling(ceiling: nat, random: real)
    requires 0.0 <= random < 1.0
    ensures Round(ceiling as real / 2.0) <= Delay(ceiling, random) <= ceiling
  {
    var c := ceiling as real;
    assert c * random >= 0.0;
    assert c * random <= c by {
      assert c * (1.0 - random) >= 0.0;
    }
    assert c * (0.5 + random * 0.5) == c / 2.0 + c * random / 2.0;
  }

  /** The delay is the nearest integer to its share of the ceiling, which lies
      between half and all of it as the random number goes from zero to one. */
  lemma DelayIsNearest(ceiling: nat, random: real)
    ensures var exact := ceiling as real * (0.5 + random * 0.5);
            exact - 0.5 < Delay(ceiling, random) as real <= exact + 0.5
    ensures Delay(ceiling, 1.0) == ceiling && Delay(2 * ceiling, 0.0) == ceiling
  {
  }

  lemma {:induction false} PowersGrow(m: nat, n: nat)
    requires m <= n
    ensures 0 < Power2(m) <= Power2(n)
  {
    if m < n {
      PowersGrow(m, n - 1);
    } else if n > 0 {
      PowersGrow(n - 1, n - 1);
    }
  }

  /** Between the configured bounds, and never shorter after one more failure:
      doubled until it reaches the upper bound, which it then keeps. */
  lemma CeilingGrows(c: Config, m: nat, n: nat)
    requires Usable(c) && 0 < m <= n
    ensures c.base <= Ceiling(c, m) <= Ceiling(c, n) <= c.max
    ensures Ceiling(c, n + 1) == Min(c.max, 2 * Ceiling(c, n))
  {
    PowersGrow(0, m - 1);
    PowersGrow(m - 1, n - 1);
    Scaled(c.base, 1, Power2(m - 1));
    Scaled(c.base, Power2(m - 1), Power2(n - 1));
  }

  lemma Scaled(base: nat, a: nat, b: nat)
    requires a <= b
    ensures base * a <= base * b && base * (2 * b) == 2 * (base * b)
  {
  }

  // ── The machine ──

  datatype Wait = Wait(ceiling: nat, delay: int)

  /** The object's fields, and around them what the runtime holds: the sockets
      whose close event is still to come, those of them that still deliver
      messages, the armed retry timers and the live heartbeat intervals. The last
      four fields are histories: whether `start` ran, whether a constructor
      threw, the waits since the last open, and how many `welcome` frames were
      not the first on their connection. */
  datatype Node = Node(
    socket: Option<Handle>, retryTimer: Option<Handle>, heartbeat: Option<Handle>, attempt: nat, stopped: bool,
    sockets: set<Handle>, talking: set<Handle>, armed: set<Handle>, beating: set<Handle>, next: Handle,
    constructed: nat, started: bool, gaveUp: bool, waits: seq<Wait>, repeated: nat)

  const START: Node := Node(None, None, None, 0, false, {}, {}, {}, {}, 0, 0, false, false, [], 0)

  const BAD_TOKEN := 4001
  const UNKNOWN_NODE := 4002
  const BAD_PROTOCOL := 4003

  predicate Fatal(code: int) { code in {BAD_TOKEN, UNKNOWN_NODE, BAD_PROTOCOL} }

  datatype Event =
    | Start(constructs: bool)
    | RetryFires(timer: Handle, constructs: bool)
    | Opened(s: Handle)
    | Welcome(s: Handle)
    | HeartbeatLost(timer: Handle)
    | Closed(s: Handle, code: int, random: real)
    | Stop

  /** What the runtime can do next. A socket closed from this side delivers only
      its close event, and a timer fires while it is armed. */
  predicate Enabled(n: Node, e: Event) {
    match e
    case Start(_) => !n.started
    case RetryFires(t, _) => t in n.armed
    case Opened(s) => s in n.talking
    case Welcome(s) => s in n.talking
    case HeartbeatLost(t) => t in n.beating
    case Closed(s, _, r) => s in n.sockets && 0.0 <= r < 1.0
    case Stop => true
  }

  function Connect(n: Node, constructs: bool): Node {
    if n.stopped then n
    else if !constructs then n.(gaveUp := true)
    else n.(socket := Some(n.next), sockets := n.sockets + {n.next}, talking := n.talking + {n.next},
            next := n.next + 1, constructed := n.constructed + 1)
  }

  function CloseSocket(n: Node): Node {
    if n.socket.Some? then n.(talking := n.talking - {n.socket.value}) else n
  }

  function Without(s: set<Handle>, h: Option<Handle>): set<Handle> { if h.Some? then s - {h.value} else s }

  function ClearTimers(n: Node): Node {
    n.(beating := Without(n.beating, n.heartbeat), armed := Without(n.armed, n.retryTimer),
       heartbeat := None, retryTimer := None)
  }

  function OnClose(n: Node, code: int, random: real, c: Config): Node {
    if n.socket.None? then n
    else
      var n := ClearTimers(n.(socket := None));
      if n.stopped then n
      else if Fatal(code) then n.(stopped := true)
      else Schedule(n, random, c)
  }

  function Schedule(n: Node, random: real, c: Config): Node {
    var ceiling := Ceiling(c, n.attempt + 1);
    n.(attempt := n.attempt + 1, retryTimer := Some(n.next), armed := n.armed + {n.next}, next := n.next + 1,
       waits := n.waits + [Wait(ceiling, Delay(ceiling, random))])
  }

  function Step(n: Node, e: Event, c: Config): Node {
    match e
    case Start(ok) => Connect(n.(started := true), ok)
    case RetryFires(t, ok) => Connect(n.(armed := n.armed - {t}), ok)
    case Opened(_) => n.(attempt := 0, waits := [])
    case Welcome(_) =>
      n.(heartbeat := Some(n.next), beating := n.beating + {n.next}, next := n.next + 1,
         repeated := if n.heartbeat.Some? then n.repeated + 1 else n.repeated)
    case HeartbeatLost(_) => CloseSocket(n)
    case Closed(s, code, r) => OnClose(n.(sockets := n.sockets - {s}, talking := n.talking - {s}), code, r, c)
    case Stop => CloseSocket(ClearTimers(n.(stopped := true))).(socket := None)
  }

  /** At most one socket is held or one retry armed, the held socket is the only
      one that can still report anything, and an armed retry is the one the object
      can cancel. */
  predicate Exclusive(n: Node) {
    && (n.socket.Some? ==> n.sockets == {n.socket.value} && n.armed == {} && !n.stopped && n.started)
    && (n.socket.None? ==> n.talking == {} && n.heartbeat.None? && (n.sockets == {} || n.stopped))
    && (n.armed != {} ==>
        n.socket.None? && n.retryTimer.Some? && n.armed == {n.retryTimer.value} && !n.stopped && n.started)
    && n.talking <= n.sockets
    && (n.started && !n.stopped && !n.gaveUp ==> n.socket.Some? || n.armed != {})
    && (n.gaveUp ==> n.socket.None? && n.armed == {} && n.started)
    && (forall s | s in n.sockets :: s < n.next) && (forall t | t in n.armed :: t < n.next)
  }

  /** Every wait since the last open had the ceiling of its place in the row. */
  predicate Backoff(n: Node, c: Config) {
    && |n.waits| == n.attempt
    && forall i | 0 <= i < |n.waits| ::
         && n.waits[i].ceiling == Ceiling(c, i + 1)
         && Round(n.waits[i].ceiling as real / 2.0) <= n.waits[i].delay <= n.waits[i].ceiling
  }

  /** One interval for each `welcome` that was not its connection's first runs
      with nothing left to cancel it. */
  predicate Intervals(n: Node) {
    && (n.heartbeat.Some? ==> n.heartbeat.value in n.beating)
    && |Without(n.beating, n.heartbeat)| == n.repeated
    && (forall t | t in n.beating :: t < n.next)
  }

  ghost predicate Inv(n: Node, c: Config) { Exclusive(n) && Backoff(n, c) && Intervals(n) }

  lemma ExclusiveStep(n: Node, e: Event, c: Config)
    requires Exclusive(n) && Enabled(n, e)
    ensures Exclusive(Step(n, e, c))
  {
  }

  lemma BackoffStep(n: Node, e: Event, c: Config)
    requires Backoff(n, c) && Enabled(n, e)
    ensures Backoff(Step(n, e, c), c)
  {
    if e.Closed? {
      DelayWithinCeiling(Ceiling(c, n.attempt + 1), e.random);
    }
  }

  lemma IntervalsStep(n: Node, e: Event, c: Config)
    requires Intervals(n) && Enabled(n, e)
    ensures Intervals(Step(n, e, c))
  {
    match e
    case Welcome(_) => WelcomeInterval(n, e, c);
    case Stop => ClearedIntervals(n.(stopped := true));
    case Closed(s, code, r) => ClosedIntervals(n.(sockets := n.sockets - {s}, talking := n.talking - {s}), code, r, c);
    case _ =>
  }

  lemma ClosedIntervals(n: Node, code: int, random: real, c: Config)
    requires Intervals(n)
    ensures Intervals(OnClose(n, code, random, c))
  {
    ClearedIntervals(n.(socket := None));
  }

  lemma ClearedIntervals(n: Node)
    requires Intervals(n)
    ensures Intervals(ClearTimers(n))
  {
  }

  lemma WelcomeInterval(n: Node, e: Event, c: Config)
    requires Intervals(n) && e.Welcome?
    ensures Intervals(Step(n, e, c))
  {
    assert Without(n.beating + {n.next}, Some(n.next)) == n.beating;
    if n.heartbeat.Some? {
      assert n.beating == Without(n.beating, n.heartbeat) + {n.heartbeat.value};
    }
  }

  lemma InvStep(n: Node, e: Event, c: Config)
    requires Inv(n, c) && Enabled(n, e)
    ensures Inv(Step(n, e, c), c)
  {
    ExclusiveStep(n, e, c);
    BackoffStep(n, e, c);
    IntervalsStep(n, e, c);
  }

  // ── Whole runs ──

  ghost predicate Legal(n: Node, events: seq<Event>, c: Config)
    decreases events
  {
    events == [] || (Enabled(n, events[0]) && Legal(Step(n, events[0], c), events[1..], c))
  }

  ghost function Run(n: Node, events: seq<Event>, c: Config): Node
    requires Legal(n, events, c)
    decreases events
  {
    if events == [] then n else Run(Step(n, events[0], c), events[1..], c)
  }

  lemma {:induction false} InvRun(n: Node, events: seq<Event>, c: Config)
    requires Inv(n, c) && Legal(n, events, c)
    ensures Inv(Run(n, events, c), c)
    decreases events
  {
    if events != [] {
      InvStep(n, events[0], c);
      InvRun(Step(n, events[0], c), events[1..], c);
    }
  }

  lemma Reachable(events: seq<Event>, c: Config)
    requires Legal(START, events, c)
    ensures Inv(Run(START, events, c), c)
  {
    InvRun(START, events, c);
  }

  /** A node that was started, not stopped, and whose socket could be constructed
      has exactly one of a socket and a retry to come; any other has neither. */
  lemma SocketOrRetry(events: seq<Event>, c: Config)
    requires Legal(START, events, c)
    ensures var n := Run(START, events, c);
            && |n.armed| <= 1
            && !(n.socket.Some? && n.armed != {})
            && (n.socket.Some? || n.armed != {} <==> n.started && !n.stopped && !n.gaveUp)
  {
    Reachable(events, c);
    var n := Run(START, events, c);
    assert n.retryTimer.Some? ==> |{n.retryTimer.value}| == 1;
  }

  /** A close event that the object acts on is that of the socket it holds, though
      it never compares the two. */
  lemma ClosesItsOwn(events: seq<Event>, c: Config, s: Handle, code: int, random: real)
    requires Legal(START, events, c) && Enabled(Run(START, events, c), Closed(s, code, random))
    ensures var n := Run(START, events, c); n.socket.Some? ==> n.socket == Some(s) && n.sockets == {s}
  {
    Reachable(events, c);
  }

  lemma {:induction false} StoppedRun(n: Node, events: seq<Event>, c: Config)
    requires Inv(n, c) && n.stopped && Legal(n, events, c)
    ensures var t := Run(n, events, c); t.stopped && t.constructed == n.constructed && t.socket.None? && t.armed == {}
    decreases events
  {
    if events != [] {
      InvStep(n, events[0], c);
      StoppedRun(Step(n, events[0], c), events[1..], c);
    }
  }

  /** Once `stop` was called, or the control plane closed with a code that means
      the configuration is wrong, no event ever opens a socket or arms a retry. */
  lemma StoppedForGood(before: seq<Event>, e: Event, after: seq<Event>, c: Config)
    requires Legal(START, before, c) && Enabled(Run(START, before, c), e)
    requires e == Stop || (e.Closed? && Fatal(e.code) && Run(START, before, c).socket.Some?)
    requires Legal(Step(Run(START, before, c), e, c), after, c)
    ensures var n := Run(START, before, c);
            var t := Run(Step(n, e, c), after, c);
            t.stopped && t.constructed == n.constructed && t.socket.None? && t.armed == {}
  {
    Reachable(before, c);
    InvStep(Run(START, before, c), e, c);
    StoppedRun(Step(Run(START, before, c), e, c), after, c);
  }

  /** Between two opens the ceilings start at the base, never fall and never pass
      the maximum, and each delay is at least half of its ceiling. */
  lemma WaitsGrow(events: seq<Event>, c: Config, i: nat, j: nat)
    requires Usable(c) && Legal(START, events, c) && i <= j < |Run(START, events, c).waits|
    ensures var w := Run(START, events, c).waits;
            && w[0].ceiling == c.base <= w[i].ceiling <= w[j].ceiling <= c.max
            && Round(w[j].ceiling as real / 2.0) <= w[j].delay <= w[j].ceiling
  {
    Reachable(events, c);
    CeilingGrows(c, i + 1, j + 1);
    assert Power2(0) == 1;
  }

  /** `stop` promises that every timer is cleared. It keeps that promise exactly
      when no connection was welcomed twice: a second `welcome` overwrites the
      only handle to the interval of the first. */
  lemma StopClearsEveryTimer(events: seq<Event>, c: Config)
    requires Legal(START, events, c)
    ensures var n := Run(START, events, c);
            var t := Step(n, Stop, c);
            && t.armed == {} && (t.beating == {} <==> n.repeated == 0)
  {
    Reachable(events, c);
    InvStep(Run(START, events, c), Stop, c);
  }

  /** A connection welcomed twice leaves an interval behind. */
  lemma SecondWelcomeLeavesATimer(c: Config)
    ensures var events := [Start(true), Opened(0), Welcome(0), Welcome(0)];
            Legal(START, events, c) && Step(Run(START, events, c), Stop, c).beating == {1}
  {
    var a := Step(START, Start(true), c);
    var b := Step(a, Opened(0), c);
    var d := Step(b, Welcome(0), c);
    var e := Step(d, Welcome(0), c);
    var events := [Start(true), Opened(0), Welcome(0), Welcome(0)];
    assert events[1..][1..][1..][1..] == [];
    assert events[1..][1..][1..][0] == Welcome(0) && events[1..][1..][0] == Welcome(0) && events[1..][0] == Opened(0);
    assert Legal(e, [], c) && Run(e, [], c) == e;
    assert e.beating == {1, 2};
  }

  // ── The object ──

  class Uplink {
    const options: Config
    var socket: Option<Handle>
    var retryTimer: Option<Handle>
    var heartbeat: Option<Handle>
    var attempt: nat
    var stopped: bool
    /** What the runtime holds for this object. */
    var sockets: set<Handle>
    var talking: set<Handle>
    var armed: set<Handle>
    var beating: set<Handle>
    var next: Handle
    /** The histories. */
    ghost var past: Node

    ghost predicate Valid()
      reads this
    {
      past == past.(socket := socket, retryTimer := retryTimer, heartbeat := heartbeat, attempt := attempt,
                    stopped := stopped, sockets := sockets, talking := talking, armed := armed, beating := beating,
                    next := next)
    }

    constructor (options: Config)
      ensures Valid() && past == START && this.options == options
    {
      this.options := options;
      socket, retryTimer, heartbeat, attempt, stopped := None, None, None, 0, false;
      sockets, talking, armed, beating, next := {}, {}, {}, {}, 0;
      past := START;
    }

    method OpenSocket(constructs: bool)
      requires Valid()
      modifies this
      ensures Valid() && past == Connect(old(past), constructs)
    {
      past := Connect(past, constructs);
      if stopped || !constructs {
        return;
      }
      sockets, talking := sockets + {next}, talking + {next};
      socket := Some(next);
      next := next + 1;
    }

    method CloseOwnSocket()
      requires Valid()
      modifies this
      ensures Valid() && past == CloseSocket(old(past))
    {
      past := CloseSocket(past);
      if socket.Some? {
        talking := talking - {socket.value};
      }
    }

    method StopTimers()
      requires Valid()
      modifies this
      ensures Valid() && past == ClearTimers(old(past))
    {
      past := ClearTimers(past);
      if heartbeat.Some? {
        beating := beating - {heartbeat.value};
      }
      if retryTimer.Some? {
        armed := armed - {retryTimer.value};
      }
      heartbeat, retryTimer := None, None;
    }

    method Begin(constructs: bool)
      requires Valid()
      modifies this
      ensures Valid() && past == Step(old(past), Start(constructs), options)
    {
      past := past.(started := true);
      OpenSocket(constructs);
    }

    method Retry(timer: Handle, constructs: bool)
      requires Valid()
      modifies this
      ensures Valid() && past == Step(old(past), RetryFires(timer, constructs), options)
    {
      armed, past := armed - {timer}, past.(armed := armed - {timer});
      OpenSocket(constructs);
    }

    method OnOpen(s: Handle)
      requires Valid()
      modifies this
      ensures Valid() && past == Step(old(past), Opened(s), options)
      ensures attempt == 0
    {
      attempt, past := 0, past.(attempt := 0, waits := []);
    }

    method OnWelcome(s: Handle)
      requires Valid()
      modifies this
      ensures Valid() && past == Step(old(past), Welcome(s), options)
    {
      past := Step(past, Welcome(s), options);
      beating := beating + {next};
      heartbeat := Some(next);
      next := next + 1;
    }

    method OnClosed(s: Handle, code: int, random: real)
      requires Valid()
      modifies this
      ensures Valid() && past == Step(old(past), Closed(s, code, random), options)
    {
      sockets, talking := sockets - {s}, talking - {s};
      past := past.(sockets := sockets, talking := talking);
      if socket.None? {
        return;
      }
      socket, past := None, past.(socket := None);
      StopTimers();
      if stopped {
        return;
      }
      if code == BAD_TOKEN || code == UNKNOWN_NODE || code == BAD_PROTOCOL {
        stopped, past := true, past.(stopped := true);
        return;
      }
      ScheduleRetry(random);
    }

    method ScheduleRetry(random: real)
      requires Valid()
      modifies this
      ensures Valid() && past == Schedule(old(past), random, options)
    {
      attempt := attempt + 1;
      var ceiling := Ceiling(options, attempt);
      var wait := Wait(ceiling, Delay(ceiling, random));
      armed := armed + {next};
      retryTimer := Some(next);
      next := next + 1;
      past := past.(attempt := attempt, armed := armed, retryTimer := retryTimer, next := next,
                    waits := past.waits + [wait]);
    }

    method Shut()
      requires Valid()
      modifies this
      ensures Valid() && past == Step(old(past), Stop, options)
    {
      stopped, past := true, past.(stopped := true);
      StopTimers();
      CloseOwnSocket();
      socket, past := None, past.(socket := None);
    }
  }
}
