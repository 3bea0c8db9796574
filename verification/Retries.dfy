/** When the node tries again and after how long, told from the events alone: what
    was opened, what was closed and with which code. */
module Retries {
  import opened Wrappers
  import N = Reconnect

  /** Neither stopped nor refused: no `stop`, and no close that means the
      configuration is wrong. */
  predicate GoesOn(events: seq<N.Event>) {
    forall i | 0 <= i < |events| ::
      && events[i] != N.Stop
      && (events[i].Closed? ==> events[i].code != 4001 && events[i].code != 4002 && events[i].code != 4003)
  }

  predicate NeverOpens(events: seq<N.Event>) { forall i | 0 <= i < |events| :: !events[i].Opened? }

  /** The closes among these events. */
  function Closes(events: seq<N.Event>): nat {
    if events == [] then 0 else (if events[0].Closed? then 1 else 0) + Closes(events[1..])
  }

  // ── One event ──

  /** A close of the held socket with any code but 4001, 4002 and 4003 arms exactly
      one retry, after the delay of the next ceiling; those three arm none, for good.
      Once the object has stopped or holds no socket, a close changes nothing of it. */
  lemma CloseArmsARetry(n: N.Node, s: N.Handle, code: int, random: real, c: N.Config)
    requires N.Exclusive(n) && N.Enabled(n, N.Closed(s, code, random))
    ensures var t := N.Step(n, N.Closed(s, code, random), c);
            var ceiling := N.Min(c.max, c.base * N.Power2(n.attempt));
            && t.socket == None && t.sockets == n.sockets - {s} && t.constructed == n.constructed
            && (n.socket == None ==> t == n.(sockets := t.sockets, talking := t.talking))
            && (n.socket.Some? ==> t.heartbeat == None && (t.stopped <==> code == 4001 || code == 4002 || code == 4003))
            && (n.socket.Some? && t.stopped ==> t.armed == {} && t.retryTimer == None && t.attempt == n.attempt)
            && (n.socket.Some? && !t.stopped ==>
                && t.retryTimer.Some? && t.armed == {t.retryTimer.value} && t.attempt == n.attempt + 1
                && t.waits == n.waits + [N.Wait(ceiling, N.Delay(ceiling, random))])
  {
  }

  /** An open starts the backoff anew and leaves everything else as it was. */
  lemma OpenResets(n: N.Node, s: N.Handle, c: N.Config)
    requires N.Enabled(n, N.Opened(s))
    ensures var t := N.Step(n, N.Opened(s), c); t.attempt == 0 && n == t.(attempt := n.attempt, waits := n.waits)
  {
  }

  /** The first start and a retry that fires construct a socket, unless the
      constructor throws, which ends it without another retry. */
  lemma ConnectsAgain(n: N.Node, e: N.Event, c: N.Config)
    requires N.Exclusive(n) && N.Enabled(n, e) && (e.RetryFires? || (e.Start? && !n.stopped))
    ensures var t := N.Step(n, e, c);
            && t.armed == {} && t.attempt == n.attempt && t.stopped == n.stopped
            && (e.constructs ==>
                && t.constructed == n.constructed + 1 && t.socket.Some? && t.socket.value !in n.sockets
                && t.sockets == n.sockets + {t.socket.value} && t.socket.value in t.talking)
            && (!e.constructs ==> t.gaveUp && t.socket == n.socket && t.sockets == n.sockets)
  {
  }

  /** A `welcome` starts one interval more. */
  lemma WelcomeBeats(n: N.Node, s: N.Handle, c: N.Config)
    requires N.Intervals(n) && N.Enabled(n, N.Welcome(s))
    ensures var t := N.Step(n, N.Welcome(s), c);
            && t.heartbeat.Some? && t.heartbeat.value !in n.beating && t.beating == n.beating + {t.heartbeat.value}
            && t == n.(heartbeat := t.heartbeat, beating := t.beating, next := t.next, repeated := t.repeated)
  {
  }

  /** A lost heartbeat silences the held socket, whose close event is still to come
      and then arms the retry. */
  lemma LostHeartbeatSilences(n: N.Node, timer: N.Handle, code: int, random: real, c: N.Config)
    requires N.Exclusive(n) && N.Enabled(n, N.HeartbeatLost(timer)) && n.socket.Some? && 0.0 <= random < 1.0
    ensures var t := N.Step(n, N.HeartbeatLost(timer), c);
            && t == n.(talking := t.talking) && !N.Enabled(t, N.Opened(n.socket.value))
            && !N.Enabled(t, N.Welcome(n.socket.value)) && N.Enabled(t, N.Closed(n.socket.value, code, random))
  {
  }

  /** `stop` lets go of the socket and of the retry. */
  lemma StopEnds(n: N.Node, c: N.Config)
    requires N.Exclusive(n)
    ensures var t := N.Step(n, N.Stop, c);
            && t.stopped && t.socket == None && t.armed == {} && t.talking == {} && t.sockets == n.sockets
            && t.constructed == n.constructed && t.attempt == n.attempt
  {
  }

  // ── Over runs ──

  lemma {:induction false} ClosesConcat(a: seq<N.Event>, b: seq<N.Event>)
    ensures Closes(a + b) == Closes(a) + Closes(b)
  {
    if a == [] {
      assert a + b == b;
    } else {
      ClosesConcat(a[1..], b);
      assert (a + b)[1..] == a[1..] + b;
    }
  }

  lemma {:induction false} RunConcat(n: N.Node, a: seq<N.Event>, b: seq<N.Event>, c: N.Config)
    requires N.Legal(n, a + b, c)
    ensures N.Legal(n, a, c) && N.Legal(N.Run(n, a, c), b, c) && N.Run(n, a + b, c) == N.Run(N.Run(n, a, c), b, c)
    decreases a
  {
    if a == [] {
      assert a + b == b;
    } else {
      assert (a + b)[1..] == a[1..] + b;
      RunConcat(N.Step(n, a[0], c), a[1..], b, c);
    }
  }

  lemma OneAttemptMore(n: N.Node, e: N.Event, c: N.Config)
    requires N.Exclusive(n) && N.Enabled(n, e) && !n.stopped && GoesOn([e]) && !e.Opened?
    ensures var t := N.Step(n, e, c); !t.stopped && t.attempt == n.attempt + Closes([e])
  {
    assert [e][0] == e && [e][1..] == [];
    if e.Closed? {
      CloseArmsARetry(n, e.s, e.code, e.random, c);
    }
  }

  lemma StillGoesOn(n: N.Node, e: N.Event, c: N.Config)
    requires N.Exclusive(n) && N.Enabled(n, e) && !n.stopped && GoesOn([e])
    ensures !N.Step(n, e, c).stopped
  {
    assert [e][0] == e;
    if e.Closed? {
      CloseArmsARetry(n, e.s, e.code, e.random, c);
    }
  }

  lemma {:induction false} NotStopped(n: N.Node, events: seq<N.Event>, c: N.Config)
    requires N.Inv(n, c) && N.Legal(n, events, c) && !n.stopped && GoesOn(events)
    ensures !N.Run(n, events, c).stopped
    decreases events
  {
    if events != [] {
      assert GoesOn([events[0]]) && GoesOn(events[1..]);
      StillGoesOn(n, events[0], c);
      N.InvStep(n, events[0], c);
      NotStopped(N.Step(n, events[0], c), events[1..], c);
    }
  }

  /** Without an open in between, every close counts. */
  lemma {:induction false} AttemptsAreCloses(n: N.Node, events: seq<N.Event>, c: N.Config)
    requires N.Inv(n, c) && N.Legal(n, events, c) && !n.stopped && GoesOn(events) && NeverOpens(events)
    ensures N.Run(n, events, c).attempt == n.attempt + Closes(events)
    decreases events
  {
    if events != [] {
      assert GoesOn([events[0]]) && GoesOn(events[1..]) && NeverOpens(events[1..]);
      OneAttemptMore(n, events[0], c);
      N.InvStep(n, events[0], c);
      AttemptsAreCloses(N.Step(n, events[0], c), events[1..], c);
      ClosesConcat([events[0]], events[1..]);
      assert [events[0]] + events[1..] == events;
    }
  }

  /** What a close that is acted on leaves: one retry, armed with this ceiling and the
      delay drawn for it. */
  ghost predicate RetriesAfter(t: N.Node, ceiling: nat, random: real) {
    && !t.stopped && t.socket == None && t.retryTimer.Some? && t.armed == {t.retryTimer.value}
    && t.waits != [] && t.waits[|t.waits| - 1] == N.Wait(ceiling, N.Delay(ceiling, random))
    && N.Round(ceiling as real / 2.0) <= N.Delay(ceiling, random) <= ceiling
  }

  lemma CloseInState(n: N.Node, s: N.Handle, code: int, random: real, c: N.Config)
    requires N.Inv(n, c) && !n.stopped && N.Enabled(n, N.Closed(s, code, random))
    requires code != 4001 && code != 4002 && code != 4003
    ensures RetriesAfter(N.Step(n, N.Closed(s, code, random), c), N.Min(c.max, c.base * N.Power2(n.attempt)), random)
    ensures N.Legal(n, [N.Closed(s, code, random)], c)
    ensures N.Run(n, [N.Closed(s, code, random)], c) == N.Step(n, N.Closed(s, code, random), c)
  {
    assert [N.Closed(s, code, random)][1..] == [];
    CloseArmsARetry(n, s, code, random, c);
    N.DelayWithinCeiling(N.Min(c.max, c.base * N.Power2(n.attempt)), random);
  }

  /** Over every run of a node that was not stopped or refused, however it went
      before: after an open, the first close arms a retry with the base ceiling, and
      each further close before the next open with twice the last one, up to the
      maximum. `before` may hold any number of opens and closes. */
  lemma BackoffStartsAtTheOpen(
    before: seq<N.Event>, s: N.Handle, after: seq<N.Event>, closed: N.Handle, code: int, random: real, c: N.Config)
    requires var events := before + ([N.Opened(s)] + after) + [N.Closed(closed, code, random)];
             N.Legal(N.START, events, c) && GoesOn(events) && NeverOpens(after)
    ensures var events := before + ([N.Opened(s)] + after) + [N.Closed(closed, code, random)];
            RetriesAfter(N.Run(N.START, events, c), N.Min(c.max, c.base * N.Power2(Closes(after))), random)
  {
    var front, last := before + ([N.Opened(s)] + after), [N.Closed(closed, code, random)];
    Parts(front, last[0]);
    Parts(before, N.Opened(s));
    RunConcat(N.START, front, last, c);
    RunConcat(N.START, before, [N.Opened(s)] + after, c);
    assert forall i | 0 <= i < |before| :: before[i] == (front + last)[i];
    assert forall i | 0 <= i < |after| :: after[i] == (front + last)[|before| + 1 + i];
    assert (front + last)[|front|] == last[0];
    N.Reachable(before, c);
    NotStopped(N.START, before, c);
    var n := N.Run(N.START, before, c);
    FromTheOpen(n, s, after, closed, code, random, c);
  }

  lemma Parts(front: seq<N.Event>, e: N.Event)
    ensures (front + [e])[..|front|] == front && (front + [e])[|front|] == e
  {
  }

  lemma FromTheOpen(
    n: N.Node, s: N.Handle, after: seq<N.Event>, closed: N.Handle, code: int, random: real, c: N.Config)
    requires N.Inv(n, c) && !n.stopped && N.Legal(n, [N.Opened(s)] + after, c) && GoesOn(after) && NeverOpens(after)
    requires N.Legal(N.Run(n, [N.Opened(s)] + after, c), [N.Closed(closed, code, random)], c)
    requires code != 4001 && code != 4002 && code != 4003
    ensures RetriesAfter(N.Run(N.Run(n, [N.Opened(s)] + after, c), [N.Closed(closed, code, random)], c),
                         N.Min(c.max, c.base * N.Power2(Closes(after))), random)
  {
    assert ([N.Opened(s)] + after)[1..] == after && ([N.Opened(s)] + after)[0] == N.Opened(s);
    var t := N.Step(n, N.Opened(s), c);
    OpenResets(n, s, c);
    N.InvStep(n, N.Opened(s), c);
    LaterClose(t, after, closed, code, random, c);
  }

  lemma LaterClose(
    t: N.Node, after: seq<N.Event>, closed: N.Handle, code: int, random: real, c: N.Config)
    requires N.Inv(t, c) && !t.stopped && t.attempt == 0 && N.Legal(t, after, c) && GoesOn(after) && NeverOpens(after)
    requires N.Legal(N.Run(t, after, c), [N.Closed(closed, code, random)], c)
    requires code != 4001 && code != 4002 && code != 4003
    ensures RetriesAfter(N.Run(N.Run(t, after, c), [N.Closed(closed, code, random)], c),
                         N.Min(c.max, c.base * N.Power2(Closes(after))), random)
  {
    NotStopped(t, after, c);
    AttemptsAreCloses(t, after, c);
    N.InvRun(t, after, c);
    CloseInState(N.Run(t, after, c), closed, code, random, c);
  }

  /** And before any open, from the start on. */
  lemma BackoffFromTheStart(events: seq<N.Event>, closed: N.Handle, code: int, random: real, c: N.Config)
    requires N.Legal(N.START, events + [N.Closed(closed, code, random)], c)
    requires GoesOn(events) && NeverOpens(events) && code != 4001 && code != 4002 && code != 4003
    ensures RetriesAfter(N.Run(N.START, events + [N.Closed(closed, code, random)], c),
                         N.Min(c.max, c.base * N.Power2(Closes(events))), random)
  {
    RunConcat(N.START, events, [N.Closed(closed, code, random)], c);
    LaterClose(N.START, events, closed, code, random, c);
  }

  /** With a base of a second and a maximum of a minute. */
  lemma CeilingsOfAMinute(c: N.Config)
    requires c == N.Config(1000, 60000)
    ensures forall k: nat | k < 6 ::
              N.Min(c.max, c.base * N.Power2(k)) == [1000, 2000, 4000, 8000, 16000, 32000][k]
    ensures forall k: nat | k >= 6 :: N.Min(c.max, c.base * N.Power2(k)) == 60000
  {
    assert N.Power2(2) == 4 && N.Power2(4) == 16 && N.Power2(6) == 64;
    forall k: nat | k >= 6
      ensures N.Min(c.max, c.base * N.Power2(k)) == 60000
    {
      N.PowersGrow(6, k);
    }
  }
}
