/** The audit recorder: a bounded queue that requests fill without waiting and
    one goroutine empties. */
module Audit {
  import opened Wrappers

  const CAPACITY: nat := 1024

  datatype Entry = Entry(
    user: string, node: string, ns: string, path: string, allowed: bool, status: int, reason: string)

  class Recorder {
    var queue: seq<Entry>
    /** Entries whose insert went through, and entries whose insert failed, oldest
        first. */
    var inserted: seq<Entry>
    var lost: seq<Entry>
    var dropped: nat

    constructor ()
      ensures queue == [] && inserted == [] && lost == [] && dropped == 0
    {
      queue, inserted, lost, dropped := [], [], [], 0;
    }

    /** A full queue drops the entry instead of stalling the request. */
    method RecordDecision(e: Entry)
      modifies this
      ensures inserted == old(inserted) && lost == old(lost)
      ensures if |old(queue)| < 1024 then queue == old(queue) + [e] && dropped == old(dropped)
              else queue == old(queue) && dropped == old(dropped) + 1
    {
      if |queue| < CAPACITY {
        queue := queue + [e];
      } else {
        dropped := dropped + 1;
      }
    }

    /** An insert fails when its context is cancelled before it ends. */
    method Write(e: Entry, cancelled: bool)
      modifies this`inserted, this`lost
      ensures inserted == old(inserted) + (if cancelled then [] else [e])
      ensures lost == old(lost) + (if cancelled then [e] else [])
    {
      if cancelled {
        lost := lost + [e];
      } else {
        inserted := inserted + [e];
      }
    }

    /** The flush of `drain` once the recorder was stopped: its inserts do not share
        the cancelled context, so none of them is lost. */
    method Flush()
      modifies this`queue, this`inserted, this`lost
      ensures queue == [] && inserted == old(inserted) + old(queue) && lost == old(lost)
    {
      while queue != []
        invariant inserted + queue == old(inserted) + old(queue) && lost == old(lost)
        decreases |queue|
      {
        var e := queue[0];
        assert inserted + queue == inserted + [e] + queue[1..];
        queue := queue[1..];
        Write(e, false);
        assert lost == old(lost) + [];
      }
    }
  }

  // ── Requests, the drain and the stop, interleaved ──

  datatype Fate = Inserted | Lost

  /** `handed` is the entries the drain took, and `fates` how the writes of the first
      of them ended; one write may be under way, with or without the context that a
      stop cancels. `accepted` and `recorded` are histories of the calls to
      RecordDecision. */
  datatype State = State(
    queue: seq<Entry>, handed: seq<Entry>, fates: seq<Fate>, writing: Option<bool>, dropped: nat,
    accepted: seq<Entry>, recorded: nat, stopping: bool, flushing: bool, done: bool)

  const START: State := State([], [], [], None, 0, [], 0, false, false, false)

  datatype Action =
    | Record(e: Entry)
    | Take              // the drain or the flush takes one entry and begins to write it
    | WriteEnds
    | Cancel            // stop has been called
    | Notice            // the drain sees it and begins to flush
    | FlushEnd          // the flush finds the queue empty

  predicate Enabled(s: State, a: Action) {
    match a
    case Record(_) => true
    case Take => s.queue != [] && s.writing.None? && !s.done
    case WriteEnds => s.writing.Some?
    case Cancel => true
    case Notice => s.stopping && !s.flushing && s.writing.None?
    case FlushEnd => s.flushing && !s.done && s.writing.None? && s.queue == []
  }

  function Step(s: State, a: Action): State
    requires Enabled(s, a)
  {
    match a
    case Record(e) =>
      if |s.queue| < CAPACITY then
        s.(queue := s.queue + [e], accepted := s.accepted + [e], recorded := s.recorded + 1)
      else s.(dropped := s.dropped + 1, recorded := s.recorded + 1)
    case Take => s.(queue := s.queue[1..], handed := s.handed + [s.queue[0]], writing := Some(!s.flushing))
    case WriteEnds =>
      s.(fates := s.fates + [if s.writing.value && s.stopping then Lost else Inserted], writing := None)
    case Cancel => s.(stopping := true)
    case Notice => s.(flushing := true)
    case FlushEnd => s.(done := true)
  }

  /** Every decision is handed over, queued or counted as dropped, in order, and
      every write but the one under way has ended. */
  predicate Conserved(s: State) {
    && s.accepted == s.handed + s.queue
    && |s.accepted| + s.dropped == s.recorded
    && |s.queue| <= CAPACITY
    && |s.fates| + (if s.writing.Some? then 1 else 0) == |s.handed|
    && (s.done ==> s.flushing && s.writing.None?) && (s.flushing ==> s.stopping)
  }

  lemma ConservedStep(s: State, a: Action)
    requires Conserved(s) && Enabled(s, a)
    ensures Conserved(Step(s, a))
    ensures s.accepted <= Step(s, a).accepted && s.handed <= Step(s, a).handed && s.fates <= Step(s, a).fates
    ensures s.done ==> Step(s, a).done && Step(s, a).handed == s.handed
    ensures a == FlushEnd ==> Step(s, a).handed == Step(s, a).accepted && |s.fates| == |s.handed|
    ensures a.Record? ==>
              var t := Step(s, a);
              if |s.queue| < 1024 then t.accepted == s.accepted + [a.e] && t.queue == s.queue + [a.e]
              else t.accepted == s.accepted && t.queue == s.queue && t.dropped == s.dropped + 1
  {
    if a == Take {
      assert s.handed + s.queue == s.handed + [s.queue[0]] + s.queue[1..];
    }
    if a == FlushEnd {
      assert s.handed + [] == s.handed;
    }
  }

  ghost predicate IsRun(states: seq<State>, acts: seq<Action>) {
    && |states| == |acts| + 1 && states[0] == START
    && forall i | 0 <= i < |acts| :: Enabled(states[i], acts[i]) && states[i + 1] == Step(states[i], acts[i])
  }

  /** Nothing accepted is ever lost from sight, repeated or reordered, in any run. */
  lemma {:induction false} ConservedAt(states: seq<State>, acts: seq<Action>, n: nat)
    requires IsRun(states, acts) && n < |states|
    ensures Conserved(states[n])
  {
    if n > 0 {
      ConservedAt(states, acts, n - 1);
      ConservedStep(states[n - 1], acts[n - 1]);
    }
  }

  lemma {:induction false} HistoriesGrow(states: seq<State>, acts: seq<Action>, m: nat, n: nat)
    requires IsRun(states, acts) && m <= n < |states|
    ensures states[m].accepted <= states[n].accepted && states[m].handed <= states[n].handed
    ensures states[m].fates <= states[n].fates
    ensures states[m].done ==> states[n].done && states[n].handed == states[m].handed
  {
    if m < n {
      HistoriesGrow(states, acts, m, n - 1);
      ConservedAt(states, acts, n - 1);
      ConservedStep(states[n - 1], acts[n - 1]);
    }
  }

  /** When the stop returns, every decision accepted before the flush ended has
      been handed over and its write has ended, whatever arrived meanwhile; what is
      accepted later is never handed over. */
  lemma StopHandsOver(states: seq<State>, acts: seq<Action>, end: nat, m: nat, n: nat)
    requires IsRun(states, acts) && m <= end < n < |states| && acts[end] == FlushEnd
    ensures states[m].accepted <= states[n].handed
    ensures states[n].handed == states[end].accepted && |states[n].fates| == |states[n].handed|
  {
    ConservedAt(states, acts, end);
    ConservedStep(states[end], acts[end]);
    HistoriesGrow(states, acts, m, end);
    HistoriesGrow(states, acts, end + 1, n);
    ConservedAt(states, acts, n);
    HistoriesGrow(states, acts, end, n);
  }

  // ── Which decisions a stop loses ──

  lemma {:induction false} StoppingSince(states: seq<State>, acts: seq<Action>, n: nat)
    requires IsRun(states, acts) && n < |states|
    ensures states[n].stopping <==> exists c | 0 <= c < n :: acts[c] == Cancel
  {
    if n > 0 {
      StoppingSince(states, acts, n - 1);
      assert states[n] == Step(states[n - 1], acts[n - 1]);
      if acts[n - 1] == Cancel {
        assert exists c | 0 <= c < n :: acts[c] == Cancel;
      }
    }
  }

  /** The step that began the write under way. */
  lemma {:induction false} TakenAt(states: seq<State>, acts: seq<Action>, n: nat) returns (i: nat)
    requires IsRun(states, acts) && n < |states| && states[n].writing.Some?
    ensures i < n && acts[i] == Take && states[n].writing == Some(!states[i].flushing)
    ensures states[n].handed == states[i].handed + [states[i].queue[0]]
  {
    assert n > 0;
    assert states[n] == Step(states[n - 1], acts[n - 1]);
    if acts[n - 1] == Take {
      i := n - 1;
    } else {
      i := TakenAt(states, acts, n - 1);
    }
  }

  /** The step that ended write `k`. */
  lemma {:induction false} EndedAt(states: seq<State>, acts: seq<Action>, k: nat, n: nat) returns (j: nat)
    requires IsRun(states, acts) && n < |states| && k < |states[n].fates|
    ensures j < n && acts[j] == WriteEnds && |states[j].fates| == k && states[j].writing.Some?
    ensures states[n].fates[k] == if states[j].writing.value && states[j].stopping then Lost else Inserted
  {
    assert n > 0;
    assert states[n] == Step(states[n - 1], acts[n - 1]);
    if k < |states[n - 1].fates| {
      j := EndedAt(states, acts, k, n - 1);
    } else {
      j := n - 1;
    }
  }

  /** Decision `k` is lost exactly when it was taken before the flush and its write
      had not ended when the stop was called: step `i` took it, step `j` ended it. */
  lemma LostExactly(states: seq<State>, acts: seq<Action>, k: nat, n: nat) returns (i: nat, j: nat)
    requires IsRun(states, acts) && n < |states| && k < |states[n].fates|
    ensures i < j < n && acts[i] == Take && |states[i].handed| == k && acts[j] == WriteEnds && |states[j].fates| == k
    ensures states[n].fates[k] == Lost <==> !states[i].flushing && exists c | 0 <= c < j :: acts[c] == Cancel
  {
    j := EndedAt(states, acts, k, n);
    i := TakenAt(states, acts, j);
    ConservedAt(states, acts, j);
    StoppingSince(states, acts, j);
  }

  /** A clean stop that loses the one decision that led up to it: the drain takes it
      after the stop was called and before it sees that. */
  lemma CleanStopLoses(e: Entry)
    ensures var acts := [Record(e), Cancel, Take, WriteEnds, Notice, FlushEnd];
            var s1 := Step(START, acts[0]);
            var s2 := Step(s1, Cancel);
            var s3 := Step(s2, Take);
            var s4 := Step(s3, WriteEnds);
            var s5 := Step(s4, Notice);
            var s6 := Step(s5, FlushEnd);
            && IsRun([START, s1, s2, s3, s4, s5, s6], acts)
            && s6.done && s6.accepted == [e] && s6.fates == [Lost]
  {
  }
}
