/** The node's flow control: a stream waits before each chunk until the socket
    has drained, so however many streams there are, what they keep buffered stays
    bounded. */
module Backpressure {
  import opened Utf8
  import opened Ids
  import opened FrameSize

  const HIGH_CHUNKS: nat := 8

  /** The buffer is low enough for one more chunk. */
  predicate Low(buffered: nat, limit: nat) { buffered <= HIGH_CHUNKS * limit }

  /** One response under way; `ready` from passing `drain` to its next frame. */
  datatype Stream = Stream(limit: nat, textual: bool, seqNo: nat, ready: bool)

  /** The socket's unsent bytes, by what queued them, and the streams by the
      counter their id was minted from. `peak` is the most streams there ever
      were at once. */
  datatype State = State(data: nat, other: nat, streams: map<nat, Stream>, peak: nat)

  const START: State := State(0, 0, map[], 0)

  datatype Action =
    | Begin(id: nat, limit: nat, textual: bool)
    | Pass(id: nat)                               // `drain` finds the buffer low enough
    | Send(id: nat, chunk: seq<Byte>)             // the frame that follows
    | Finish(id: nat)                             // `end`, or given up while waiting
    | Chatter(bytes: nat)                         // any other frame: none of them waits
    | Flush(data: nat, other: nat)                // the network takes bytes

  predicate Enabled(s: State, a: Action, limit: nat) {
    match a
    case Begin(id, l, _) => id !in s.streams && id < COUNTER_LIMIT && l <= limit
    case Pass(id) => id in s.streams && !s.streams[id].ready && Low(s.data + s.other, s.streams[id].limit)
    case Send(id, chunk) =>
      && id in s.streams && s.streams[id].ready && |chunk| <= s.streams[id].limit
      && s.streams[id].seqNo < SEQ_LIMIT - 1
    case Finish(id) => id in s.streams && !s.streams[id].ready
    case Chatter(_) => true
    case Flush(d, o) => d <= s.data && o <= s.other
  }

  function FrameOf(id: nat, st: Stream, chunk: seq<Byte>): nat { FrameBytes(id, st.seqNo, chunk, st.textual) }

  function Max(a: nat, b: nat): nat { if a < b then b else a }

  function Step(s: State, a: Action, limit: nat): State
    requires Enabled(s, a, limit)
  {
    match a
    case Begin(id, l, textual) =>
      var streams := s.streams[id := Stream(l, textual, 0, false)];
      s.(streams := streams, peak := Max(s.peak, |streams|))
    case Pass(id) => s.(streams := s.streams[id := s.streams[id].(ready := true)])
    case Send(id, chunk) =>
      var st := s.streams[id];
      s.(data := s.data + FrameOf(id, st, chunk),
         streams := s.streams[id := st.(seqNo := st.seqNo + 1, ready := false)])
    case Finish(id) => s.(streams := s.streams - {id})
    case Chatter(bytes) => s.(other := s.other + bytes)
    case Flush(d, o) => s.(data := s.data - d, other := s.other - o)
  }

  /** The streams whose next frame nothing can stop any more. */
  function Ready(s: State): set<nat> { set id | id in s.streams && s.streams[id].ready }

  /** What is buffered, with room set aside for those frames. */
  function Committed(s: State, limit: nat): nat { s.data + |Ready(s)| * LargestFrame(limit) }

  function Ceiling(s: State, limit: nat): nat { HIGH_CHUNKS * limit + s.peak * LargestFrame(limit) }

  predicate Inv(s: State, limit: nat) {
    && Committed(s, limit) <= Ceiling(s, limit)
    && |s.streams| <= s.peak
    && forall id | id in s.streams ::
         id < COUNTER_LIMIT && s.streams[id].limit <= limit && s.streams[id].seqNo < SEQ_LIMIT
  }

  lemma Times(a: nat, b: nat, f: nat)
    requires a <= b
    ensures a * f <= b * f
    ensures (a + 1) * f == a * f + f
  {
  }

  /** There is room for one more frame as long as the buffer is below the mark,
      whoever else is about to send. */
  lemma PassInv(s: State, id: nat, limit: nat)
    requires Inv(s, limit) && Enabled(s, Pass(id), limit)
    ensures Inv(Step(s, Pass(id), limit), limit)
  {
    var t := Step(s, Pass(id), limit);
    assert t.streams.Keys == s.streams.Keys;
    SizeOf(s);
    SizeOf(t);
    Times(|Ready(t)|, t.peak, LargestFrame(limit));
  }

  lemma FrameFits(id: nat, st: Stream, chunk: seq<Byte>, limit: nat)
    requires id < COUNTER_LIMIT && st.seqNo < SEQ_LIMIT && |chunk| <= limit
    ensures FrameOf(id, st, chunk) <= LargestFrame(limit)
  {
    DataFrameSize(id, st.seqNo, chunk, st.textual);
  }

  /** A frame takes at most the room set aside for it. */
  lemma SendCommits(s: State, id: nat, chunk: seq<Byte>, limit: nat)
    requires Inv(s, limit) && Enabled(s, Send(id, chunk), limit)
    ensures Committed(Step(s, Send(id, chunk), limit), limit) <= Committed(s, limit)
  {
    var t := Step(s, Send(id, chunk), limit);
    FrameFits(id, s.streams[id], chunk, limit);
    assert Ready(t) == Ready(s) - {id};
    Times(|Ready(t)|, |Ready(s)|, LargestFrame(limit));
  }

  lemma SendInv(s: State, id: nat, chunk: seq<Byte>, limit: nat)
    requires Inv(s, limit) && Enabled(s, Send(id, chunk), limit)
    ensures Inv(Step(s, Send(id, chunk), limit), limit)
  {
    var t := Step(s, Send(id, chunk), limit);
    assert t.streams.Keys == s.streams.Keys;
    SizeOf(s);
    SizeOf(t);
    SendCommits(s, id, chunk, limit);
  }

  lemma SizeOf(s: State)
    ensures |s.streams| == |s.streams.Keys| && |Ready(s)| <= |s.streams|
  {
    Subset(Ready(s), s.streams.Keys);
  }

  lemma {:induction false} Subset(a: set<nat>, b: set<nat>)
    requires a <= b
    ensures |a| <= |b|
  {
    if a != {} {
      var x :| x in a;
      Subset(a - {x}, b - {x});
    }
  }

  lemma BeginInv(s: State, a: Action, limit: nat)
    requires a.Begin? && Inv(s, limit) && Enabled(s, a, limit)
    ensures Inv(Step(s, a, limit), limit)
  {
    var t := Step(s, a, limit);
    assert Ready(t) == Ready(s);
    Times(s.peak, t.peak, LargestFrame(limit));
  }

  lemma FinishInv(s: State, id: nat, limit: nat)
    requires Inv(s, limit) && Enabled(s, Finish(id), limit)
    ensures Inv(Step(s, Finish(id), limit), limit)
  {
    var t := Step(s, Finish(id), limit);
    assert Ready(t) == Ready(s);
    SizeOf(s);
    SizeOf(t);
    Subset(t.streams.Keys, s.streams.Keys);
  }

  lemma InvStep(s: State, a: Action, limit: nat)
    requires Inv(s, limit) && Enabled(s, a, limit)
    ensures Inv(Step(s, a, limit), limit)
  {
    match a
    case Begin(_, _, _) => BeginInv(s, a, limit);
    case Pass(id) => PassInv(s, id, limit);
    case Send(id, chunk) => SendInv(s, id, chunk, limit);
    case Finish(id) => FinishInv(s, id, limit);
    case _ => assert Ready(Step(s, a, limit)) == Ready(s);
  }

  // ── Whole runs ──

  ghost predicate Legal(s: State, acts: seq<Action>, limit: nat)
    decreases acts
  {
    acts == [] || (Enabled(s, acts[0], limit) && Legal(Step(s, acts[0], limit), acts[1..], limit))
  }

  ghost function Run(s: State, acts: seq<Action>, limit: nat): State
    requires Legal(s, acts, limit)
    decreases acts
  {
    if acts == [] then s else Run(Step(s, acts[0], limit), acts[1..], limit)
  }

  lemma {:induction false} InvRun(s: State, acts: seq<Action>, limit: nat)
    requires Inv(s, limit) && Legal(s, acts, limit)
    ensures Inv(Run(s, acts, limit), limit)
    decreases acts
  {
    if acts != [] {
      InvStep(s, acts[0], limit);
      InvRun(Step(s, acts[0], limit), acts[1..], limit);
    }
  }

  /** In every run, streams keep at most eight chunks buffered and one frame for
      each of the streams there were at once. */
  lemma BufferedIsBounded(acts: seq<Action>, limit: nat)
    requires Legal(START, acts, limit)
    ensures var s := Run(START, acts, limit);
            s.data + |Ready(s)| * LargestFrame(limit) <= 8 * limit + s.peak * LargestFrame(limit)
  {
    assert Ready(START) == {};
    InvRun(START, acts, limit);
  }

  // ── What the buffer holds ──

  /** The bytes of the frames sent in a run, by streams and by others, and the bytes
      the network took of either. */
  ghost function SentData(s: State, acts: seq<Action>, limit: nat): nat
    requires Legal(s, acts, limit)
    decreases acts
  {
    if acts == [] then 0
    else
      (if acts[0].Send? then FrameOf(acts[0].id, s.streams[acts[0].id], acts[0].chunk) else 0) +
      SentData(Step(s, acts[0], limit), acts[1..], limit)
  }

  function SentOther(acts: seq<Action>): nat {
    if acts == [] then 0 else (if acts[0].Chatter? then acts[0].bytes else 0) + SentOther(acts[1..])
  }

  function TakenData(acts: seq<Action>): nat {
    if acts == [] then 0 else (if acts[0].Flush? then acts[0].data else 0) + TakenData(acts[1..])
  }

  function TakenOther(acts: seq<Action>): nat {
    if acts == [] then 0 else (if acts[0].Flush? then acts[0].other else 0) + TakenOther(acts[1..])
  }

  /** Nothing is buffered but what was sent and not taken yet. */
  lemma {:induction false} BufferedIsSent(s: State, acts: seq<Action>, limit: nat)
    requires Legal(s, acts, limit)
    ensures var t := Run(s, acts, limit);
            && t.data + TakenData(acts) == s.data + SentData(s, acts, limit)
            && t.other + TakenOther(acts) == s.other + SentOther(acts)
    decreases acts
  {
    if acts != [] {
      BufferedIsSent(Step(s, acts[0], limit), acts[1..], limit);
    }
  }

  /** A stream is there from its begin, with its first number, to its end, and takes
      the next number with each frame. */
  lemma StreamsStep(s: State, a: Action, limit: nat, id: nat)
    requires Enabled(s, a, limit)
    ensures var t := Step(s, a, limit);
            && (id in t.streams <==> (id in s.streams && a != Finish(id)) || (a.Begin? && a.id == id))
            && (a.Begin? && a.id == id ==> t.streams[id] == Stream(a.limit, a.textual, 0, false))
            && (a.Send? && a.id == id ==>
                t.streams[id] == s.streams[id].(seqNo := s.streams[id].seqNo + 1, ready := false))
            && (id in s.streams && id in t.streams && !(a.Pass? && a.id == id) && !(a.Send? && a.id == id) ==>
                t.streams[id] == s.streams[id])
            && s.peak <= t.peak && (t.peak == s.peak || t.peak == |t.streams|)
  {
  }

  // ── The term for the number of streams is needed ──

  function PassAll(ids: seq<nat>): seq<Action> { seq(|ids|, i requires 0 <= i < |ids| => Pass(ids[i])) }

  function SendAll(ids: seq<nat>, chunk: seq<Byte>): seq<Action> {
    seq(|ids|, i requires 0 <= i < |ids| => Send(ids[i], chunk))
  }

  predicate Distinct(ids: seq<nat>) { forall i, j | 0 <= i < j < |ids| :: ids[i] != ids[j] }

  /** Streams that can all take `chunk` next. */
  predicate CanTake(streams: map<nat, Stream>, ids: seq<nat>, chunk: seq<Byte>, ready: bool) {
    forall id | id in ids ::
      && id in streams && streams[id].ready == ready
      && |chunk| <= streams[id].limit && streams[id].seqNo < SEQ_LIMIT - 1
  }

  function Together(streams: map<nat, Stream>, ids: seq<nat>, chunk: seq<Byte>): nat
    requires forall id | id in ids :: id in streams
  {
    if ids == [] then 0 else FrameOf(ids[0], streams[ids[0]], chunk) + Together(streams, ids[1..], chunk)
  }

  lemma {:induction false} TogetherSame(a: map<nat, Stream>, b: map<nat, Stream>, ids: seq<nat>, chunk: seq<Byte>)
    requires forall id | id in ids :: id in a && id in b && a[id].seqNo == b[id].seqNo && a[id].textual == b[id].textual
    ensures Together(a, ids, chunk) == Together(b, ids, chunk)
  {
    if ids != [] {
      TogetherSame(a, b, ids[1..], chunk);
    }
  }

  lemma {:induction false} RunConcat(s: State, a: seq<Action>, b: seq<Action>, limit: nat)
    requires Legal(s, a, limit) && Legal(Run(s, a, limit), b, limit)
    ensures Legal(s, a + b, limit) && Run(s, a + b, limit) == Run(Run(s, a, limit), b, limit)
    decreases a
  {
    if a == [] {
      assert a + b == b;
    } else {
      RunConcat(Step(s, a[0], limit), a[1..], b, limit);
      assert a + b == [a[0]] + (a[1..] + b);
    }
  }

  function Passed(streams: map<nat, Stream>, ids: seq<nat>): map<nat, Stream> {
    map id | id in streams :: if id in ids then streams[id].(ready := true) else streams[id]
  }

  lemma {:induction false} PassAllRun(s: State, ids: seq<nat>, chunk: seq<Byte>, limit: nat)
    requires Distinct(ids) && CanTake(s.streams, ids, chunk, false)
    requires forall id | id in ids :: s.data + s.other <= HIGH_CHUNKS * s.streams[id].limit
    ensures Legal(s, PassAll(ids), limit)
    ensures Run(s, PassAll(ids), limit) == s.(streams := Passed(s.streams, ids))
    decreases ids
  {
    if ids == [] {
      assert Passed(s.streams, ids) == s.streams;
    } else {
      var t := Step(s, Pass(ids[0]), limit);
      PassAllRun(t, ids[1..], chunk, limit);
      assert PassAll(ids)[1..] == PassAll(ids[1..]);
      assert Passed(t.streams, ids[1..]) == Passed(s.streams, ids);
    }
  }

  lemma {:induction false} SendAllRun(s: State, ids: seq<nat>, chunk: seq<Byte>, limit: nat)
    requires Distinct(ids) && CanTake(s.streams, ids, chunk, true)
    ensures Legal(s, SendAll(ids, chunk), limit)
    ensures Run(s, SendAll(ids, chunk), limit).data == s.data + Together(s.streams, ids, chunk)
    decreases ids
  {
    if ids != [] {
      var t := Step(s, Send(ids[0], chunk), limit);
      SendAllRun(t, ids[1..], chunk, limit);
      TogetherSame(s.streams, t.streams, ids[1..], chunk);
      assert SendAll(ids, chunk)[1..] == SendAll(ids[1..], chunk);
    }
  }

  /** Streams that all find the buffer at the mark before any of them sends all
      send: eight chunks alone bound nothing, and every stream may add a frame. */
  lemma AllSendAtOnce(s: State, ids: seq<nat>, chunk: seq<Byte>, limit: nat)
    requires Distinct(ids) && CanTake(s.streams, ids, chunk, false)
    requires forall id | id in ids :: s.data + s.other <= 8 * s.streams[id].limit
    ensures Legal(s, PassAll(ids) + SendAll(ids, chunk), limit)
    ensures Run(s, PassAll(ids) + SendAll(ids, chunk), limit).data == s.data + Together(s.streams, ids, chunk)
  {
    PassAllRun(s, ids, chunk, limit);
    var t := Run(s, PassAll(ids), limit);
    SendAllRun(t, ids, chunk, limit);
    TogetherSame(s.streams, t.streams, ids, chunk);
    RunConcat(s, PassAll(ids), SendAll(ids, chunk), limit);
  }

  /** A stream goes on exactly when what the socket holds, its own frames and any
      others, is at most eight of its chunks; passing buffers nothing yet. */
  lemma PassesExactly(s: State, id: nat, limit: nat)
    requires id in s.streams && !s.streams[id].ready
    ensures Enabled(s, Pass(id), limit) <==> s.data + s.other <= 8 * s.streams[id].limit
    ensures Enabled(s, Pass(id), limit) ==>
              var t := Step(s, Pass(id), limit);
              t.data == s.data && t.other == s.other && t.streams == s.streams[id := s.streams[id].(ready := true)]
  {
  }

  // ── One wait ──

  datatype Outcome = Through(looks: nat) | Lost(looks: nat) | Waiting

  /** `drain`: what the socket holds, and whether it is open, at each look ten
      milliseconds apart. Without a socket it fails at once. */
  method Drain(socket: bool, buffered: seq<nat>, open: seq<bool>, limit: nat) returns (o: Outcome)
    requires |buffered| == |open|
    ensures o.Through? ==> socket && o.looks < |buffered| && buffered[o.looks] <= 8 * limit
    ensures o.Lost? ==> !socket || (o.looks < |buffered| && buffered[o.looks] > 8 * limit && !open[o.looks])
    ensures var looks := if o.Waiting? then |buffered| else o.looks;
            socket ==> looks <= |buffered| && forall i | 0 <= i < looks :: buffered[i] > 8 * limit && open[i]
    ensures !socket ==> o == Lost(0)
  {
    if !socket {
      return Lost(0);
    }
    var i := 0;
    while i < |buffered| && !Low(buffered[i], limit)
      invariant i <= |buffered|
      invariant forall k | 0 <= k < i :: buffered[k] > 8 * limit && open[k]
    {
      if !open[i] {
        return Lost(i);
      }
      i := i + 1;
    }
    return if i < |buffered| then Through(i) else Waiting;
  }
}
