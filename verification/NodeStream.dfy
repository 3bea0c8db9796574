/** The node's side of one response: the body is cut into numbered chunks of at
    most the adopted limit. */
module NodeStream {
  import opened Wrappers
  import opened Utf8
  import opened Ids
  import P = Payload
  import R = Request
  import M = Multiplex

  /** The chunks one read buffer is cut into. */
  function Slices(value: seq<Byte>, limit: nat): seq<seq<Byte>>
    requires limit > 0
  {
    if |value| <= limit then (if value == [] then [] else [value])
    else [value[..limit]] + Slices(value[limit..], limit)
  }

  function AllSlices(buffers: seq<seq<Byte>>, limit: nat): seq<seq<Byte>>
    requires limit > 0
  {
    if buffers == [] then [] else AllSlices(buffers[..|buffers| - 1], limit) + Slices(buffers[|buffers| - 1], limit)
  }

  function Join(chunks: seq<seq<Byte>>): seq<Byte> {
    if chunks == [] then [] else Join(chunks[..|chunks| - 1]) + chunks[|chunks| - 1]
  }

  lemma {:induction false} JoinConcat(a: seq<seq<Byte>>, b: seq<seq<Byte>>)
    ensures Join(a + b) == Join(a) + Join(b)
  {
    if b == [] {
      assert a + b == a;
    } else {
      var b' := b[..|b| - 1];
      JoinConcat(a, b');
      assert (a + b)[..|a + b| - 1] == a + b';
    }
  }

  lemma JoinOne(a: seq<Byte>)
    ensures Join([a]) == a
  {
    assert Join([a]) == Join([]) + a;
  }

  lemma {:induction false} SlicesFit(value: seq<Byte>, limit: nat)
    requires limit > 0
    ensures forall c | c in Slices(value, limit) :: 0 < |c| <= limit
  {
    if |value| > limit {
      SlicesFit(value[limit..], limit);
    }
  }

  lemma CutRejoins(value: seq<Byte>, limit: nat, tail: seq<seq<Byte>>)
    requires limit <= |value| && Join(tail) == value[limit..]
    ensures Join([value[..limit]] + tail) == value
  {
    JoinCons(value[..limit], tail);
    assert value[..limit] + value[limit..] == value;
  }

  lemma {:induction false} SlicesRejoin(value: seq<Byte>, limit: nat)
    requires limit > 0
    ensures Join(Slices(value, limit)) == value
    ensures forall c | c in Slices(value, limit) :: 0 < |c| <= limit
  {
    SlicesFit(value, limit);
    if |value| <= limit {
      JoinOne(value);
    } else {
      SlicesRejoin(value[limit..], limit);
      CutRejoins(value, limit, Slices(value[limit..], limit));
    }
  }

  lemma JoinCons(head: seq<Byte>, tail: seq<seq<Byte>>)
    ensures Join([head] + tail) == head + Join(tail)
  {
    JoinOne(head);
    JoinConcat([head], tail);
  }

  /** Cutting loses nothing and keeps every chunk within the limit. */
  lemma {:induction false} AllSlicesRejoin(buffers: seq<seq<Byte>>, limit: nat)
    requires limit > 0
    ensures Join(AllSlices(buffers, limit)) == Join(buffers)
    ensures forall c | c in AllSlices(buffers, limit) :: 0 < |c| <= limit
  {
    if buffers != [] {
      AllSlicesRejoin(buffers[..|buffers| - 1], limit);
      SlicesRejoin(buffers[|buffers| - 1], limit);
      JoinConcat(AllSlices(buffers[..|buffers| - 1], limit), Slices(buffers[|buffers| - 1], limit));
    }
  }

  function DataFrame(id: Id, seqNo: nat, chunk: seq<Byte>, textual: bool): M.Frame {
    M.ForRequest(id, R.Data(seqNo, P.EncodePayload(chunk, textual)))
  }

  /** Consecutive `data` frames, numbered from `first`. */
  function DataFrames(id: Id, first: nat, chunks: seq<seq<Byte>>, textual: bool): seq<M.Frame> {
    seq(|chunks|, i requires 0 <= i < |chunks| => DataFrame(id, first + i, chunks[i], textual))
  }

  lemma DataFramesConcat(id: Id, first: nat, a: seq<seq<Byte>>, b: seq<seq<Byte>>, textual: bool)
    ensures DataFrames(id, first, a + b, textual) ==
            DataFrames(id, first, a, textual) + DataFrames(id, first + |a|, b, textual)
  {
  }

  lemma DataFramesCons(id: Id, first: nat, chunk: seq<Byte>, rest: seq<seq<Byte>>, textual: bool)
    ensures DataFrames(id, first, [chunk] + rest, textual) ==
            [DataFrame(id, first, chunk, textual)] + DataFrames(id, first + 1, rest, textual)
  {
  }

  /** All that a node sends for one response: its status, the part of its body it
      forwarded, and how it ended. */
  function ResponseFrames(
    id: Id, status: int, buffers: seq<seq<Byte>>, failed: bool, limit: nat, textual: bool): seq<M.Frame>
    requires limit > 0
  {
    var chunks := AllSlices(buffers, limit);
    [M.ForRequest(id, R.Head(status))] + DataFrames(id, 0, chunks, textual) +
    [if failed then M.ForRequest(id, R.Err) else M.ForRequest(id, R.End(|chunks|))]
  }

  /** The same when the connection is lost before chunk `lost`: nothing more is
      sent, the failure included. */
  function ResponseUpTo(
    id: Id, status: int, buffers: seq<seq<Byte>>, failed: bool, lost: Option<nat>, limit: nat, textual: bool)
    : seq<M.Frame>
    requires limit > 0
  {
    var all := ResponseFrames(id, status, buffers, failed, limit, textual);
    if lost.Some? && lost.value < |AllSlices(buffers, limit)| then all[..1 + lost.value] else all
  }

  /** A response is its status, its chunks numbered from zero, and last an end that
      counts them, or a failure and no end. */
  lemma ResponseShape(id: Id, status: int, buffers: seq<seq<Byte>>, failed: bool, limit: nat, textual: bool)
    requires limit > 0
    ensures var all, chunks := ResponseFrames(id, status, buffers, failed, limit, textual), AllSlices(buffers, limit);
            && |all| == |chunks| + 2 && all[0] == M.ForRequest(id, R.Head(status))
            && (forall i | 0 <= i < |chunks| ::
                  all[1 + i] == M.ForRequest(id, R.Data(i, P.EncodePayload(chunks[i], textual))))
            && (failed ==> all[|all| - 1] == M.ForRequest(id, R.Err))
            && (!failed ==> all[|all| - 1] == M.ForRequest(id, R.End(|chunks|)))
  {
    var all, chunks := ResponseFrames(id, status, buffers, failed, limit, textual), AllSlices(buffers, limit);
    var data := DataFrames(id, 0, chunks, textual);
    assert |data| == |chunks|;
    forall i | 0 <= i < |chunks|
      ensures all[1 + i] == M.ForRequest(id, R.Data(i, P.EncodePayload(chunks[i], textual)))
    {
      assert all[1 + i] == data[i] == DataFrame(id, 0 + i, chunks[i], textual);
    }
  }

  /** When the connection is lost before one of its chunks, the frames up to that
      chunk are all there is, and neither an end nor a failure follows. */
  lemma LostShape(
    id: Id, status: int, buffers: seq<seq<Byte>>, failed: bool, lost: nat, limit: nat, textual: bool)
    requires limit > 0 && lost < |AllSlices(buffers, limit)|
    ensures var some := ResponseUpTo(id, status, buffers, failed, Some(lost), limit, textual);
            && |some| == 1 + lost && some <= ResponseFrames(id, status, buffers, false, limit, textual)
            && (forall i | 0 <= i < |some| :: some[i].ForRequest? && (some[i].f.Head? || some[i].f.Data?))
    ensures ResponseUpTo(id, status, buffers, failed, None, limit, textual) ==
            ResponseFrames(id, status, buffers, failed, limit, textual)
  {
    ResponseShape(id, status, buffers, failed, limit, textual);
    ResponseShape(id, status, buffers, false, limit, textual);
  }

  /** The buffers a stream forwards before it notices that its signal is aborted. */
  function Forwarded(buffers: seq<seq<Byte>>, aborts: seq<bool>): (k: nat)
    requires |aborts| == |buffers|
    ensures k <= |buffers| && (k < |buffers| <==> true in aborts)
    ensures forall i | 0 <= i < k :: !aborts[i]
    ensures k < |buffers| ==> aborts[k]
  {
    if buffers == [] then 0
    else if aborts[0] then 0
    else 1 + Forwarded(buffers[1..], aborts[1..])
  }

  /** `sent` is as much of `said` as a socket takes that stops being open after
      `open` frames, if it does. */
  predicate Took(sent: seq<M.Frame>, said: seq<M.Frame>, open: Option<nat>) {
    && sent <= said
    && |sent| == if open.Some? && open.value < |said| then open.value else |said|
  }

  /** What is said on top of that reaches the socket while it is open. */
  lemma TookMore(
    sent: seq<M.Frame>, said: seq<M.Frame>, more: seq<M.Frame>, now: seq<M.Frame>, all: seq<M.Frame>, open: Option<nat>)
    requires Took(sent, said, open) && Took(now, all, open) && all == said + more
    ensures Took(now, sent + more, open)
  {
    if open.Some? && open.value < |said| {
      assert now == sent;
    } else {
      assert sent == said;
    }
  }

  class Uplink {
    /** How many frames the socket takes before it stops being open, if it does. */
    const open: Option<nat>
    /** Frames the socket took, oldest first. */
    var sent: seq<M.Frame>
    /** All frames that were to be sent. */
    ghost var said: seq<M.Frame>

    /** `send` drops what comes after the socket has stopped being open. */
    ghost predicate Valid()
      reads this
    {
      Took(sent, said, open)
    }

    constructor (open: Option<nat>)
      ensures Valid() && said == sent == [] && this.open == open
    {
      this.open := open;
      sent, said := [], [];
    }

    method Send(f: M.Frame)
      requires Valid()
      modifies this
      ensures Valid() && said == old(said) + [f]
      ensures sent == if open.None? || |old(sent)| < open.value then old(sent) + [f] else old(sent)
    {
      if open.None? || |sent| < open.value {
        sent := sent + [f];
      }
      said := said + [f];
    }

    /** Slice `k` of a buffer that has sent the ones before it. */
    method SendSlice(
      id: Id, value: seq<Byte>, limit: nat, textual: bool, seqNo: nat, offset: nat, end: nat,
      ghost was: seq<M.Frame>, ghost first: nat, ghost k: nat, ghost frames: seq<M.Frame>)
      returns (ghost more: seq<M.Frame>)
      requires Valid() && limit > 0 && k < |Slices(value, limit)| && seqNo == first + k
      requires offset == OffsetOf(|value|, limit, k) <= end == OffsetOf(|value|, limit, k + 1)
      requires said == was + frames && frames == FramesUpTo(id, first, value, limit, k, textual)
      modifies this
      ensures Valid() && said == was + more && more == FramesUpTo(id, first, value, limit, k + 1, textual)
    {
      var f := DataFrame(id, seqNo, value[offset..end], textual);
      NextFrame(was, frames, id, first, value, limit, k, textual, f);
      Send(f);
      more := frames + [f];
    }

    /** The loop over one buffer; the wait for the socket to drain fails before
        chunk `lost`, if at all. */
    method SendSlices(id: Id, value: seq<Byte>, limit: nat, textual: bool, first: nat, lost: Option<nat>)
      returns (seqNo: nat, ok: bool, ghost frames: seq<M.Frame>)
      requires Valid() && limit > 0 && (lost.Some? ==> first <= lost.value)
      modifies this
      ensures Valid()
      ensures var all := Slices(value, limit);
              && (ok <==> !(lost.Some? && lost.value < first + |all|))
              && seqNo == (if ok then first + |all| else lost.value)
              && frames == FramesUpTo(id, first, value, limit, seqNo - first, textual)
      ensures said == old(said) + frames && Took(sent, old(sent) + frames, open)
    {
      seqNo, frames := first, [];
      var offset := 0;
      ghost var was, k := said, 0;
      NoFrames(id, first, value, limit, textual);
      while offset < |value|
        invariant Valid()
        invariant offset == OffsetOf(|value|, limit, k) && k <= |Slices(value, limit)|
        invariant seqNo == first + k && (lost.Some? ==> seqNo <= lost.value)
        invariant said == was + frames && frames == FramesUpTo(id, first, value, limit, k, textual)
      {
        var end := if offset + limit <= |value| then offset + limit else |value|;
        SlicesRemain(value, limit, k);
        if lost == Some(seqNo) {
          TookMore(old(sent), was, frames, sent, said, open);
          return seqNo, false, frames;
        }
        frames := SendSlice(id, value, limit, textual, seqNo, offset, end, was, first, k, frames);
        seqNo, offset, k := seqNo + 1, end, k + 1;
      }
      AllSent(value, limit, k);
      TookMore(old(sent), was, frames, sent, said, open);
      return seqNo, true, frames;
    }

    /** Buffer `i` of a response that has sent the ones before it. */
    method SendBuffer(
      id: Id, value: seq<Byte>, limit: nat, textual: bool, first: nat, lost: Option<nat>,
      ghost was: seq<M.Frame>, ghost status: int, ghost read: seq<seq<Byte>>, ghost i: nat, ghost failed: bool)
      returns (seqNo: nat, ok: bool)
      requires Valid() && limit > 0 && i < |read| && value == read[i]
      requires first == |AllSlices(read[..i], limit)| && (lost.Some? ==> first <= lost.value)
      requires said == was + SentBefore(id, status, read[..i], limit, textual)
      modifies this
      ensures Valid()
      ensures !ok ==> said == was + ResponseUpTo(id, status, read, failed, lost, limit, textual)
      ensures ok ==>
                && said == was + SentBefore(id, status, read[..i + 1], limit, textual)
                && seqNo == |AllSlices(read[..i + 1], limit)| && (lost.Some? ==> seqNo <= lost.value)
    {
      ghost var frames;
      seqNo, ok, frames := SendSlices(id, value, limit, textual, first, lost);
      if ok {
        OneMoreBuffer(was, said, id, status, read, i, limit, textual);
      } else {
        LostExit(was, said, id, status, read, i, failed, limit, textual, seqNo);
      }
    }

    /** `stream` and the failure `serve` reports for it. `buffers` are what the
        body reader returns before it is done, or before it throws if `broken`, and
        `aborts` whether the signal was aborted as each arrived; a response without
        a body has none. */
    method Stream(
      id: Id, status: int, buffers: seq<seq<Byte>>, aborts: seq<bool>, broken: bool, lost: Option<nat>,
      limit: nat, textual: bool)
      requires Valid() && limit > 0 && |aborts| == |buffers|
      modifies this
      ensures Valid()
      ensures var k := Forwarded(buffers, aborts);
              said == old(said) + ResponseUpTo(id, status, buffers[..k], k < |buffers| || broken, lost, limit, textual)
      ensures var k := Forwarded(buffers, aborts);
              var frames := ResponseUpTo(id, status, buffers[..k], k < |buffers| || broken, lost, limit, textual);
              && sent <= old(sent) + frames && (open.None? ==> sent == old(sent) + frames)
              && (open.Some? ==>
                  |sent| == if open.value < |old(sent)| + |frames| then open.value else |old(sent)| + |frames|)
    {
      ghost var frames := ResponseUpTo(
        id, status, buffers[..Forwarded(buffers, aborts)], Forwarded(buffers, aborts) < |buffers| || broken, lost,
        limit, textual);
      ghost var read := buffers[..Forwarded(buffers, aborts)];
      var failed := |read| < |buffers| || broken;
      Send(M.ForRequest(id, R.Head(status)));
      var seqNo, i := 0, 0;
      Started(old(said), id, status, read, limit, textual);
      while i < |buffers| && !aborts[i]
        invariant Valid() && i <= |read|
        invariant seqNo == |AllSlices(read[..i], limit)| && (lost.Some? ==> seqNo <= lost.value)
        invariant said == old(said) + SentBefore(id, status, read[..i], limit, textual)
      {
        var ok;
        seqNo, ok := SendBuffer(id, buffers[i], limit, textual, seqNo, lost, old(said), status, read, i, failed);
        if !ok {
          TookMore(old(sent), old(said), frames, sent, said, open);
          return;
        }
        i := i + 1;
      }
      Send(M.ForRequest(id, if i < |buffers| || broken then R.Err else R.End(seqNo)));
      LastExit(old(said), said, id, status, read, i, failed, lost, limit, textual, seqNo);
      TookMore(old(sent), old(said), frames, sent, said, open);
    }
  }

  lemma {:induction false} SlicesOfMore(buffers: seq<seq<Byte>>, i: nat, limit: nat)
    requires limit > 0 && i <= |buffers|
    ensures AllSlices(buffers[..i], limit) <= AllSlices(buffers, limit)
    decreases |buffers|
  {
    if i == |buffers| {
      assert buffers[..i] == buffers;
    } else {
      var front := buffers[..|buffers| - 1];
      SlicesOfMore(front, i, limit);
      assert front[..i] == buffers[..i];
    }
  }

  /** Head and data frames for some buffers. */
  function SentBefore(id: Id, status: int, buffers: seq<seq<Byte>>, limit: nat, textual: bool): seq<M.Frame>
    requires limit > 0
  {
    [M.ForRequest(id, R.Head(status))] + DataFrames(id, 0, AllSlices(buffers, limit), textual)
  }

  lemma OneMoreBuffer(
    was: seq<M.Frame>, now: seq<M.Frame>, id: Id, status: int, read: seq<seq<Byte>>, i: nat, limit: nat, textual: bool)
    requires limit > 0 && i < |read|
    requires var first, slices := |AllSlices(read[..i], limit)|, Slices(read[i], limit);
             now == was + SentBefore(id, status, read[..i], limit, textual) +
                    DataFrames(id, first, slices[..first + |slices| - first], textual)
    ensures now == was + SentBefore(id, status, read[..i + 1], limit, textual)
    ensures |AllSlices(read[..i + 1], limit)| == |AllSlices(read[..i], limit)| + |Slices(read[i], limit)|
  {
    var front, slices := AllSlices(read[..i], limit), Slices(read[i], limit);
    assert slices[..|front| + |slices| - |front|] == slices;
    NextBuffer(id, read, i, limit, textual);
    SplitFrames(id, status, front, slices, textual);
    Associates(was, SentBefore(id, status, read[..i], limit, textual), DataFrames(id, |front|, slices, textual));
  }

  /** The connection is lost in buffer `i`. */
  lemma LostExit(
    was: seq<M.Frame>, now: seq<M.Frame>, id: Id, status: int, read: seq<seq<Byte>>, i: nat, failed: bool, limit: nat,
    textual: bool, seqNo: nat)
    requires limit > 0 && i < |read|
    requires var first, slices := |AllSlices(read[..i], limit)|, Slices(read[i], limit);
             && first <= seqNo < first + |slices|
             && now == was + SentBefore(id, status, read[..i], limit, textual) +
                       DataFrames(id, first, slices[..seqNo - first], textual)
    ensures now == was + ResponseUpTo(id, status, read, failed, Some(seqNo), limit, textual)
  {
    var slices := Slices(read[i], limit);
    var some := slices[..seqNo - |AllSlices(read[..i], limit)|];
    LostFrames(id, status, read, i, failed, limit, textual, seqNo);
    Associates(was, SentBefore(id, status, read[..i], limit, textual),
               DataFrames(id, |AllSlices(read[..i], limit)|, some, textual));
  }

  lemma LostFrames(
    id: Id, status: int, read: seq<seq<Byte>>, i: nat, failed: bool, limit: nat, textual: bool, seqNo: nat)
    requires limit > 0 && i < |read|
    requires |AllSlices(read[..i], limit)| <= seqNo < |AllSlices(read[..i], limit)| + |Slices(read[i], limit)|
    ensures var front, slices := AllSlices(read[..i], limit), Slices(read[i], limit);
            ResponseUpTo(id, status, read, failed, Some(seqNo), limit, textual) ==
            SentBefore(id, status, read[..i], limit, textual) +
            DataFrames(id, |front|, slices[..seqNo - |front|], textual)
  {
    var front, slices := AllSlices(read[..i], limit), Slices(read[i], limit);
    NextBuffer(id, read, i, limit, textual);
    SlicesOfMore(read, i + 1, limit);
    FirstChunks(front, slices, AllSlices(read, limit), seqNo);
    UpTo(id, status, read, failed, limit, textual, seqNo);
    SplitFrames(id, status, front, slices[..seqNo - |front|], textual);
  }

  lemma SplitFrames(id: Id, status: int, front: seq<seq<Byte>>, some: seq<seq<Byte>>, textual: bool)
    ensures [M.ForRequest(id, R.Head(status))] + DataFrames(id, 0, front + some, textual) ==
            [M.ForRequest(id, R.Head(status))] + DataFrames(id, 0, front, textual) +
            DataFrames(id, |front|, some, textual)
  {
    DataFramesConcat(id, 0, front, some, textual);
    Associates([M.ForRequest(id, R.Head(status))], DataFrames(id, 0, front, textual),
               DataFrames(id, |front|, some, textual));
  }

  lemma UpTo(id: Id, status: int, read: seq<seq<Byte>>, failed: bool, limit: nat, textual: bool, n: nat)
    requires limit > 0 && n < |AllSlices(read, limit)|
    ensures ResponseUpTo(id, status, read, failed, Some(n), limit, textual) ==
            [M.ForRequest(id, R.Head(status))] + DataFrames(id, 0, AllSlices(read, limit)[..n], textual)
  {
    PrefixOfFrames(id, status, AllSlices(read, limit), failed, textual, n);
  }

  lemma FirstChunks(front: seq<seq<Byte>>, slices: seq<seq<Byte>>, all: seq<seq<Byte>>, n: nat)
    requires front + slices <= all && |front| <= n <= |front| + |slices|
    ensures n <= |all| && all[..n] == front + slices[..n - |front|]
  {
  }

  lemma Started(was: seq<M.Frame>, id: Id, status: int, read: seq<seq<Byte>>, limit: nat, textual: bool)
    requires limit > 0
    ensures AllSlices(read[..0], limit) == []
    ensures was + [M.ForRequest(id, R.Head(status))] == was + SentBefore(id, status, read[..0], limit, textual)
  {
    assert DataFrames(id, 0, [], textual) == [];
  }

  lemma LastExit(
    was: seq<M.Frame>, now: seq<M.Frame>, id: Id, status: int, read: seq<seq<Byte>>, i: nat, failed: bool,
    lost: Option<nat>, limit: nat, textual: bool, seqNo: nat)
    requires limit > 0 && i == |read| && seqNo == |AllSlices(read[..i], limit)| && (lost.Some? ==> seqNo <= lost.value)
    requires now == was + SentBefore(id, status, read[..i], limit, textual) +
                    [M.ForRequest(id, if failed then R.Err else R.End(seqNo))]
    ensures now == was + ResponseUpTo(id, status, read, failed, lost, limit, textual)
  {
    assert read[..i] == read;
  }

  lemma PrefixOfFrames(id: Id, status: int, chunks: seq<seq<Byte>>, failed: bool, textual: bool, n: nat)
    requires n <= |chunks|
    ensures ([M.ForRequest(id, R.Head(status))] + DataFrames(id, 0, chunks, textual) +
             [if failed then M.ForRequest(id, R.Err) else M.ForRequest(id, R.End(|chunks|))])[..1 + n] ==
            [M.ForRequest(id, R.Head(status))] + DataFrames(id, 0, chunks[..n], textual)
  {
    assert DataFrames(id, 0, chunks[..n], textual) == DataFrames(id, 0, chunks, textual)[..n];
  }

  lemma SlicesStep(value: seq<Byte>, offset: nat, end: nat, limit: nat)
    requires limit > 0 && offset < |value|
    requires end == if offset + limit <= |value| then offset + limit else |value|
    ensures Slices(value[offset..], limit) == [value[offset..end]] + Slices(value[end..], limit)
  {
    var rest := value[offset..];
    assert rest[..end - offset] == value[offset..end] && rest[end - offset..] == value[end..];
    if |rest| <= limit {
      assert rest == value[offset..end];
    }
  }

  /** One turn of the loop over the body. */
  lemma NextBuffer(id: Id, buffers: seq<seq<Byte>>, i: nat, limit: nat, textual: bool)
    requires limit > 0 && i < |buffers|
    ensures var front, slices := AllSlices(buffers[..i], limit), Slices(buffers[i], limit);
            && AllSlices(buffers[..i + 1], limit) == front + slices
            && DataFrames(id, 0, AllSlices(buffers[..i + 1], limit), textual) ==
               DataFrames(id, 0, front, textual) + DataFrames(id, |front|, slices, textual)
  {
    assert buffers[..i + 1][..i] == buffers[..i];
    DataFramesConcat(id, 0, AllSlices(buffers[..i], limit), Slices(buffers[i], limit), textual);
  }

  /** Where the loop stands after `k` slices of a buffer of `size` bytes. */
  function OffsetOf(size: nat, limit: nat, k: nat): (o: nat)
    ensures o <= size
  {
    if k == 0 then 0
    else if OffsetOf(size, limit, k - 1) + limit <= size then OffsetOf(size, limit, k - 1) + limit
    else size
  }

  /** The frames of the first `k` slices. */
  function FramesUpTo(id: Id, first: nat, value: seq<Byte>, limit: nat, k: nat, textual: bool): seq<M.Frame>
    requires limit > 0 && k <= |Slices(value, limit)|
  {
    DataFrames(id, first, Slices(value, limit)[..k], textual)
  }

  lemma NoFrames(id: Id, first: nat, value: seq<Byte>, limit: nat, textual: bool)
    requires limit > 0
    ensures FramesUpTo(id, first, value, limit, 0, textual) == []
  {
  }

  /** What is left of a buffer is cut into what is left of its slices. */
  lemma {:induction false} SlicesFrom(value: seq<Byte>, limit: nat, k: nat)
    requires limit > 0 && k <= |Slices(value, limit)|
    ensures Slices(value[OffsetOf(|value|, limit, k)..], limit) == Slices(value, limit)[k..]
  {
    if k == 0 {
      assert value[0..] == value;
    } else {
      SlicesFrom(value, limit, k - 1);
      OneSliceFewer(value, limit, k - 1);
    }
  }

  lemma SlicesOfNone(value: seq<Byte>, limit: nat)
    requires limit > 0
    ensures Slices(value, limit) == [] <==> value == []
  {
  }

  lemma OneSliceFewer(value: seq<Byte>, limit: nat, k: nat)
    requires limit > 0 && k < |Slices(value, limit)|
    requires Slices(value[OffsetOf(|value|, limit, k)..], limit) == Slices(value, limit)[k..]
    ensures var o, end := OffsetOf(|value|, limit, k), OffsetOf(|value|, limit, k + 1);
            && o < |value| && Slices(value, limit)[k] == value[o..end]
            && Slices(value[end..], limit) == Slices(value, limit)[k + 1..]
  {
    var o, all := OffsetOf(|value|, limit, k), Slices(value, limit);
    assert all[k..] != [];
    SlicesOfNone(value[o..], limit);
    SlicesStep(value, o, OffsetOf(|value|, limit, k + 1), limit);
    assert all[k..][0] == all[k] && all[k..][1..] == all[k + 1..];
  }

  lemma AllSent(value: seq<Byte>, limit: nat, k: nat)
    requires limit > 0 && k <= |Slices(value, limit)| && OffsetOf(|value|, limit, k) == |value|
    ensures k == |Slices(value, limit)|
  {
    SlicesFrom(value, limit, k);
    assert value[|value|..] == [];
  }

  lemma OneMoreFrame(was: seq<M.Frame>, frames: seq<M.Frame>, f: M.Frame)
    ensures was + frames + [f] == was + (frames + [f])
  {
  }

  lemma SlicesRemain(value: seq<Byte>, limit: nat, k: nat)
    requires limit > 0 && k <= |Slices(value, limit)| && OffsetOf(|value|, limit, k) < |value|
    ensures k < |Slices(value, limit)|
  {
    SlicesFrom(value, limit, k);
    SlicesOfNone(value[OffsetOf(|value|, limit, k)..], limit);
  }

  /** One turn of the loop over a buffer. */
  lemma NextFrame(
    was: seq<M.Frame>, frames: seq<M.Frame>, id: Id, first: nat, value: seq<Byte>, limit: nat, k: nat, textual: bool,
    f: M.Frame)
    requires limit > 0 && k < |Slices(value, limit)| && frames == FramesUpTo(id, first, value, limit, k, textual)
    requires OffsetOf(|value|, limit, k) <= OffsetOf(|value|, limit, k + 1)
    requires f == DataFrame(id, first + k, value[OffsetOf(|value|, limit, k)..OffsetOf(|value|, limit, k + 1)], textual)
    ensures frames + [f] == FramesUpTo(id, first, value, limit, k + 1, textual)
    ensures was + frames + [f] == was + (frames + [f])
  {
    SlicesFrom(value, limit, k);
    OneSliceFewer(value, limit, k);
    OneMoreFrame(was, frames, f);
    var all := Slices(value, limit);
    assert all[..k + 1] == all[..k] + [all[k]];
  }
}
