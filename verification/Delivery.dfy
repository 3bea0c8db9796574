/** A response told by what the node did alone: what it read of the body, with which
    limit it cut it, and whether it came to the end. */
module Delivery {
  import opened Wrappers
  import opened Utf8
  import opened Ids
  import opened NodeStream
  import R = Request
  import M = Multiplex
  import E = EndToEnd

  /** The buffers the node read for this request, in order. */
  function ReadsOf(acts: seq<E.Action>, id: Id): seq<seq<Byte>> {
    if acts == [] then []
    else (if acts[0].NodeRead? && acts[0].id == id then [acts[0].value] else []) + ReadsOf(acts[1..], id)
  }

  function Buffers(s: E.System, id: Id): seq<seq<Byte>> { if id in s.streams then s.streams[id].buffers else [] }

  predicate IsEnded(s: E.System, id: Id) { id in s.streams && s.streams[id].status == E.Ended }

  /** One step: a read adds its buffer, an end ends, and nothing else does either. */
  lemma NodeStep(s: E.System, a: E.Action, id: Id)
    requires E.Enabled(s, a)
    ensures Buffers(E.Step(s, a), id) == Buffers(s, id) + (if a.NodeRead? && a.id == id then [a.value] else [])
    ensures IsEnded(E.Step(s, a), id) <==> IsEnded(s, id) || a == E.NodeDone(id)
  {
    assert Buffers(s, id) + [] == Buffers(s, id);
  }

  /** A stream keeps the limit and the encoding it was begun with. */
  lemma SettingsStep(s: E.System, a: E.Action, id: Id)
    requires E.Enabled(s, a)
    ensures id in s.streams ==>
              var t := E.Step(s, a);
              && id in t.streams && t.streams[id].limit == s.streams[id].limit
              && t.streams[id].textual == s.streams[id].textual
    ensures a.NodeStart? && a.id == id ==>
              var t := E.Step(s, a);
              && id !in s.streams && id in t.streams
              && t.streams[id].limit == a.limit && t.streams[id].textual == a.textual
  {
  }

  lemma {:induction false} NodeRun(s: E.System, acts: seq<E.Action>, id: Id)
    requires E.Legal(s, acts)
    ensures Buffers(E.Run(s, acts), id) == Buffers(s, id) + ReadsOf(acts, id)
    ensures IsEnded(E.Run(s, acts), id) <==> IsEnded(s, id) || E.NodeDone(id) in acts
    decreases acts
  {
    if acts == [] {
      assert Buffers(s, id) + [] == Buffers(s, id);
    } else {
      var first := if acts[0].NodeRead? && acts[0].id == id then [acts[0].value] else [];
      NodeStep(s, acts[0], id);
      NodeRun(E.Step(s, acts[0]), acts[1..], id);
      Associates(Buffers(s, id), first, ReadsOf(acts[1..], id));
      assert acts == [acts[0]] + acts[1..];
    }
  }

  lemma {:induction false} SettingsStay(s: E.System, acts: seq<E.Action>, id: Id)
    requires E.Legal(s, acts) && id in s.streams
    ensures var t := E.Run(s, acts);
            && id in t.streams && t.streams[id].limit == s.streams[id].limit
            && t.streams[id].textual == s.streams[id].textual
    decreases acts
  {
    if acts != [] {
      SettingsStep(s, acts[0], id);
      SettingsStay(E.Step(s, acts[0]), acts[1..], id);
    }
  }

  lemma {:induction false} SettingsRun(s: E.System, acts: seq<E.Action>, m: nat, id: Id)
    requires E.Legal(s, acts) && m < |acts| && acts[m].NodeStart? && acts[m].id == id
    ensures var t := E.Run(s, acts);
            id in t.streams && t.streams[id].limit == acts[m].limit && t.streams[id].textual == acts[m].textual
    decreases acts
  {
    SettingsStep(s, acts[0], id);
    if m == 0 {
      SettingsStay(E.Step(s, acts[0]), acts[1..], id);
    } else {
      SettingsRun(E.Step(s, acts[0]), acts[1..], m - 1, id);
    }
  }

  lemma CarryPrefix(front: seq<seq<Byte>>, rest: seq<seq<Byte>>, textual: bool)
    ensures Join(E.Carry(front, textual)) <= Join(E.Carry(front + rest, textual))
  {
    assert E.Carry(front + rest, textual) == E.Carry(front, textual) + E.Carry(rest, textual);
    JoinConcat(E.Carry(front, textual), E.Carry(rest, textual));
  }

  /** End to end, from the node's own actions: over every run, a reader has a prefix
      of what the buffers the node read carry, cut by the limit the response began
      with, and a clean end means that the node came to the end of that body and that
      the reader has all of it. */
  lemma ResponseArrivesWhole(acts: seq<E.Action>, m: nat, id: Id)
    requires E.Legal(E.START, acts) && id in E.Run(E.START, acts).conn.reqs
    requires m < |acts| && acts[m].NodeStart? && acts[m].id == id
    ensures var r := E.Run(E.START, acts).conn.reqs[id];
            var all := Join(E.Carry(AllSlices(ReadsOf(acts, id), acts[m].limit), acts[m].textual));
            r.delivered <= all && (r.pipe == R.Eof ==> E.NodeDone(id) in acts && r.delivered == all)
  {
    NodeRun(E.START, acts, id);
    SettingsRun(E.START, acts, m, id);
    E.InvRun(E.START, acts);
    var s := E.Run(E.START, acts);
    var st := s.streams[id];
    assert E.StreamGood(st);
    E.ReaderFollowsStream(s, id);
    assert st.buffers == ReadsOf(acts, id);
    CarryPrefix(st.chunks, Slices(st.rest, st.limit), st.textual);
    if s.conn.reqs[id].pipe == R.Eof {
      assert st.chunks + [] == st.chunks;
    }
  }
}
