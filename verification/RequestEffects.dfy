/** What the steps of one request bring about for its caller, its reader and its
    slot, told by what can be seen of them. */
module RequestEffects {
  import opened Wrappers
  import R = Request

  lemma RunTwo(v: R.View, a: R.Action, b: R.Action)
    requires R.Enabled(v, a) && R.Enabled(R.Step(v, a), b)
    ensures R.Legal(v, [a, b]) && R.Run(v, [a, b]) == R.Step(R.Step(v, a), b)
  {
    R.RunCons(R.Step(v, a), b, []);
    R.RunCons(v, a, [b]);
  }

  // ── The caller ──

  /** The status of a head that arrives while the caller waits is what it gets, and
      the pump starts. */
  lemma HeadReachesCaller(v: R.View, status: int)
    requires v.inTable && !v.stopped && v.held == [] && v.req.heads == [] && v.req.pc == R.Waiting
    ensures R.Enabled(v, R.Receive(R.Head(status)))
    ensures var t := R.Step(v, R.Receive(R.Head(status)));
            && R.Legal(t, [R.Deliver, R.Own(R.TakeHead)])
            && R.Run(t, [R.Deliver, R.Own(R.TakeHead)]) == v.(req := v.req.(pc := R.Pumping, got := Some(status)))
  {
    var t := R.Step(v, R.Receive(R.Head(status)));
    RunTwo(t, R.Deliver, R.Own(R.TakeHead));
  }

  /** A written request waits; a waiting caller learns of a failure, or of the end of
      its connection. */
  lemma CallerWaits(r: R.Req, done: bool)
    ensures r.pc == R.Writing ==>
              && R.LocalEnabled(r, done, R.Written) && R.LocalStep(r, R.Written) == r.(pc := R.Waiting)
              && R.LocalEnabled(r, done, R.WriteFailed)
    ensures r.pc == R.Waiting ==>
              && (R.LocalEnabled(r, done, R.TakeFail) <==> r.fails > 0)
              && (R.LocalEnabled(r, done, R.TakeHead) <==> r.heads != [])
              && (R.LocalEnabled(r, done, R.Disconnected) <==> done)
    ensures r.pc == R.Waiting && r.fails > 0 ==> R.LocalStep(r, R.TakeFail).fails == r.fails - 1
  {
  }

  predicate Leaving(pc: R.Pc) { pc in {R.Settling, R.Closing, R.Finished} }

  /** A caller who could not write its request, whose connection ended or who got a
      failure goes on to settle, as a pump that is done does. */
  lemma FailureSettles(v: R.View, l: R.Local)
    requires R.Enabled(v, R.Own(l))
    requires l in {R.WriteFailed, R.Disconnected, R.TakeFail, R.PumpDrained, R.PumpBroken} ||
             (l == R.PumpTake && v.req.chunks[0].EndMark?)
    ensures R.Step(v, R.Own(l)).req.pc == R.Settling
    ensures R.Enabled(R.Step(v, R.Own(l)), R.SettleLock)
  {
  }

  /** Settling takes the slot out of the table and leaves its queue closed. */
  lemma SettlingFreesTheSlot(v: R.View)
    requires R.Good(v) && v.req.pc == R.Settling && v.inTable
    ensures R.Legal(v, [R.SettleLock, R.SettleClose])
    ensures var t := R.Run(v, [R.SettleLock, R.SettleClose]);
            !t.inTable && t.req.chunksClosed && t.req.pc == R.Finished
  {
    RunTwo(v, R.SettleLock, R.SettleClose);
  }

  lemma LeavingStep(v: R.View, a: R.Action)
    requires R.Enabled(v, a) && Leaving(v.req.pc)
    ensures Leaving(R.Step(v, a).req.pc)
  {
    if a.Receive? {
      R.AcceptKeepsOwner(v.req, a.f);
    }
  }

  /** Who settles does nothing else, and a finished request has left the table. */
  lemma {:induction false} LeavingStays(v: R.View, acts: seq<R.Action>)
    requires R.Good(v) && R.Legal(v, acts) && Leaving(v.req.pc)
    ensures var t := R.Run(v, acts);
            Leaving(t.req.pc) && (t.req.pc == R.Finished ==> !t.inTable && (t.req.chunksClosed || t.sweeping))
    decreases acts
  {
    if acts != [] {
      LeavingStep(v, acts[0]);
      R.GoodStep(v, acts[0]);
      LeavingStays(R.Step(v, acts[0]), acts[1..]);
    }
  }

  lemma AbandonedByCancel(v: R.View, a: R.Action)
    requires R.Enabled(v, a) && v.req.pc != R.Abandoned && R.Step(v, a).req.pc == R.Abandoned
    ensures a == R.Own(R.Cancelled) && v.req.pc == R.Waiting
  {
    match a
    case Receive(f) => R.AcceptKeepsOwner(v.req, f);
    case Deliver => SentPipe(v.req, v.held[0]);
    case _ =>
  }

  /** A slot is only ever abandoned by a caller who cancelled while it waited. */
  lemma {:induction false} OnlyCancelAbandons(v: R.View, acts: seq<R.Action>)
    requires R.Legal(v, acts) && v.req.pc != R.Abandoned && R.Run(v, acts).req.pc == R.Abandoned
    ensures R.Own(R.Cancelled) in acts
    decreases acts
  {
    var t := R.Step(v, acts[0]);
    if t.req.pc == R.Abandoned {
      AbandonedByCancel(v, acts[0]);
    } else {
      OnlyCancelAbandons(t, acts[1..]);
      assert forall a | a in acts[1..] :: a in acts;
    }
  }

  /** And a cancelled wait is abandoned, not settled. */
  lemma CancelAbandons(v: R.View)
    requires v.req.pc == R.Waiting
    ensures R.Enabled(v, R.Own(R.Cancelled))
    ensures R.Step(v, R.Own(R.Cancelled)) == v.(req := v.req.(pc := R.Abandoned))
  {
  }

  /** A head waits until the last one was taken, a chunk or an end until fewer than
      32 are queued, or the queue is closed. */
  lemma RoomExactly(r: R.Req, h: R.Held)
    ensures R.CanSend(r, h) <==> if h.HeldHead? then r.heads == [] else r.chunksClosed || |r.chunks| < 32
  {
  }

  // ── The pump and the reader ──

  /** The pump takes the oldest item; a chunk is what it then pushes. */
  lemma PumpTakesOldest(r: R.Req)
    requires r.pc == R.Pumping && r.chunks != []
    ensures R.LocalEnabled(r, false, R.PumpTake)
    ensures var t := R.LocalStep(r, R.PumpTake);
            && t.taken == r.taken + [r.chunks[0]] && [r.chunks[0]] + t.chunks == r.chunks
            && (r.chunks[0].Chunk? ==> t.pc == R.Pushing(r.chunks[0].bytes) && t.pipe == r.pipe)
            && (r.chunks[0].EndMark? ==> t.pc == R.Settling && t.pipe == R.Eof)
  {
  }

  /** A read gets the next bytes of the chunk, and after the last the pump goes on. */
  lemma ReadAdvances(r: R.Req, n: nat)
    requires r.pc.Pushing? && !r.readerClosed && n <= |r.pc.rest|
    ensures R.LocalEnabled(r, false, R.Read(n))
    ensures var t := R.LocalStep(r, R.Read(n));
            && |t.delivered| == |r.delivered| + n && r.delivered <= t.delivered
            && t.delivered + (if t.pc.Pushing? then t.pc.rest else []) == r.delivered + r.pc.rest
            && (t.pc == R.Pumping <==> n == |r.pc.rest|) && (t.pc.Pushing? <==> n < |r.pc.rest|)
  {
  }

  lemma OwnerPipe(r: R.Req, l: R.Local)
    requires R.LocalEnabled(r, true, l) && r.pipe == R.Open
    ensures var t := R.LocalStep(r, l);
            && (t.pipe == R.Eof <==> l == R.PumpTake && r.chunks[0].EndMark?)
            && (t.pipe == R.Broken <==> l == R.PumpDrained || l == R.PumpBroken)
  {
  }

  /** The pipe ends cleanly by an end mark alone, and breaks when the pump finds its
      queue drained and closed or its reader gone, and never otherwise. */
  lemma PipeEnds(v: R.View, a: R.Action)
    requires R.Enabled(v, a) && v.req.pipe == R.Open
    ensures var t := R.Step(v, a).req;
            && (t.pipe == R.Eof <==> a == R.Own(R.PumpTake) && v.req.chunks[0].EndMark?)
            && (t.pipe == R.Broken <==> a == R.Own(R.PumpDrained) || a == R.Own(R.PumpBroken))
  {
    match a
    case Own(l) => OwnerPipe(v.req, l);
    case Receive(f) => FramePipe(v.req, f);
    case _ => ElsewherePipe(v, a);
  }

  lemma ElsewherePipe(v: R.View, a: R.Action)
    requires R.Enabled(v, a) && !a.Own? && !a.Receive?
    ensures R.Step(v, a).req.pipe == v.req.pipe
  {
    if a == R.Deliver {
      SentPipe(v.req, v.held[0]);
    }
  }

  lemma SentPipe(r: R.Req, h: R.Held)
    ensures R.Send(r, h).pipe == r.pipe && R.Send(r, h).pc == r.pc
  {
  }

  lemma FramePipe(r: R.Req, f: R.ReqFrame)
    ensures R.Accept(r, f).0.pipe == r.pipe
  {
  }

  /** A drained and closed queue, and a reader that has gone, do end the pump. */
  lemma PumpCanEnd(r: R.Req)
    ensures r.pc == R.Pumping && r.chunks == [] && r.chunksClosed ==> R.LocalEnabled(r, false, R.PumpDrained)
    ensures r.pc.Pushing? && r.readerClosed ==> R.LocalEnabled(r, false, R.PumpBroken)
    ensures r.pc.Pushing? ==> R.LocalEnabled(r, false, R.ReaderClose) && R.LocalStep(r, R.ReaderClose).readerClosed
  {
  }
}
