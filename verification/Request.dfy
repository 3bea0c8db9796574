/** One request on the control plane: the delivery state behind `Do`, the pump
    that empties it into the response pipe, and its share of the connection.
    Multiplex runs many of these side by side over one read loop. */
module Request {
  import opened Wrappers
  import opened Utf8
  import opened Payload

  /** Chunks one slow reader may leave queued before the read loop waits. */
  const STREAM_BUFFER: nat := 32

  /** What the read loop queues: a decoded chunk, or the nil that marks `end`. */
  datatype Item = Chunk(seqNo: int, bytes: seq<Byte>) | EndMark(chunks: int)

  /** Where the goroutine that owns the request stands. */
  datatype Pc =
    | Writing                    // enlisted, its `req` frame not yet written
    | Waiting                    // in the select of `Do`
    | Abandoned                  // the caller gave up before `head`; nobody reads the slot
    | Pumping                    // `pump` waits for the next chunk
    | Pushing(rest: seq<Byte>)   // `pump` waits for the reader to take these bytes
    | Settling                   // about to leave the table
    | Closing                    // out of the table, about to close its chunk queue
    | Finished

  /** What the write side did to the response pipe. */
  datatype Pipe = Open | Eof | Broken

  datatype Req = Req(
    heads: seq<int>, fails: nat, chunks: seq<Item>, chunksClosed: bool, nextSeq: nat,
    pc: Pc, readerClosed: bool, pipe: Pipe,
    // histories: accepted by the read loop, taken by the pump, given up by the
    // read loop when its context ended, read by the consumer, and the status the
    // caller got
    log: seq<Item>, taken: seq<Item>, lost: seq<Item>, delivered: seq<Byte>, got: Option<int>)

  const NEW_REQ: Req := Req([], 0, [], false, 0, Writing, false, Open, [], [], [], [], None)

  // ── Steps of the owning goroutine and of the consumer ──

  datatype Local =
    | Written | WriteFailed
    | Cancelled | Disconnected | TakeFail | TakeHead
    | PumpTake | PumpDrained | PumpBroken
    | Read(n: nat) | ReaderClose

  predicate LocalEnabled(r: Req, done: bool, a: Local) {
    match a
    case Written => r.pc == Writing
    case WriteFailed => r.pc == Writing
    case Cancelled => r.pc == Waiting
    case Disconnected => r.pc == Waiting && done
    case TakeFail => r.pc == Waiting && r.fails > 0
    case TakeHead => r.pc == Waiting && r.heads != []
    case PumpTake => r.pc == Pumping && r.chunks != []
    case PumpDrained => r.pc == Pumping && r.chunks == [] && r.chunksClosed
    case PumpBroken => r.pc.Pushing? && r.readerClosed
    case Read(n) => r.pc.Pushing? && !r.readerClosed && n <= |r.pc.rest|
    case ReaderClose => r.pc in {Pumping, Settling, Closing, Finished} || r.pc.Pushing?
  }

  function LocalStep(r: Req, a: Local): Req
    requires LocalEnabled(r, true, a)
  {
    match a
    case Written => r.(pc := Waiting)
    case WriteFailed => r.(pc := Settling)
    case Cancelled => r.(pc := Abandoned)
    case Disconnected => r.(pc := Settling)
    case TakeFail => r.(fails := r.fails - 1, pc := Settling)
    case TakeHead => r.(heads := r.heads[1..], pc := Pumping, got := Some(r.heads[0]))
    case PumpTake =>
      var r' := r.(chunks := r.chunks[1..], taken := r.taken + [r.chunks[0]]);
      (match r.chunks[0]
       case EndMark(_) => r'.(pipe := Eof, pc := Settling)
       case Chunk(_, b) => r'.(pc := Pushing(b)))
    case PumpDrained => r.(pipe := Broken, pc := Settling)
    case PumpBroken => r.(pipe := Broken, pc := Settling)
    case Read(n) =>
      r.(delivered := r.delivered + r.pc.rest[..n],
         pc := if n == |r.pc.rest| then Pumping else Pushing(r.pc.rest[n..]))
    case ReaderClose => r.(readerClosed := true)
  }

  // ── What one frame of the request does to it ──

  datatype ReqFrame = Head(status: int) | Data(seqNo: int, body: Payload) | End(chunks: int) | Err

  /** The read loop has looked the request up and is about to queue this. */
  datatype Held = HeldHead(status: int) | HeldItem(item: Item)

  datatype Outcome = Hold(held: Held) | Done | Fatal

  /** `dispatch` up to the channel send, for a request found in the table. */
  function Accept(r: Req, f: ReqFrame): (Req, Outcome) {
    match f
    case Head(status) => (r, Hold(HeldHead(status)))
    case Data(seqNo, body) =>
      if seqNo != r.nextSeq then (r, Fatal)
      else (match Bytes(body)
            case Ok(b) =>
              (r.(nextSeq := r.nextSeq + 1, log := r.log + [Chunk(seqNo, b)]), Hold(HeldItem(Chunk(seqNo, b))))
            case Err(_) => (r.(nextSeq := r.nextSeq + 1), Fatal))
    case End(n) =>
      if n != r.nextSeq then (r, Fatal)
      else (r.(log := r.log + [EndMark(n)]), Hold(HeldItem(EndMark(n))))
    case Err =>
      // A first failure is only buffered; a second one closes the chunk queue.
      (if r.fails == 0 then r.(fails := 1) else r.(chunksClosed := true), Done)
  }

  predicate CanSend(r: Req, h: Held) {
    if h.HeldHead? then r.heads == [] else r.chunksClosed || |r.chunks| < STREAM_BUFFER
  }

  /** Sending on a closed channel panics. */
  predicate SendPanics(r: Req, h: Held) { h.HeldItem? && r.chunksClosed }

  function Send(r: Req, h: Held): Req {
    match h
    case HeldHead(status) => r.(heads := r.heads + [status])
    case HeldItem(item) => r.(chunks := r.chunks + [item])
  }

  // ── The request by itself ──

  /** A request together with what it can see of its connection. */
  datatype View = View(
    req: Req, inTable: bool, held: seq<Held>,
    stopped: bool, closed: bool, sweeping: bool, done: bool)

  datatype Action =
    | Own(a: Local) | SettleLock | SettleClose
    | Receive(f: ReqFrame) | Deliver | Stop
    | Shut | Sweep | Finish

  predicate Enabled(v: View, a: Action) {
    match a
    case Own(l) => LocalEnabled(v.req, v.done, l)
    case SettleLock => v.req.pc == Settling
    case SettleClose => v.req.pc == Closing
    case Receive(_) => v.held == [] && !v.stopped
    case Deliver => v.held != [] && CanSend(v.req, v.held[0])
    case Stop => !v.stopped && (v.held == [] || v.held[0].HeldItem?)
    case Shut => v.stopped && !v.closed
    case Sweep => v.sweeping
    case Finish => v.closed && !v.sweeping && !v.done
  }

  /** The read loop ends. */
  function GiveUp(v: View): View {
    v.(stopped := true, held := [], req := v.req.(lost := v.req.lost + Items(v.held)))
  }

  function Step(v: View, a: Action): View
    requires Enabled(v, a)
  {
    match a
    case Own(l) => v.(req := LocalStep(v.req, l))
    case SettleLock => v.(inTable := false, req := v.req.(pc := if v.inTable then Closing else Finished))
    case SettleClose => v.(req := v.req.(chunksClosed := true, pc := Finished))
    case Receive(f) =>
      if !v.inTable then v
      else
        var (r, out) := Accept(v.req, f);
        (match out
         case Hold(h) => v.(req := r, held := [h])
         case Done => v.(req := r)
         case Fatal => v.(req := r, stopped := true))
    case Deliver =>
      // a panic unwinds the read loop, which loses what it held
      if SendPanics(v.req, v.held[0]) then GiveUp(v) else v.(req := Send(v.req, v.held[0]), held := [])
    case Stop => GiveUp(v)
    case Shut => v.(closed := true, inTable := false, sweeping := v.inTable)
    case Sweep => v.(sweeping := false, req := v.req.(chunksClosed := true))
    case Finish => v.(done := true)
  }

  function Items(held: seq<Held>): seq<Item> {
    if held != [] && held[0].HeldItem? then [held[0].item] else []
  }

  // ── What every step keeps ──

  function Chunks(items: seq<Item>): nat {
    if items == [] then 0 else Chunks(items[..|items| - 1]) + (if items[|items| - 1].Chunk? then 1 else 0)
  }

  /** Chunks carry the numbers 0, 1, 2, … and every end mark the count so far. */
  predicate Numbered(items: seq<Item>) {
    items == [] ||
    var init := items[..|items| - 1];
    && Numbered(init)
    && (match items[|items| - 1]
        case Chunk(seqNo, _) => seqNo == Chunks(init)
        case EndMark(n) => n == Chunks(init))
  }

  predicate OnlyChunks(items: seq<Item>) { forall i | 0 <= i < |items| :: items[i].Chunk? }

  /** The bytes of the chunks, in order. */
  function Body(items: seq<Item>): seq<Byte> {
    if items == [] then []
    else Body(items[..|items| - 1]) + (if items[|items| - 1].Chunk? then items[|items| - 1].bytes else [])
  }

  predicate Undisturbed(r: Req) { r.taken == [] && r.delivered == [] && r.pipe == Open }

  /** Nothing accepted is lost, repeated or reordered on its way to the reader. */
  predicate Faithful(v: View) {
    var r := v.req;
    && r.log == r.taken + r.chunks + Items(v.held) + r.lost
    && |v.held| <= 1 && (r.lost != [] ==> v.stopped) && (v.stopped ==> v.held == [])
    && Numbered(r.log) && (!v.stopped ==> r.nextSeq == Chunks(r.log))
    && |r.chunks| <= STREAM_BUFFER && |r.heads| <= 1 && r.fails <= 1
  }

  predicate Piped(r: Req) {
    && (r.pipe == Eof ==> r.taken != [] && r.taken[|r.taken| - 1].EndMark? && OnlyChunks(r.taken[..|r.taken| - 1]))
    && (r.pipe != Eof ==> OnlyChunks(r.taken))
    && (r.pc in {Writing, Waiting, Abandoned} ==> Undisturbed(r))
    && (r.pc == Pumping || r.pc.Pushing? ==> r.pipe == Open)
    && (r.pipe == Broken ==> r.delivered <= Body(r.taken))
    && (r.pipe != Broken ==> Body(r.taken) == r.delivered + (if r.pc.Pushing? then r.pc.rest else []))
  }

  /** Someone always owes the chunk queue its close, and a request leaves the
      table only by settling or by the shutdown of its connection. */
  predicate Accounted(v: View) {
    var r := v.req;
    && (v.inTable || v.sweeping || r.pc == Closing || r.chunksClosed)
    && (v.inTable ==> !v.closed && r.pc !in {Closing, Finished})
    && (!v.closed && r.pc !in {Closing, Finished} ==> v.inTable)
    && (v.sweeping ==> v.closed) && (v.done ==> v.closed && !v.sweeping) && (v.closed ==> v.stopped)
  }

  predicate Good(v: View) { Faithful(v) && Piped(v.req) && Accounted(v) }

  lemma ChunksSnoc(items: seq<Item>, item: Item)
    ensures Chunks(items + [item]) == Chunks(items) + (if item.Chunk? then 1 else 0)
  {
    assert (items + [item])[..|items|] == items;
  }

  lemma BodySnoc(items: seq<Item>, item: Item)
    ensures Body(items + [item]) == Body(items) + (if item.Chunk? then item.bytes else [])
  {
    assert (items + [item])[..|items|] == items;
  }

  lemma NumberedSnoc(items: seq<Item>, item: Item)
    ensures Numbered(items + [item]) <==>
            Numbered(items) && (if item.Chunk? then item.seqNo else item.chunks) == Chunks(items)
  {
    assert (items + [item])[..|items|] == items;
  }

  lemma FaithfulTake(v: View)
    requires Faithful(v) && Enabled(v, Own(PumpTake))
    ensures Faithful(Step(v, Own(PumpTake)))
  {
    var r := v.req;
    assert r.taken + r.chunks == r.taken + [r.chunks[0]] + r.chunks[1..];
  }

  lemma FaithfulOwn(v: View, l: Local)
    requires Faithful(v) && Enabled(v, Own(l))
    ensures Faithful(Step(v, Own(l)))
  {
    if l == PumpTake {
      FaithfulTake(v);
    } else {
      var r, t := v.req, LocalStep(v.req, l);
      assert t.log == r.log && t.taken == r.taken && t.chunks == r.chunks && t.lost == r.lost;
    }
  }

  lemma FaithfulAccepted(v: View, item: Item)
    requires Faithful(v) && v.held == [] && !v.stopped
    requires (if item.Chunk? then item.seqNo else item.chunks) == v.req.nextSeq
    ensures var r := v.req.(log := v.req.log + [item], nextSeq := v.req.nextSeq + if item.Chunk? then 1 else 0);
            Faithful(v.(req := r, held := [HeldItem(item)]))
  {
    ChunksSnoc(v.req.log, item);
    NumberedSnoc(v.req.log, item);
    assert v.req.log == v.req.taken + v.req.chunks;
    assert v.req.log + [item] == v.req.taken + v.req.chunks + [item] + [];
  }

  lemma FaithfulData(v: View, seqNo: int, body: Payload)
    requires Faithful(v) && v.held == [] && !v.stopped && v.inTable
    ensures Faithful(Step(v, Receive(Data(seqNo, body))))
  {
    var b := Bytes(body);
    if seqNo == v.req.nextSeq && b.Ok? {
      FaithfulAccepted(v, Chunk(seqNo, b.value));
    }
  }

  lemma FaithfulNonData(v: View, f: ReqFrame)
    requires Faithful(v) && v.held == [] && !v.stopped && v.inTable && !f.Data?
    ensures Faithful(Step(v, Receive(f)))
  {
    if f.End? && f.chunks == v.req.nextSeq {
      FaithfulAccepted(v, EndMark(f.chunks));
    }
  }

  lemma FaithfulReceive(v: View, f: ReqFrame)
    requires Faithful(v) && Enabled(v, Receive(f))
    ensures Faithful(Step(v, Receive(f)))
  {
    if v.inTable {
      match f
      case Data(seqNo, body) => FaithfulData(v, seqNo, body);
      case _ => FaithfulNonData(v, f);
    }
  }

  lemma FaithfulGiveUp(v: View)
    requires Faithful(v)
    ensures Faithful(GiveUp(v))
  {
    assert Items([]) == [];
    if v.held == [] {
      assert v.req.lost + [] == v.req.lost;
    }
  }

  lemma FaithfulSend(v: View)
    requires Faithful(v) && Enabled(v, Deliver) && !SendPanics(v.req, v.held[0])
    ensures Faithful(v.(req := Send(v.req, v.held[0]), held := []))
  {
  }

  lemma FaithfulRest(v: View, a: Action)
    requires Faithful(v) && Enabled(v, a) && (a.SettleLock? || a.SettleClose? || a.Shut? || a.Sweep? || a.Finish?)
    ensures Faithful(Step(v, a))
  {
  }

  lemma FaithfulLoop(v: View, a: Action)
    requires Faithful(v) && Enabled(v, a) && !a.Own? && !a.Receive?
    ensures Faithful(Step(v, a))
  {
    match a
    case Stop => FaithfulGiveUp(v);
    case Deliver =>
      if SendPanics(v.req, v.held[0]) {
        FaithfulGiveUp(v);
      } else {
        FaithfulSend(v);
      }
    case _ => FaithfulRest(v, a);
  }

  lemma FaithfulStep(v: View, a: Action)
    requires Faithful(v) && Enabled(v, a)
    ensures Faithful(Step(v, a))
  {
    match a
    case Own(l) => FaithfulOwn(v, l);
    case Receive(f) => FaithfulReceive(v, f);
    case _ => FaithfulLoop(v, a);
  }

  lemma PipedTake(r: Req)
    requires Piped(r) && LocalEnabled(r, false, PumpTake)
    ensures Piped(LocalStep(r, PumpTake))
  {
    var item, t := r.chunks[0], LocalStep(r, PumpTake);
    BodySnoc(r.taken, item);
    assert t.taken == r.taken + [item] && t.delivered == r.delivered;
    assert r.delivered + [] == r.delivered;
    if item.EndMark? {
      assert t.taken[..|t.taken| - 1] == r.taken;
    } else {
      assert t.pc == Pushing(item.bytes);
    }
  }

  lemma PipedOwn(r: Req, l: Local)
    requires Piped(r) && LocalEnabled(r, true, l)
    ensures Piped(LocalStep(r, l))
  {
    if l == PumpTake {
      PipedTake(r);
    } else if l.Read? {
      assert r.delivered + r.pc.rest[..l.n] + r.pc.rest[l.n..] == r.delivered + r.pc.rest;
    }
  }

  /** The read loop never touches what the pump has done. */
  lemma PipedElsewhere(r: Req, r': Req)
    requires Piped(r)
    requires r'.taken == r.taken && r'.delivered == r.delivered && r'.pipe == r.pipe
    requires r'.pc == r.pc || r'.pc == Finished || (r'.pc == Closing && !r.pc.Pushing?)
    requires r'.pc == Finished ==> r.pc in {Settling, Closing, Finished}
    ensures Piped(r')
  {
  }

  lemma PipedStep(v: View, a: Action)
    requires Piped(v.req) && Enabled(v, a)
    ensures Piped(Step(v, a).req)
  {
    match a
    case Own(l) => PipedOwn(v.req, l);
    case Receive(f) => PipedReceive(v, f);
    case Deliver => PipedDeliver(v);
    case _ => PipedRest(v, a);
  }

  lemma PipedReceive(v: View, f: ReqFrame)
    requires Piped(v.req) && Enabled(v, Receive(f))
    ensures Piped(Step(v, Receive(f)).req)
  {
    PipedElsewhere(v.req, Accept(v.req, f).0);
  }

  lemma PipedRest(v: View, a: Action)
    requires Piped(v.req) && Enabled(v, a) && !a.Own? && !a.Receive? && !a.Deliver?
    ensures Piped(Step(v, a).req)
  {
    PipedElsewhere(v.req, Step(v, a).req);
  }

  lemma PipedDeliver(v: View)
    requires Piped(v.req) && Enabled(v, Deliver)
    ensures Piped(Step(v, Deliver).req)
  {
    if SendPanics(v.req, v.held[0]) {
      PipedElsewhere(v.req, GiveUp(v).req);
    } else {
      PipedElsewhere(v.req, Send(v.req, v.held[0]));
    }
  }

  lemma AccountedStep(v: View, a: Action)
    requires Accounted(v) && Enabled(v, a)
    ensures Accounted(Step(v, a))
  {
  }

  lemma GoodStep(v: View, a: Action)
    requires Good(v) && Enabled(v, a)
    ensures Good(Step(v, a))
  {
    FaithfulStep(v, a);
    PipedStep(v, a);
    AccountedStep(v, a);
  }

  // ── What that means for the reader and for the slot ──

  lemma {:induction false} NumberedAt(items: seq<Item>, k: nat)
    requires Numbered(items) && k < |items|
    ensures Numbered(items[..k])
    ensures (if items[k].Chunk? then items[k].seqNo else items[k].chunks) == Chunks(items[..k])
  {
    var init := items[..|items| - 1];
    if k < |init| {
      NumberedAt(init, k);
      assert init[..k] == items[..k];
    }
  }

  lemma {:induction false} OnlyChunksCount(items: seq<Item>)
    requires OnlyChunks(items)
    ensures Chunks(items) == |items|
  {
    if items != [] {
      OnlyChunksCount(items[..|items| - 1]);
    }
  }

  lemma {:induction false} BodyOfPrefix(items: seq<Item>, k: nat)
    requires k <= |items|
    ensures Body(items[..k]) <= Body(items)
  {
    if k == |items| {
      assert items[..k] == items;
    } else {
      BodyOfPrefix(items[..|items| - 1], k);
      assert items[..|items| - 1][..k] == items[..k];
    }
  }

  /** The reader never sees a byte out of order: what it has read is a prefix of
      the accepted chunks put together. */
  lemma DeliveredIsPrefix(v: View)
    requires Good(v)
    ensures v.req.delivered <= Body(v.req.log)
  {
    var r := v.req;
    BodyOfPrefix(r.log, |r.taken|);
    assert r.log[..|r.taken|] == r.taken;
    assert r.delivered <= Body(r.taken);
  }

  lemma {:induction false} ChunksAreCounted(items: seq<Item>, i: nat)
    requires Numbered(items) && OnlyChunks(items) && i < |items|
    ensures items[i].seqNo == i
  {
    NumberedAt(items, i);
    OnlyChunksCount(items[..i]);
  }

  lemma EofDelivers(r: Req)
    requires Piped(r) && r.pipe == Eof
    ensures r.delivered == Body(r.taken[..|r.taken| - 1])
  {
    var front, last := r.taken[..|r.taken| - 1], r.taken[|r.taken| - 1];
    BodySnoc(front, last);
    assert r.taken == front + [last];
    assert Body(front) + [] == Body(front) && r.delivered + [] == r.delivered;
  }

  /** Counted items of a log that begins with chunks only and then an end mark. */
  lemma CountedPrefix(log: seq<Item>, n: nat)
    requires Numbered(log) && n < |log| && OnlyChunks(log[..n]) && log[n].EndMark?
    ensures log[n] == EndMark(n)
    ensures forall i | 0 <= i < n :: log[i].Chunk? && log[i].seqNo == i
  {
    var front := log[..n];
    NumberedAt(log, n);
    OnlyChunksCount(front);
    forall i | 0 <= i < n
      ensures log[i].Chunk? && log[i].seqNo == i
    {
      ChunksAreCounted(front, i);
      assert log[i] == front[i];
    }
  }

  /** A clean end of the pipe means that chunks 0 to n-1 and then an end mark
      counting n were accepted, in that order, and that the reader has read
      exactly those chunks, whatever the node sent besides. */
  lemma CleanEofIsComplete(v: View) returns (n: nat)
    requires Good(v) && v.req.pipe == Eof
    ensures n < |v.req.log| && v.req.log[n] == EndMark(n)
    ensures forall i | 0 <= i < n :: v.req.log[i].Chunk? && v.req.log[i].seqNo == i
    ensures v.req.delivered == Body(v.req.log[..n])
  {
    var taken, log := v.req.taken, v.req.log;
    n := |taken| - 1;
    assert log[..n] == taken[..n] && log[n] == taken[n];
    CountedPrefix(log, n);
    EofDelivers(v.req);
  }

  /** `pump` over all that its queue will ever hold, `closed` if the queue is
      closed after that. If the reader goes away it does so while item `gone` is
      written, having read `part` bytes of it. */
  method Pump(items: seq<Item>, closed: bool, gone: Option<nat>, part: nat)
    returns (n: nat, delivered: seq<Byte>, pipe: Pipe)
    requires gone.Some? && gone.value < |items| && items[gone.value].Chunk? ==> part <= |items[gone.value].bytes|
    ensures n <= |items| && OnlyChunks(items[..n]) && (gone.Some? ==> n <= gone.value)
    ensures pipe == Eof ==> n < |items| && items[n].EndMark? && delivered == Body(items[..n])
    ensures pipe == Open ==> n == |items| && !closed && delivered == Body(items)
    ensures pipe == Broken ==>
              || (n == |items| && closed && delivered == Body(items))
              || (gone == Some(n) && n < |items| && items[n].Chunk? &&
                  delivered == Body(items[..n]) + items[n].bytes[..part])
  {
    n, delivered, pipe := 0, [], Open;
    while n < |items|
      invariant n <= |items| && OnlyChunks(items[..n]) && delivered == Body(items[..n])
      invariant gone.Some? ==> n <= gone.value
    {
      var item := items[n];
      match item {
        case EndMark(_) =>
          return n, delivered, Eof;
        case Chunk(_, bytes) =>
          if gone == Some(n) {
            return n, delivered + bytes[..part], Broken;
          }
          BodySnoc(items[..n], item);
          assert items[..n + 1] == items[..n] + [item];
          delivered := delivered + bytes;
      }
      n := n + 1;
    }
    assert items[..n] == items;
    if closed {
      pipe := Broken;
    }
  }

  lemma AcceptKeepsOwner(r: Req, f: ReqFrame)
    ensures Accept(r, f).0.pc == r.pc
  {
  }

  /** A request its caller gave up on keeps its slot through every step until
      the connection shuts down: no frame from the node frees it. */
  lemma AbandonedKeepsSlot(v: View, a: Action)
    requires Good(v) && v.req.pc == Abandoned && Enabled(v, a)
    ensures Step(v, a).req.pc == Abandoned
    ensures v.inTable <==> !v.closed
    ensures Step(v, a).inTable <==> v.inTable && a != Shut
  {
    if a.Receive? {
      AcceptKeepsOwner(v.req, a.f);
    }
  }

  /** Not even the one the node answers a cancellation with: after it the slot is
      still there, and nobody will read the answer. */
  lemma CancelledKeepsSlot()
    ensures var start := View(NEW_REQ, true, [], false, false, false, false);
            var acts := [Own(Written), Own(Cancelled), Receive(ReqFrame.Err)];
            Legal(start, acts) &&
            var v := Run(start, acts);
            v.inTable && !v.stopped && v.req.pc == Abandoned && v.req.fails == 1
  {
    var v0 := View(NEW_REQ, true, [], false, false, false, false);
    var v1 := Step(v0, Own(Written));
    var v2 := Step(v1, Own(Cancelled));
    RunCons(v2, Receive(ReqFrame.Err), []);
    RunCons(v1, Own(Cancelled), [Receive(ReqFrame.Err)]);
    RunCons(v0, Own(Written), [Own(Cancelled), Receive(ReqFrame.Err)]);
  }

  /** A failure frame closes the chunk queue exactly when an earlier one is still
      unread, whether or not the response has begun. */
  lemma FailureClosesQueue(v: View)
    requires Good(v) && v.inTable && v.held == [] && !v.stopped
    ensures var t := Step(v, Receive(ReqFrame.Err));
            && (t.req.chunksClosed <==> v.req.chunksClosed || v.req.fails == 1)
            && t.inTable && !t.stopped && t.req.pc == v.req.pc && t.req.pipe == v.req.pipe && t.req.fails == 1
  {
  }

  /** So a stream that fails once after its head goes on: nobody reads the
      failure, the queue stays open and the reader keeps waiting. */
  lemma FirstFailureEndsNothing(status: int)
    ensures var start := View(NEW_REQ, true, [], false, false, false, false);
            var acts := [Own(Written), Receive(Head(status)), Deliver, Own(TakeHead), Receive(ReqFrame.Err)];
            Legal(start, acts) &&
            var v := Run(start, acts);
            && v.inTable && !v.stopped && v.req.fails == 1
            && v.req.pc == Pumping && v.req.pipe == Open && !v.req.chunksClosed
  {
    var v0 := View(NEW_REQ, true, [], false, false, false, false);
    var v1 := Step(v0, Own(Written));
    var v2 := Step(v1, Receive(Head(status)));
    var v3 := Step(v2, Deliver);
    var v4 := Step(v3, Own(TakeHead));
    var v5 := Step(v4, Receive(ReqFrame.Err));
    RunCons(v4, Receive(ReqFrame.Err), []);
    RunCons(v3, Own(TakeHead), [Receive(ReqFrame.Err)]);
    RunCons(v2, Deliver, [Own(TakeHead), Receive(ReqFrame.Err)]);
    RunCons(v1, Receive(Head(status)), [Deliver, Own(TakeHead), Receive(ReqFrame.Err)]);
    RunCons(v0, Own(Written), [Receive(Head(status)), Deliver, Own(TakeHead), Receive(ReqFrame.Err)]);
    assert v5.req.pc == Pumping;
  }

  /** What `Accept` takes: the chunk or end mark the counter asks for. */
  lemma AcceptedItem(r: Req, f: ReqFrame)
    ensures f.Data? && f.seqNo == r.nextSeq && Bytes(f.body).Ok? ==>
              Accept(r, f).1.Hold? && Accept(r, f).0.log == r.log + [Chunk(f.seqNo, Bytes(f.body).value)]
    ensures f.End? && f.chunks == r.nextSeq ==>
              Accept(r, f).1.Hold? && Accept(r, f).0.log == r.log + [EndMark(f.chunks)]
    ensures f.Head? || f.Err? ==> !Accept(r, f).1.Fatal? && Accept(r, f).0.log == r.log
  {
  }

  /** Only a frame adds to what was accepted; nothing puts a slot back or
      restarts the read loop. */
  lemma OnlyFramesAreAccepted(v: View, a: Action)
    requires Enabled(v, a) && !a.Receive?
    ensures Step(v, a).req.log == v.req.log
    ensures (Step(v, a).inTable ==> v.inTable) && (v.stopped ==> Step(v, a).stopped)
  {
    if a.Own? {
      var r, l := v.req, a.a;
      assert LocalStep(r, l).log == r.log;
    } else {
      assert Step(v, a).req.log == v.req.log;
    }
  }

  ghost predicate Legal(v: View, acts: seq<Action>)
    decreases acts
  {
    acts == [] || (Enabled(v, acts[0]) && Legal(Step(v, acts[0]), acts[1..]))
  }

  ghost function Run(v: View, acts: seq<Action>): View
    requires Legal(v, acts)
    decreases acts
  {
    if acts == [] then v else Run(Step(v, acts[0]), acts[1..])
  }

  lemma RunCons(v: View, a: Action, rest: seq<Action>)
    requires Enabled(v, a) && Legal(Step(v, a), rest)
    ensures Legal(v, [a] + rest) && Run(v, [a] + rest) == Run(Step(v, a), rest)
  {
    assert ([a] + rest)[1..] == rest;
  }

  lemma {:induction false} GoodRun(v: View, acts: seq<Action>)
    requires Good(v) && Legal(v, acts)
    ensures Good(Run(v, acts))
    decreases acts
  {
    if acts != [] {
      GoodStep(v, acts[0]);
      GoodRun(Step(v, acts[0]), acts[1..]);
    }
  }

  // ── What was accepted, and what the node sent ──

  function FramesIn(acts: seq<Action>): seq<ReqFrame> {
    if acts == [] then [] else (if acts[0].Receive? then [acts[0].f] else []) + FramesIn(acts[1..])
  }

  /** The chunk or end mark a frame carries. */
  function ItemOf(f: ReqFrame): seq<Item> {
    match f
    case Data(seqNo, body) =>
      (match Bytes(body)
       case Ok(b) => [Chunk(seqNo, b)]
       case Err(_) => [])
    case End(n) => [EndMark(n)]
    case _ => []
  }

  function ItemsOf(frames: seq<ReqFrame>): seq<Item> {
    if frames == [] then [] else ItemOf(frames[0]) + ItemsOf(frames[1..])
  }

  lemma AcceptedOf(r: Req, f: ReqFrame)
    ensures Accept(r, f).0.log == if Accept(r, f).1.Fatal? then r.log else r.log + ItemOf(f)
  {
  }

  /** Nothing more is accepted once the read loop has stopped or the slot is gone. */
  lemma NothingMore(v: View, a: Action)
    requires Enabled(v, a) && (v.stopped || !v.inTable)
    ensures var t := Step(v, a); (t.stopped || !t.inTable) && t.req.log == v.req.log
  {
    if a.Own? {
      assert LocalStep(v.req, a.a).log == v.req.log;
    }
  }

  lemma {:induction false} NothingMoreRun(v: View, acts: seq<Action>)
    requires Legal(v, acts) && (v.stopped || !v.inTable)
    ensures Run(v, acts).req.log == v.req.log
    decreases acts
  {
    if acts != [] {
      NothingMore(v, acts[0]);
      NothingMoreRun(Step(v, acts[0]), acts[1..]);
    }
  }

  lemma ItemsOfCons(f: ReqFrame, rest: seq<ReqFrame>, n: nat)
    requires n <= |rest|
    ensures ItemsOf(([f] + rest)[..n + 1]) == ItemOf(f) + ItemsOf(rest[..n])
  {
    assert ([f] + rest)[..n + 1] == [f] + rest[..n];
    assert ([f] + rest[..n])[1..] == rest[..n];
  }

  lemma ReceiveStep(v: View, f: ReqFrame)
    requires Enabled(v, Receive(f)) && v.inTable
    ensures var t := Step(v, Receive(f));
            if t.stopped then t.req.log == v.req.log else t.req.log == v.req.log + ItemOf(f)
  {
    AcceptedOf(v.req, f);
  }

  /** Every frame of a request is accepted, in order and without a gap, up to the
      one at which its slot is gone or the read loop gives up. */
  lemma {:induction false} AcceptedFrames(v: View, acts: seq<Action>) returns (n: nat)
    requires Legal(v, acts)
    ensures n <= |FramesIn(acts)|
    ensures Run(v, acts).req.log == v.req.log + ItemsOf(FramesIn(acts)[..n])
    decreases acts
  {
    n := 0;
    if v.stopped || !v.inTable {
      NothingMoreRun(v, acts);
    } else if acts != [] {
      var t := Step(v, acts[0]);
      if acts[0].Receive? {
        ReceiveStep(v, acts[0].f);
        if t.stopped {
          NothingMoreRun(t, acts[1..]);
        } else {
          var m := AcceptedFrames(t, acts[1..]);
          ItemsOfCons(acts[0].f, FramesIn(acts[1..]), m);
          n := m + 1;
          var items := ItemsOf(FramesIn(acts[1..])[..m]);
          assert v.req.log + ItemOf(acts[0].f) + items == v.req.log + (ItemOf(acts[0].f) + items);
        }
      } else {
        OnlyFramesAreAccepted(v, acts[0]);
        n := AcceptedFrames(t, acts[1..]);
        assert FramesIn(acts) == FramesIn(acts[1..]);
      }
    }
  }
}
