/** The messages of bridged sockets, from the node to the browser's end. */
module BridgeStream {
  import opened Ids
  import opened Wrappers
  import opened Utf8
  import F = FrameSize
  import P = Payload
  import M = Multiplex
  import E = EndToEnd

  function MessageOf(f: M.Frame, id: Id): seq<M.Message> {
    if f.WsMsg? && f.id == id && P.Bytes(f.body).Ok? then [P.Bytes(f.body).value] else []
  }

  /** The messages for one bridge among some frames, in order. */
  function Messages(frames: seq<M.Frame>, id: Id): seq<M.Message> {
    if frames == [] then [] else MessageOf(frames[0], id) + Messages(frames[1..], id)
  }

  lemma {:induction false} MessagesSnoc(frames: seq<M.Frame>, f: M.Frame, id: Id)
    ensures Messages(frames + [f], id) == Messages(frames, id) + MessageOf(f, id)
  {
    if frames == [] {
      assert frames + [f] == [f] && [f][1..] == [];
    } else {
      MessagesSnoc(frames[1..], f, id);
      assert (frames + [f])[1..] == frames[1..] + [f] && (frames + [f])[0] == frames[0];
      Associates(MessageOf(frames[0], id), Messages(frames[1..], id), MessageOf(f, id));
    }
  }

  /** What a bridge has accepted is the first part of what the node sent on it,
      and while the bridge stands the wire holds exactly the rest. */
  predicate Follows(s: E.System, id: Id) {
    var wire, told := Messages(s.wire, id), Messages(s.told, id);
    if id !in s.conn.bridges then wire == told == []
    else
      var log := s.conn.bridges[id].log;
      log <= told && (id in s.conn.bridgeTable && s.conn.loop != M.Stopped ==> log + wire == told)
  }

  lemma FollowsControl(s: E.System, c: M.Action, id: Id)
    requires M.Minted(s.conn) && M.Framed(s.conn) && E.Enabled(s, E.Control(c))
    requires Follows(s, id)
    ensures Follows(E.Step(s, E.Control(c)), id)
  {
    if id in s.conn.bridges {
      M.OnlyFramesBringMessages(s.conn, c, id);
    } else {
      NewBridge(s.conn, c, id);
    }
  }

  lemma NewBridge(s: M.State, a: M.Action, id: Id)
    requires M.Enabled(s, a) && id !in s.bridges
    ensures id in M.Step(s, a).bridges ==> M.Step(s, a).bridges[id].log == []
  {
    M.StepKeys(s, a);
  }

  /** What a frame does to a bridge. */
  lemma DispatchBridge(s: M.State, f: M.Frame, id: Id)
    requires s.loop == M.Idle && id in s.bridges
    ensures var t := M.Dispatch(s, f);
            && id in t.bridges && (id in t.bridgeTable ==> id in s.bridgeTable)
            && t.bridges[id].log == s.bridges[id].log + (if id in s.bridgeTable then MessageOf(f, id) else [])
  {
    if f.WsMsg? {
      MessageToBridge(s, f, id);
    } else {
      NoMessageToBridge(s, f, id);
      assert s.bridges[id].log + [] == s.bridges[id].log;
    }
  }

  lemma MessageToBridge(s: M.State, f: M.Frame, id: Id)
    requires id in s.bridges && f.WsMsg?
    ensures var t := M.Dispatch(s, f);
            && id in t.bridges && t.bridgeTable == s.bridgeTable
            && t.bridges[id].log == s.bridges[id].log + (if id in s.bridgeTable then MessageOf(f, id) else [])
  {
  }

  lemma NoMessageToBridge(s: M.State, f: M.Frame, id: Id)
    requires id in s.bridges && !f.WsMsg?
    ensures var t := M.Dispatch(s, f);
            && id in t.bridges && (id in t.bridgeTable ==> id in s.bridgeTable)
            && t.bridges[id].log == s.bridges[id].log
  {
  }

  lemma FollowsArrive(s: E.System, id: Id)
    requires E.Enabled(s, E.Arrive) && Follows(s, id)
    ensures Follows(E.Step(s, E.Arrive), id)
  {
    var f := s.wire[0];
    M.DispatchKeys(s.conn, f);
    if id in s.conn.bridges {
      DispatchBridge(s.conn, f, id);
      Associates(s.conn.bridges[id].log, MessageOf(f, id), Messages(s.wire[1..], id));
    }
  }

  /** One frame more said aside, or for a request. */
  lemma FollowsSaid(s: E.System, t: E.System, f: M.Frame, aside: bool, id: Id)
    requires Follows(s, id) && t.conn == s.conn && t.wire == s.wire + [f]
    requires t.told == (if aside then s.told + [f] else s.told) && (aside || f.ForRequest?)
    requires aside && MessageOf(f, id) != [] ==> id in s.conn.bridges
    ensures Follows(t, id)
  {
    MessagesSnoc(s.wire, f, id);
    MessagesSnoc(s.told, f, id);
    if id in s.conn.bridges {
      Associates(s.conn.bridges[id].log, Messages(s.wire, id), MessageOf(f, id));
    }
  }

  lemma SaysAside(s: E.System, a: E.Action, id: Id)
    requires E.Enabled(s, a) && ToldBy(a) != []
    ensures var t, f := E.Step(s, a), ToldBy(a)[0];
            && t.conn == s.conn && t.wire == s.wire + [f] && t.told == s.told + [f]
            && (MessageOf(f, id) != [] ==> id in s.conn.bridges)
  {
  }

  lemma FollowsNode(s: E.System, a: E.Action, id: Id)
    requires E.Enabled(s, a) && !a.Control? && !a.Arrive? && Follows(s, id)
    ensures Follows(E.Step(s, a), id)
  {
    var t := E.Step(s, a);
    if ToldBy(a) != [] {
      SaysAside(s, a, id);
      FollowsSaid(s, t, ToldBy(a)[0], true, id);
    } else {
      SaysForARequest(s, a);
      if t.wire != s.wire {
        FollowsSaid(s, t, t.wire[|t.wire| - 1], false, id);
      }
    }
  }

  lemma SaysForARequest(s: E.System, a: E.Action)
    requires E.Enabled(s, a) && !a.Control? && !a.Arrive? && ToldBy(a) == []
    ensures var t := E.Step(s, a);
            && t.conn == s.conn && t.told == s.told
            && (t.wire == s.wire ||
                (t.wire != [] && t.wire == s.wire + [t.wire[|t.wire| - 1]] && t.wire[|t.wire| - 1].ForRequest?))
  {
  }

  lemma FollowsStep(s: E.System, a: E.Action, id: Id)
    requires E.Inv(s) && E.Enabled(s, a) && Follows(s, id)
    ensures Follows(E.Step(s, a), id)
  {
    match a
    case Control(c) => FollowsControl(s, c, id);
    case Arrive => FollowsArrive(s, id);
    case _ => FollowsNode(s, a, id);
  }

  /** What the node says aside in a step, and in a run. */
  function ToldBy(a: E.Action): seq<M.Frame> {
    match a
    case NodeTells(f) => [f]
    case NodeRelays(id, text) => [E.Relay(id, text)]
    case _ => []
  }

  function Told(acts: seq<E.Action>): seq<M.Frame> {
    if acts == [] then [] else ToldBy(acts[0]) + Told(acts[1..])
  }

  lemma {:induction false} ToldRun(s: E.System, acts: seq<E.Action>)
    requires E.Legal(s, acts)
    ensures E.Run(s, acts).told == s.told + Told(acts)
    decreases acts
  {
    if acts == [] {
      assert s.told + [] == s.told;
    } else {
      ToldRun(E.Step(s, acts[0]), acts[1..]);
      ToldStep(s, acts[0], Told(acts[1..]));
    }
  }

  lemma ToldStep(s: E.System, a: E.Action, rest: seq<M.Frame>)
    requires E.Enabled(s, a)
    ensures E.Step(s, a).told + rest == s.told + (ToldBy(a) + rest)
  {
  }

  lemma {:induction false} FollowsRun(s: E.System, acts: seq<E.Action>, id: Id)
    requires E.Inv(s) && E.Legal(s, acts) && Follows(s, id)
    ensures Follows(E.Run(s, acts), id)
    decreases acts
  {
    if acts != [] {
      var t := E.Step(s, acts[0]);
      E.InvStep(s, acts[0]);
      FollowsStep(s, acts[0], id);
      FollowsRun(t, acts[1..], id);
    }
  }

  /** What a good bridge has taken of its log. */
  lemma TakenOfLog(s: M.State, id: Id)
    requires id in s.bridges && M.BridgeGood(s, id)
    ensures var b := s.bridges[id];
            && b.taken <= b.log
            && (s.loop == M.Idle ==> b.taken + b.messages == b.log)
  {
    var b := s.bridges[id];
    assert b.log == b.taken + (b.messages + M.HeldMessage(s, id) + b.lost);
  }

  lemma TakenFollows(s: E.System, id: Id)
    requires E.Inv(s) && Follows(s, id) && id in s.conn.bridges
    ensures var b, sent := s.conn.bridges[id], Messages(s.told, id);
            && b.taken <= sent
            && (id in s.conn.bridgeTable && s.conn.loop == M.Idle && s.wire == [] ==> b.taken + b.messages == sent)
  {
    assert M.BridgeGood(s.conn, id);
    TakenOfLog(s.conn, id);
  }

  // ── What the local socket gave ──

  /** The messages a bridge's local socket gave the node in a run. */
  function Given(acts: seq<E.Action>, id: Id): seq<seq<Scalar>> {
    if acts == [] then []
    else (if acts[0].NodeRelays? && acts[0].id == id then [acts[0].text] else []) + Given(acts[1..], id)
  }

  /** As bytes, and as they are carried: without a leading byte order mark. */
  function Bytes(texts: seq<seq<Scalar>>): seq<M.Message> {
    seq(|texts|, i requires 0 <= i < |texts| => Encode(texts[i]))
  }

  function Carried(texts: seq<seq<Scalar>>): seq<M.Message> {
    seq(|texts|, i requires 0 <= i < |texts| => Encode(DropMark(texts[i])))
  }

  predicate NoMarks(texts: seq<seq<Scalar>>) { forall t | t in texts :: t == [] || t[0] != BYTE_ORDER_MARK }

  lemma RelayCarries(text: seq<Scalar>, to: Id, id: Id)
    ensures MessageOf(E.Relay(to, text), id) == if to == id then [Encode(DropMark(text))] else []
  {
    DecodeOfEncode(text);
    SkipBomOfEncode(text);
    P.EncodePayloadCarries(Encode(text), true);
  }

  lemma CarriedCons(text: seq<Scalar>, rest: seq<seq<Scalar>>)
    ensures Carried([text] + rest) == [Encode(DropMark(text))] + Carried(rest)
  {
  }

  lemma ToldByCarries(s: E.System, a: E.Action, id: Id, rest: seq<M.Frame>)
    requires E.Enabled(s, a)
    ensures Messages(ToldBy(a) + rest, id) ==
            (if a.NodeRelays? && a.id == id then [Encode(DropMark(a.text))] else []) + Messages(rest, id)
  {
    if a.NodeRelays? {
      RelayCarries(a.text, a.id, id);
    }
    if ToldBy(a) == [] {
      assert [] + rest == rest;
    } else {
      assert (ToldBy(a) + rest)[1..] == rest;
    }
  }

  lemma {:induction false} ToldCarriesGiven(s: E.System, acts: seq<E.Action>, id: Id)
    requires E.Legal(s, acts)
    ensures Messages(Told(acts), id) == Carried(Given(acts, id))
    decreases acts
  {
    if acts != [] {
      ToldCarriesGiven(E.Step(s, acts[0]), acts[1..], id);
      ToldByCarries(s, acts[0], id, Told(acts[1..]));
      if acts[0].NodeRelays? && acts[0].id == id {
        CarriedCons(acts[0].text, Given(acts[1..], id));
      }
    }
  }

  lemma DropShortens(t: seq<Scalar>)
    ensures DropMark(t) == t <==> t == [] || t[0] != BYTE_ORDER_MARK
    ensures Encode(DropMark(t)) == Encode(t) <==> DropMark(t) == t
  {
  }

  /** The messages are carried as they were given exactly when none begins with a
      byte order mark. */
  lemma CarriedUnchanged(texts: seq<seq<Scalar>>)
    ensures Carried(texts) == Bytes(texts) <==> NoMarks(texts)
  {
    forall i | 0 <= i < |texts|
      ensures Carried(texts)[i] == Bytes(texts)[i] <==> texts[i] == [] || texts[i][0] != BYTE_ORDER_MARK
    {
      DropShortens(texts[i]);
    }
    if Carried(texts) == Bytes(texts) {
      forall t | t in texts
        ensures t == [] || t[0] != BYTE_ORDER_MARK
      {
        var i :| 0 <= i < |texts| && texts[i] == t;
        assert Carried(texts)[i] == Bytes(texts)[i];
      }
    }
  }

  /** Over every run, the browser's end of a bridge takes a prefix of the messages
      its local socket gave the node, as they are carried; while the bridge stands
      and nothing is in flight, what it has taken and what is queued for it are all
      of them. They are the messages themselves exactly when none begins with a byte
      order mark. */
  lemma MessagesArriveInOrder(acts: seq<E.Action>, id: Id)
    requires E.Legal(E.START, acts) && id in E.Run(E.START, acts).conn.bridges
    ensures var s, given := E.Run(E.START, acts), Given(acts, id);
            var b := s.conn.bridges[id];
            && b.taken <= Carried(given) && |Carried(given)| == |given|
            && (id in s.conn.bridgeTable && s.conn.loop == M.Idle && s.wire == [] ==>
                b.taken + b.messages == Carried(given))
            && (Carried(given) == Bytes(given) <==> NoMarks(given))
  {
    E.InvRun(E.START, acts);
    FollowsRun(E.START, acts, id);
    ToldRun(E.START, acts);
    ToldCarriesGiven(E.START, acts, id);
    CarriedUnchanged(Given(acts, id));
    var s := E.Run(E.START, acts);
    assert s.told == [] + Told(acts) == Told(acts);
    TakenFollows(s, id);
  }

  // ── How long a message may be ──

  /** The frame of a message, as text. */
  function MessageFrame(id: Id, text: seq<Scalar>): seq<Scalar> {
    var body := P.EncodePayload(Encode(text), true);
    F.Chars("{\"t\":\"ws.msg\",\"id\":") + F.JsonString(F.Chars(id)) + F.Chars(F.BODY) +
    F.JsonString(F.Chars(F.EncodingName(body.enc))) + F.Chars(F.DATA) + F.JsonString(body.d) + F.Chars("}}")
  }

  lemma MessageBody(text: seq<Scalar>)
    ensures P.EncodePayload(Encode(text), true) == P.Payload(P.U, DropMark(text))
  {
    DecodeOfEncode(text);
    DecodeOfEncode(DropMark(text));
    SkipBomOfEncode(text);
  }

  lemma BridgeIdIsPlain(k: nat)
    ensures F.Plain(F.Chars(BridgeId(k)))
  {
  }

  lemma HeadBytes(k: nat)
    ensures var head := F.Chars("{\"t\":\"ws.msg\",\"id\":") + F.JsonString(F.Chars(BridgeId(k))) + F.Chars(F.BODY) +
                        F.JsonString(F.Chars("u")) + F.Chars(F.DATA);
            F.Ascii(head) && |head| == 44 + |BridgeId(k)|
  {
    F.Literals();
    BridgeIdIsPlain(k);
    F.PlainStringAscii(F.Chars(BridgeId(k)));
    F.PlainStringAscii(F.Chars("u"));
    assert |"{\"t\":\"ws.msg\",\"id\":"| == 19;
  }

  lemma MessageBytes(k: nat, text: seq<Scalar>)
    ensures |Encode(MessageFrame(BridgeId(k), text))| == 48 + |BridgeId(k)| + |Encode(F.Escape(DropMark(text)))|
  {
    var head := F.Chars("{\"t\":\"ws.msg\",\"id\":") + F.JsonString(F.Chars(BridgeId(k))) + F.Chars(F.BODY) +
                F.JsonString(F.Chars("u")) + F.Chars(F.DATA);
    var d, tail := F.JsonString(DropMark(text)), F.Chars("}}");
    MessageBody(text);
    HeadBytes(k);
    F.EncodeAscii(head);
    F.EncodeAscii(tail);
    F.JsonStringSize(DropMark(text));
    EncodeConcat(head, d);
    EncodeConcat(head + d, tail);
  }

  /** A message is never cut, so a long one alone passes what the control plane reads
      and ends the connection: exactly when its escaped text and the bridge's id
      together have more than 2097104 bytes. */
  lemma MessageIsReadExactly(k: nat, text: seq<Scalar>)
    ensures |Encode(MessageFrame(BridgeId(k), text))| <= 2 * 1024 * 1024 <==>
            |Encode(F.Escape(DropMark(text)))| + |BridgeId(k)| <= 2097104
  {
    MessageBytes(k, text);
  }

  /** On the first bridge, 349518 NUL characters are enough. */
  lemma LongMessageIsNotRead()
    ensures |Encode(MessageFrame(BridgeId(1), F.ZeroText(349518)))| > 2 * 1024 * 1024
  {
    F.ZerosAreText(349518);
    MessageIsReadExactly(1, F.ZeroText(349518));
  }
}
