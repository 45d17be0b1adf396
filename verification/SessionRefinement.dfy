/** Every session run, seen from one side, is a run of that side's code over the frames it has read. */
module SessionRefinement {
  import opened Protocol
  import opened SessionRuns
  import opened SessionCode
  import opened SessionSafety

  // ---- The server ----

  const STARTED := Server(MSG_UNDEFINED, false, 0, false)

  predicate Serves(s: Session, m: Move) {
    m.ServerServes? && s.toServer != []
  }

  /** The frames the server has read in the first `i` moves, and how its work on each went. */
  function ServedFrames(ss: seq<Session>, moves: seq<Move>, i: nat): seq<Bytes>
    requires i <= |moves| < |ss|
  {
    if i == 0 then []
    else ServedFrames(ss, moves, i - 1) + if Serves(ss[i - 1], moves[i - 1]) then [Frame(ss[i - 1].toServer[0])] else []
  }

  function Outcomes(ss: seq<Session>, moves: seq<Move>, i: nat): (outcomes: seq<Outcome>)
    requires i <= |moves| < |ss|
    ensures |outcomes| == |ServedFrames(ss, moves, i)|
  {
    if i == 0 then []
    else Outcomes(ss, moves, i - 1) + if Serves(ss[i - 1], moves[i - 1]) then [moves[i - 1].outcome] else []
  }

  /** What the serve loop has written: everything after the confirmation of the authentication. */
  function Answered(s: Session): seq<Message> {
    if s.serverLog == [] then [] else s.serverLog[1..]
  }

  /** Until the authentication is confirmed the server has done nothing; then the confirmation comes first. */
  predicate Greeted(s: Session) {
    if s.greeted then s.serverLog != [] && s.serverLog[0] == Typed(MSG_READY, [])
    else s.serverLog == [] && s.server == STARTED
  }

  /** The loop as it goes on from a server with some answers already written. */
  function GoOn(setup: Setup, s: Session, rest: seq<Bytes>, more: seq<Outcome>): Reply
    requires |rest| <= |more|
  {
    if s.server.done then Reply(s.server, Answered(s))
    else
      var tail := ServeAll(s.server, setup.serverLast, setup.isNew, rest, more);
      Reply(tail.server, Answered(s) + tail.out)
  }

  /** A move that serves nothing and does not give up leaves the loop where it is. */
  lemma OtherMove(setup: Setup, s: Session, m: Move, rest: seq<Bytes>, more: seq<Outcome>)
    requires Enabled(s, m) && !m.ServerServes? && !m.ServerGivesUp? && Greeted(s) && |rest| <= |more|
    requires Do(setup, s, m).server.done ==> rest == []
    ensures Greeted(Do(setup, s, m)) && GoOn(setup, Do(setup, s, m), rest, more) == GoOn(setup, s, rest, more)
  {
    assert Answered(s) + [] == Answered(s);
  }

  lemma AnsweredConcat(log: seq<Message>, out: seq<Message>)
    requires log != []
    ensures (log + out)[1..] == log[1..] + out
  {
  }

  lemma Associate<T>(a: seq<T>, b: seq<T>, c: seq<T>)
    ensures a + (b + c) == (a + b) + c
  {
  }

  /** One move that serves a frame is one turn of the loop. */
  lemma ServingMove(setup: Setup, s: Session, o: Outcome, rest: seq<Bytes>, more: seq<Outcome>)
    requires Enabled(s, ServerServes(o)) && Greeted(s) && |rest| <= |more|
    ensures Greeted(Do(setup, s, ServerServes(o)))
    ensures GoOn(setup, Do(setup, s, ServerServes(o)), rest, more)
              == GoOn(setup, s, [Frame(s.toServer[0])] + rest, [o] + more)
  {
    var frames, outcomes := [Frame(s.toServer[0])] + rest, [o] + more;
    assert frames[1..] == rest && outcomes[1..] == more;
    var r := Serve(s.server, setup.serverLast, setup.isNew, frames[0], o);
    AnsweredConcat(s.serverLog, r.out);
    if !r.server.done {
      Associate(Answered(s), r.out, ServeAll(r.server, setup.serverLast, setup.isNew, rest, more).out);
    }
  }

  /** The loop over the frames served so far and those that follow is the loop as it goes on from here. */
  lemma {:induction false} ServerFollows(setup: Setup, ss: seq<Session>, moves: seq<Move>, i: nat, rest: seq<Bytes>,
                                         more: seq<Outcome>)
    requires Run(setup, ss, moves) && i <= |moves| && |rest| <= |more|
    requires forall k: nat :: k < i ==> !moves[k].ServerGivesUp?
    requires ss[i].server.done ==> rest == []
    ensures Greeted(ss[i])
    ensures ServeAll(STARTED, setup.serverLast, setup.isNew, ServedFrames(ss, moves, i) + rest,
                     Outcomes(ss, moves, i) + more)
         == GoOn(setup, ss[i], rest, more)
    decreases i
  {
    if i == 0 {
      assert [] + rest == rest && [] + more == more;
    } else {
      var s, m := ss[i - 1], moves[i - 1];
      assert StepAt(setup, ss, moves, i - 1);
      if m.ServerServes? {
        var frame, o := Frame(s.toServer[0]), m.outcome;
        ServerFollows(setup, ss, moves, i - 1, [frame] + rest, [o] + more);
        ServingMove(setup, s, o, rest, more);
        Associate(ServedFrames(ss, moves, i - 1), [frame], rest);
        Associate(Outcomes(ss, moves, i - 1), [o], more);
      } else {
        assert s.server.done ==> ss[i].server.done;
        ServerFollows(setup, ss, moves, i - 1, rest, more);
        OtherMove(setup, s, m, rest, more);
        NothingServed(ss, moves, i);
      }
    }
  }

  lemma NothingServed(ss: seq<Session>, moves: seq<Move>, i: nat)
    requires 0 < i <= |moves| < |ss| && !moves[i - 1].ServerServes?
    ensures ServedFrames(ss, moves, i) == ServedFrames(ss, moves, i - 1)
              && Outcomes(ss, moves, i) == Outcomes(ss, moves, i - 1)
  {
  }

  /**
   * A server that ends without giving up ends as its serve loop does over the frames it was sent: same
   * state, same messages, after the confirmation of the authentication.
   */
  lemma ServerRunsItsLoop(setup: Setup, ss: seq<Session>, moves: seq<Move>)
    requires Run(setup, ss, moves) && ss[|moves|].server.done
    requires forall m <- moves :: !m.ServerGivesUp?
    ensures ss[|moves|].serverLog == [Typed(MSG_READY, [])] + Answered(ss[|moves|])
    ensures ServeAll(STARTED, setup.serverLast, setup.isNew, ServedFrames(ss, moves, |moves|),
                     Outcomes(ss, moves, |moves|))
         == Reply(ss[|moves|].server, Answered(ss[|moves|]))
  {
    ServerFollows(setup, ss, moves, |moves|, [], []);
    assert ServedFrames(ss, moves, |moves|) + [] == ServedFrames(ss, moves, |moves|);
    assert Outcomes(ss, moves, |moves|) + [] == Outcomes(ss, moves, |moves|);
  }

  // ---- The client ----

  predicate Receives(s: Session, m: Move) {
    m.ClientReceives? && s.toClient != []
  }

  /** The frames the client has read in the first `i` moves. */
  function ReceivedFrames(ss: seq<Session>, moves: seq<Move>, i: nat): seq<Bytes>
    requires i <= |moves| < |ss|
  {
    if i == 0 then []
    else
      ReceivedFrames(ss, moves, i - 1)
      + if Receives(ss[i - 1], moves[i - 1]) then [Frame(ss[i - 1].toClient[0])] else []
  }

  /** The payload under which a log holds a message type. */
  function Payload(log: seq<Message>, t: MessageType): Bytes {
    if log == [] then []
    else if log[0].Typed? && log[0].msgType == t then log[0].data
    else Payload(log[1..], t)
  }

  predicate Absent(log: seq<Message>, t: MessageType) {
    forall m <- log :: m.Typed? ==> m.msgType != t
  }

  lemma {:induction false} PayloadAt(front: seq<Message>, m: Message, rest: seq<Message>)
    requires m.Typed? && Absent(front, m.msgType)
    ensures Payload(front + [m] + rest, m.msgType) == m.data
  {
    var log := front + [m] + rest;
    if front != [] {
      assert log[0] == front[0] && front[0] in front && log[1..] == front[1..] + [m] + rest;
      assert Absent(front[1..], m.msgType);
      PayloadAt(front[1..], m, rest);
    }
  }

  predicate Distinct(todo: seq<MessageType>) {
    forall i, j :: 0 <= i < j < |todo| ==> todo[i] != todo[j]
  }

  /** No message type is sent twice: what a client has still to send is not in its log. */
  predicate Once(s: Session) {
    match s.client
    case Authenticating => s.clientLog == []
    case Greeting => s.clientLog == []
    case Negotiating => forall m <- s.clientLog :: m.Typed? ==> m.msgType == MSG_VERSION
    case Sending(_, todo) => Distinct(todo) && forall t <- todo :: Absent(s.clientLog, t)
    case Waiting(_, todo) => Distinct(todo) && todo != [] && forall t <- todo[1..] :: Absent(s.clientLog, t)
    case _ => true
  }

  /** The place of a request in a session. */
  function Rank(t: MessageType): nat {
    if t == MSG_UPDATE then 0
    else if t == MSG_SMBIOS then 1
    else if t == MSG_SYSTEM_DATA || t == MSG_SYSTEM_DATA_V2 then 2
    else if t == MSG_ANNOTATIONS then 3
    else if t == MSG_LABELS then 4
    else if t == MSG_GET then 5
    else 6
  }

  predicate DistinctFrom(todo: seq<MessageType>, rank: nat) {
    Distinct(todo) && forall t <- todo :: rank <= Rank(t) < 6
  }

  lemma OptionalBefore(present: bool, t: MessageType, rest: seq<MessageType>)
    requires DistinctFrom(rest, Rank(t) + 1) && Rank(t) < 6
    ensures DistinctFrom(Optional(present, t) + rest, Rank(t))
  {
    if present {
      var todo := [t] + rest;
      assert forall k :: 0 < k < |todo| ==> todo[k] == rest[k - 1] && rest[k - 1] in rest;
    } else {
      assert Optional(present, t) + rest == rest;
    }
  }

  lemma TagsDistinct(proto: MessageType, cfg: ClientConfig)
    ensures DistinctFrom(Tags(proto, cfg), 3)
  {
    OptionalBefore(cfg.hasLabels, MSG_LABELS, [MSG_GET]);
    OptionalBefore(proto >= MSG_ANNOTATIONS, MSG_ANNOTATIONS, Optional(cfg.hasLabels, MSG_LABELS) + [MSG_GET]);
  }

  lemma TodoDistinct(proto: MessageType, cfg: ClientConfig)
    ensures DistinctFrom(Todo(proto, cfg), 0)
  {
    TagsDistinct(proto, cfg);
    if !cfg.noSmbios {
      OptionalBefore(proto >= MSG_SYSTEM_DATA, SystemType(proto), Tags(proto, cfg));
      OptionalBefore(true, MSG_SMBIOS, SystemData(proto) + Tags(proto, cfg));
    }
    OptionalBefore(cfg.updatable, MSG_UPDATE, AfterUpdate(proto, cfg));
  }

  /** After negotiation nothing of what there is to send has been sent. */
  lemma NoneSent(log: seq<Message>, todo: seq<MessageType>)
    requires DistinctFrom(todo, 0) && forall m <- log :: m.Typed? ==> m.msgType == MSG_VERSION
    ensures forall t <- todo :: Absent(log, t)
  {
    forall t | t in todo ensures Absent(log, t) {
      assert Rank(t) < 6;
    }
  }

  lemma OnceReceived(setup: Setup, s: Session)
    requires Enabled(s, ClientReceives) && Once(s)
    ensures Once(Do(setup, s, ClientReceives))
  {
    var frame := Frame(s.toClient[0]);
    if s.client.Negotiating? {
      var c' := Negotiated(frame, setup.clientLast, setup.cfg);
      if c'.Sending? {
        TodoDistinct(c'.proto, setup.cfg);
        NoneSent(s.clientLog, c'.todo);
      }
    }
  }

  lemma OnceKept(setup: Setup, s: Session, m: Move)
    requires Enabled(s, m) && Once(s)
    ensures Once(Do(setup, s, m))
  {
    if m.ClientReceives? {
      OnceReceived(setup, s);
    } else if m.ClientSends? && s.client.Sending? {
      assert forall t <- s.client.todo[1..] :: t in s.client.todo && t != s.client.todo[0];
    }
  }

  lemma {:induction false} OnceReachable(setup: Setup, ss: seq<Session>, moves: seq<Move>, i: nat)
    requires Run(setup, ss, moves) && i < |ss|
    ensures Once(ss[i])
  {
    if i > 0 {
      OnceReachable(setup, ss, moves, i - 1);
      assert StepAt(setup, ss, moves, i - 1);
      OnceKept(setup, ss[i - 1], moves[i - 1]);
    }
  }

  lemma {:induction false} LogGrows(setup: Setup, ss: seq<Session>, moves: seq<Move>, i: nat, j: nat)
    requires Run(setup, ss, moves) && i <= j < |ss|
    ensures ss[i].clientLog <= ss[j].clientLog
  {
    if i < j {
      LogGrows(setup, ss, moves, i, j - 1);
      assert StepAt(setup, ss, moves, j - 1);
    }
  }

  /** `data` gives the payload of every request the client sends in these moves. */
  predicate Supplies(data: MessageType -> Bytes, ss: seq<Session>, moves: seq<Move>, i: nat)
    requires i <= |moves| < |ss|
  {
    forall k: nat :: k < i && moves[k].ClientSends? && ss[k].client.Sending? && ss[k].client.todo != [] ==>
      data(ss[k].client.todo[0]) == moves[k].data
  }

  lemma LogSupplies(setup: Setup, ss: seq<Session>, moves: seq<Move>, data: MessageType -> Bytes)
    requires Run(setup, ss, moves) && forall t :: data(t) == Payload(ss[|moves|].clientLog, t)
    ensures Supplies(data, ss, moves, |moves|)
  {
    forall k: nat | k < |moves| && moves[k].ClientSends? && ss[k].client.Sending? && ss[k].client.todo != []
      ensures data(ss[k].client.todo[0]) == moves[k].data
    {
      OnceReachable(setup, ss, moves, k);
      assert StepAt(setup, ss, moves, k);
      LogGrows(setup, ss, moves, k + 1, |moves|);
      var out, log := Typed(ss[k].client.todo[0], moves[k].data), ss[|moves|].clientLog;
      assert ss[k + 1].clientLog == ss[k].clientLog + [out];
      var rest := log[|ss[k].clientLog| + 1..];
      assert log == ss[k].clientLog + [out] + rest;
      PayloadAt(ss[k].clientLog, out, rest);
    }
  }

  /** The client's code as it goes on from a client with some messages already sent. */
  function ClientGoesOn(setup: Setup, s: Session, data: MessageType -> Bytes, prepared: MessageType -> bool,
                        rest: seq<Bytes>): Trace {
    var tail := ClientRun(s.client, setup.clientLast, setup.cfg, data, prepared, rest);
    Trace(s.clientLog + tail.sent, tail.end)
  }

  /** One move is one step of the client's code, or none. */
  lemma ClientMove(setup: Setup, s: Session, m: Move, data: MessageType -> Bytes, prepared: MessageType -> bool,
                   rest: seq<Bytes>)
    requires Enabled(s, m) && !m.ClientGivesUp? && Once(s) && forall t :: prepared(t)
    requires m.ClientSends? && s.client.Sending? ==> data(s.client.todo[0]) == m.data
    requires m.ClientReadFails? ==> rest == []
    ensures ClientGoesOn(setup, Do(setup, s, m), data, prepared, rest)
         == ClientGoesOn(setup, s, data, prepared, (if m.ClientReceives? then [Frame(s.toClient[0])] else []) + rest)
  {
    assert [] + rest == rest;
    if m.ClientReceives? {
      assert ([Frame(s.toClient[0])] + rest)[1..] == rest;
    } else if m.ClientSends? {
      var out := Outgoing(s.client, setup.clientLast, m.data);
      var tail := ClientRun(Sent(s.client), setup.clientLast, setup.cfg, data, prepared, rest);
      assert s.clientLog + ([out] + tail.sent) == s.clientLog + [out] + tail.sent;
    }
  }

  lemma {:induction false} ClientFollows(setup: Setup, ss: seq<Session>, moves: seq<Move>, i: nat,
                                         data: MessageType -> Bytes, prepared: MessageType -> bool, rest: seq<Bytes>)
    requires Run(setup, ss, moves) && i <= |moves| && Supplies(data, ss, moves, i) && forall t :: prepared(t)
    requires forall k: nat :: k < i ==> !moves[k].ClientGivesUp?
    requires Ended(ss[i].client) ==> rest == []
    ensures ClientRun(Authenticating, setup.clientLast, setup.cfg, data, prepared, ReceivedFrames(ss, moves, i) + rest)
         == ClientGoesOn(setup, ss[i], data, prepared, rest)
    decreases i
  {
    if i == 0 {
      assert [] + rest == rest;
      var tail := ClientRun(Authenticating, setup.clientLast, setup.cfg, data, prepared, rest);
      assert [] + tail.sent == tail.sent;
    } else {
      var s, m := ss[i - 1], moves[i - 1];
      assert StepAt(setup, ss, moves, i - 1);
      var frames := if m.ClientReceives? then [Frame(s.toClient[0])] else [];
      assert Ended(s.client) ==> !m.ClientReceives? && Ended(ss[i].client);
      ClientFollows(setup, ss, moves, i - 1, data, prepared, frames + rest);
      OnceReachable(setup, ss, moves, i - 1);
      ClientMove(setup, s, m, data, prepared, rest);
      assert ReceivedFrames(ss, moves, i) + rest == ReceivedFrames(ss, moves, i - 1) + (frames + rest);
    }
  }

  /**
   * A client that ends without giving up ends as its registration does over the frames it was sent: same
   * end, same messages. The payloads it sends are those its log holds.
   */
  lemma ClientRunsItsCode(setup: Setup, ss: seq<Session>, moves: seq<Move>, data: MessageType -> Bytes,
                          prepared: MessageType -> bool)
    requires Run(setup, ss, moves) && Ended(ss[|moves|].client)
    requires forall m <- moves :: !m.ClientGivesUp?
    requires (forall t :: prepared(t)) && forall t :: data(t) == Payload(ss[|moves|].clientLog, t)
    ensures ClientRun(Authenticating, setup.clientLast, setup.cfg, data, prepared, ReceivedFrames(ss, moves, |moves|))
         == Trace(ss[|moves|].clientLog, ss[|moves|].client)
  {
    LogSupplies(setup, ss, moves, data);
    ClientFollows(setup, ss, moves, |moves|, data, prepared, []);
    var s := ss[|moves|];
    assert ReceivedFrames(ss, moves, |moves|) + [] == ReceivedFrames(ss, moves, |moves|);
    assert s.clientLog + [] == s.clientLog;
  }

  // ---- The connection between them ----

  function Frames(log: seq<Message>): (frames: seq<Bytes>)
    ensures |frames| == |log| && forall k :: 0 <= k < |log| ==> frames[k] == Frame(log[k])
  {
    seq(|log|, k requires 0 <= k < |log| => Frame(log[k]))
  }

  lemma FramesConcat(a: seq<Message>, b: seq<Message>)
    ensures Frames(a + b) == Frames(a) + Frames(b)
  {
  }

  /** Messages written go to the end of the log and of the queue. */
  lemma Written(log: seq<Message>, queue: seq<Message>, read: seq<Bytes>, out: seq<Message>)
    requires Frames(log) == read + Frames(queue)
    ensures Frames(log + out) == read + Frames(queue + out)
  {
    FramesConcat(log, out);
    FramesConcat(queue, out);
    Associate(read, Frames(queue), Frames(out));
  }

  /** A frame read leaves the head of the queue. */
  lemma FrameRead(log: seq<Message>, queue: seq<Message>, read: seq<Bytes>)
    requires Frames(log) == read + Frames(queue) && queue != []
    ensures Frames(log) == read + [Frame(queue[0])] + Frames(queue[1..])
  {
    assert queue == [queue[0]] + queue[1..];
    FramesConcat([queue[0]], queue[1..]);
    assert Frames([queue[0]]) == [Frame(queue[0])];
    Associate(read, [Frame(queue[0])], Frames(queue[1..]));
  }

  /** The server reads, in order, the frames of the client's messages. */
  lemma {:induction false} ServerReadsInOrder(setup: Setup, ss: seq<Session>, moves: seq<Move>, i: nat)
    requires Run(setup, ss, moves) && i <= |moves|
    ensures Frames(ss[i].clientLog) == ServedFrames(ss, moves, i) + Frames(ss[i].toServer)
  {
    if i > 0 {
      var s, m, read := ss[i - 1], moves[i - 1], ServedFrames(ss, moves, i - 1);
      ServerReadsInOrder(setup, ss, moves, i - 1);
      assert StepAt(setup, ss, moves, i - 1);
      if m.ClientSends? {
        Written(s.clientLog, s.toServer, read, [Outgoing(s.client, setup.clientLast, m.data)]);
      } else if m.ServerServes? {
        FrameRead(s.clientLog, s.toServer, read);
      }
    }
  }

  /** The client reads, in order, the frames of the server's messages. */
  lemma {:induction false} ClientReadsInOrder(setup: Setup, ss: seq<Session>, moves: seq<Move>, i: nat)
    requires Run(setup, ss, moves) && i <= |moves|
    ensures Frames(ss[i].serverLog) == ReceivedFrames(ss, moves, i) + Frames(ss[i].toClient)
  {
    if i > 0 {
      var s, m, read := ss[i - 1], moves[i - 1], ReceivedFrames(ss, moves, i - 1);
      ClientReadsInOrder(setup, ss, moves, i - 1);
      assert StepAt(setup, ss, moves, i - 1);
      if m.ServerGreets? {
        Written(s.serverLog, s.toClient, read, [Typed(MSG_READY, [])]);
      } else if m.ServerServes? {
        var reply := Serve(s.server, setup.serverLast, setup.isNew, Frame(s.toServer[0]), m.outcome);
        Written(s.serverLog, s.toClient, read, reply.out);
      } else if m.ClientReceives? {
        FrameRead(s.serverLog, s.toClient, read);
      }
    }
  }

  // ---- What the session theorems say of the code ----

  /**
   * The two pieces of code, each over the frames of the other's messages: neither writes a type above the
   * smaller release, the loop commits at most once, and a configuration the client ends with is one the loop
   * wrote, in the form of the agreed version.
   */
  lemma CodeAgrees(setup: Setup, ss: seq<Session>, moves: seq<Move>, data: MessageType -> Bytes,
                   prepared: MessageType -> bool)
    requires Modern(setup) && Run(setup, ss, moves) && Ended(ss[|moves|].client) && ss[|moves|].server.done
    requires forall m <- moves :: !m.ClientGivesUp? && !m.ServerGivesUp?
    requires (forall t :: prepared(t)) && forall t :: data(t) == Payload(ss[|moves|].clientLog, t)
    ensures
      var n := |moves|;
      var loop := ServeAll(STARTED, setup.serverLast, setup.isNew, ServedFrames(ss, moves, n), Outcomes(ss, moves, n));
      var code := ClientRun(Authenticating, setup.clientLast, setup.cfg, data, prepared, ReceivedFrames(ss, moves, n));
      && ServedFrames(ss, moves, n) <= Frames(code.sent)
      && ReceivedFrames(ss, moves, n) <= Frames([Typed(MSG_READY, [])] + loop.out)
      && (forall m <- loop.out + code.sent :: m.Typed? ==> m.msgType <= Agreed(setup))
      && (forall m <- loop.out :: m.Raw? ==> Agreed(setup) < MSG_CONFIG)
      && loop.server.commits <= 1 && !loop.server.confused && code.end != Failed(Unexpected)
      && (code.end.Configured? ==>
            code.end.proto == Agreed(setup) && WriteConfig(code.end.proto, code.end.config) in loop.out)
  {
    var n := |moves|;
    ServerRunsItsLoop(setup, ss, moves);
    ClientRunsItsCode(setup, ss, moves, data, prepared);
    ServerReadsInOrder(setup, ss, moves, n);
    ClientReadsInOrder(setup, ss, moves, n);
    VersionSkewSafety(setup, ss, moves, n);
    SameForm(setup, ss, moves, n);
    OneCommit(setup, ss, moves, n);
    assert forall m :: m in Answered(ss[n]) ==> m in ss[n].serverLog;
    assert forall m <- ss[n].serverLog :: m == Typed(MSG_READY, []) || m in Answered(ss[n]);
  }
}
