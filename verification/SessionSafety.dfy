/** Version-skew safety, lockstep and termination of every registration session. */
module SessionSafety {
  import opened Protocol
  import opened SessionRuns

  /** A request the server can serve: the greeting, or a request of the agreed version. */
  predicate ServableAt(setup: Setup, proto: MessageType, m: Message) {
    m.Typed? &&
    if m.msgType == MSG_VERSION then m.data == [setup.clientLast]
    else proto == Agreed(setup) && m.msgType <= Agreed(setup) && IsRequest(m.msgType)
  }

  predicate BoundedByAgreed(setup: Setup, log: seq<Message>) {
    forall m <- log :: if m.Typed? then m.msgType <= Agreed(setup) else Agreed(setup) < MSG_CONFIG
  }

  predicate Sane(setup: Setup, s: Session) {
    && !s.server.confused && s.client != Failed(Unexpected)
    && |s.toServer| <= 1 && (s.toServer != [] && !s.server.done ==> ServableAt(setup, s.server.proto, s.toServer[0]))
    && (s.server.proto == MSG_UNDEFINED || s.server.proto == Agreed(setup))
  }

  predicate Logged(setup: Setup, s: Session) {
    && BoundedByAgreed(setup, s.clientLog) && BoundedByAgreed(setup, s.serverLog)
    && (s.client.Configured? ==>
          s.client.proto == Agreed(setup) && WriteConfig(s.client.proto, s.client.config) in s.serverLog)
  }

  predicate Requested(log: seq<Message>) {
    exists m <- log :: m.Typed? && m.msgType == MSG_GET
  }

  /** At most one commit, only by a server that then ends, and only for a Get the client sent. */
  predicate Committed(s: Session) {
    && s.server.commits <= (if s.server.done then 1 else 0)
    && (s.server.commits > 0 ==> Requested(s.clientLog))
    && (forall m <- s.toServer :: m in s.clientLog)
  }

  predicate Placed(setup: Setup, s: Session) {
    if s.server.done then ServerLeft(setup, s) else InStep(setup, s)
  }

  predicate Inv(setup: Setup, s: Session) {
    && Sane(setup, s) && Logged(setup, s) && Committed(s) && Placed(setup, s)
    && (forall m <- s.toClient :: m in s.serverLog)
  }

  lemma OptionalProper(present: bool, t: MessageType, rest: seq<MessageType>, proto: MessageType, most: nat)
    requires Proper(rest, proto, most) && (present ==> IsRequest(t) && t <= proto && t != MSG_GET)
    ensures Proper(Optional(present, t) + rest, proto, most + 1)
  {
    if present {
      var todo := [t] + rest;
      assert forall k :: 0 < k < |todo| ==> todo[k] == rest[k - 1];
    } else {
      assert Optional(present, t) + rest == rest;
    }
  }

  lemma TagsProper(proto: MessageType, cfg: ClientConfig)
    requires proto >= MSG_VERSION
    ensures Proper(Tags(proto, cfg), proto, 3)
  {
    OptionalProper(cfg.hasLabels, MSG_LABELS, [MSG_GET], proto, 1);
    OptionalProper(proto >= MSG_ANNOTATIONS, MSG_ANNOTATIONS, Optional(cfg.hasLabels, MSG_LABELS) + [MSG_GET],
                   proto, 2);
  }

  lemma TodoProper(proto: MessageType, cfg: ClientConfig)
    requires proto >= MSG_VERSION && (cfg.updatable ==> proto >= MSG_UPDATE)
    ensures Proper(Todo(proto, cfg), proto, 6)
  {
    TagsProper(proto, cfg);
    if !cfg.noSmbios {
      OptionalProper(proto >= MSG_SYSTEM_DATA, SystemType(proto), Tags(proto, cfg), proto, 3);
      OptionalProper(true, MSG_SMBIOS, SystemData(proto) + Tags(proto, cfg), proto, 4);
    }
    OptionalProper(cfg.updatable, MSG_UPDATE, AfterUpdate(proto, cfg), proto, 5);
  }

  lemma RemainingKnown(setup: Setup, todo: seq<MessageType>)
    requires Remaining(setup, todo)
    ensures IsRequest(todo[0]) && todo[0] <= Agreed(setup)
    ensures todo[0] != MSG_GET ==> Remaining(setup, todo[1..])
  {
    if todo[0] != MSG_GET {
      var tail := todo[1..];
      assert forall k :: 0 <= k < |tail| ==> tail[k] == todo[k + 1];
    }
  }

  // ---- Moves of the client ----

  lemma GrowsRequested(before: seq<Message>, after: seq<Message>)
    requires before <= after && Requested(before)
    ensures Requested(after)
  {
  }

  lemma SendPlaces(setup: Setup, s: Session, data: Bytes)
    requires Modern(setup) && Placed(setup, s) && Enabled(s, ClientSends(data))
    ensures s.toServer == [] && Placed(setup, Do(setup, s, ClientSends(data)))
  {
  }

  lemma SendKeeps(setup: Setup, s: Session, data: Bytes)
    requires Modern(setup) && Inv(setup, s) && Enabled(s, ClientSends(data))
    ensures Inv(setup, Do(setup, s, ClientSends(data)))
  {
    SendPlaces(setup, s, data);
    if s.client.Sending? {
      RemainingKnown(setup, s.client.todo);
    }
    var out := Outgoing(s.client, setup.clientLast, data);
    var s' := Do(setup, s, ClientSends(data));
    assert s'.toServer == [out] && out in s'.clientLog;
    if Requested(s.clientLog) {
      GrowsRequested(s.clientLog, s'.clientLog);
    }
  }

  /** What the client makes of the one frame it waits for. */
  lemma ReceiveGood(setup: Setup, c: Client, m: Message)
    requires Modern(setup) && Reads(c)
    requires c.Authenticating? ==> m == Typed(MSG_READY, [])
    requires c.Negotiating? ==> m == Typed(MSG_VERSION, [Agreed(setup)])
    requires c.Waiting? ==> c.proto == Agreed(setup) && Remaining(setup, c.todo) && GoodReply(setup, c.todo[0], m)
    ensures
      var c' := Receive(c, setup.clientLast, setup.cfg, Frame(m));
      && c' != Failed(Unexpected)
      && (c.Authenticating? ==> c'.Greeting?)
      && (c.Negotiating? ==>
            || c' == Failed(TooOld)
            || (c'.Sending? && c'.proto == Agreed(setup) && Remaining(setup, c'.todo)))
      && (c.Waiting? ==>
            || c' == Failed(ServerError)
            || (c'.Sending? && c'.proto == Agreed(setup) && Remaining(setup, c'.todo) && c'.todo == c.todo[1..])
            || (c'.Configured? && c'.proto == Agreed(setup) && m == WriteConfig(c'.proto, c'.config)))
  {
    if m.Typed? {
      FrameRoundTrip(m.msgType, m.data, setup.clientLast);
    }
    if c.Waiting? {
      RemainingKnown(setup, c.todo);
    } else if c.Negotiating? && (setup.cfg.updatable ==> Agreed(setup) >= MSG_UPDATE) {
      TodoProper(Agreed(setup), setup.cfg);
    }
  }

  /** A client that finds a frame finds the one it waits for. */
  lemma ReceiveFinds(setup: Setup, s: Session)
    requires Modern(setup) && Placed(setup, s) && Enabled(s, ClientReceives)
    ensures s.toClient == [s.toClient[0]] && s.toServer == []
    ensures
      var c, m := s.client, s.toClient[0];
      && (c.Authenticating? ==> m == Typed(MSG_READY, []))
      && (c.Negotiating? ==> m == Typed(MSG_VERSION, [Agreed(setup)]))
      && (c.Waiting? ==> c.proto == Agreed(setup) && Remaining(setup, c.todo) && GoodReply(setup, c.todo[0], m))
  {
  }

  lemma ReceivePlaces(setup: Setup, s: Session)
    requires Modern(setup) && Placed(setup, s) && Enabled(s, ClientReceives)
    ensures Placed(setup, Do(setup, s, ClientReceives))
  {
    ReceiveFinds(setup, s);
    ReceiveGood(setup, s.client, s.toClient[0]);
    assert s.toClient[1..] == [];
  }

  lemma ReceiveKeeps(setup: Setup, s: Session)
    requires Modern(setup) && Inv(setup, s) && Enabled(s, ClientReceives)
    ensures Inv(setup, Do(setup, s, ClientReceives))
  {
    ReceiveFinds(setup, s);
    ReceivePlaces(setup, s);
    ReceiveGood(setup, s.client, s.toClient[0]);
    assert s.toClient[0] in s.toClient && s.toClient[1..] == [];
  }

  lemma ClientStopKeeps(setup: Setup, s: Session, m: Move)
    requires Modern(setup) && Inv(setup, s) && Enabled(s, m) && (m.ClientReadFails? || m.ClientGivesUp?)
    ensures Inv(setup, Do(setup, s, m))
  {
  }

  // ---- Moves of the server ----

  lemma GreetKeeps(setup: Setup, s: Session)
    requires Modern(setup) && Inv(setup, s) && Enabled(s, ServerGreets)
    ensures Inv(setup, Do(setup, s, ServerGreets))
  {
  }

  lemma ServerStopKeeps(setup: Setup, s: Session, m: Move)
    requires Modern(setup) && Inv(setup, s) && Enabled(s, m) && (m.ServerReadFails? || m.ServerGivesUp?)
    ensures Inv(setup, Do(setup, s, m))
  {
  }

  /** What the server makes of the one request it waits for. */
  lemma ServeGood(setup: Setup, server: Server, m: Message, o: Outcome)
    requires Modern(setup) && !server.done && !server.confused && server.commits == 0
    requires ServableAt(setup, server.proto, m)
    ensures
      var r := Serve(server, setup.serverLast, setup.isNew, Frame(m), o);
      && !r.server.confused && |r.out| <= 1
      && r.server.commits <= (if r.server.done then 1 else 0)
      && (r.server.commits > 0 ==> m.msgType == MSG_GET)
      && r.server.proto == (if m.msgType == MSG_VERSION then Agreed(setup) else server.proto)
      && (r.out == [] ==> r.server.done)
      && (m.msgType == MSG_VERSION ==> !r.server.done && r.out == [Typed(MSG_VERSION, [Agreed(setup)])])
      && (m.msgType != MSG_VERSION && r.out != [] ==>
            && GoodReply(setup, m.msgType, r.out[0])
            && if r.out[0].Typed? then r.out[0].msgType <= Agreed(setup) else Agreed(setup) < MSG_CONFIG)
      && (m.msgType == MSG_GET ==> r.server.done)
  {
  }

  /** A request still to be served means that the client waits and nothing is on its way to it. */
  lemma ServeFinds(setup: Setup, s: Session, o: Outcome)
    requires Modern(setup) && Placed(setup, s) && Enabled(s, ServerServes(o))
    ensures Ended(s.client) || ((s.client.Negotiating? || s.client.Waiting?) && s.toClient == [])
  {
  }

  lemma ServePlacesNegotiating(setup: Setup, s: Session, o: Outcome)
    requires Modern(setup) && Placed(setup, s) && Enabled(s, ServerServes(o)) && s.client.Negotiating?
    requires !s.server.confused && s.server.commits == 0 && |s.toServer| <= 1
    ensures Placed(setup, Do(setup, s, ServerServes(o)))
  {
    var m := s.toServer[0];
    assert s.toServer == [m] && s.toServer[1..] == [];
    ServeGood(setup, s.server, m, o);
    var r := Serve(s.server, setup.serverLast, setup.isNew, Frame(m), o);
    assert s.toClient + r.out == r.out;
  }

  lemma ServePlacesWaiting(setup: Setup, s: Session, o: Outcome)
    requires Modern(setup) && Sane(setup, s) && Placed(setup, s) && Enabled(s, ServerServes(o)) && s.client.Waiting?
    requires s.server.commits == 0
    ensures Placed(setup, Do(setup, s, ServerServes(o)))
  {
    var m := s.toServer[0];
    assert s.toServer[1..] == [];
    RemainingKnown(setup, s.client.todo);
    ServeGood(setup, s.server, m, o);
    var r := Serve(s.server, setup.serverLast, setup.isNew, Frame(m), o);
    assert s.toClient + r.out == r.out;
  }

  lemma ServePlaces(setup: Setup, s: Session, o: Outcome)
    requires Modern(setup) && Sane(setup, s) && s.server.commits == 0 && Placed(setup, s) && Enabled(s, ServerServes(o))
    ensures Placed(setup, Do(setup, s, ServerServes(o)))
    ensures Ended(s.client) || s.toClient == []
  {
    ServeFinds(setup, s, o);
    if s.client.Negotiating? {
      ServePlacesNegotiating(setup, s, o);
    } else if s.client.Waiting? {
      ServePlacesWaiting(setup, s, o);
    }
  }

  lemma ServeKeeps(setup: Setup, s: Session, o: Outcome)
    requires Modern(setup) && Inv(setup, s) && Enabled(s, ServerServes(o))
    ensures Inv(setup, Do(setup, s, ServerServes(o)))
  {
    var m := s.toServer[0];
    ServePlaces(setup, s, o);
    ServeGood(setup, s.server, m, o);
    assert m in s.toServer && s.toServer[1..] == [];
    assert m.Typed? && m.msgType == MSG_GET ==> Requested(s.clientLog);
  }

  lemma MoveKeeps(setup: Setup, s: Session, m: Move)
    requires Modern(setup) && Inv(setup, s) && Enabled(s, m)
    ensures Inv(setup, Do(setup, s, m))
  {
    match m
    case ClientSends(data) => SendKeeps(setup, s, data);
    case ClientReceives => ReceiveKeeps(setup, s);
    case ServerGreets => GreetKeeps(setup, s);
    case ServerServes(o) => ServeKeeps(setup, s, o);
    case ClientReadFails => ClientStopKeeps(setup, s, m);
    case ClientGivesUp(_) => ClientStopKeeps(setup, s, m);
    case ServerReadFails => ServerStopKeeps(setup, s, m);
    case ServerGivesUp => ServerStopKeeps(setup, s, m);
  }

  lemma {:induction false} Reachable(setup: Setup, ss: seq<Session>, moves: seq<Move>, i: nat)
    requires Modern(setup) && Run(setup, ss, moves) && i < |ss|
    ensures Inv(setup, ss[i])
  {
    if i > 0 {
      Reachable(setup, ss, moves, i - 1);
      assert StepAt(setup, ss, moves, i - 1);
      MoveKeeps(setup, ss[i - 1], moves[i - 1]);
    }
  }

  // ---- Main results ----

  /**
   * Version-skew safety: once a client has a version it is the minimum of both releases and the
   * server has the same one; neither side has ever sent a type above it; the server has met no
   * message it does not expect, nor has the client.
   */
  lemma VersionSkewSafety(setup: Setup, ss: seq<Session>, moves: seq<Move>, i: nat)
    requires Modern(setup) && Run(setup, ss, moves) && i < |ss|
    ensures
      var s := ss[i];
      && (s.client.Sending? || s.client.Waiting? || s.client.Configured? ==> s.client.proto == Agreed(setup))
      && (s.server.proto == MSG_UNDEFINED || s.server.proto == Agreed(setup))
      && ((s.client.Sending? || s.client.Waiting?) && !s.server.done ==> s.server.proto == s.client.proto)
      && (forall m <- s.clientLog :: m.Typed? && m.msgType <= Agreed(setup))
      && (forall m <- s.serverLog :: m.Typed? ==> m.msgType <= Agreed(setup))
      && !s.server.confused && s.client != Failed(Unexpected)
  {
    Reachable(setup, ss, moves, i);
    TypedRequests(setup, ss, moves, i);
  }

  lemma {:induction false} TypedRequests(setup: Setup, ss: seq<Session>, moves: seq<Move>, i: nat)
    requires Run(setup, ss, moves) && i < |ss|
    ensures forall m <- ss[i].clientLog :: m.Typed?
  {
    if i > 0 {
      TypedRequests(setup, ss, moves, i - 1);
      assert StepAt(setup, ss, moves, i - 1);
    }
  }

  /**
   * Both sides choose the same form for the configuration: raw below the config message's
   * version, framed from it on; a configured client holds exactly what the server sent.
   */
  lemma SameForm(setup: Setup, ss: seq<Session>, moves: seq<Move>, i: nat)
    requires Modern(setup) && Run(setup, ss, moves) && i < |ss|
    ensures forall m <- ss[i].serverLog :: m.Raw? ==> Agreed(setup) < MSG_CONFIG
    ensures ss[i].client.Configured? ==>
              (if Agreed(setup) < MSG_CONFIG then Raw(ss[i].client.config) else Typed(MSG_CONFIG, ss[i].client.config))
              in ss[i].serverLog
  {
    Reachable(setup, ss, moves, i);
  }

  /** At most one commit in a session, and none before the client's Get. */
  lemma OneCommit(setup: Setup, ss: seq<Session>, moves: seq<Move>, i: nat)
    requires Modern(setup) && Run(setup, ss, moves) && i < |ss|
    ensures ss[i].server.commits <= 1
    ensures ss[i].server.commits == 1 ==> ss[i].server.done && Requested(ss[i].clientLog)
  {
    Reachable(setup, ss, moves, i);
  }

  /** The two sides are never both waiting to read from each other. */
  lemma NeverBothWaiting(setup: Setup, ss: seq<Session>, moves: seq<Move>, i: nat)
    requires Modern(setup) && Run(setup, ss, moves) && i < |ss|
    ensures
      var s := ss[i];
      !(Reads(s.client) && s.toClient == [] && !s.server.done && s.greeted && s.toServer == [])
  {
    Reachable(setup, ss, moves, i);
  }

  /** As long as a side is not done, one of them can move without anybody giving up. */
  lemma Progress(setup: Setup, s: Session) returns (m: Move)
    requires Modern(setup) && Inv(setup, s) && !(Ended(s.client) && s.server.done)
    ensures Enabled(s, m) && !m.ClientGivesUp? && !m.ServerGivesUp?
  {
    var o := Outcome(true, true, true, true, true, [], []);
    if s.client.Greeting? || s.client.Sending? {
      m := ClientSends([]);
    } else if Reads(s.client) && s.toClient != [] {
      m := ClientReceives;
    } else if Reads(s.client) && s.server.done {
      m := ClientReadFails;
    } else if !s.greeted {
      m := ServerGreets;
    } else if s.toServer != [] {
      m := ServerServes(o);
    } else {
      m := ServerReadFails;
    }
  }

  /** The work left in a session; it falls with every move. */
  function Measure(s: Session): nat {
    3 * ClientWork(s.client) + 2 * |s.toServer| + |s.toClient| + (if s.greeted then 0 else 2)
        + (if s.server.done then 0 else 1)
  }

  function ClientWork(c: Client): nat {
    match c
    case Authenticating => 16
    case Greeting => 15
    case Negotiating => 14
    case Sending(_, todo) => 2 * |todo| + 1
    case Waiting(_, todo) => 2 * |todo|
    case _ => 0
  }

  lemma ReceptionWorks(setup: Setup, c: Client, m: Message)
    requires Modern(setup) && Reads(c)
    requires c.Authenticating? ==> m == Typed(MSG_READY, [])
    requires c.Negotiating? ==> m == Typed(MSG_VERSION, [Agreed(setup)])
    requires c.Waiting? ==> c.proto == Agreed(setup) && Remaining(setup, c.todo) && GoodReply(setup, c.todo[0], m)
    ensures ClientWork(Receive(c, setup.clientLast, setup.cfg, Frame(m))) < ClientWork(c)
  {
    ReceiveGood(setup, c, m);
    var c' := Receive(c, setup.clientLast, setup.cfg, Frame(m));
    if c'.Sending? {
      RemainingKnown(setup, c'.todo);
    }
  }

  lemma ReceiveWorks(setup: Setup, s: Session)
    requires Modern(setup) && Placed(setup, s) && Enabled(s, ClientReceives)
    ensures ClientWork(Receive(s.client, setup.clientLast, setup.cfg, Frame(s.toClient[0]))) < ClientWork(s.client)
  {
    ReceiveFinds(setup, s);
    ReceptionWorks(setup, s.client, s.toClient[0]);
  }

  lemma MoveWorks(setup: Setup, s: Session, m: Move)
    requires Modern(setup) && Inv(setup, s) && Enabled(s, m)
    ensures Measure(Do(setup, s, m)) < Measure(s)
  {
    match m
    case ClientReceives => ReceiveWorks(setup, s);
    case ServerServes(o) => ServeGood(setup, s.server, s.toServer[0], o);
    case ClientSends(_) =>
    case _ =>
  }

  lemma {:induction false} RunWorks(setup: Setup, ss: seq<Session>, moves: seq<Move>, i: nat)
    requires Modern(setup) && Run(setup, ss, moves) && i < |ss|
    ensures i + Measure(ss[i]) <= Measure(BEGIN)
  {
    if i > 0 {
      RunWorks(setup, ss, moves, i - 1);
      assert StepAt(setup, ss, moves, i - 1);
      Reachable(setup, ss, moves, i - 1);
      MoveWorks(setup, ss[i - 1], moves[i - 1]);
    }
  }

  /**
   * Every session ends: no run is longer than Measure(BEGIN) moves, and a run that cannot go on
   * without somebody giving up has both sides done, the client with a configuration or an error.
   */
  lemma SessionEnds(setup: Setup, ss: seq<Session>, moves: seq<Move>)
    requires Modern(setup) && Run(setup, ss, moves)
    ensures |moves| <= Measure(BEGIN) == 51
    ensures
      var s := ss[|ss| - 1];
      (forall m: Move :: Enabled(s, m) ==> m.ClientGivesUp? || m.ServerGivesUp?) ==> Ended(s.client) && s.server.done
  {
    RunWorks(setup, ss, moves, |moves|);
    Reachable(setup, ss, moves, |moves|);
    var s := ss[|ss| - 1];
    if !(Ended(s.client) && s.server.done) {
      var m := Progress(setup, s);
    }
  }
}
