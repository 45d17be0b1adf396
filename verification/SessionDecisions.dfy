/** What the two sides of a registration decide: whom the server refuses, and what a client gets in the end. */
module SessionDecisions {
  import opened Wrappers
  import opened Protocol
  import opened SessionRuns
  import opened SessionSafety
  import opened SessionRefinement

  // ---- One turn of the serve loop ----

  predicate IsReport(t: MessageType) {
    t == MSG_SMBIOS || t == MSG_LABELS || t == MSG_ANNOTATIONS || t == MSG_SYSTEM_DATA || t == MSG_SYSTEM_DATA_V2
  }

  /** An update is refused, and the session over, exactly when the machine is new. */
  lemma UpdateDecides(s: Server, last: MessageType, isNew: bool, data: Bytes, o: Outcome)
    requires !s.done && s.proto >= MSG_UPDATE && last >= MSG_UPDATE
    ensures
      var r := Serve(s, last, isNew, Frame(Typed(MSG_UPDATE, data)), o);
      && r.server == s.(done := isNew)
      && r.out == [if isNew then Typed(MSG_ERROR, o.error) else Typed(MSG_READY, [])]
  {
  }

  /** A report is acknowledged exactly when it can be parsed; otherwise the session is over without a word. */
  lemma ReportDecides(s: Server, last: MessageType, isNew: bool, t: MessageType, data: Bytes, o: Outcome)
    requires !s.done && IsReport(t) && t <= last
    ensures
      var r := Serve(s, last, isNew, Frame(Typed(t, data)), o);
      r.server == s.(done := !o.parsed) && (Typed(MSG_READY, []) in r.out <==> o.parsed) && |r.out| <= 1
  {
  }

  /** Nothing kept the configuration from being written for a Get. */
  predicate Configurable(proto: MessageType, o: Outcome) {
    o.templated && o.committed && (proto >= MSG_NETWORK_CONFIG ==> o.networkReady) && o.configured
  }

  /**
   * A Get ends the session. It counts a commit exactly when the templates resolve and the commit succeeds, and it
   * is answered by the configuration exactly when nothing fails. What fails after the templates is reported to
   * clients that know the error message.
   */
  lemma GetDecides(s: Server, last: MessageType, isNew: bool, data: Bytes, o: Outcome)
    requires !s.done && last >= MSG_GET
    ensures
      var r := Serve(s, last, isNew, Frame(Typed(MSG_GET, data)), o);
      && r.server.done && r.server.confused == s.confused
      && r.server.commits == s.commits + (if o.templated && o.committed then 1 else 0)
      && (r.out == [WriteConfig(s.proto, o.config)] <==> Configurable(s.proto, o))
      && (!Configurable(s.proto, o) ==>
            r.out == if o.templated && s.proto >= MSG_ERROR then [Typed(MSG_ERROR, o.error)] else [])
  {
  }

  // ---- Updates of machines the server does not know ----

  predicate IsType(m: Message, t: MessageType) {
    m.Typed? && m.msgType == t
  }

  /** The client gets no further than its update, and is only ever answered by an error. */
  predicate Refused(s: Session) {
    && !s.client.Configured? && s.server.commits == 0
    && (s.client.Sending? || s.client.Waiting? ==> s.client.todo != [] && s.client.todo[0] == MSG_UPDATE)
    && (forall m <- s.toServer :: IsType(m, MSG_VERSION) || IsType(m, MSG_UPDATE))
    && (s.client.Waiting? ==> forall m <- s.toClient :: IsType(m, MSG_ERROR))
  }

  lemma UpdateFirst(proto: MessageType, cfg: ClientConfig)
    requires cfg.updatable
    ensures Todo(proto, cfg) != [] && Todo(proto, cfg)[0] == MSG_UPDATE
  {
  }

  lemma RefusedReceives(setup: Setup, s: Session)
    requires Modern(setup) && setup.cfg.updatable && Inv(setup, s) && Refused(s) && Enabled(s, ClientReceives)
    ensures Refused(Do(setup, s, ClientReceives))
  {
    ReceiveFinds(setup, s);
    var m := s.toClient[0];
    assert m in s.toClient;
    if s.client.Negotiating? {
      UpdateFirst(Agreed(setup), setup.cfg);
    } else if s.client.Waiting? {
      FrameRoundTrip(MSG_ERROR, m.data, setup.clientLast);
    }
  }

  lemma RefusedServes(setup: Setup, s: Session, o: Outcome)
    requires Modern(setup) && setup.isNew && Inv(setup, s) && Refused(s) && Enabled(s, ServerServes(o))
    ensures Refused(Do(setup, s, ServerServes(o)))
  {
    var m := s.toServer[0];
    assert m in s.toServer && s.toServer[1..] == [];
    ServeFinds(setup, s, o);
    FrameRoundTrip(m.msgType, m.data, setup.serverLast);
  }

  lemma RefusedKept(setup: Setup, s: Session, m: Move)
    requires Modern(setup) && setup.isNew && setup.cfg.updatable && Inv(setup, s) && Refused(s) && Enabled(s, m)
    ensures Refused(Do(setup, s, m))
  {
    match m
    case ClientReceives => RefusedReceives(setup, s);
    case ServerServes(o) => RefusedServes(setup, s, o);
    case _ =>
  }

  /** A machine that updates and is not known to the server is never configured, and nothing is stored for it. */
  lemma {:induction false} UnknownIsRefused(setup: Setup, ss: seq<Session>, moves: seq<Move>, i: nat)
    requires Modern(setup) && setup.isNew && setup.cfg.updatable && Run(setup, ss, moves) && i < |ss|
    ensures !ss[i].client.Configured? && ss[i].server.commits == 0
    ensures Refused(ss[i])
  {
    if i > 0 {
      UnknownIsRefused(setup, ss, moves, i - 1);
      assert StepAt(setup, ss, moves, i - 1);
      SessionSafety.Reachable(setup, ss, moves, i - 1);
      RefusedKept(setup, ss[i - 1], moves[i - 1]);
    }
  }

  /** A machine the server knows gets no error before it asks for its configuration. */
  lemma {:induction false} KnownIsServed(setup: Setup, ss: seq<Session>, moves: seq<Move>, i: nat)
    requires Modern(setup) && !setup.isNew && Run(setup, ss, moves) && i < |ss|
    ensures Requested(ss[i].clientLog) || forall m <- ss[i].serverLog :: !IsType(m, MSG_ERROR)
  {
    if i > 0 {
      KnownIsServed(setup, ss, moves, i - 1);
      assert StepAt(setup, ss, moves, i - 1);
      SessionSafety.Reachable(setup, ss, moves, i - 1);
      var s := ss[i - 1];
      if moves[i - 1].ServerServes? {
        var m := s.toServer[0];
        assert m in s.toServer && m in s.clientLog;
        FrameRoundTrip(m.msgType, m.data, setup.serverLast);
      }
      assert s.clientLog <= ss[i].clientLog;
    }
  }

  // ---- What a configured client has sent, and what was stored for it ----

  function TypeOf(m: Message): MessageType {
    if m.Typed? then m.msgType else MSG_UNDEFINED
  }

  function Types(log: seq<Message>): (types: seq<MessageType>)
    ensures |types| == |log| && forall k :: 0 <= k < |log| ==> types[k] == TypeOf(log[k])
  {
    if log == [] then [] else Types(log[..|log| - 1]) + [TypeOf(log[|log| - 1])]
  }

  lemma TypesGrow(log: seq<Message>, m: Message)
    ensures Types(log + [m]) == Types(log) + [TypeOf(m)]
  {
  }

  function Whole(proto: MessageType, cfg: ClientConfig): seq<MessageType> {
    [MSG_VERSION] + Todo(proto, cfg)
  }

  /** What a client has sent, followed by what it still has to send, is the whole session. */
  predicate InOrder(setup: Setup, s: Session) {
    match s.client
    case Authenticating => s.clientLog == []
    case Greeting => s.clientLog == []
    case Negotiating => Types(s.clientLog) == [MSG_VERSION]
    case Sending(proto, todo) => Types(s.clientLog) + todo == Whole(proto, setup.cfg)
    case Waiting(proto, todo) => todo != [] && Types(s.clientLog) + todo[1..] == Whole(proto, setup.cfg)
    case Configured(proto, _) => Types(s.clientLog) == Whole(proto, setup.cfg)
    case Failed(_) => true
  }

  lemma MovedOver(sent: seq<MessageType>, todo: seq<MessageType>)
    requires todo != []
    ensures (sent + [todo[0]]) + todo[1..] == sent + todo
  {
  }

  lemma InOrderSends(setup: Setup, s: Session, data: Bytes)
    requires InOrder(setup, s) && Enabled(s, ClientSends(data))
    ensures InOrder(setup, Do(setup, s, ClientSends(data)))
  {
    TypesGrow(s.clientLog, Outgoing(s.client, setup.clientLast, data));
    if s.client.Sending? {
      MovedOver(Types(s.clientLog), s.client.todo);
    } else {
      assert Types(s.clientLog) == [];
    }
  }

  /** The only reply that configures a client is the one to its Get, which is the last thing it has to send. */
  lemma LastIsGet(setup: Setup, c: Client, m: Message)
    requires Modern(setup) && c.Waiting? && c.proto == Agreed(setup) && Remaining(setup, c.todo)
    requires GoodReply(setup, c.todo[0], m)
    ensures Receive(c, setup.clientLast, setup.cfg, Frame(m)).Configured? ==> c.todo[1..] == []
  {
    if c.todo[0] == MSG_GET {
      assert |c.todo| == 1;
    } else {
      FrameRoundTrip(m.msgType, m.data, setup.clientLast);
    }
  }

  lemma NegotiatedWhole(setup: Setup, frame: Bytes)
    ensures
      var c := Negotiated(frame, setup.clientLast, setup.cfg);
      c.Sending? ==> [MSG_VERSION] + c.todo == Whole(c.proto, setup.cfg)
  {
  }

  lemma InOrderReceives(setup: Setup, s: Session)
    requires Modern(setup) && Inv(setup, s) && InOrder(setup, s) && Enabled(s, ClientReceives)
    ensures InOrder(setup, Do(setup, s, ClientReceives))
  {
    ReceiveFinds(setup, s);
    var c, m := s.client, s.toClient[0];
    var c' := Receive(c, setup.clientLast, setup.cfg, Frame(m));
    ReceiveGood(setup, c, m);
    if c.Waiting? {
      LastIsGet(setup, c, m);
      assert Types(s.clientLog) + [] == Types(s.clientLog);
    } else if c.Negotiating? {
      NegotiatedWhole(setup, Frame(m));
    }
  }

  /** A configured client has sent its version and every message of its session, each once and in order. */
  lemma {:induction false} ConfiguredHasSentAll(setup: Setup, ss: seq<Session>, moves: seq<Move>, i: nat)
    requires Modern(setup) && Run(setup, ss, moves) && i < |ss|
    ensures ss[i].client.Configured? ==> Types(ss[i].clientLog) == [MSG_VERSION] + Todo(Agreed(setup), setup.cfg)
    ensures InOrder(setup, ss[i])
  {
    SessionSafety.Reachable(setup, ss, moves, i);
    if i > 0 {
      ConfiguredHasSentAll(setup, ss, moves, i - 1);
      assert StepAt(setup, ss, moves, i - 1);
      SessionSafety.Reachable(setup, ss, moves, i - 1);
      match moves[i - 1]
      case ClientSends(data) => InOrderSends(setup, ss[i - 1], data);
      case ClientReceives => InOrderReceives(setup, ss[i - 1]);
      case _ =>
    }
  }

  predicate Ranked(todo: seq<MessageType>, rank: nat) {
    && (forall t <- todo :: rank <= Rank(t) < 6)
    && (forall i, j :: 0 <= i < j < |todo| ==> Rank(todo[i]) < Rank(todo[j]))
  }

  lemma OptionalRanked(present: bool, t: MessageType, rest: seq<MessageType>)
    requires Ranked(rest, Rank(t) + 1) && Rank(t) < 6
    ensures Ranked(Optional(present, t) + rest, Rank(t))
    ensures forall u :: u in Optional(present, t) + rest <==> (present && u == t) || u in rest
  {
    if present {
      var todo := [t] + rest;
      assert forall k :: 0 < k < |todo| ==> todo[k] == rest[k - 1] && rest[k - 1] in rest;
    } else {
      assert Optional(present, t) + rest == rest;
    }
  }

  lemma TagsAre(proto: MessageType, cfg: ClientConfig)
    ensures Ranked(Tags(proto, cfg), 3)
    ensures
      forall t :: t in Tags(proto, cfg) <==>
        || t == MSG_GET || (t == MSG_LABELS && cfg.hasLabels) || (t == MSG_ANNOTATIONS && proto >= MSG_ANNOTATIONS)
  {
    OptionalRanked(cfg.hasLabels, MSG_LABELS, [MSG_GET]);
    OptionalRanked(proto >= MSG_ANNOTATIONS, MSG_ANNOTATIONS, Optional(cfg.hasLabels, MSG_LABELS) + [MSG_GET]);
  }

  /** Whether a session of a version and of some settings has a message. */
  predicate Wanted(t: MessageType, proto: MessageType, cfg: ClientConfig) {
    || t == MSG_GET
    || (t == MSG_UPDATE && cfg.updatable)
    || (t == MSG_SMBIOS && !cfg.noSmbios)
    || (t == MSG_SYSTEM_DATA && !cfg.noSmbios && MSG_SYSTEM_DATA <= proto < MSG_SYSTEM_DATA_V2)
    || (t == MSG_SYSTEM_DATA_V2 && !cfg.noSmbios && MSG_SYSTEM_DATA_V2 <= proto)
    || (t == MSG_ANNOTATIONS && MSG_ANNOTATIONS <= proto)
    || (t == MSG_LABELS && cfg.hasLabels)
  }

  /** A session has exactly the wanted messages: update, SMBIOS, system data, annotations, labels, Get. */
  lemma TodoIs(proto: MessageType, cfg: ClientConfig)
    ensures forall t :: t in Todo(proto, cfg) <==> Wanted(t, proto, cfg)
    ensures Ranked(Todo(proto, cfg), 0)
  {
    TagsAre(proto, cfg);
    if !cfg.noSmbios {
      OptionalRanked(proto >= MSG_SYSTEM_DATA, SystemType(proto), Tags(proto, cfg));
      OptionalRanked(true, MSG_SMBIOS, SystemData(proto) + Tags(proto, cfg));
    }
    OptionalRanked(cfg.updatable, MSG_UPDATE, AfterUpdate(proto, cfg));
  }

  predicate IsConfig(m: Message) {
    m.Raw? || m.msgType == MSG_CONFIG
  }

  /** The server writes a configuration only in the turn that counts a commit. */
  lemma ConfigCommits(s: Server, last: MessageType, isNew: bool, frame: Bytes, o: Outcome)
    ensures
      var r := Serve(s, last, isNew, frame, o);
      r.server.commits >= s.commits && (r.server.commits == s.commits ==> forall m <- r.out :: !IsConfig(m))
  {
  }

  predicate NoneConfigured(log: seq<Message>) {
    forall m <- log :: !IsConfig(m)
  }

  lemma MoveCommits(setup: Setup, s: Session, m: Move)
    requires Enabled(s, m) && (s.server.commits == 0 ==> NoneConfigured(s.serverLog))
    ensures Do(setup, s, m).server.commits == 0 ==> NoneConfigured(Do(setup, s, m).serverLog)
  {
    if m.ServerServes? {
      ConfigCommits(s.server, setup.serverLast, setup.isNew, Frame(s.toServer[0]), m.outcome);
    }
  }

  lemma {:induction false} ConfigsCommitted(setup: Setup, ss: seq<Session>, moves: seq<Move>, i: nat)
    requires Run(setup, ss, moves) && i < |ss|
    ensures ss[i].server.commits == 0 ==> NoneConfigured(ss[i].serverLog)
  {
    if i > 0 {
      ConfigsCommitted(setup, ss, moves, i - 1);
      assert StepAt(setup, ss, moves, i - 1);
      MoveCommits(setup, ss[i - 1], moves[i - 1]);
    }
  }

  /** No configuration is handed out before the inventory is stored: a configured client has exactly one. */
  lemma ConfiguredIsStored(setup: Setup, ss: seq<Session>, moves: seq<Move>, i: nat)
    requires Modern(setup) && Run(setup, ss, moves) && i < |ss|
    ensures ss[i].client.Configured? ==> ss[i].server.commits == 1
  {
    SessionSafety.Reachable(setup, ss, moves, i);
    ConfigsCommitted(setup, ss, moves, i);
  }

  // ---- Sessions in which nothing goes wrong ----

  /** Nobody gives up, and the server's own work succeeds. */
  predicate Smooth(m: Move) {
    && !m.ClientGivesUp? && !m.ServerGivesUp?
    && (m.ServerServes? ==>
          var o := m.outcome;
          o.parsed && o.templated && o.committed && o.networkReady && o.configured)
  }

  /** The client registers a machine, or updates one that the server knows over a version that can. */
  predicate Welcome(setup: Setup) {
    setup.cfg.updatable ==> !setup.isNew && Agreed(setup) >= MSG_UPDATE
  }

  predicate OnTrack(setup: Setup, s: Session) {
    && !s.client.Failed? && (s.client.Configured? ==> s.server.done)
    && (s.server.done && !Ended(s.client) ==> s.client.Waiting? && s.toClient != [])
    && (s.client.Waiting? ==> forall m <- s.toClient :: !IsType(m, MSG_ERROR))
    && (s.client.Waiting? && s.client.todo != [] && s.client.todo[0] == MSG_GET && s.toClient != [] ==> s.server.done)
    && (s.server.done && s.client.Waiting? ==> s.client.todo != [] && s.client.todo[0] == MSG_GET)
    && ((s.client.Sending? || s.client.Waiting?) && MSG_UPDATE in s.client.todo ==> setup.cfg.updatable)
  }

  lemma TrackReceives(setup: Setup, s: Session)
    requires Modern(setup) && Welcome(setup) && Inv(setup, s) && OnTrack(setup, s) && Enabled(s, ClientReceives)
    ensures OnTrack(setup, Do(setup, s, ClientReceives))
  {
    ReceiveFinds(setup, s);
    var m := s.toClient[0];
    assert m in s.toClient;
    ReceiveGood(setup, s.client, m);
    if m.Typed? {
      FrameRoundTrip(m.msgType, m.data, setup.clientLast);
    }
    if s.client.Negotiating? {
      TodoIs(Agreed(setup), setup.cfg);
    }
  }

  lemma TrackServes(setup: Setup, s: Session, o: Outcome)
    requires Modern(setup) && Welcome(setup) && Inv(setup, s) && OnTrack(setup, s) && Enabled(s, ServerServes(o))
    requires Smooth(ServerServes(o))
    ensures OnTrack(setup, Do(setup, s, ServerServes(o)))
  {
    ServeFinds(setup, s, o);
    var m := s.toServer[0];
    assert s.toServer[1..] == [];
    FrameRoundTrip(m.msgType, m.data, setup.serverLast);
  }

  lemma TrackKept(setup: Setup, s: Session, m: Move)
    requires Modern(setup) && Welcome(setup) && Inv(setup, s) && OnTrack(setup, s) && Enabled(s, m) && Smooth(m)
    ensures OnTrack(setup, Do(setup, s, m))
  {
    match m
    case ClientReceives => TrackReceives(setup, s);
    case ServerServes(o) => TrackServes(setup, s, o);
    case _ =>
  }

  lemma {:induction false} TrackReachable(setup: Setup, ss: seq<Session>, moves: seq<Move>, i: nat)
    requires Modern(setup) && Welcome(setup) && Run(setup, ss, moves) && i < |ss|
    requires forall m <- moves :: Smooth(m)
    ensures OnTrack(setup, ss[i])
  {
    if i > 0 {
      TrackReachable(setup, ss, moves, i - 1);
      assert StepAt(setup, ss, moves, i - 1) && moves[i - 1] in moves;
      SessionSafety.Reachable(setup, ss, moves, i - 1);
      TrackKept(setup, ss[i - 1], moves[i - 1]);
    }
  }

  /**
   * A welcome client is configured and its inventory stored once: a session in which nothing goes wrong can only
   * stop there, and by `SessionEnds` it stops.
   */
  lemma WelcomeIsConfigured(setup: Setup, ss: seq<Session>, moves: seq<Move>)
    requires Modern(setup) && Welcome(setup) && Run(setup, ss, moves)
    requires forall m <- moves :: Smooth(m)
    requires forall m: Move :: Enabled(ss[|moves|], m) ==> m.ClientGivesUp? || m.ServerGivesUp?
    ensures ss[|moves|].client.Configured? && ss[|moves|].server.commits == 1
  {
    SessionEnds(setup, ss, moves);
    TrackReachable(setup, ss, moves, |moves|);
    ConfiguredIsStored(setup, ss, moves, |moves|);
  }
}
