/**
 * A client and a server of possibly different releases over a reliable FIFO connection:
 * every interleaving of their moves, with failures of either side at any point.
 */
module SessionRuns {
  import opened Protocol

  /** The releases of both sides, whether the machine is new to the server, and the client's settings. */
  datatype Setup = Setup(clientLast: MessageType, serverLast: MessageType, isNew: bool, cfg: ClientConfig)

  /** The session; `greeted` tells whether the server has confirmed the authentication. */
  datatype Session = Session(
    client: Client,
    server: Server,
    greeted: bool,
    toServer: seq<Message>,
    toClient: seq<Message>,
    clientLog: seq<Message>,
    serverLog: seq<Message>)

  datatype Move =
    | ClientSends(data: Bytes)
    | ClientReceives
    | ClientReadFails
    | ClientGivesUp(why: Failure)
    | ServerGreets
    | ServerServes(outcome: Outcome)
    | ServerReadFails
    | ServerGivesUp

  const BEGIN := Session(Authenticating, Server(MSG_UNDEFINED, false, 0, false), false, [], [], [], [])

  predicate Enabled(s: Session, m: Move) {
    match m
    case ClientSends(_) => s.client.Greeting? || (s.client.Sending? && s.client.todo != [])
    case ClientReceives => Reads(s.client) && s.toClient != [] && (s.client.Waiting? ==> s.client.todo != [])
    case ClientReadFails => Reads(s.client) && s.toClient == [] && s.server.done
    case ClientGivesUp(why) => !Ended(s.client) && (why.ConnectionError? || why.Unprepared?)
    case ServerGreets => !s.server.done && !s.greeted
    case ServerServes(_) => !s.server.done && s.greeted && s.toServer != []
    case ServerReadFails => !s.server.done && s.greeted && s.toServer == [] && Ended(s.client)
    case ServerGivesUp => !s.server.done
  }

  function Do(setup: Setup, s: Session, m: Move): Session
    requires Enabled(s, m)
  {
    match m
    case ClientSends(data) =>
      var out := Outgoing(s.client, setup.clientLast, data);
      s.(client := Sent(s.client), toServer := s.toServer + [out], clientLog := s.clientLog + [out])
    case ClientReceives =>
      s.(client := Receive(s.client, setup.clientLast, setup.cfg, Frame(s.toClient[0])), toClient := s.toClient[1..])
    case ClientReadFails => s.(client := Failed(ConnectionError))
    case ClientGivesUp(why) => s.(client := Failed(why))
    case ServerGreets =>
      var out := Typed(MSG_READY, []);
      s.(greeted := true, toClient := s.toClient + [out], serverLog := s.serverLog + [out])
    case ServerServes(outcome) =>
      var reply := Serve(s.server, setup.serverLast, setup.isNew, Frame(s.toServer[0]), outcome);
      s.(server := reply.server, toServer := s.toServer[1..],
         toClient := s.toClient + reply.out, serverLog := s.serverLog + reply.out)
    case ServerReadFails => s.(server := s.server.(done := true))
    case ServerGivesUp => s.(server := s.server.(done := true))
  }

  predicate StepAt(setup: Setup, ss: seq<Session>, moves: seq<Move>, i: nat)
    requires i < |moves| < |ss|
  {
    Enabled(ss[i], moves[i]) && ss[i + 1] == Do(setup, ss[i], moves[i])
  }

  predicate Run(setup: Setup, ss: seq<Session>, moves: seq<Move>) {
    |ss| == |moves| + 1 && ss[0] == BEGIN && forall i: nat :: i < |moves| ==> StepAt(setup, ss, moves, i)
  }

  /** Both releases speak version negotiation. */
  predicate Modern(setup: Setup) {
    setup.clientLast >= MSG_VERSION && setup.serverLast >= MSG_VERSION
  }

  function Agreed(setup: Setup): MessageType {
    Min(setup.clientLast, setup.serverLast)
  }

  // ---- The lockstep invariant ----

  predicate IsRequest(t: MessageType) {
    t == MSG_UPDATE || t == MSG_SMBIOS || t == MSG_SYSTEM_DATA || t == MSG_SYSTEM_DATA_V2
    || t == MSG_ANNOTATIONS || t == MSG_LABELS || t == MSG_GET
  }

  /** Requests that a version knows, at most so many, of which the last and no other is the Get. */
  predicate Proper(todo: seq<MessageType>, proto: MessageType, most: nat) {
    && 0 < |todo| <= most && todo[|todo| - 1] == MSG_GET
    && (forall t <- todo :: IsRequest(t) && t <= proto)
    && (forall k :: 0 <= k < |todo| - 1 ==> todo[k] != MSG_GET)
  }

  /** What a client may have left to send. */
  predicate Remaining(setup: Setup, todo: seq<MessageType>) {
    Proper(todo, Agreed(setup), 6)
  }

  /** The reply the client waits for. */
  predicate GoodReply(setup: Setup, t: MessageType, reply: Message) {
    if t == MSG_GET then
      if Agreed(setup) < MSG_CONFIG then reply.Raw?
      else reply.Typed? && (reply.msgType == MSG_CONFIG || (reply.msgType == MSG_ERROR && MSG_ERROR <= Agreed(setup)))
    else reply.Typed? && (reply.msgType == MSG_READY || (t == MSG_UPDATE && reply.msgType == MSG_ERROR))
  }

  /** Before negotiation the server has no version; afterwards both have the agreed one. */
  predicate Matched(setup: Setup, s: Session) {
    s.server.proto == Agreed(setup)
  }

  /** Where a session may be while both sides are open; exactly one of them is to move. */
  predicate InStep(setup: Setup, s: Session) {
    match s.client
    case Authenticating => s.toServer == [] && s.toClient == (if s.greeted then [Typed(MSG_READY, [])] else [])
    case Greeting => s.greeted && s.toServer == [] && s.toClient == []
    case Negotiating =>
      && s.greeted
      && if s.toServer == [] then s.toClient == [Typed(MSG_VERSION, [Agreed(setup)])] && Matched(setup, s)
         else s.toServer == [Typed(MSG_VERSION, [setup.clientLast])] && s.toClient == []
    case Sending(proto, todo) =>
      && s.greeted && s.toServer == [] && s.toClient == []
      && proto == Agreed(setup) && Matched(setup, s) && Remaining(setup, todo)
    case Waiting(proto, todo) =>
      && s.greeted && proto == Agreed(setup) && Matched(setup, s) && Remaining(setup, todo)
      && if s.toServer == [] then |s.toClient| == 1 && GoodReply(setup, todo[0], s.toClient[0])
         else |s.toServer| == 1 && s.toServer[0].Typed? && s.toServer[0].msgType == todo[0] && s.toClient == []
    case _ => true
  }

  /** A server that is done has left the client's reply, if any, on the connection. */
  predicate ServerLeft(setup: Setup, s: Session) {
    && (Reads(s.client) && s.toClient == [] ==> |s.toServer| <= 1)
    && (!Ended(s.client) && (!Reads(s.client) || s.toClient != []) ==> s.toServer == [])
    && match s.client
       case Authenticating => s.toServer == [] && (s.toClient == [] || s.toClient == [Typed(MSG_READY, [])])
       case Greeting => s.toClient == []
       case Negotiating => s.toClient == [] || s.toClient == [Typed(MSG_VERSION, [Agreed(setup)])]
       case Sending(proto, todo) => s.toClient == [] && proto == Agreed(setup) && Remaining(setup, todo)
       case Waiting(proto, todo) =>
         && proto == Agreed(setup) && Remaining(setup, todo)
         && (s.toClient == [] || (|s.toClient| == 1 && GoodReply(setup, todo[0], s.toClient[0])))
       case _ => true
  }
}
