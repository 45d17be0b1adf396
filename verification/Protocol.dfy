/** Message types and frames of the registration protocol, and what each side does with them. */
module Protocol {
  import opened Wrappers

  newtype byte = x: int | 0 <= x < 256

  /** A message type is a byte; the types of a release are those up to its last one. */
  type MessageType = byte

  const MSG_UNDEFINED: MessageType := 0
  const MSG_READY: MessageType := 1
  const MSG_SMBIOS: MessageType := 2
  const MSG_LABELS: MessageType := 3
  const MSG_GET: MessageType := 4
  const MSG_VERSION: MessageType := 5
  const MSG_SYSTEM_DATA: MessageType := 6
  const MSG_CONFIG: MessageType := 7
  const MSG_ERROR: MessageType := 8
  const MSG_ANNOTATIONS: MessageType := 9
  const MSG_UPDATE: MessageType := 10
  const MSG_SYSTEM_DATA_V2: MessageType := 11
  const MSG_NETWORK_CONFIG: MessageType := 12

  type Bytes = seq<byte>

  /** What is written on the connection: a typed message, or the raw configuration of old releases. */
  datatype Message = Typed(msgType: MessageType, data: Bytes) | Raw(bytes: Bytes)

  datatype Extracted = Extracted(msgType: MessageType, data: Bytes)

  function InsertMessageType(t: MessageType, data: Bytes): Bytes {
    [t] + data
  }

  /** A release rejects empty frames and types above its own last one. */
  function ExtractMessageType(frame: Bytes, last: MessageType): Option<Extracted> {
    if |frame| < 1 || frame[0] > last then None else Some(Extracted(frame[0], frame[1..]))
  }

  function Frame(m: Message): Bytes {
    match m
    case Typed(t, data) => InsertMessageType(t, data)
    case Raw(bytes) => bytes
  }

  /** Reading back a typed message gives it back exactly when the reader knows its type. */
  lemma FrameRoundTrip(t: MessageType, data: Bytes, last: MessageType)
    ensures ExtractMessageType(Frame(Typed(t, data)), last) == if t <= last then Some(Extracted(t, data)) else None
  {
  }

  function Min(a: MessageType, b: MessageType): MessageType {
    if a <= b then a else b
  }

  /** The version a server of release `last` agrees to; none when the client is too old or malformed. */
  function DecodeProtocolVersion(data: Bytes, last: MessageType): (version: Option<MessageType>)
    ensures version.Some? <==> |data| == 1 && (data[0] == last || data[0] > MSG_GET)
    ensures version.Some? ==> version.value == Min(data[0], last)
  {
    if |data| != 1 then None
    else if data[0] == last then Some(data[0])
    else if data[0] <= MSG_GET then None
    else if data[0] > last then Some(last)
    else Some(data[0])
  }

  // ---- Server ----

  /** How the server's own work on one frame goes. */
  datatype Outcome = Outcome(
    parsed: bool,
    templated: bool,
    committed: bool,
    networkReady: bool,
    configured: bool,
    config: Bytes,
    error: Bytes)

  /** `commits` counts the inventory commits; `confused` is set by a message it should never get. */
  datatype Server = Server(proto: MessageType, done: bool, commits: nat, confused: bool)

  datatype Reply = Reply(server: Server, out: seq<Message>)

  function WriteError(proto: MessageType, error: Bytes): seq<Message> {
    if proto < MSG_ERROR then [] else [Typed(MSG_ERROR, error)]
  }

  function WriteConfig(proto: MessageType, config: Bytes): Message {
    if proto < MSG_CONFIG then Raw(config) else Typed(MSG_CONFIG, config)
  }

  function HandleGet(s: Server, o: Outcome): Reply {
    var ended := s.(done := true);
    if !o.committed then Reply(ended, WriteError(s.proto, o.error))
    else
      var stored := ended.(commits := s.commits + 1);
      if (s.proto >= MSG_NETWORK_CONFIG && !o.networkReady) || !o.configured
      then Reply(stored, WriteError(s.proto, o.error))
      else Reply(stored, [WriteConfig(s.proto, o.config)])
  }

  /** One turn of the serve loop. */
  function Serve(s: Server, last: MessageType, isNew: bool, frame: Bytes, o: Outcome): Reply {
    var ended := Reply(s.(done := true), []);
    var ready := Reply(s, [Typed(MSG_READY, [])]);
    var message := ExtractMessageType(frame, last);
    if message.None? then Reply(s.(done := true, confused := true), [])
    else
      var t := message.value.msgType;
      if t == MSG_VERSION then
        var version := DecodeProtocolVersion(message.value.data, last);
        if version.None? then ended else Reply(s.(proto := version.value), [Typed(MSG_VERSION, [version.value])])
      else if t == MSG_SMBIOS || t == MSG_LABELS || t == MSG_ANNOTATIONS || t == MSG_SYSTEM_DATA
          || t == MSG_SYSTEM_DATA_V2 then
        if o.parsed then ready else ended
      else if t == MSG_GET then
        if !o.templated then ended else HandleGet(s, o)
      else if t == MSG_UPDATE then
        if isNew then Reply(s.(done := true), WriteError(s.proto, o.error)) else ready
      else Reply(s.(done := true, confused := true), [])
  }

  // ---- Client ----

  /** What decides which messages a client sends. */
  datatype ClientConfig = ClientConfig(updatable: bool, noSmbios: bool, hasLabels: bool)

  datatype Failure = ConnectionError | ServerError | TooOld | Unprepared | Unexpected

  /**
   * Where a client is: waiting for the end of authentication, about to send its version,
   * waiting for the server's, about to send the first message of `todo`, waiting for the
   * reply to it, or done.
   */
  datatype Client =
    | Authenticating
    | Greeting
    | Negotiating
    | Sending(proto: MessageType, todo: seq<MessageType>)
    | Waiting(proto: MessageType, todo: seq<MessageType>)
    | Configured(proto: MessageType, config: Bytes)
    | Failed(why: Failure)

  predicate Ended(c: Client) {
    c.Configured? || c.Failed?
  }

  predicate Reads(c: Client) {
    c.Authenticating? || c.Negotiating? || c.Waiting?
  }

  function Optional(present: bool, t: MessageType): seq<MessageType> {
    if present then [t] else []
  }

  /** The messages of a session after negotiation, in order. */
  function Todo(proto: MessageType, cfg: ClientConfig): seq<MessageType> {
    Optional(cfg.updatable, MSG_UPDATE) + AfterUpdate(proto, cfg)
  }

  /** SMBIOS and system data, unless they are switched off, come before everything else. */
  function AfterUpdate(proto: MessageType, cfg: ClientConfig): seq<MessageType> {
    if cfg.noSmbios then Tags(proto, cfg) else [MSG_SMBIOS] + (SystemData(proto) + Tags(proto, cfg))
  }

  function SystemData(proto: MessageType): seq<MessageType> {
    Optional(proto >= MSG_SYSTEM_DATA, SystemType(proto))
  }

  function SystemType(proto: MessageType): MessageType {
    if proto >= MSG_SYSTEM_DATA_V2 then MSG_SYSTEM_DATA_V2 else MSG_SYSTEM_DATA
  }

  function Tags(proto: MessageType, cfg: ClientConfig): seq<MessageType> {
    Optional(proto >= MSG_ANNOTATIONS, MSG_ANNOTATIONS) + (Optional(cfg.hasLabels, MSG_LABELS) + [MSG_GET])
  }

  function Negotiated(frame: Bytes, last: MessageType, cfg: ClientConfig): Client {
    var message := ExtractMessageType(frame, last);
    if message.None? || message.value.msgType != MSG_VERSION || |message.value.data| != 1 then Failed(Unexpected)
    else
      var proto := message.value.data[0];
      if cfg.updatable && proto < MSG_UPDATE then Failed(TooOld) else Sending(proto, Todo(proto, cfg))
  }

  /** The client after reading a frame. */
  function Receive(c: Client, last: MessageType, cfg: ClientConfig, frame: Bytes): Client
    requires Reads(c) && (c.Waiting? ==> c.todo != [])
  {
    var message := ExtractMessageType(frame, last);
    match c
    case Authenticating => if message.Some? && message.value.msgType == MSG_READY then Greeting else Failed(Unexpected)
    case Negotiating => Negotiated(frame, last, cfg)
    case Waiting(proto, todo) =>
      if todo[0] == MSG_GET && proto < MSG_CONFIG then Configured(proto, frame)
      else if message.None? then Failed(Unexpected)
      else if todo[0] == MSG_GET then
        if message.value.msgType == MSG_CONFIG then Configured(proto, message.value.data)
        else if message.value.msgType == MSG_ERROR then Failed(ServerError)
        else Failed(Unexpected)
      else if message.value.msgType == MSG_READY then Sending(proto, todo[1..])
      else if todo[0] == MSG_UPDATE && message.value.msgType == MSG_ERROR then Failed(ServerError)
      else Failed(Unexpected)
  }

  /** The message a client that does not read sends next, and where that leaves it. */
  function Outgoing(c: Client, last: MessageType, data: Bytes): Message
    requires c.Greeting? || (c.Sending? && c.todo != [])
  {
    if c.Greeting? then Typed(MSG_VERSION, [last]) else Typed(c.todo[0], data)
  }

  function Sent(c: Client): Client
    requires c.Greeting? || c.Sending?
  {
    if c.Greeting? then Negotiating else Waiting(c.proto, c.todo)
  }
}
