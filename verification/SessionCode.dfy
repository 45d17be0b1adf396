/** The serve loop and the client's registration as they run against a connection. */
module SessionCode {
  import opened Wrappers
  import opened Protocol

  /** A connection as one side sees it: the frames still to come, and what it has written. */
  class Connection {
    var inbox: seq<Bytes>
    var outbox: seq<Message>

    constructor (inbox: seq<Bytes>)
      ensures this.inbox == inbox && outbox == []
    {
      this.inbox, outbox := inbox, [];
    }

    /** The next frame; none when the other side has closed the connection. */
    method ReadFrame() returns (frame: Option<Bytes>)
      modifies `inbox
      ensures if old(inbox) == [] then frame.None? && inbox == []
              else frame == Some(old(inbox)[0]) && inbox == old(inbox)[1..]
    {
      if inbox == [] {
        return None;
      }
      frame := Some(inbox[0]);
      inbox := inbox[1..];
    }

    method Write(m: Message)
      modifies `outbox
      ensures outbox == old(outbox) + [m]
    {
      outbox := outbox + [m];
    }
  }

  // ---- Server ----

  /** The serve loop over all frames to come; a closed connection ends it. */
  function ServeAll(s: Server, last: MessageType, isNew: bool, frames: seq<Bytes>, outcomes: seq<Outcome>): Reply
    requires |frames| <= |outcomes|
    decreases |frames|
  {
    if frames == [] then Reply(s.(done := true), [])
    else
      var r := Serve(s, last, isNew, frames[0], outcomes[0]);
      if r.server.done then r
      else
        var rest := ServeAll(r.server, last, isNew, frames[1..], outcomes[1..]);
        Reply(rest.server, r.out + rest.out)
  }

  class InventoryServer {
    const last: MessageType
    const isNew: bool
    var proto: MessageType
    var commits: nat
    ghost var confused: bool

    constructor (last: MessageType, isNew: bool)
      ensures this.last == last && this.isNew == isNew && proto == MSG_UNDEFINED && commits == 0 && !confused
    {
      this.last, this.isNew := last, isNew;
      proto, commits, confused := MSG_UNDEFINED, 0, false;
    }

    ghost function State(done: bool): Server
      reads this
    {
      Server(proto, done, commits, confused)
    }

    method ReportError(conn: Connection, error: Bytes)
      modifies conn`outbox
      ensures conn.outbox == old(conn.outbox) + WriteError(proto, error)
    {
      if proto < MSG_ERROR {
        return;
      }
      conn.Write(Typed(MSG_ERROR, error));
    }

    method Get(conn: Connection, o: Outcome)
      modifies `commits, conn`outbox
      ensures Reply(State(true), conn.outbox)
           == Reply(HandleGet(old(State(false)), o).server, old(conn.outbox) + HandleGet(old(State(false)), o).out)
    {
      if !o.committed {
        ReportError(conn, o.error);
        return;
      }
      commits := commits + 1;
      if proto >= MSG_NETWORK_CONFIG {
        if !o.networkReady {
          ReportError(conn, o.error);
          return;
        }
      }
      if !o.configured {
        ReportError(conn, o.error);
        return;
      }
      if proto < MSG_CONFIG {
        conn.Write(Raw(o.config));
        return;
      }
      conn.Write(Typed(MSG_CONFIG, o.config));
    }

    /** One turn of the switch; `more` tells whether the loop goes on. */
    method Turn(conn: Connection, frame: Bytes, o: Outcome) returns (more: bool)
      modifies `proto, `commits, `confused, conn`outbox
      ensures
        var r := Serve(old(State(false)), last, isNew, frame, o);
        State(!more) == r.server && conn.outbox == old(conn.outbox) + r.out
    {
      var message := ExtractMessageType(frame, last);
      if message.None? {
        confused := true;
        return false;
      }
      var t := message.value.msgType;
      if t == MSG_VERSION {
        var version := DecodeProtocolVersion(message.value.data, last);
        if version.None? {
          return false;
        }
        proto := version.value;
        conn.Write(Typed(MSG_VERSION, [proto]));
        return true;
      }
      if t == MSG_GET {
        if o.templated {
          Get(conn, o);
        }
        return false;
      }
      if t == MSG_UPDATE {
        if isNew {
          ReportError(conn, o.error);
          return false;
        }
      } else if t == MSG_SMBIOS || t == MSG_LABELS || t == MSG_ANNOTATIONS || t == MSG_SYSTEM_DATA
          || t == MSG_SYSTEM_DATA_V2 {
        if !o.parsed {
          return false;
        }
      } else {
        confused := true;
        return false;
      }
      conn.Write(Typed(MSG_READY, []));
      return true;
    }

    /** `run` is how the loop ends when it goes on from `s` with `written` already on the connection. */
    ghost predicate Serving(run: Reply, written: seq<Message>, s: Server, frames: seq<Bytes>, outcomes: seq<Outcome>) {
      |frames| <= |outcomes| &&
      var rest := ServeAll(s, last, isNew, frames, outcomes);
      run == Reply(rest.server, written + rest.out)
    }

    lemma ServeStep(run: Reply, written: seq<Message>, s: Server, frames: seq<Bytes>, outcomes: seq<Outcome>)
      requires Serving(run, written, s, frames, outcomes)
      ensures frames == [] ==> run == Reply(s.(done := true), written)
      ensures frames != [] ==>
                var r := Serve(s, last, isNew, frames[0], outcomes[0]);
                if r.server.done then run == Reply(r.server, written + r.out)
                else Serving(run, written + r.out, r.server, frames[1..], outcomes[1..])
    {
    }

    method ServeLoop(conn: Connection, outcomes: seq<Outcome>)
      requires |conn.inbox| <= |outcomes|
      modifies this, conn
      ensures
        var r := ServeAll(old(State(false)), last, isNew, old(conn.inbox), outcomes);
        State(true) == r.server && conn.outbox == old(conn.outbox) + r.out
    {
      var left := outcomes;
      ghost var all := ServeAll(State(false), last, isNew, conn.inbox, outcomes);
      ghost var run := Reply(all.server, conn.outbox + all.out);
      while true
        invariant |conn.inbox| <= |left|
        invariant Serving(run, conn.outbox, State(false), conn.inbox, left)
        decreases |conn.inbox|
      {
        ServeStep(run, conn.outbox, State(false), conn.inbox, left);
        var frame := conn.ReadFrame();
        if frame.None? {
          return;
        }
        var more := Turn(conn, frame.value, left[0]);
        if !more {
          return;
        }
        left := left[1..];
      }
    }
  }

  // ---- Client ----

  datatype Trace = Trace(sent: seq<Message>, end: Client)

  /** The client over all frames to come: what it sends and where it ends. */
  function ClientRun(c: Client, last: MessageType, cfg: ClientConfig, data: MessageType -> Bytes,
                     prepared: MessageType -> bool,
                     frames: seq<Bytes>): Trace
    decreases |frames|, if Reads(c) then 0 else 1
  {
    if Ended(c) || (!c.Authenticating? && !c.Greeting? && !c.Negotiating? && c.todo == []) then Trace([], c)
    else if Reads(c) then
      if frames == [] then Trace([], Failed(ConnectionError))
      else ClientRun(Receive(c, last, cfg, frames[0]), last, cfg, data, prepared, frames[1..])
    else if c.Sending? && !prepared(c.todo[0]) then Trace([], Failed(Unprepared))
    else
      var out := Outgoing(c, last, if c.Sending? then data(c.todo[0]) else []);
      var rest := ClientRun(Sent(c), last, cfg, data, prepared, frames);
      Trace([out] + rest.sent, rest.end)
  }

  class RegisterClient {
    const last: MessageType
    const cfg: ClientConfig
    const data: MessageType -> Bytes
    const prepared: MessageType -> bool

    constructor (last: MessageType, cfg: ClientConfig, data: MessageType -> Bytes, prepared: MessageType -> bool)
      ensures this.last == last && this.cfg == cfg && this.data == data && this.prepared == prepared
    {
      this.last, this.cfg, this.data, this.prepared := last, cfg, data, prepared;
    }

    ghost function From(c: Client, frames: seq<Bytes>): Trace {
      ClientRun(c, last, cfg, data, prepared, frames)
    }

    /** `t` tells how the run over `frames`, with `sent` already written, will go. */
    ghost predicate Ahead(t: Trace, sent: seq<Message>, c: Client, frames: seq<Bytes>) {
      t == Trace(sent + From(c, frames).sent, From(c, frames).end)
    }

    /** Reading the next frame moves the run on by one reception. */
    lemma Reading(run: Trace, sent: seq<Message>, c: Client, frames: seq<Bytes>)
      requires Ahead(run, sent, c, frames) && Reads(c) && (c.Waiting? ==> c.todo != [])
      ensures frames == [] ==> run == Trace(sent, Failed(ConnectionError))
      ensures frames != [] ==>
                var c' := Receive(c, last, cfg, frames[0]);
                Ahead(run, sent, c', frames[1..]) && (Ended(c') ==> run == Trace(sent, c'))
    {
    }

    /** Sending moves the run on by one message, written at the end of what was sent before. */
    lemma Writing(run: Trace, sent: seq<Message>, c: Client, frames: seq<Bytes>)
      requires Ahead(run, sent, c, frames) && (c.Greeting? || (c.Sending? && c.todo != []))
      ensures if c.Sending? && !prepared(c.todo[0]) then run == Trace(sent, Failed(Unprepared))
              else Ahead(run, sent + [Outgoing(c, last, if c.Sending? then data(c.todo[0]) else [])], Sent(c), frames)
    {
    }

    /** Sends one message that is acknowledged, and waits for the acknowledgement. */
    method Exchange(conn: Connection, proto: MessageType, t: MessageType, ghost todo: seq<MessageType>,
                    ghost run: Trace)
      returns (failure: Option<Failure>)
      requires todo != [] && todo[0] == t != MSG_GET && Ahead(run, conn.outbox, Sending(proto, todo), conn.inbox)
      modifies conn
      ensures if failure.None? then Ahead(run, conn.outbox, Sending(proto, todo[1..]), conn.inbox)
              else run == Trace(conn.outbox, Failed(failure.value))
    {
      Writing(run, conn.outbox, Sending(proto, todo), conn.inbox);
      if !prepared(t) {
        return Some(Unprepared);
      }
      conn.Write(Typed(t, data(t)));
      Reading(run, conn.outbox, Waiting(proto, todo), conn.inbox);
      var frame := conn.ReadFrame();
      if frame.None? {
        return Some(ConnectionError);
      }
      var message := ExtractMessageType(frame.value, last);
      if message.Some? && message.value.msgType == MSG_READY {
        return None;
      }
      if message.Some? && t == MSG_UPDATE && message.value.msgType == MSG_ERROR {
        return Some(ServerError);
      }
      return Some(Unexpected);
    }

    /** Waits for the end of authentication and agrees on a version. */
    method Negotiate(conn: Connection, ghost run: Trace) returns (failure: Option<Failure>, proto: MessageType)
      requires Ahead(run, conn.outbox, Authenticating, conn.inbox)
      modifies conn
      ensures if failure.None? then Ahead(run, conn.outbox, Sending(proto, Todo(proto, cfg)), conn.inbox)
              else run == Trace(conn.outbox, Failed(failure.value))
    {
      proto := MSG_UNDEFINED;
      Reading(run, conn.outbox, Authenticating, conn.inbox);
      var frame := conn.ReadFrame();
      if frame.None? {
        return Some(ConnectionError), proto;
      }
      var message := ExtractMessageType(frame.value, last);
      if message.None? || message.value.msgType != MSG_READY {
        return Some(Unexpected), proto;
      }
      Writing(run, conn.outbox, Greeting, conn.inbox);
      conn.Write(Typed(MSG_VERSION, [last]));
      Reading(run, conn.outbox, Negotiating, conn.inbox);
      frame := conn.ReadFrame();
      if frame.None? {
        return Some(ConnectionError), proto;
      }
      message := ExtractMessageType(frame.value, last);
      if message.None? || message.value.msgType != MSG_VERSION || |message.value.data| != 1 {
        return Some(Unexpected), proto;
      }
      proto := message.value.data[0];
      if cfg.updatable && proto < MSG_UPDATE {
        return Some(TooOld), proto;
      }
      return None, proto;
    }

    /** Asks for the configuration and reads it, framed or raw as the version says. */
    method GetConfig(conn: Connection, proto: MessageType, ghost run: Trace) returns (end: Client)
      requires Ahead(run, conn.outbox, Sending(proto, [MSG_GET]), conn.inbox)
      modifies conn
      ensures run == Trace(conn.outbox, end)
    {
      Writing(run, conn.outbox, Sending(proto, [MSG_GET]), conn.inbox);
      if !prepared(MSG_GET) {
        return Failed(Unprepared);
      }
      conn.Write(Typed(MSG_GET, data(MSG_GET)));
      Reading(run, conn.outbox, Waiting(proto, [MSG_GET]), conn.inbox);
      var frame := conn.ReadFrame();
      if frame.None? {
        return Failed(ConnectionError);
      }
      if proto < MSG_CONFIG {
        return Configured(proto, frame.value);
      }
      var message := ExtractMessageType(frame.value, last);
      if message.Some? && message.value.msgType == MSG_CONFIG {
        return Configured(proto, message.value.data);
      }
      if message.Some? && message.value.msgType == MSG_ERROR {
        return Failed(ServerError);
      }
      return Failed(Unexpected);
    }

    /** The reports on the hardware: SMBIOS data, and system data in the form the version knows, if any. */
    method SendHardware(conn: Connection, proto: MessageType, ghost rest: seq<MessageType>, ghost run: Trace)
      returns (failure: Option<Failure>)
      requires Ahead(run, conn.outbox, Sending(proto, [MSG_SMBIOS] + (SystemData(proto) + rest)), conn.inbox)
      modifies conn
      ensures if failure.None? then Ahead(run, conn.outbox, Sending(proto, rest), conn.inbox)
              else run == Trace(conn.outbox, Failed(failure.value))
    {
      ghost var todo := SystemData(proto) + rest;
      assert ([MSG_SMBIOS] + todo)[1..] == todo;
      failure := Exchange(conn, proto, MSG_SMBIOS, [MSG_SMBIOS] + todo, run);
      if failure.Some? || proto < MSG_SYSTEM_DATA {
        assert failure.None? ==> todo == rest;
        return;
      }
      failure := Exchange(conn, proto, SystemType(proto), todo, run);
      assert todo[1..] == rest;
    }

    /** Annotations and labels, each only where the version or the configuration has them. */
    method SendTags(conn: Connection, proto: MessageType, ghost run: Trace) returns (failure: Option<Failure>)
      requires Ahead(run, conn.outbox, Sending(proto, Tags(proto, cfg)), conn.inbox)
      modifies conn
      ensures if failure.None? then Ahead(run, conn.outbox, Sending(proto, [MSG_GET]), conn.inbox)
              else run == Trace(conn.outbox, Failed(failure.value))
    {
      ghost var todo := Tags(proto, cfg);
      failure := None;
      if proto >= MSG_ANNOTATIONS {
        failure := Exchange(conn, proto, MSG_ANNOTATIONS, todo, run);
        if failure.Some? {
          return;
        }
        todo := todo[1..];
      }
      assert todo == (if cfg.hasLabels then [MSG_LABELS] else []) + [MSG_GET];
      if cfg.hasLabels {
        failure := Exchange(conn, proto, MSG_LABELS, todo, run);
        todo := todo[1..];
      }
      assert todo == [MSG_GET];
    }

    /** Everything before the request for the configuration. */
    method SendReports(conn: Connection, proto: MessageType, ghost run: Trace) returns (failure: Option<Failure>)
      requires Ahead(run, conn.outbox, Sending(proto, Todo(proto, cfg)), conn.inbox)
      modifies conn
      ensures if failure.None? then Ahead(run, conn.outbox, Sending(proto, [MSG_GET]), conn.inbox)
              else run == Trace(conn.outbox, Failed(failure.value))
    {
      assert [] + AfterUpdate(proto, cfg) == AfterUpdate(proto, cfg);
      if cfg.updatable {
        failure := Exchange(conn, proto, MSG_UPDATE, [MSG_UPDATE] + AfterUpdate(proto, cfg), run);
        if failure.Some? {
          return;
        }
        assert ([MSG_UPDATE] + AfterUpdate(proto, cfg))[1..] == AfterUpdate(proto, cfg);
      }
      if !cfg.noSmbios {
        failure := SendHardware(conn, proto, Tags(proto, cfg), run);
        if failure.Some? {
          return;
        }
      }
      failure := SendTags(conn, proto, run);
    }

    /** The whole registration: it sends and ends as the client of the session model does. */
    method Register(conn: Connection) returns (end: Client)
      modifies conn
      ensures Trace(conn.outbox, end)
           == Trace(old(conn.outbox) + From(Authenticating, old(conn.inbox)).sent,
                    From(Authenticating, old(conn.inbox)).end)
    {
      ghost var run := Trace(conn.outbox + From(Authenticating, conn.inbox).sent, From(Authenticating, conn.inbox).end);
      var failure, proto := Negotiate(conn, run);
      if failure.None? {
        failure := SendReports(conn, proto, run);
      }
      if failure.Some? {
        return Failed(failure.value);
      }
      end := GetConfig(conn, proto, run);
    }
  }
}
