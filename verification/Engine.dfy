/**
 The engine controller: a long-lived Idle/Capturing machine that owns recorder, pipeline and
 session. What the outside world does during one command (failures, event callbacks) is `Env`.
 */
module Engine {
  import opened Base
  import Decimal
  import opened Decoders
  import opened EngineConfig
  import opened HexText

  type ClientId = nat

  // `Starting` is the session object of `start_session_locked` that is not stored yet.
  datatype Session = NoSession | Starting | Running(mode: string)

  datatype Message =
    | Reply(client: ClientId, id: string, ok: bool, error: string)
    | StatusReply(client: ClientId, id: string, capturing: bool, config: Option<Json>, eventsSeen: nat)
    | PortsReply(client: ClientId, id: string, ports: seq<string>)
    | StatusBroadcast(capturing: bool, config: Option<Json>, eventsSeen: nat)

  datatype SendOutcome = Sent(ok: bool) | SendThrows(what: string)

  /** What happens outside the controller while it handles one command. */
  datatype Env = Env(
    recorderError: Option<string>,   // opening the log file throws
    startError: Option<string>,      // session->start() throws
    stopError: Option<string>,       // session->stop() throws
    sendOutcome: SendOutcome,
    ports: seq<string>,
    duringStart: nat,                // event callbacks while session->start() runs
    afterStart: nat,                 // event callbacks before the handler ends
    duringStop: nat)                 // event callbacks while session->stop() runs

  datatype State = State(
    capturing: bool,
    hasConfig: bool,
    config: CliOptions,
    eventsSeen: nat,
    recorder: bool,
    pipeline: bool,
    session: Session,
    installed: bool,
    sent: seq<bytes>,                // what session->send() was called with
    outbox: seq<Message>)

  const NO_CONFIG: CliOptions := CliOptions("", Network("", 0, "", 0, "0.0.0.0", 0, "", 0),
    SerialOptions("", 115200, 8, 1, ParityNone, FlowNone), Output("", false, false, true), DEFAULT_DECODER, "", 0)

  const INITIAL: State := State(false, false, NO_CONFIG, 0, false, false, NoSession, true, [], [])

  // ---------- Resources at one instant ----------

  datatype Resources = Resources(recorder: bool, pipeline: bool, session: Session)

  /** A live session has a live pipeline, and a live pipeline a live recorder. */
  predicate Safe(r: Resources) {
    (!r.session.NoSession? ==> r.pipeline) && (r.pipeline ==> r.recorder)
  }

  // ---------- Specification of the handlers ----------

  function ConfigShown(s: State): Option<Json> {
    if s.hasConfig then Some(ToJson(s.config)) else None
  }

  function StatusOf(s: State): Message {
    StatusBroadcast(s.capturing, ConfigShown(s), s.eventsSeen)
  }

  function Say(s: State, m: Message): State {
    s.(outbox := s.outbox + [m])
  }

  function Announce(s: State): State {
    Say(s, StatusOf(s))
  }

  function Seen(s: State, n: nat): State {
    s.(eventsSeen := Counted(s.eventsSeen, n))
  }

  function Fail(s: State, client: ClientId, id: string, error: string): State {
    Say(s, Reply(client, id, false, error))
  }

  function Succeed(s: State, client: ClientId, id: string): State {
    Announce(Say(s, Reply(client, id, true, "")))
  }

  function Configure(s: State, client: ClientId, id: string, msg: map<Name, Json>): State {
    if s.capturing then Fail(s, client, id, "cannot configure while capturing; stop_capture first")
    else if ConfigName !in msg || !msg[ConfigName].Obj? then
      Fail(s, client, id, "configure requires a \"config\" object")
    else
      var options := FromJson(msg[ConfigName]);
      if options.Err? then Fail(s, client, id, options.error)
      else
        var problem := Validate(options.value);
        if problem.Some? then Fail(s, client, id, problem.value)
        else Succeed(s.(config := options.value, hasConfig := true), client, id)
  }

  function RecorderError(o: CliOptions, env: Env): Option<string> {
    if o.output.logPath == "" then None else env.recorderError
  }

  predicate KnownMode(mode: string) {
    mode == "udp" || mode == "tcp-client" || mode == "tcp-server" || mode == "tcp-proxy" || mode == "serial"
  }

  /** Why `start_session_locked` throws before there is a session, if it does. */
  function BuildError(o: CliOptions, env: Env): Option<string> {
    if RecorderError(o, env).Some? then RecorderError(o, env)
    else if KindOf(o.decoder).Err? then Some(KindOf(o.decoder).error)
    else None
  }

  /** Why `start_session_locked` throws, if it does. */
  function StartError(o: CliOptions, env: Env): Option<string> {
    if BuildError(o, env).Some? then BuildError(o, env)
    else if !KnownMode(o.mode) then Some("unknown or missing mode: " + o.mode)
    else env.startError
  }

  /** `session->start()` is reached. */
  predicate Reached(o: CliOptions, env: Env) {
    BuildError(o, env).None? && KnownMode(o.mode)
  }

  function Counted(eventsSeen: nat, n: nat): nat {
    if n == 0 then eventsSeen else (eventsSeen + n) % TWO_64
  }

  /** Callbacks come from `session->start()` on, and after it only when it did not throw. */
  function SeenWhileStarting(eventsSeen: nat, o: CliOptions, env: Env): nat {
    var started := if Reached(o, env) then Counted(eventsSeen, env.duringStart) else eventsSeen;
    if StartError(o, env).None? then Counted(started, env.afterStart) else started
  }

  function StartCapture(s: State, client: ClientId, id: string, env: Env): State {
    if s.capturing then Fail(s, client, id, "already capturing")
    else if !s.hasConfig then Fail(s, client, id, "not configured; call configure first")
    else
      var started := s.(eventsSeen := SeenWhileStarting(s.eventsSeen, s.config, env));
      var error := StartError(s.config, env);
      if error.Some? then
        Fail(started.(session := NoSession, pipeline := false, recorder := false), client, id, error.value)
      else
        Succeed(started.(recorder := true, pipeline := true,
                                session := Running(s.config.mode), capturing := true), client, id)
  }

  function StopCapture(s: State, client: ClientId, id: string, env: Env): State {
    if !s.capturing then Fail(s, client, id, "not capturing")
    else
      var stopping := if s.session.NoSession? then s else Seen(s, env.duringStop);
      if !s.session.NoSession? && env.stopError.Some? then Fail(stopping, client, id, env.stopError.value)
      else Succeed(Released(stopping), client, id)
  }

  function Released(s: State): State {
    s.(session := NoSession, pipeline := false, recorder := false, capturing := false)
  }

  function GetStatus(s: State, client: ClientId, id: string): State {
    Say(s, StatusReply(client, id, s.capturing, ConfigShown(s), s.eventsSeen))
  }

  function HexErrorText(column: nat, message: string): string {
    "invalid payload_hex: invalid hex input at column " + Decimal.NatText(column) + ": " + message
  }

  function Send(s: State, client: ClientId, id: string, msg: map<Name, Json>, env: Env): State {
    if !s.capturing || s.session.NoSession? then Fail(s, client, id, "not capturing")
    else if s.session == Running("tcp-proxy") then
      Fail(s, client, id, "send is not supported in " + s.config.mode + " mode")
    else if PayloadHexName !in msg || !msg[PayloadHexName].Str? then
      Fail(s, client, id, "send requires \"payload_hex\"")
    else
      match ParseHexPayload(msg[PayloadHexName].s)
      case HexError(column, message) => Fail(s, client, id, HexErrorText(column, message))
      case Bytes(payload) =>
        var after := s.(sent := s.sent + [payload]);
        match env.sendOutcome
        case Sent(ok) => Say(after, Reply(client, id, ok, if ok then "" else "send failed"))
        case SendThrows(what) => Fail(after, client, id, what)
  }

  /** The lines the dispatcher answers: objects naming a command, not marked as another type. */
  predicate WellFormed(line: Option<Json>) {
    && line.Some? && line.value.Obj?
    && var msg := line.value.fields;
       && !(TypeName in msg && msg[TypeName].Str? && msg[TypeName].s != "command")
       && CommandName in msg && msg[CommandName].Str?
  }

  function CommandOf(line: Option<Json>): string
    requires WellFormed(line)
  {
    line.value.fields[CommandName].s
  }

  function IdOf(line: Option<Json>): string
    requires WellFormed(line)
  {
    var msg := line.value.fields;
    if IdName in msg && msg[IdName].Str? then msg[IdName].s else ""
  }

  /** `handle_command`; `line` is `None` when the text is not JSON. */
  function Handle(s: State, client: ClientId, line: Option<Json>, env: Env): State {
    if !WellFormed(line) then s
    else
      var msg, command, id := line.value.fields, CommandOf(line), IdOf(line);
      if command == "configure" then Configure(s, client, id, msg)
      else if command == "start_capture" then StartCapture(s, client, id, env)
      else if command == "stop_capture" then StopCapture(s, client, id, env)
      else if command == "get_status" then GetStatus(s, client, id)
      else if command == "list_serial_ports" then Say(s, PortsReply(client, id, env.ports))
      else if command == "send" then Send(s, client, id, msg, env)
      else Fail(s, client, id, "unknown command: " + command)
  }

  function Shutdown(s: State, env: Env): State {
    if !s.capturing then s.(installed := false)
    else
      var stopping := if s.session.NoSession? then s else Seen(s, env.duringStop);
      if !s.session.NoSession? && env.stopError.Some? then stopping
      else Released(stopping).(installed := false)
  }

  lemma SeenIsBounded(eventsSeen: nat, o: CliOptions, env: Env)
    requires eventsSeen < TWO_64
    ensures SeenWhileStarting(eventsSeen, o, env) < TWO_64
  {
    hide StartError, Reached;
  }

  // ---------- The class ----------

  class EngineController {
    var capturing: bool
    var hasConfig: bool
    var config: CliOptions
    var eventsSeen: nat
    var recorder: bool
    var pipeline: bool
    var session: Session
    var installed: bool
    var sent: seq<bytes>
    var outbox: seq<Message>
    // The resources at every instant at which a callback could have come in.
    ghost var history: seq<Resources>

    ghost function Now(): State
      reads this
    {
      State(capturing, hasConfig, config, eventsSeen, recorder, pipeline, session, installed, sent, outbox)
    }

    /** The state between two commands. */
    ghost predicate Valid()
      reads this
    {
      Consistent(Now()) && (forall i :: 0 <= i < |history| ==> Safe(history[i]))
    }

    constructor ()
      ensures Valid() && Now() == INITIAL
    {
      capturing, hasConfig, config, eventsSeen := false, false, NO_CONFIG, 0;
      recorder, pipeline, session := false, false, NoSession;
      installed, sent, outbox, history := true, [], [], [];
    }

    /**
     One instant between two statements: `n` event callbacks arrive. Callers must show that
     callbacks only come while a session lives, and that they then meet a live pipeline.
     */
    method Instant(n: nat)
      requires n > 0 ==> !session.NoSession?
      requires Safe(Resources(recorder, pipeline, session))
      modifies this`eventsSeen, this`history
      ensures eventsSeen == Counted(old(eventsSeen), n)
      ensures history == old(history) + [Resources(recorder, pipeline, session)]
    {
      history := history + [Resources(recorder, pipeline, session)];
      if n > 0 {
        assert pipeline && recorder;   // pipeline_->consume(event) in the callback
        eventsSeen := (eventsSeen + n) % TWO_64;
      }
    }

    method ReplyResult(client: ClientId, id: string, ok: bool, error: string)
      modifies this`outbox
      ensures outbox == old(outbox) + [Reply(client, id, ok, error)]
    {
      outbox := outbox + [Reply(client, id, ok, error)];
    }

    method BroadcastStatus()
      modifies this`outbox
      ensures Now() == Announce(old(Now()))
    {
      var shown := if hasConfig then Some(ToJson(config)) else None;
      outbox := outbox + [StatusBroadcast(capturing, shown, eventsSeen)];
    }

    method HandleConfigure(client: ClientId, id: string, msg: map<Name, Json>)
      requires Valid()
      modifies this
      ensures Valid() && Now() == Configure(old(Now()), client, id, msg)
    {
      hide FromJson, Validate, ToJson, Representable;
      if capturing {
        ReplyResult(client, id, false, "cannot configure while capturing; stop_capture first");
        return;
      }
      if ConfigName !in msg || !msg[ConfigName].Obj? {
        ReplyResult(client, id, false, "configure requires a \"config\" object");
        return;
      }
      var options := FromJson(msg[ConfigName]);
      if options.Err? {
        ReplyResult(client, id, false, options.error);
        return;
      }
      var problem := Validate(options.value);
      if problem.Some? {
        ReplyResult(client, id, false, problem.value);
        return;
      }
      FromJsonIsRepresentable(msg[ConfigName]);
      config := options.value;
      hasConfig := true;
      ReplyResult(client, id, true, "");
      BroadcastStatus();
    }

    /** The first half of `start_session_locked`: recorder, decoder check, pipeline. */
    method BuildPipeline(env: Env) returns (error: Option<string>)
      requires Valid() && !capturing && hasConfig
      modifies this`recorder, this`pipeline, this`eventsSeen, this`history
      ensures error == BuildError(config, env) && eventsSeen == old(eventsSeen)
      ensures forall i :: 0 <= i < |history| ==> Safe(history[i])
      ensures error.None? ==> recorder && pipeline
      ensures Safe(Resources(recorder, pipeline, session))
    {
      hide KindOf, Accepted;
      if config.output.logPath != "" && env.recorderError.Some? {
        return env.recorderError;
      }
      recorder := true;
      Instant(0);
      var decoder := CreateFrameDecoder(config.decoder);
      if decoder.Err? {
        return Some(decoder.error);
      }
      pipeline := true;
      Instant(0);
      return None;
    }

    /** `start_session_locked`: builds recorder, pipeline and session in this order. */
    method StartSession(env: Env) returns (error: Option<string>)
      requires Valid() && !capturing && hasConfig
      modifies this`recorder, this`pipeline, this`session, this`eventsSeen, this`history
      ensures error == StartError(config, env)
      ensures forall i :: 0 <= i < |history| ==> Safe(history[i])
      ensures eventsSeen == SeenWhileStarting(old(eventsSeen), config, env)
      ensures error.None? ==> recorder && pipeline && session == Running(config.mode)
      ensures error.Some? ==> session.NoSession?
      ensures Safe(Resources(recorder, pipeline, session))
    {
      hide BuildError, KnownMode;
      error := BuildPipeline(env);
      if error.Some? {
        return;
      }
      if !KnownMode(config.mode) {
        return Some("unknown or missing mode: " + config.mode);
      }
      session := Starting;
      Instant(env.duringStart);
      if env.startError.Some? {
        // Unwinding destroys the local session while the pipeline still exists.
        session := NoSession;
        Instant(0);
        return env.startError;
      }
      session := Running(config.mode);
      Instant(env.afterStart);
      return None;
    }

    method HandleStartCapture(client: ClientId, id: string, env: Env)
      requires Valid()
      modifies this
      ensures Valid() && Now() == StartCapture(old(Now()), client, id, env)
    {
      if capturing {
        ReplyResult(client, id, false, "already capturing");
        return;
      }
      if !hasConfig {
        ReplyResult(client, id, false, "not configured; call configure first");
        return;
      }
      hide Representable, Validate, ToJson, StartError, SeenWhileStarting;
      SeenIsBounded(eventsSeen, config, env);
      var error := StartSession(env);
      if error.Some? {
        ReleaseResources();
        ReplyResult(client, id, false, error.value);
        return;
      }
      capturing := true;
      ReplyResult(client, id, true, "");
      BroadcastStatus();
    }

    /** Session first, then pipeline, then recorder. */
    method ReleaseResources()
      requires Safe(Resources(recorder, pipeline, session))
      requires forall i :: 0 <= i < |history| ==> Safe(history[i])
      modifies this`recorder, this`pipeline, this`session, this`eventsSeen, this`history
      ensures session.NoSession? && !pipeline && !recorder && eventsSeen == old(eventsSeen)
      ensures forall i :: 0 <= i < |history| ==> Safe(history[i])
    {
      session := NoSession;
      Instant(0);
      pipeline := false;
      Instant(0);
      recorder := false;
      Instant(0);
    }

    /** `stop_capture_locked`: session, then pipeline, then recorder. */
    method StopCaptureLocked(env: Env) returns (error: Option<string>)
      requires Valid() && capturing
      modifies this`capturing, this`recorder, this`pipeline, this`session, this`eventsSeen, this`history
      ensures Valid()
      ensures error == env.stopError
      ensures var stopping := Seen(old(Now()), env.duringStop);
              Now() == if error.Some? then stopping else Released(stopping)
    {
      if !session.NoSession? {
        Instant(env.duringStop);
        if env.stopError.Some? {
          return env.stopError;
        }
      }
      ReleaseResources();
      capturing := false;
      return None;
    }

    method HandleStopCapture(client: ClientId, id: string, env: Env)
      requires Valid()
      modifies this
      ensures Valid() && Now() == StopCapture(old(Now()), client, id, env)
    {
      if !capturing {
        ReplyResult(client, id, false, "not capturing");
        return;
      }
      var error := StopCaptureLocked(env);
      if error.Some? {
        ReplyResult(client, id, false, error.value);
        return;
      }
      ReplyResult(client, id, true, "");
      BroadcastStatus();
    }

    method HandleGetStatus(client: ClientId, id: string)
      requires Valid()
      modifies this`outbox
      ensures Valid() && Now() == GetStatus(old(Now()), client, id)
    {
      var shown := if hasConfig then Some(ToJson(config)) else None;
      outbox := outbox + [StatusReply(client, id, capturing, shown, eventsSeen)];
    }

    method HandleSend(client: ClientId, id: string, msg: map<Name, Json>, env: Env)
      requires Valid()
      modifies this`outbox, this`sent
      ensures Valid() && Now() == Send(old(Now()), client, id, msg, env)
    {
      if !capturing || session.NoSession? {
        ReplyResult(client, id, false, "not capturing");
        return;
      }
      if session == Running("tcp-proxy") {
        ReplyResult(client, id, false, "send is not supported in " + config.mode + " mode");
        return;
      }
      if PayloadHexName !in msg || !msg[PayloadHexName].Str? {
        ReplyResult(client, id, false, "send requires \"payload_hex\"");
        return;
      }
      var payload := ParseHexPayloadLoop(msg[PayloadHexName].s);
      match payload
      case HexError(column, message) =>
        ReplyResult(client, id, false, HexErrorText(column, message));
      case Bytes(bytes) =>
        sent := sent + [bytes];
        match env.sendOutcome {
          case Sent(ok) => ReplyResult(client, id, ok, if ok then "" else "send failed");
          case SendThrows(what) => ReplyResult(client, id, false, what);
        }
    }

    /** `handle_list_serial_ports`; the ports are what the scan finds. */
    method HandleListSerialPorts(client: ClientId, id: string, ports: seq<string>)
      requires Valid()
      modifies this`outbox
      ensures Valid() && Now() == Say(old(Now()), PortsReply(client, id, ports))
    {
      hide Accepted;
      outbox := outbox + [PortsReply(client, id, ports)];
    }

    method RejectUnknown(client: ClientId, id: string, command: string)
      requires Valid()
      modifies this`outbox
      ensures Valid() && Now() == Fail(old(Now()), client, id, "unknown command: " + command)
    {
      hide Accepted;
      ReplyResult(client, id, false, "unknown command: " + command);
    }

    method HandleCommand(client: ClientId, line: Option<Json>, env: Env)
      requires Valid()
      modifies this
      ensures Valid() && Now() == Handle(old(Now()), client, line, env)
    {
      hide Configure, StartCapture, StopCapture, GetStatus, Send, Fail, Say;
      hide EngineController.Valid, EngineController.Now;
      if line.None? || !line.value.Obj? {
        return;
      }
      var msg := line.value.fields;
      if TypeName in msg && msg[TypeName].Str? && msg[TypeName].s != "command" {
        return;
      }
      if CommandName !in msg || !msg[CommandName].Str? {
        return;
      }
      var command := msg[CommandName].s;
      var id := if IdName in msg && msg[IdName].Str? then msg[IdName].s else "";
      if command == "configure" {
        HandleConfigure(client, id, msg);
      } else if command == "start_capture" {
        HandleStartCapture(client, id, env);
      } else if command == "stop_capture" {
        HandleStopCapture(client, id, env);
      } else if command == "get_status" {
        HandleGetStatus(client, id);
      } else if command == "list_serial_ports" {
        HandleListSerialPorts(client, id, env.ports);
      } else if command == "send" {
        HandleSend(client, id, msg, env);
      } else {
        RejectUnknown(client, id, command);
      }
    }

    /** Event callbacks between two commands. */
    method OnEvents(n: nat)
      requires Valid() && (n > 0 ==> !session.NoSession?)
      modifies this`eventsSeen, this`history
      ensures Valid() && Now() == Seen(old(Now()), n)
    {
      Instant(n);
    }

    method ShutDown(env: Env)
      requires Valid()
      modifies this
      ensures Valid() && Now() == Shutdown(old(Now()), env)
    {
      if capturing {
        var error := StopCaptureLocked(env);
        if error.Some? {
          return;
        }
      }
      installed := false;
    }
  }

  // ---------- Invariants over all runs ----------

  predicate Accepted(o: CliOptions) {
    Representable(o) && Validate(o).None?
  }

  /** Between commands: capturing exactly when all three resources exist, and only when configured. */
  predicate Consistent(s: State) {
    && s.eventsSeen < TWO_64
    && (s.capturing ==> s.recorder && s.pipeline && s.session == Running(s.config.mode) && s.hasConfig)
    && (!s.capturing ==> !s.recorder && !s.pipeline && s.session.NoSession?)
    && (s.hasConfig ==> Accepted(s.config))
  }

  datatype Input =
    | Line(client: ClientId, line: Option<Json>, env: Env)
    | Callbacks(count: nat)
    | Terminate(env: Env)

  /** Commands reach the controller only while its handler is installed; callbacks need a session. */
  predicate Possible(s: State, i: Input) {
    match i
    case Line(_, _, _) => s.installed
    case Callbacks(_) => !s.session.NoSession?
    case Terminate(_) => true
  }

  function Next(s: State, i: Input): State {
    match i
    case Line(client, line, env) => Handle(s, client, line, env)
    case Callbacks(count) => Seen(s, count)
    case Terminate(env) => Shutdown(s, env)
  }

  function Run(inputs: seq<Input>): Option<State> {
    if inputs == [] then Some(INITIAL)
    else
      var n := |inputs| - 1;
      var before := Run(inputs[..n]);
      if before.Some? && Possible(before.value, inputs[n]) then Some(Next(before.value, inputs[n])) else None
  }

  function LastBroadcast(outbox: seq<Message>): Option<Message> {
    if outbox == [] then None
    else if outbox[|outbox| - 1].StatusBroadcast? then Some(outbox[|outbox| - 1])
    else LastBroadcast(outbox[..|outbox| - 1])
  }

  /** What the viewers were last told is what is. */
  predicate Agrees(s: State) {
    match LastBroadcast(s.outbox)
    case None => !s.capturing && !s.hasConfig
    case Some(m) => m.StatusBroadcast? && m.capturing == s.capturing && m.config == ConfigShown(s)
  }

  lemma LastBroadcastSnoc(outbox: seq<Message>, m: Message)
    ensures LastBroadcast(outbox + [m]) == if m.StatusBroadcast? then Some(m) else LastBroadcast(outbox)
  {
    assert (outbox + [m])[..|outbox|] == outbox;
  }

  predicate IsResult(m: Message, client: ClientId, id: string) {
    !m.StatusBroadcast? && m.client == client && m.id == id
  }

  predicate IsOk(m: Message) {
    m.Reply? ==> m.ok
  }

  predicate Announces(command: string) {
    command == "configure" || command == "start_capture" || command == "stop_capture"
  }

  /** The part of the state a command may change. */
  function Core(s: State): State {
    s.(outbox := [], eventsSeen := 0, sent := [])
  }

  /**
   How a handler reacts: one result to the right client with the right id; a status broadcast
   with the new state exactly when an announcing command succeeded; nothing else changes when the
   command is refused or only asks; the state stays consistent.
   */
  predicate Reacts(s: State, t: State, client: ClientId, id: string, announcing: bool) {
    var n := |s.outbox|;
    && |t.outbox| >= n + 1
    && t.installed == s.installed
    && Consistent(t)
    && var result := t.outbox[n];
       && IsResult(result, client, id)
       && t.outbox == (if IsOk(result) && announcing
                       then s.outbox + [result, StatusOf(t)] else s.outbox + [result])
       && (!IsOk(result) || !announcing ==> Core(t) == Core(s))
  }

  /** A refusal. */
  lemma FailReacts(s: State, client: ClientId, id: string, error: string, announcing: bool)
    requires Consistent(s)
    ensures Reacts(s, Fail(s, client, id, error), client, id, announcing)
  {
    hide ToJson, Accepted;
  }

  /** A refusal after some callbacks. */
  lemma LateFailReacts(s: State, n: nat, client: ClientId, id: string, error: string, announcing: bool)
    requires Consistent(s) && n < TWO_64
    ensures Reacts(s, Fail(s.(eventsSeen := n), client, id, error), client, id, announcing)
  {
    hide ToJson, Accepted;
  }

  /** A success that is announced. */
  lemma SucceedReacts(s: State, done: State, client: ClientId, id: string)
    requires Consistent(done) && done.outbox == s.outbox && done.installed == s.installed
    ensures Reacts(s, Succeed(done, client, id), client, id, true)
  {
    hide ToJson, Accepted;
    assert s.outbox + [Reply(client, id, true, "")] + [StatusOf(done)]
        == s.outbox + [Reply(client, id, true, ""), StatusOf(done)];
  }

  lemma SayReacts(s: State, client: ClientId, id: string, m: Message)
    requires Consistent(s) && IsResult(m, client, id)
    ensures Reacts(s, Say(s, m), client, id, false)
  {
    hide ToJson, Accepted;
  }

  lemma ConfigureReacts(s: State, client: ClientId, id: string, msg: map<Name, Json>)
    requires Consistent(s)
    ensures Reacts(s, Configure(s, client, id, msg), client, id, true)
  {
    hide FromJson, Validate, ToJson, Representable, Reacts, Fail, Succeed;
    if s.capturing {
      FailReacts(s, client, id, "cannot configure while capturing; stop_capture first", true);
    } else if ConfigName !in msg || !msg[ConfigName].Obj? {
      FailReacts(s, client, id, "configure requires a \"config\" object", true);
    } else {
      ConfigureObjectReacts(s, client, id, msg);
    }
  }

  lemma ConfigureObjectReacts(s: State, client: ClientId, id: string, msg: map<Name, Json>)
    requires Consistent(s) && !s.capturing && ConfigName in msg && msg[ConfigName].Obj?
    ensures Reacts(s, Configure(s, client, id, msg), client, id, true)
  {
    hide FromJson, Validate, ToJson, Representable, Reacts, Fail, Succeed;
    var options := FromJson(msg[ConfigName]);
    if options.Err? {
      FailReacts(s, client, id, options.error, true);
    } else if Validate(options.value).Some? {
      FailReacts(s, client, id, Validate(options.value).value, true);
    } else {
      FromJsonIsRepresentable(msg[ConfigName]);
      SucceedReacts(s, s.(config := options.value, hasConfig := true), client, id);
    }
  }

  lemma StartReacts(s: State, client: ClientId, id: string, env: Env)
    requires Consistent(s)
    ensures Reacts(s, StartCapture(s, client, id, env), client, id, true)
  {
    hide ToJson, Accepted, StartError, SeenWhileStarting, Reacts, Fail, Succeed;
    SeenIsBounded(s.eventsSeen, s.config, env);
    var n := SeenWhileStarting(s.eventsSeen, s.config, env);
    if s.capturing {
      FailReacts(s, client, id, "already capturing", true);
    } else if !s.hasConfig {
      FailReacts(s, client, id, "not configured; call configure first", true);
    } else if StartError(s.config, env).Some? {
      LateFailReacts(s, n, client, id, StartError(s.config, env).value, true);
    } else {
      SucceedReacts(s, s.(eventsSeen := n, recorder := true, pipeline := true, session := Running(s.config.mode),
                          capturing := true), client, id);
    }
  }

  lemma StopReacts(s: State, client: ClientId, id: string, env: Env)
    requires Consistent(s)
    ensures Reacts(s, StopCapture(s, client, id, env), client, id, true)
  {
    hide ToJson, Accepted, Reacts, Fail, Succeed;
    if !s.capturing {
      FailReacts(s, client, id, "not capturing", true);
    } else if env.stopError.Some? {
      LateFailReacts(s, Counted(s.eventsSeen, env.duringStop), client, id, env.stopError.value, true);
    } else {
      SucceedReacts(s, Released(Seen(s, env.duringStop)), client, id);
    }
  }

  lemma SendReacts(s: State, client: ClientId, id: string, msg: map<Name, Json>, env: Env)
    requires Consistent(s)
    ensures Reacts(s, Send(s, client, id, msg, env), client, id, false)
  {
    hide ParseHexPayload, HexErrorText, ToJson, Accepted;
  }

  /**
   One reply per command. A well-formed command is answered by exactly one result, to its own
   client and with its own id. A status broadcast follows if and only if a configure, start or
   stop succeeded, and shows the new state. A refused command changes nothing else. Lines that
   are not well-formed change nothing at all.
   */
  lemma OneReplyPerCommand(s: State, client: ClientId, line: Option<Json>, env: Env)
    requires Consistent(s)
    ensures !WellFormed(line) ==> Handle(s, client, line, env) == s
    ensures WellFormed(line) ==>
              Reacts(s, Handle(s, client, line, env), client, IdOf(line), Announces(CommandOf(line)))
  {
    hide Reacts, Consistent, Configure, StartCapture, StopCapture, Send, GetStatus, Fail;
    if WellFormed(line) {
      var msg, command, id := line.value.fields, CommandOf(line), IdOf(line);
      ConfigureReacts(s, client, id, msg);
      StartReacts(s, client, id, env);
      StopReacts(s, client, id, env);
      SendReacts(s, client, id, msg, env);
      StatusReacts(s, client, id);
      SayReacts(s, client, id, PortsReply(client, id, env.ports));
      FailReacts(s, client, id, "unknown command: " + command, Announces(command));
      NamesDiffer();
    }
  }

  lemma StatusReacts(s: State, client: ClientId, id: string)
    requires Consistent(s)
    ensures Reacts(s, GetStatus(s, client, id), client, id, false)
  {
    SayReacts(s, client, id, StatusReply(client, id, s.capturing, ConfigShown(s), s.eventsSeen));
  }

  lemma NamesDiffer()
    ensures !Announces("get_status") && !Announces("list_serial_ports") && !Announces("send")
  {
    assert |"configure"| == 9 && |"get_status"| == 10 && |"list_serial_ports"| == 17 && |"send"| == 4;
    assert |"start_capture"| == 13 && |"stop_capture"| == 12;
  }

  lemma StepKeepsConsistent(s: State, i: Input)
    requires Consistent(s) && Possible(s, i)
    ensures Consistent(Next(s, i))
  {
    if i.Line? {
      OneReplyPerCommand(s, i.client, i.line, i.env);
      hide Handle, Consistent;
    } else {
      OtherInputsKeepConsistent(s, i);
    }
  }

  lemma OtherInputsKeepConsistent(s: State, i: Input)
    requires Consistent(s) && Possible(s, i) && !i.Line?
    ensures Consistent(Next(s, i))
  {
    hide Representable, Validate;
  }

  lemma HandleKeepsAgreement(s: State, client: ClientId, line: Option<Json>, env: Env)
    requires Consistent(s) && Agrees(s)
    ensures Agrees(Handle(s, client, line, env))
    ensures Handle(s, client, line, env).installed == s.installed
  {
    OneReplyPerCommand(s, client, line, env);
    if WellFormed(line) {
      ReactionKeepsAgreement(s, Handle(s, client, line, env), client, IdOf(line), Announces(CommandOf(line)));
    }
    hide Handle;
  }

  lemma ReactionKeepsAgreement(s: State, t: State, client: ClientId, id: string, announcing: bool)
    requires Agrees(s) && Reacts(s, t, client, id, announcing)
    ensures Agrees(t)
  {
    hide LastBroadcast, Consistent, ToJson;
    var result := t.outbox[|s.outbox|];
    LastBroadcastSnoc(s.outbox, result);
    LastBroadcastSnoc(s.outbox + [result], StatusOf(t));
    assert s.outbox + [result, StatusOf(t)] == (s.outbox + [result]) + [StatusOf(t)];
    if !IsOk(result) || !announcing {
      assert Core(t).config == t.config && Core(t).capturing == t.capturing && Core(t).hasConfig == t.hasConfig;
    }
  }

  /**
   Every run keeps the resources consistent; and until shutdown the last broadcast shows the
   engine's state and configuration.
   */
  lemma {:induction false} RunsAreConsistent(inputs: seq<Input>)
    requires Run(inputs).Some?
    ensures Consistent(Run(inputs).value)
    ensures Terminations(inputs) == 0 ==> Run(inputs).value.installed && Agrees(Run(inputs).value)
  {
    if inputs != [] {
      hide Handle, Shutdown, Consistent;
      var n := |inputs| - 1;
      RunsAreConsistent(inputs[..n]);
      var s, i := Run(inputs[..n]).value, inputs[n];
      StepKeepsConsistent(s, i);
      if Terminations(inputs) == 0 && i.Line? {
        HandleKeepsAgreement(s, i.client, i.line, i.env);
      }
    }
  }

  function Terminations(inputs: seq<Input>): nat {
    if inputs == [] then 0
    else Terminations(inputs[..|inputs| - 1]) + if inputs[|inputs| - 1].Terminate? then 1 else 0
  }

  /** A stored configuration always names a capture mode, so the last branch of session start is dead. */
  lemma UnknownModeIsUnreachable(inputs: seq<Input>)
    requires Run(inputs).Some? && Run(inputs).value.hasConfig
    ensures KnownMode(Run(inputs).value.config.mode)
    ensures exists m :: Run(inputs).value.config.mode == ModeText(m) && HasRequiredFields(m, Run(inputs).value.config)
  {
    RunsAreConsistent(inputs);
    AcceptedIffComplete(Run(inputs).value.config);
  }
}
