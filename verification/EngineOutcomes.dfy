/** What each command of the engine achieves, read off the state and the messages after `Handle`. */
module EngineOutcomes {
  import opened Base
  import opened Decoders
  import opened EngineConfig
  import opened HexText
  import opened Engine

  /** The command was refused with this text, and nothing was broadcast. */
  predicate Refused(s: State, t: State, client: ClientId, id: string, error: string) {
    t.outbox == s.outbox + [Reply(client, id, false, error)]
  }

  /** The command succeeded, and everyone was told the new state. */
  predicate Acknowledged(s: State, t: State, client: ClientId, id: string) {
    var shown := if t.hasConfig then Some(ToJson(t.config)) else None;
    t.outbox == s.outbox + [Reply(client, id, true, ""), StatusBroadcast(t.capturing, shown, t.eventsSeen)]
  }

  lemma NeverBoth(s: State, t: State, client: ClientId, id: string, error: string)
    requires Refused(s, t, client, id, error)
    ensures !Acknowledged(s, t, client, id)
  {
    assert |t.outbox| == |s.outbox| + 1;
  }

  /** The lines that are answered, the identifier they are answered with, and the lines that are ignored. */
  lemma AnsweredIff(s: State, client: ClientId, fields: map<Name, Json>, env: Env)
    requires Consistent(s)
    ensures Handle(s, client, None, env) == s
    ensures var t := Handle(s, client, Some(Obj(fields)), env);
            if CommandName in fields && fields[CommandName].Str?
               && (TypeName in fields && fields[TypeName].Str? ==> fields[TypeName].s == "command")
            then |s.outbox| < |t.outbox|
                 && !t.outbox[|s.outbox|].StatusBroadcast?
                 && t.outbox[|s.outbox|].client == client
                 && t.outbox[|s.outbox|].id
                       == (if IdName in fields && fields[IdName].Str? then fields[IdName].s else "")
            else t == s
  {
    OneReplyPerCommand(s, client, None, env);
    OneReplyPerCommand(s, client, Some(Obj(fields)), env);
    hide Handle, Consistent, StatusOf, Core;
  }

  lemma Acknowledges(s: State, done: State, client: ClientId, id: string)
    requires done.outbox == s.outbox
    ensures Acknowledged(s, Succeed(done, client, id), client, id)
    ensures Succeed(done, client, id).(outbox := done.outbox) == done
  {
    hide ToJson;
    assert s.outbox + [Reply(client, id, true, "")] + [StatusOf(done)]
        == s.outbox + [Reply(client, id, true, ""), StatusOf(done)];
  }

  lemma Refuses(s: State, client: ClientId, id: string, error: string)
    ensures Refused(s, Fail(s, client, id, error), client, id, error)
    ensures Fail(s, client, id, error).(outbox := s.outbox) == s
  {
  }

  /** Which handler a command goes to. */
  lemma Dispatches(s: State, client: ClientId, line: Option<Json>, env: Env)
    requires WellFormed(line)
    ensures var t, command, id, fields := Handle(s, client, line, env), CommandOf(line), IdOf(line), line.value.fields;
            && (command == "configure" ==> t == Configure(s, client, id, fields))
            && (command == "start_capture" ==> t == StartCapture(s, client, id, env))
            && (command == "stop_capture" ==> t == StopCapture(s, client, id, env))
            && (command == "get_status" ==> t == GetStatus(s, client, id))
            && (command == "send" ==> t == Send(s, client, id, fields, env))
  {
    hide WellFormed, Configure, StartCapture, StopCapture, GetStatus, Send, Fail, Say;
  }

  // ---------- configure ----------

  /** The line holds a configuration that reads and validates. */
  predicate Acceptable(fields: map<Name, Json>) {
    && ConfigName in fields && fields[ConfigName].Obj?
    && FromJson(fields[ConfigName]).Ok?
    && Validate(FromJson(fields[ConfigName]).value).None?
  }

  function WhyNotConfigured(s: State, fields: map<Name, Json>): string
    requires s.capturing || !Acceptable(fields)
  {
    if s.capturing then "cannot configure while capturing; stop_capture first"
    else if ConfigName !in fields || !fields[ConfigName].Obj? then "configure requires a \"config\" object"
    else if FromJson(fields[ConfigName]).Err? then FromJson(fields[ConfigName]).error
    else Validate(FromJson(fields[ConfigName]).value).value
  }

  lemma Configures(s: State, client: ClientId, id: string, fields: map<Name, Json>)
    requires !s.capturing && Acceptable(fields)
    ensures var t := Configure(s, client, id, fields);
            && Acknowledged(s, t, client, id)
            && t.(outbox := s.outbox) == s.(hasConfig := true, config := FromJson(fields[ConfigName]).value)
  {
    hide FromJson, Validate, Succeed;
    Acknowledges(s, s.(config := FromJson(fields[ConfigName]).value, hasConfig := true), client, id);
    hide Acknowledged;
  }

  lemma ConfigureFails(s: State, client: ClientId, id: string, fields: map<Name, Json>)
    requires s.capturing || !Acceptable(fields)
    ensures Configure(s, client, id, fields) == Fail(s, client, id, WhyNotConfigured(s, fields))
  {
    hide FromJson, Validate, Succeed, Fail;
  }

  lemma ConfiguresNot(s: State, client: ClientId, id: string, fields: map<Name, Json>)
    requires s.capturing || !Acceptable(fields)
    ensures var t := Configure(s, client, id, fields);
            Refused(s, t, client, id, WhyNotConfigured(s, fields)) && t.(outbox := s.outbox) == s
  {
    hide *;
    ConfigureFails(s, client, id, fields);
    Refuses(s, client, id, WhyNotConfigured(s, fields));
  }

  /**
   Configure stores the configuration that was sent exactly when the engine is idle and the configuration
   reads and validates; otherwise it says why and changes nothing.
   */
  lemma ConfigureOutcome(s: State, client: ClientId, line: Option<Json>, env: Env)
    requires WellFormed(line) && CommandOf(line) == "configure"
    ensures var t, id, fields := Handle(s, client, line, env), IdOf(line), line.value.fields;
            if !s.capturing && Acceptable(fields) then
              Acknowledged(s, t, client, id)
              && t.(outbox := s.outbox) == s.(hasConfig := true, config := FromJson(fields[ConfigName]).value)
            else
              Refused(s, t, client, id, WhyNotConfigured(s, fields)) && t.(outbox := s.outbox) == s
  {
    var fields := line.value.fields;
    Dispatches(s, client, line, env);
    if !s.capturing && Acceptable(fields) {
      Configures(s, client, IdOf(line), fields);
    } else {
      ConfiguresNot(s, client, IdOf(line), fields);
    }
    hide *;
  }

  // ---------- start_capture ----------

  predicate LogOpens(o: CliOptions, env: Env) {
    o.output.logPath == "" || env.recorderError.None?
  }

  /** Callbacks that came in, counted modulo 2 to the 64. */
  predicate CountedOn(before: nat, n: nat, after: nat) {
    after % TWO_64 == (before + n) % TWO_64 && (n == 0 ==> after == before) && (before < TWO_64 ==> after < TWO_64)
  }

  /**
   A start succeeds exactly when the engine is idle and configured, the log file opens (or none is wanted),
   the decoder can be built and the session starts; the first of these that fails is reported. After a
   failure the engine is idle without resources; after a success it holds all three.
   */
  lemma StartOutcome(s: State, client: ClientId, line: Option<Json>, env: Env)
    requires Consistent(s) && WellFormed(line) && CommandOf(line) == "start_capture"
    ensures var t, id, o := Handle(s, client, line, env), IdOf(line), s.config;
            && t.config == s.config && t.hasConfig == s.hasConfig && t.sent == s.sent
            && if s.capturing then t.(outbox := s.outbox) == s && Refused(s, t, client, id, "already capturing")
               else if !s.hasConfig then
                 t.(outbox := s.outbox) == s
                 && Refused(s, t, client, id, "not configured; call configure first")
               else if !LogOpens(o, env) then Idle(t) && Refused(s, t, client, id, env.recorderError.value)
               else if KindOf(o.decoder).Err? then Idle(t) && Refused(s, t, client, id, KindOf(o.decoder).error)
               else if env.startError.Some? then Idle(t) && Refused(s, t, client, id, env.startError.value)
               else t.capturing && t.recorder && t.pipeline && t.session == Running(o.mode)
                    && Acknowledged(s, t, client, id)
  {
    var o, id := s.config, IdOf(line);
    Dispatches(s, client, line, env);
    if !s.capturing && s.hasConfig {
      KnownWhenAccepted(o);
      if StartError(o, env).None? {
        Acknowledges(s, s.(eventsSeen := SeenWhileStarting(s.eventsSeen, o, env), recorder := true, pipeline := true,
                           session := Running(o.mode), capturing := true), client, id);
      }
    }
    hide Handle, WellFormed, KindOf, Succeed, Acknowledged, SeenWhileStarting, Validate, Representable;
  }

  predicate Idle(t: State) {
    !t.capturing && !t.recorder && !t.pipeline && t.session.NoSession?
  }

  /** How many callbacks a start lets in: those of a session that started, or began to. */
  lemma StartCounts(s: State, client: ClientId, line: Option<Json>, env: Env)
    requires Consistent(s) && WellFormed(line) && CommandOf(line) == "start_capture"
    ensures var t, o := Handle(s, client, line, env), s.config;
            CountedOn(s.eventsSeen,
                      if s.capturing || !s.hasConfig || !LogOpens(o, env) || KindOf(o.decoder).Err? then 0
                      else if env.startError.Some? then env.duringStart
                      else env.duringStart + env.afterStart,
                      t.eventsSeen)
  {
    hide WellFormed, KindOf, ToJson, CountedOn, Counted, CommandOf, IdOf;
    var o := s.config;
    Dispatches(s, client, line, env);
    if s.hasConfig {
      KnownWhenAccepted(o);
    }
    CountTwice(s.eventsSeen, env.duringStart, env.afterStart);
    hide Handle, Validate, Representable, Accepted;
  }

  lemma KnownWhenAccepted(o: CliOptions)
    requires Accepted(o)
    ensures KnownMode(o.mode)
  {
    AcceptedIffComplete(o);
  }

  lemma CountTwice(eventsSeen: nat, m: nat, n: nat)
    ensures CountedOn(eventsSeen, 0, eventsSeen)
    ensures CountedOn(eventsSeen, m, Counted(eventsSeen, m))
    ensures CountedOn(eventsSeen, m + n, Counted(Counted(eventsSeen, m), n))
  {
    var k := (eventsSeen + m) / TWO_64;
    assert eventsSeen + m == TWO_64 * k + (eventsSeen + m) % TWO_64;
  }

  // ---------- stop_capture ----------

  /**
   A stop succeeds exactly when the engine captures and the session's own stop does not throw. It then keeps
   nothing but the configuration and the counter; otherwise everything goes on as before.
   */
  lemma StopOutcome(s: State, client: ClientId, line: Option<Json>, env: Env)
    requires Consistent(s) && WellFormed(line) && CommandOf(line) == "stop_capture"
    ensures var t, id := Handle(s, client, line, env), IdOf(line);
            && t.config == s.config && t.hasConfig == s.hasConfig && t.sent == s.sent
            && CountedOn(s.eventsSeen, if s.capturing then env.duringStop else 0, t.eventsSeen)
            && if !s.capturing then t.(outbox := s.outbox) == s && Refused(s, t, client, id, "not capturing")
               else if env.stopError.Some? then
                 t.(outbox := s.outbox, eventsSeen := s.eventsSeen) == s
                 && Refused(s, t, client, id, env.stopError.value)
               else Idle(t) && Acknowledged(s, t, client, id)
  {
    hide Handle, WellFormed, Succeed, Acknowledged, CountedOn, Counted, Accepted, CommandOf, IdOf;
    Dispatches(s, client, line, env);
    CountTwice(s.eventsSeen, env.duringStop, 0);
    if s.capturing && env.stopError.None? {
      Acknowledges(s, Released(Seen(s, env.duringStop)), client, IdOf(line));
    }
  }

  // ---------- Questions ----------

  /** The status tells the state, the configuration if there is one, and the events seen so far. */
  lemma StatusOutcome(s: State, client: ClientId, line: Option<Json>, env: Env)
    requires WellFormed(line) && CommandOf(line) == "get_status"
    ensures var t := Handle(s, client, line, env);
            && t.(outbox := s.outbox) == s
            && t.outbox == s.outbox + [StatusReply(client, IdOf(line), s.capturing,
                 if s.hasConfig then Some(ToJson(s.config)) else None, s.eventsSeen)]
  {
    hide ToJson, WellFormed;
  }

  lemma PortsOutcome(s: State, client: ClientId, line: Option<Json>, env: Env)
    requires WellFormed(line) && CommandOf(line) == "list_serial_ports"
    ensures var t := Handle(s, client, line, env);
            && t.(outbox := s.outbox) == s
            && t.outbox == s.outbox + [PortsReply(client, IdOf(line), env.ports)]
  {
    hide ToJson, WellFormed;
  }

  // ---------- send ----------

  /** A session that can send is running and the line spells out a payload. */
  predicate Sendable(s: State, fields: map<Name, Json>) {
    && s.capturing && s.config.mode != "tcp-proxy"
    && PayloadHexName in fields && fields[PayloadHexName].Str?
    && ParseHexPayload(fields[PayloadHexName].s).Bytes?
  }

  lemma Sends(s: State, client: ClientId, id: string, fields: map<Name, Json>, env: Env)
    requires !s.session.NoSession? && s.session != Running("tcp-proxy") && Sendable(s, fields)
    ensures var t := Send(s, client, id, fields, env);
            && t.(outbox := s.outbox, sent := s.sent) == s
            && t.sent == s.sent + [ParseHexPayload(fields[PayloadHexName].s).payload]
            && t.outbox == s.outbox + [
                 if env.sendOutcome.SendThrows? then Reply(client, id, false, env.sendOutcome.what)
                 else if env.sendOutcome.ok then Reply(client, id, true, "")
                 else Reply(client, id, false, "send failed")]
  {
    hide ParseHexPayload, HexErrorText;
  }

  function WhyNotSent(s: State, fields: map<Name, Json>): string
    requires !Sendable(s, fields)
  {
    if !s.capturing then "not capturing"
    else if s.config.mode == "tcp-proxy" then "send is not supported in " + s.config.mode + " mode"
    else if PayloadHexName !in fields || !fields[PayloadHexName].Str? then "send requires \"payload_hex\""
    else
      var error := ParseHexPayload(fields[PayloadHexName].s);
      HexErrorText(error.column, error.message)
  }

  lemma SendFails(s: State, client: ClientId, id: string, fields: map<Name, Json>, env: Env)
    requires s.capturing ==> s.session == Running(s.config.mode)
    requires !Sendable(s, fields)
    ensures Send(s, client, id, fields, env) == Fail(s, client, id, WhyNotSent(s, fields))
  {
    hide ParseHexPayload, Fail, HexErrorText;
  }

  lemma SendsNot(s: State, client: ClientId, id: string, fields: map<Name, Json>, env: Env)
    requires s.capturing ==> s.session == Running(s.config.mode)
    requires !Sendable(s, fields)
    ensures var t := Send(s, client, id, fields, env);
            t.(outbox := s.outbox) == s && Refused(s, t, client, id, WhyNotSent(s, fields))
  {
    hide *;
    SendFails(s, client, id, fields, env);
    Refuses(s, client, id, WhyNotSent(s, fields));
  }

  /**
   Exactly when it can, the session gets the bytes of the payload, and the answer is the session's own;
   otherwise the session gets nothing and the first obstacle is reported. Nothing else changes.
   */
  lemma SendOutcome(s: State, client: ClientId, line: Option<Json>, env: Env)
    requires Consistent(s) && WellFormed(line) && CommandOf(line) == "send"
    ensures var t, id, fields := Handle(s, client, line, env), IdOf(line), line.value.fields;
            if Sendable(s, fields) then
              && t.(outbox := s.outbox, sent := s.sent) == s
              && t.sent == s.sent + [ParseHexPayload(fields[PayloadHexName].s).payload]
              && t.outbox == s.outbox + [
                   if env.sendOutcome.SendThrows? then Reply(client, id, false, env.sendOutcome.what)
                   else if env.sendOutcome.ok then Reply(client, id, true, "")
                   else Reply(client, id, false, "send failed")]
            else t.(outbox := s.outbox) == s && Refused(s, t, client, id, WhyNotSent(s, fields))
  {
    var fields := line.value.fields;
    Dispatches(s, client, line, env);
    if Sendable(s, fields) {
      assert s.config.mode != "tcp-proxy";
      Sends(s, client, IdOf(line), fields, env);
    } else {
      SendsNot(s, client, IdOf(line), fields, env);
    }
    hide Handle, WellFormed, ParseHexPayload, Accepted, Send, WhyNotSent, CommandOf, IdOf;
  }

  /** Any other command is refused by name. */
  lemma UnknownOutcome(s: State, client: ClientId, line: Option<Json>, env: Env)
    requires WellFormed(line)
    requires CommandOf(line) !in
      {"configure", "start_capture", "stop_capture", "get_status", "list_serial_ports", "send"}
    ensures var t := Handle(s, client, line, env);
            t.(outbox := s.outbox) == s && Refused(s, t, client, IdOf(line), "unknown command: " + CommandOf(line))
  {
    hide ToJson, WellFormed;
  }

  // ---------- The end of the engine ----------

  /**
   The end of the engine stops a running capture like a stop command, but tells no one; unless the session's
   own stop throws, no command reaches the engine any more.
   */
  lemma ShutdownOutcome(s: State, env: Env)
    requires Consistent(s)
    ensures var t := Shutdown(s, env);
            && t.outbox == s.outbox && t.config == s.config && t.hasConfig == s.hasConfig && t.sent == s.sent
            && CountedOn(s.eventsSeen, if s.capturing then env.duringStop else 0, t.eventsSeen)
            && if s.capturing && env.stopError.Some? then t.(eventsSeen := s.eventsSeen) == s
               else Idle(t) && !t.installed
  {
    hide Accepted, CountedOn, Counted;
    CountTwice(s.eventsSeen, env.duringStop, 0);
  }

  // ---------- Over runs ----------

  /** The input is this command, and it was answered with success. */
  predicate Succeeds(s: State, i: Input, command: string) {
    && i.Line? && WellFormed(i.line) && CommandOf(i.line) == command
    && Acknowledged(s, Next(s, i), i.client, IdOf(i.line))
  }

  /** The input ends a capture, as a stop command or as the end of the engine. */
  predicate Closes(s: State, i: Input) {
    Succeeds(s, i, "stop_capture") || (i.Terminate? && i.env.stopError.None?)
  }

  /** The k-th input of the run is this command, and it was answered with success. */
  predicate Done(inputs: seq<Input>, k: nat, command: string) {
    k < |inputs| && Run(inputs[..k]).Some? && Succeeds(Run(inputs[..k]).value, inputs[k], command)
  }

  predicate Ends(inputs: seq<Input>, k: nat) {
    k < |inputs| && Run(inputs[..k]).Some? && Closes(Run(inputs[..k]).value, inputs[k])
  }

  lemma Earlier(inputs: seq<Input>, n: nat, k: nat)
    requires k < n <= |inputs|
    ensures forall command :: Done(inputs, k, command) <==> Done(inputs[..n], k, command)
    ensures Ends(inputs, k) <==> Ends(inputs[..n], k)
  {
    assert inputs[..n][..k] == inputs[..k];
    hide Run, Succeeds, Closes;
  }

  lemma LastStep(inputs: seq<Input>)
    requires inputs != [] && Run(inputs).Some?
    ensures var n := |inputs| - 1;
            && Run(inputs[..n]).Some?
            && var s := Run(inputs[..n]).value;
               && Consistent(s) && Possible(s, inputs[n]) && Run(inputs).value == Next(s, inputs[n])
               && (forall command :: Done(inputs, n, command) <==> Succeeds(s, inputs[n], command))
               && (Ends(inputs, n) <==> Closes(s, inputs[n]))
  {
    hide Next, Consistent, Possible, Succeeds, Closes;
    RunsAreConsistent(inputs[..|inputs| - 1]);
  }

  /** Only an acknowledged configure touches the configuration. */
  lemma ConfigurationChanges(s: State, i: Input)
    requires Consistent(s) && Possible(s, i)
    ensures var t := Next(s, i);
            if Succeeds(s, i, "configure") then
              var fields := i.line.value.fields;
              t.hasConfig && ConfigName in fields && FromJson(fields[ConfigName]) == Ok(t.config)
            else t.hasConfig == s.hasConfig && t.config == s.config
  {
    if i.Line? {
      if WellFormed(i.line) {
        LineChangesConfiguration(s, i.client, i.line, i.env);
      } else {
        OneReplyPerCommand(s, i.client, i.line, i.env);
      }
    }
    hide Handle, Consistent, WellFormed, Acknowledged, FromJson, CommandOf, IdOf, Possible, Reacts;
  }

  lemma LineChangesConfiguration(s: State, client: ClientId, line: Option<Json>, env: Env)
    requires Consistent(s) && WellFormed(line)
    ensures var t, fields := Handle(s, client, line, env), line.value.fields;
            if CommandOf(line) == "configure" && Acknowledged(s, t, client, IdOf(line)) then
              t.hasConfig && ConfigName in fields && FromJson(fields[ConfigName]) == Ok(t.config)
            else t.hasConfig == s.hasConfig && t.config == s.config
  {
    var t, id, command := Handle(s, client, line, env), IdOf(line), CommandOf(line);
    if command == "configure" {
      ConfigureOutcome(s, client, line, env);
      if s.capturing || !Acceptable(line.value.fields) {
        NeverBoth(s, t, client, id, WhyNotConfigured(s, line.value.fields));
      }
    } else if command == "start_capture" {
      StartOutcome(s, client, line, env);
    } else if command == "stop_capture" {
      StopOutcome(s, client, line, env);
    } else {
      OtherCommandsKeep(s, client, line, env);
    }
    hide Handle, Consistent, WellFormed, Acknowledged, FromJson, CommandOf, IdOf, Validate, WhyNotConfigured, Refused;
    hide LogOpens, KindOf, CountedOn;
  }

  /** The commands that are not announced change neither the configuration nor whether the engine captures. */
  lemma OtherCommandsKeep(s: State, client: ClientId, line: Option<Json>, env: Env)
    requires Consistent(s) && WellFormed(line) && !Announces(CommandOf(line))
    ensures var t := Handle(s, client, line, env);
            t.hasConfig == s.hasConfig && t.config == s.config && t.capturing == s.capturing
  {
    OneReplyPerCommand(s, client, line, env);
    hide Handle, WellFormed, CommandOf, IdOf, Consistent, IsResult, StatusOf;
    var t := Handle(s, client, line, env);
    assert Core(t).config == t.config && Core(t).hasConfig == t.hasConfig && Core(t).capturing == t.capturing;
  }

  /** The input is a line whose configuration reads as these options. */
  predicate Holds(i: Input, o: CliOptions) {
    && i.Line? && i.line.Some? && i.line.value.Obj?
    && ConfigName in i.line.value.fields && FromJson(i.line.value.fields[ConfigName]) == Ok(o)
  }

  /** The k-th input was an acknowledged configure, the last one. */
  predicate LastConfigure(inputs: seq<Input>, k: nat) {
    Done(inputs, k, "configure") && forall m :: k < m < |inputs| ==> !Done(inputs, m, "configure")
  }

  lemma LastConfigureSnoc(inputs: seq<Input>, k: nat)
    requires k < |inputs|
    ensures var n := |inputs| - 1;
            LastConfigure(inputs, k) <==>
            if k == n then Done(inputs, n, "configure")
            else LastConfigure(inputs[..n], k) && !Done(inputs, n, "configure")
  {
    var n := |inputs| - 1;
    hide Done;
    forall m: nat | m < n ensures Done(inputs, m, "configure") <==> Done(inputs[..n], m, "configure") {
      Earlier(inputs, n, m);
    }
  }

  /**
   The engine has a configuration exactly when some configure was acknowledged, and it is the one sent with
   the last of them.
   */
  lemma {:induction false} StoredIsLastConfigured(inputs: seq<Input>)
    requires Run(inputs).Some?
    ensures var s := Run(inputs).value;
            && (s.hasConfig <==> exists k :: 0 <= k < |inputs| && LastConfigure(inputs, k))
            && (forall k :: 0 <= k < |inputs| && LastConfigure(inputs, k) ==> Holds(inputs[k], s.config))
  {
    if inputs != [] {
      var n := |inputs| - 1;
      LastStep(inputs);
      ConfigurationChanges(Run(inputs[..n]).value, inputs[n]);
      StoredIsLastConfigured(inputs[..n]);
      var s, t := Run(inputs[..n]).value, Run(inputs).value;
      assert Done(inputs, n, "configure") ==> t.hasConfig && Holds(inputs[n], t.config);
      hide *;
      LastConfigureStep(inputs, s.config, t.config);
    }
  }

  lemma LastConfigureStep(inputs: seq<Input>, before: CliOptions, after: CliOptions)
    requires inputs != []
    requires var n := |inputs| - 1;
             && (forall k :: 0 <= k < n && LastConfigure(inputs[..n], k) ==> Holds(inputs[..n][k], before))
             && (if Done(inputs, n, "configure") then Holds(inputs[n], after) else after == before)
    ensures var n := |inputs| - 1;
            (exists k :: 0 <= k < |inputs| && LastConfigure(inputs, k)) <==>
            Done(inputs, n, "configure") || exists k :: 0 <= k < n && LastConfigure(inputs[..n], k)
    ensures forall k :: 0 <= k < |inputs| && LastConfigure(inputs, k) ==> Holds(inputs[k], after)
  {
    hide *;
    var n := |inputs| - 1;
    forall k | 0 <= k < n
      ensures LastConfigure(inputs, k) <==> LastConfigure(inputs[..n], k) && !Done(inputs, n, "configure")
    {
      LastConfigureSnoc(inputs, k);
    }
    LastConfigureSnoc(inputs, n);
  }

  /** A start begins a capture; a stop or the end of the engine ends it. */
  lemma CapturingChanges(s: State, i: Input)
    requires Consistent(s) && Possible(s, i)
    ensures Next(s, i).capturing <==> Succeeds(s, i, "start_capture") || (s.capturing && !Closes(s, i))
  {
    if i.Line? {
      if WellFormed(i.line) {
        LineChangesCapturing(s, i.client, i.line, i.env);
      } else {
        OneReplyPerCommand(s, i.client, i.line, i.env);
      }
    }
    hide Handle, WellFormed, Acknowledged, CommandOf, IdOf, Accepted, Reacts;
  }

  lemma LineChangesCapturing(s: State, client: ClientId, line: Option<Json>, env: Env)
    requires Consistent(s) && WellFormed(line)
    ensures var t := Handle(s, client, line, env);
            var done := Acknowledged(s, t, client, IdOf(line));
            t.capturing <==> (CommandOf(line) == "start_capture" && done)
                             || (s.capturing && !(CommandOf(line) == "stop_capture" && done))
  {
    hide Handle, Consistent, WellFormed, Acknowledged, FromJson, CommandOf, IdOf, Validate, WhyNotConfigured;
    hide Refused;
    var t, id, command := Handle(s, client, line, env), IdOf(line), CommandOf(line);
    if command == "configure" {
      ConfigureOutcome(s, client, line, env);
    } else if command == "start_capture" {
      StartOutcome(s, client, line, env);
      if Acknowledged(s, t, client, id) {
        RefusedNever(s, t, client, id);
      }
    } else if command == "stop_capture" {
      StopOutcome(s, client, line, env);
      if Acknowledged(s, t, client, id) {
        RefusedNever(s, t, client, id);
      }
    } else {
      OtherCommandsKeep(s, client, line, env);
    }
  }

  lemma RefusedNever(s: State, t: State, client: ClientId, id: string)
    requires Acknowledged(s, t, client, id)
    ensures forall error :: !Refused(s, t, client, id, error)
  {
    forall error ensures !Refused(s, t, client, id, error) {
      if Refused(s, t, client, id, error) {
        NeverBoth(s, t, client, id, error);
      }
    }
  }

  /** The k-th input was an acknowledged start, and nothing has ended a capture since. */
  predicate Capturing(inputs: seq<Input>, k: nat) {
    Done(inputs, k, "start_capture") && forall m :: k < m < |inputs| ==> !Ends(inputs, m)
  }

  lemma CapturingSnoc(inputs: seq<Input>, k: nat)
    requires k < |inputs|
    ensures var n := |inputs| - 1;
            Capturing(inputs, k) <==>
            if k == n then Done(inputs, n, "start_capture") else Capturing(inputs[..n], k) && !Ends(inputs, n)
  {
    var n := |inputs| - 1;
    hide Done, Ends;
    forall m: nat | m < n
      ensures Done(inputs, m, "start_capture") <==> Done(inputs[..n], m, "start_capture")
      ensures Ends(inputs, m) <==> Ends(inputs[..n], m)
    {
      Earlier(inputs, n, m);
    }
  }

  /** The engine captures exactly when some start was acknowledged and nothing has ended a capture since. */
  lemma {:induction false} CapturingIff(inputs: seq<Input>)
    requires Run(inputs).Some?
    ensures Run(inputs).value.capturing <==> exists k :: 0 <= k < |inputs| && Capturing(inputs, k)
  {
    if inputs != [] {
      var n := |inputs| - 1;
      LastStep(inputs);
      CapturingChanges(Run(inputs[..n]).value, inputs[n]);
      CapturingIff(inputs[..n]);
      assert Run(inputs).value.capturing <==>
               Done(inputs, n, "start_capture") || (Run(inputs[..n]).value.capturing && !Ends(inputs, n));
      hide *;
      CapturingStep(inputs);
    }
  }

  lemma CapturingStep(inputs: seq<Input>)
    requires inputs != []
    ensures var n := |inputs| - 1;
            (exists k :: 0 <= k < |inputs| && Capturing(inputs, k)) <==>
            Done(inputs, n, "start_capture")
            || ((exists k :: 0 <= k < n && Capturing(inputs[..n], k)) && !Ends(inputs, n))
  {
    hide *;
    var n := |inputs| - 1;
    CapturingSnoc(inputs, n);
    forall k | 0 <= k < n ensures Capturing(inputs, k) <==> Capturing(inputs[..n], k) && !Ends(inputs, n) {
      CapturingSnoc(inputs, k);
    }
  }
}
