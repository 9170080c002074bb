/** The engine's capture configuration: JSON to options, options to JSON, and validation. */
module EngineConfig {
  import opened Base
  import opened Decimal
  import opened Decoders
  import opened HexText

  // ---------- JSON values ----------

  // The member names the engine knows; every other name is `Other`.
  datatype Name =
    | TypeName | CommandName | IdName | ConfigName | PayloadHexName
    | Mode | Host | Port | SerialPort | Baudrate | DataBits | StopBits | Parity | FlowControl
    | ListenHost | ListenPort | BindHost | BindPort | TargetHost | TargetPort
    | LogPath | HexRaw | HexFrame | LatencyFlag | Decoder
    | FrameSize | DelimiterHex | IncludeDelimiter | LengthSize | LengthEndian | LengthIncludesHeader
    | Other(text: string)

  function NameText(n: Name): string {
    match n
    case TypeName => "type" case CommandName => "command" case IdName => "id" case ConfigName => "config"
    case PayloadHexName => "payload_hex"
    case Mode => "mode" case Host => "host" case Port => "port" case SerialPort => "serial_port"
    case Baudrate => "baudrate" case DataBits => "data_bits" case StopBits => "stop_bits"
    case Parity => "parity" case FlowControl => "flow_control"
    case ListenHost => "listen_host" case ListenPort => "listen_port"
    case BindHost => "bind_host" case BindPort => "bind_port"
    case TargetHost => "target_host" case TargetPort => "target_port"
    case LogPath => "log_path" case HexRaw => "hex_raw" case HexFrame => "hex_frame"
    case LatencyFlag => "latency" case Decoder => "decoder"
    case FrameSize => "frame_size" case DelimiterHex => "delimiter_hex"
    case IncludeDelimiter => "include_delimiter" case LengthSize => "length_size"
    case LengthEndian => "length_endian" case LengthIncludesHeader => "length_includes_header"
    case Other(text) => text
  }

  datatype Json =
    | Null
    | Bool(b: bool)
    | Int(n: int)
    | Float(r: real)
    | Str(s: string)
    | Arr(items: seq<Json>)
    | Obj(fields: map<Name, Json>)

  /** A member that is present and not null. */
  function Find(fields: map<Name, Json>, key: Name): Option<Json> {
    if key in fields && !fields[key].Null? then Some(fields[key]) else None
  }

  function GetString(fields: map<Name, Json>, key: Name, fallback: string): Result<string> {
    var it := Find(fields, key);
    if it.None? then Ok(fallback)
    else if it.value.Str? then Ok(it.value.s)
    else Err("config." + NameText(key) + " must be a string")
  }

  /** Conversion of a JSON integer to `std::int64_t`. */
  function AsInt64(n: int): int {
    var m := n % TWO_64;
    if m < TWO_64 / 2 then m else m - TWO_64
  }

  function GetPort(fields: map<Name, Json>, key: Name): (r: Result<nat>)
    ensures r.Ok? ==> r.value <= 65535
  {
    var it := Find(fields, key);
    if it.None? then Ok(0)
    else if !it.value.Int? then Err("config." + NameText(key) + " must be a port number")
    else
      var value := AsInt64(it.value.n);
      if value < 0 || value > 65535 then Err("config." + NameText(key) + " out of range") else Ok(value)
  }

  /** Of the 64-bit integers exactly the port numbers are accepted, whatever their signedness. */
  lemma PortIff(fields: map<Name, Json>, key: Name, n: int)
    requires Find(fields, key) == Some(Int(n)) && -(TWO_64 / 2) <= n < TWO_64
    ensures GetPort(fields, key) ==
            if 0 <= n <= 65535 then Ok(n) else Err("config." + NameText(key) + " out of range")
  {
    hide NameText;
    if n < 0 {
      assert n % TWO_64 == n + TWO_64;
    } else {
      NoWrap(n);
    }
  }

  function GetBool(fields: map<Name, Json>, key: Name, fallback: bool): Result<bool> {
    var it := Find(fields, key);
    if it.None? then Ok(fallback)
    else if it.value.Bool? then Ok(it.value.b)
    else Err("config." + NameText(key) + " must be a boolean")
  }

  function Truncate(r: real): int {
    if r >= 0.0 then r.Floor else -((-r).Floor)
  }

  function TypeText(j: Json): string {
    match j
    case Null => "null"
    case Bool(_) => "boolean"
    case Int(_) => "number"
    case Float(_) => "number"
    case Str(_) => "string"
    case Arr(_) => "array"
    case Obj(_) => "object"
  }

  /** What the JSON library throws. */
  function NotANumber(j: Json): string {
    "[json.exception.type_error.302] type must be number, but is " + TypeText(j)
  }

  /** `get<std::uint64_t>()` and `get<std::size_t>()`: numbers convert, everything else throws. */
  function GetUnsigned(j: Json): (r: Result<nat>)
    ensures r.Ok? ==> r.value < TWO_64
  {
    match j
    case Int(n) => Ok(n % TWO_64)
    case Float(r) => Ok(Truncate(r) % TWO_64)
    case _ => Err(NotANumber(j))
  }

  function AsInt32(n: int): int {
    var m := n % 0x1_0000_0000;
    if m < 0x8000_0000 then m else m - 0x1_0000_0000
  }

  /** `get<int>()`: booleans convert too. */
  function GetInt(j: Json): Result<int> {
    match j
    case Int(n) => Ok(AsInt32(n))
    case Float(r) => Ok(AsInt32(Truncate(r)))
    case Bool(b) => Ok(if b then 1 else 0)
    case _ => Err(NotANumber(j))
  }

  // ---------- Serial settings ----------

  datatype SerialParity = ParityNone | Odd | Even
  datatype SerialFlow = FlowNone | Software | Hardware

  /** `parse_unsigned` on the text of an integer; `std::stoul` negates modulo 2^64 after a minus. */
  function ParseUnsigned(value: string, name: string): Result<nat> {
    var negative := value != "" && value[0] == '-';
    var digits := if negative then value[1..] else value;
    if digits == "" || !AllDigits(digits) || NatValue(digits) >= TWO_64
    then Err("invalid " + name + " value: " + value)
    else Ok(if negative then (TWO_64 - NatValue(digits)) % TWO_64 else NatValue(digits))
  }

  lemma ParseUnsignedOfText(v: nat, name: string)
    requires v < TWO_64
    ensures ParseUnsigned(IntText(v), name) == Ok(v)
  {
    NatRoundTrip(v);
  }

  lemma ParseUnsignedOfNegative(v: int, name: string)
    requires v < 0 < v + TWO_64
    ensures ParseUnsigned(IntText(v), name) == Ok(TWO_64 + v)
  {
    NatRoundTrip(-v);
    var s := IntText(v);
    assert s[0] == '-' && s[1..] == NatText(-v);
    hide NatText, NatValue;
    NoWrap(TWO_64 + v);
  }

  /** `std::to_string` of a JSON number and back: a minus sign turns it into a huge number. */
  lemma ParseUnsignedOfInt(v: int, name: string)
    requires -0x8000_0000 <= v < TWO_64
    ensures ParseUnsigned(IntText(v), name) == Ok(if v >= 0 then v else TWO_64 + v)
  {
    hide ParseUnsigned, IntText;
    if v >= 0 {
      ParseUnsignedOfText(v, name);
    } else {
      ParseUnsignedOfNegative(v, name);
    }
  }

  /** Exactly the numbers in range are accepted, as themselves; negative ones never are. */
  lemma SerialNumbersIff(v: int)
    requires -0x8000_0000 <= v < TWO_64
    ensures ParseBaudrate(IntText(v)).Ok? <==> 0 < v <= 4000000
    ensures 0 < v <= 4000000 ==> ParseBaudrate(IntText(v)) == Ok(v)
    ensures (ParseDataBits(IntText(v)).Ok? <==> 5 <= v <= 8) && (5 <= v <= 8 ==> ParseDataBits(IntText(v)) == Ok(v))
    ensures (ParseStopBits(IntText(v)).Ok? <==> 1 <= v <= 2) && (1 <= v <= 2 ==> ParseStopBits(IntText(v)) == Ok(v))
  {
    hide ParseUnsigned, IntText;
    ParseUnsignedOfInt(v, "--baudrate");
    ParseUnsignedOfInt(v, "--data-bits");
    ParseUnsignedOfInt(v, "--stop-bits");
  }

  function ParseBaudrate(value: string): (r: Result<nat>)
    ensures r.Ok? ==> 0 < r.value <= 4000000
  {
    var n :- ParseUnsigned(value, "--baudrate");
    if n == 0 || n > 4000000 then Err("invalid --baudrate value: " + value) else Ok(n)
  }

  function ParseDataBits(value: string): (r: Result<nat>)
    ensures r.Ok? ==> 5 <= r.value <= 8
  {
    var n :- ParseUnsigned(value, "--data-bits");
    if n < 5 || n > 8 then Err("invalid --data-bits value: " + value) else Ok(n)
  }

  function ParseStopBits(value: string): (r: Result<nat>)
    ensures r.Ok? ==> r.value == 1 || r.value == 2
  {
    var n :- ParseUnsigned(value, "--stop-bits");
    if n != 1 && n != 2 then Err("invalid --stop-bits value: " + value) else Ok(n)
  }

  function ParseParity(value: string): Result<SerialParity> {
    var normalized := Lowercase(value);
    if normalized == "none" then Ok(ParityNone)
    else if normalized == "odd" then Ok(Odd)
    else if normalized == "even" then Ok(Even)
    else Err("invalid --parity value: " + value)
  }

  function ParityText(p: SerialParity): string {
    match p case ParityNone => "none" case Odd => "odd" case Even => "even"
  }

  function ParseFlow(value: string): Result<SerialFlow> {
    var normalized := Lowercase(value);
    if normalized == "none" then Ok(FlowNone)
    else if normalized == "software" then Ok(Software)
    else if normalized == "hardware" then Ok(Hardware)
    else Err("invalid --flow-control value: " + value)
  }

  function FlowText(f: SerialFlow): string {
    match f case FlowNone => "none" case Software => "software" case Hardware => "hardware"
  }

  /** Every setting is read back from its own text. */
  lemma SerialTextRoundTrip(p: SerialParity, f: SerialFlow)
    ensures ParseParity(ParityText(p)) == Ok(p)
    ensures ParseFlow(FlowText(f)) == Ok(f)
  {
    LowercaseFixed(ParityText(p));
    LowercaseFixed(FlowText(f));
  }

  // ---------- Options ----------

  datatype SerialOptions = SerialOptions(
    port: string, baudrate: nat, dataBits: nat, stopBits: nat, parity: SerialParity, flow: SerialFlow)

  datatype Network = Network(
    host: string, port: nat, listenHost: string, listenPort: nat,
    bindHost: string, bindPort: nat, targetHost: string, targetPort: nat)

  datatype Output = Output(logPath: string, hexRaw: bool, hexFrame: bool, latency: bool)

  // `ipcPath` and `sendOptionCount` come from the command line only.
  datatype CliOptions = CliOptions(
    mode: string, network: Network, serial: SerialOptions, output: Output, decoder: DecoderConfig,
    ipcPath: string, sendOptionCount: nat)

  const DEFAULT_DECODER: DecoderConfig := DecoderConfig("raw", 0, [], true, 2, "big", false)

  function BaudrateOf(f: map<Name, Json>): Result<nat> {
    var it := Find(f, Baudrate);
    if it.None? then Ok(115200)
    else
      var v :- GetUnsigned(it.value);
      ParseBaudrate(IntText(v))
  }

  function DataBitsOf(f: map<Name, Json>): Result<nat> {
    var it := Find(f, DataBits);
    if it.None? then Ok(8)
    else
      var v :- GetInt(it.value);
      ParseDataBits(IntText(v))
  }

  function StopBitsOf(f: map<Name, Json>): Result<nat> {
    var it := Find(f, StopBits);
    if it.None? then Ok(1)
    else
      var v :- GetInt(it.value);
      ParseStopBits(IntText(v))
  }

  function ParityOf(f: map<Name, Json>): Result<SerialParity> {
    var text :- GetString(f, Parity, "none");
    ParseParity(text)
  }

  function FlowOf(f: map<Name, Json>): Result<SerialFlow> {
    var text :- GetString(f, FlowControl, "none");
    ParseFlow(text)
  }

  function SerialFromJson(f: map<Name, Json>): Result<SerialOptions> {
    var port :- GetString(f, SerialPort, "");
    var baudrate :- BaudrateOf(f);
    var dataBits :- DataBitsOf(f);
    var stopBits :- StopBitsOf(f);
    var parity :- ParityOf(f);
    var flow :- FlowOf(f);
    Ok(SerialOptions(port, baudrate, dataBits, stopBits, parity, flow))
  }

  function NetworkFromJson(f: map<Name, Json>, host: string, port: nat): Result<Network> {
    var listenHost :- GetString(f, ListenHost, "");
    var listenPort :- GetPort(f, ListenPort);
    var bindHost :- GetString(f, BindHost, "0.0.0.0");
    var bindPort :- GetPort(f, BindPort);
    var targetHost :- GetString(f, TargetHost, "");
    var targetPort :- GetPort(f, TargetPort);
    Ok(Network(host, port, listenHost, listenPort, bindHost, bindPort, targetHost, targetPort))
  }

  function OutputFromJson(f: map<Name, Json>): Result<Output> {
    var logPath :- GetString(f, LogPath, "");
    var hexRaw :- GetBool(f, HexRaw, false);
    var hexFrame :- GetBool(f, HexFrame, false);
    var latency :- GetBool(f, LatencyFlag, true);
    Ok(Output(logPath, hexRaw, hexFrame, latency))
  }

  function SizeFromJson(f: map<Name, Json>, key: Name, fallback: nat): Result<nat> {
    var it := Find(f, key);
    if it.None? then Ok(fallback) else GetUnsigned(it.value)
  }

  function DelimiterOf(f: map<Name, Json>): Result<bytes> {
    var text :- GetString(f, DelimiterHex, "");
    if text == "" then Ok([]) else DelimiterBytes(text)
  }

  function DecoderFromJson(f: map<Name, Json>): Result<DecoderConfig> {
    var decoder :- GetString(f, Decoder, "raw");
    var frameSize :- SizeFromJson(f, FrameSize, 0);
    var delimiter :- DelimiterOf(f);
    var includeDelimiter :- GetBool(f, IncludeDelimiter, true);
    var lengthSize :- SizeFromJson(f, LengthSize, 2);
    var lengthEndian :- GetString(f, LengthEndian, "big");
    var includesHeader :- GetBool(f, LengthIncludesHeader, false);
    Ok(DecoderConfig(decoder, frameSize, delimiter, includeDelimiter, lengthSize, lengthEndian, includesHeader))
  }

  function DecoderOf(f: map<Name, Json>): Result<DecoderConfig> {
    var it := Find(f, Decoder);
    if it.None? then Ok(DEFAULT_DECODER)
    else if !it.value.Obj? then Err("config.decoder must be an object")
    else DecoderFromJson(it.value.fields)
  }

  /** `engine_config_from_json`; `Err` where the source throws. */
  function FromJson(config: Json): Result<CliOptions> {
    if !config.Obj? then Err("config must be a JSON object")
    else
      var f := config.fields;
      var mode :- GetString(f, Mode, "");
      var host :- GetString(f, Host, "");
      var port :- GetPort(f, Port);
      var serial :- SerialFromJson(f);
      var network :- NetworkFromJson(f, host, port);
      var output :- OutputFromJson(f);
      var decoder :- DecoderOf(f);
      Ok(CliOptions(mode, network, serial, output, decoder, "", 0))
  }

  function DecoderToJson(d: DecoderConfig): Json {
    Obj(map[
      Decoder := Str(d.decoder),
      FrameSize := Int(d.frameSize),
      DelimiterHex := Str(ToHex(d.delimiter, false)),
      IncludeDelimiter := Bool(d.includeDelimiter),
      LengthSize := Int(d.lengthSize),
      LengthEndian := Str(d.lengthEndian),
      LengthIncludesHeader := Bool(d.lengthIncludesHeader)])
  }

  function NetworkFields(n: Network): map<Name, Json> {
    map[Host := Str(n.host), Port := Int(n.port),
        ListenHost := Str(n.listenHost), ListenPort := Int(n.listenPort),
        BindHost := Str(n.bindHost), BindPort := Int(n.bindPort),
        TargetHost := Str(n.targetHost), TargetPort := Int(n.targetPort)]
  }

  function SerialFields(s: SerialOptions): map<Name, Json> {
    map[SerialPort := Str(s.port), Baudrate := Int(s.baudrate), DataBits := Int(s.dataBits),
        StopBits := Int(s.stopBits), Parity := Str(ParityText(s.parity)), FlowControl := Str(FlowText(s.flow))]
  }

  function OutputFields(o: CliOptions): map<Name, Json> {
    map[Mode := Str(o.mode), LogPath := Str(o.output.logPath), HexRaw := Bool(o.output.hexRaw),
        HexFrame := Bool(o.output.hexFrame), LatencyFlag := Bool(o.output.latency),
        Decoder := DecoderToJson(o.decoder)]
  }

  function AllFields(o: CliOptions): map<Name, Json> {
    NetworkFields(o.network) + SerialFields(o.serial) + OutputFields(o)
  }

  /** `engine_config_to_json`. */
  function ToJson(o: CliOptions): Json {
    Obj(AllFields(o))
  }

  // ---------- The normal form ----------

  /** The options that some JSON configuration stands for. */
  predicate Representable(o: CliOptions) {
    && o.network.port <= 65535 && o.network.listenPort <= 65535
    && o.network.bindPort <= 65535 && o.network.targetPort <= 65535
    && 0 < o.serial.baudrate <= 4000000
    && 5 <= o.serial.dataBits <= 8
    && (o.serial.stopBits == 1 || o.serial.stopBits == 2)
    && o.decoder.frameSize < TWO_64 && o.decoder.lengthSize < TWO_64
    && o.ipcPath == "" && o.sendOptionCount == 0
  }

  lemma FromJsonIsRepresentable(config: Json)
    requires FromJson(config).Ok?
    ensures Representable(FromJson(config).value)
  {
    hide GetString, GetBool, ParseParity, ParseFlow, DelimiterBytes, ParseBaudrate, ParseDataBits, ParseStopBits;
  }

  lemma SmallInts(n: nat)
    requires n <= 0x7FFF_FFFF
    ensures AsInt64(n) == n && AsInt32(n) == n && n % TWO_64 == n
  {
  }

  datatype Group = NetworkGroup | SerialGroup | OutputGroup | NoGroup

  function GroupOf(key: Name): Group {
    if key.Host? || key.Port? || key.ListenHost? || key.ListenPort? || key.BindHost? || key.BindPort?
       || key.TargetHost? || key.TargetPort? then NetworkGroup
    else if key.SerialPort? || key.Baudrate? || key.DataBits? || key.StopBits? || key.Parity? || key.FlowControl?
    then SerialGroup
    else if key.Mode? || key.LogPath? || key.HexRaw? || key.HexFrame? || key.LatencyFlag? || key.Decoder?
    then OutputGroup
    else NoGroup
  }

  lemma NetworkGroupOnly(n: Network, key: Name)
    ensures key in NetworkFields(n) ==> GroupOf(key) == NetworkGroup
  {
  }

  lemma SerialGroupOnly(s: SerialOptions, key: Name)
    ensures key in SerialFields(s) ==> GroupOf(key) == SerialGroup
  {
    hide ParityText, FlowText;
  }

  lemma OutputGroupOnly(o: CliOptions, key: Name)
    ensures key in OutputFields(o) ==> GroupOf(key) == OutputGroup
  {
    hide DecoderToJson;
  }

  /** Each member is found where its group wrote it. */
  lemma FindField(o: CliOptions, key: Name)
    ensures key in NetworkFields(o.network) ==> Find(AllFields(o), key) == Find(NetworkFields(o.network), key)
    ensures key in SerialFields(o.serial) ==> Find(AllFields(o), key) == Find(SerialFields(o.serial), key)
    ensures key in OutputFields(o) ==> Find(AllFields(o), key) == Find(OutputFields(o), key)
  {
    NetworkGroupOnly(o.network, key);
    SerialGroupOnly(o.serial, key);
    OutputGroupOnly(o, key);
    hide GroupOf, NetworkFields, SerialFields, OutputFields;
  }

  lemma DecoderMembers(d: DecoderConfig)
    ensures DecoderToJson(d).Obj?
    ensures var f := DecoderToJson(d).fields;
            && Find(f, Decoder) == Some(Str(d.decoder)) && Find(f, FrameSize) == Some(Int(d.frameSize))
            && Find(f, DelimiterHex) == Some(Str(ToHex(d.delimiter, false)))
            && Find(f, IncludeDelimiter) == Some(Bool(d.includeDelimiter))
            && Find(f, LengthSize) == Some(Int(d.lengthSize)) && Find(f, LengthEndian) == Some(Str(d.lengthEndian))
            && Find(f, LengthIncludesHeader) == Some(Bool(d.lengthIncludesHeader))
  {
    hide ToHex;
  }

  lemma SerialMembers(o: CliOptions)
    ensures var f, s := AllFields(o), o.serial;
            && Find(f, SerialPort) == Some(Str(s.port)) && Find(f, Baudrate) == Some(Int(s.baudrate))
            && Find(f, DataBits) == Some(Int(s.dataBits)) && Find(f, StopBits) == Some(Int(s.stopBits))
            && Find(f, Parity) == Some(Str(ParityText(s.parity)))
            && Find(f, FlowControl) == Some(Str(FlowText(s.flow)))
  {
    FindField(o, SerialPort);
    FindField(o, Baudrate);
    FindField(o, DataBits);
    FindField(o, StopBits);
    FindField(o, Parity);
    FindField(o, FlowControl);
    hide AllFields, ParityText, FlowText;
  }

  lemma SerialRoundTrip(o: CliOptions)
    requires Representable(o)
    ensures SerialFromJson(AllFields(o)) == Ok(o.serial)
  {
    var f, s := AllFields(o), o.serial;
    SerialMembers(o);
    SerialTextRoundTrip(s.parity, s.flow);
    NumbersRoundTrip(s.baudrate, s.dataBits, s.stopBits);
    hide AllFields, Find, GetUnsigned, GetInt, IntText, ParseBaudrate, ParseDataBits, ParseStopBits;
    hide ParseParity, ParseFlow, ParityText, FlowText;
  }

  lemma NumbersRoundTrip(baudrate: nat, dataBits: nat, stopBits: nat)
    requires 0 < baudrate <= 4000000 && 5 <= dataBits <= 8 && (stopBits == 1 || stopBits == 2)
    ensures GetUnsigned(Int(baudrate)) == Ok(baudrate) && ParseBaudrate(IntText(baudrate)) == Ok(baudrate)
    ensures GetInt(Int(dataBits)) == Ok(dataBits) && ParseDataBits(IntText(dataBits)) == Ok(dataBits)
    ensures GetInt(Int(stopBits)) == Ok(stopBits) && ParseStopBits(IntText(stopBits)) == Ok(stopBits)
  {
    SmallInts(baudrate);
    SmallInts(dataBits);
    SmallInts(stopBits);
    hide AsInt32, AsInt64, IntText, ParseUnsigned;
    ParseUnsignedOfText(baudrate, "--baudrate");
    ParseUnsignedOfText(dataBits, "--data-bits");
    ParseUnsignedOfText(stopBits, "--stop-bits");
  }

  lemma NetworkStrings(o: CliOptions)
    ensures var f, n := AllFields(o), o.network;
            && Find(f, Host) == Some(Str(n.host)) && Find(f, ListenHost) == Some(Str(n.listenHost))
            && Find(f, BindHost) == Some(Str(n.bindHost)) && Find(f, TargetHost) == Some(Str(n.targetHost))
  {
    FindField(o, Host);
    FindField(o, ListenHost);
    FindField(o, BindHost);
    FindField(o, TargetHost);
    hide AllFields;
  }

  lemma NetworkPorts(o: CliOptions)
    ensures var f, n := AllFields(o), o.network;
            && Find(f, Port) == Some(Int(n.port)) && Find(f, ListenPort) == Some(Int(n.listenPort))
            && Find(f, BindPort) == Some(Int(n.bindPort)) && Find(f, TargetPort) == Some(Int(n.targetPort))
  {
    FindField(o, Port);
    FindField(o, ListenPort);
    FindField(o, BindPort);
    FindField(o, TargetPort);
    hide AllFields;
  }

  lemma PortRoundTrip(f: map<Name, Json>, key: Name, n: nat)
    requires n <= 65535 && Find(f, key) == Some(Int(n))
    ensures GetPort(f, key) == Ok(n)
  {
    hide Find, AsInt64;
    SmallInts(n);
  }

  lemma NetworkRoundTrip(o: CliOptions)
    requires Representable(o)
    ensures var f, n := AllFields(o), o.network;
            && GetString(f, Host, "") == Ok(n.host) && GetPort(f, Port) == Ok(n.port)
            && NetworkFromJson(f, n.host, n.port) == Ok(n)
  {
    hide AllFields, Find, GetPort;
    NetworkStrings(o);
    NetworkPorts(o);
    PortRoundTrip(AllFields(o), Port, o.network.port);
    PortRoundTrip(AllFields(o), ListenPort, o.network.listenPort);
    PortRoundTrip(AllFields(o), BindPort, o.network.bindPort);
    PortRoundTrip(AllFields(o), TargetPort, o.network.targetPort);
  }

  lemma OutputMembers(o: CliOptions)
    ensures var f := AllFields(o);
            && Find(f, LogPath) == Some(Str(o.output.logPath)) && Find(f, HexRaw) == Some(Bool(o.output.hexRaw))
            && Find(f, HexFrame) == Some(Bool(o.output.hexFrame))
            && Find(f, LatencyFlag) == Some(Bool(o.output.latency))
  {
    FindField(o, LogPath);
    FindField(o, HexRaw);
    FindField(o, HexFrame);
    FindField(o, LatencyFlag);
    hide AllFields, DecoderToJson;
  }

  lemma ModeAndDecoderMembers(o: CliOptions)
    ensures var f := AllFields(o);
            && Find(f, Mode) == Some(Str(o.mode)) && Find(f, Decoder) == Some(DecoderToJson(o.decoder))
    ensures DecoderToJson(o.decoder).Obj?
  {
    FindField(o, Mode);
    FindField(o, Decoder);
    DecoderMembers(o.decoder);
    hide AllFields, DecoderToJson;
  }

  lemma OutputRoundTrip(o: CliOptions)
    ensures var f := AllFields(o);
            && GetString(f, Mode, "") == Ok(o.mode) && OutputFromJson(f) == Ok(o.output)
            && Find(f, Decoder) == Some(DecoderToJson(o.decoder))
  {
    OutputMembers(o);
    ModeAndDecoderMembers(o);
    hide AllFields, DecoderToJson, Find;
  }

  lemma DecoderRoundTrip(d: DecoderConfig)
    requires d.frameSize < TWO_64 && d.lengthSize < TWO_64
    ensures DecoderFromJson(DecoderToJson(d).fields) == Ok(d)
  {
    DecoderMembers(d);
    NoWrap(d.frameSize);
    NoWrap(d.lengthSize);
    assert d.delimiter == [] <==> ToHex(d.delimiter, false) == "";
    if d.delimiter != [] {
      DelimiterRoundTrip(d.delimiter, false);
    }
    hide DelimiterBytes, ToHex, DecoderToJson, Find;
  }

  /** The options that survive the trip through JSON are exactly the representable ones. */
  lemma RoundTripIff(o: CliOptions)
    ensures FromJson(ToJson(o)) == Ok(o) <==> Representable(o)
  {
    if Representable(o) {
      hide AllFields, Find, SerialFromJson, NetworkFromJson, OutputFromJson, DecoderFromJson, DecoderToJson;
      hide GetPort, GetString;
      SerialRoundTrip(o);
      NetworkRoundTrip(o);
      OutputRoundTrip(o);
      DecoderMembers(o.decoder);
      DecoderRoundTrip(o.decoder);
    } else if FromJson(ToJson(o)) == Ok(o) {
      FromJsonIsRepresentable(ToJson(o));
    }
  }

  /** Every accepted configuration has a normal form: writing it and reading it again changes nothing. */
  lemma ConfigNormalForm(config: Json)
    requires FromJson(config).Ok?
    ensures FromJson(ToJson(FromJson(config).value)) == FromJson(config)
  {
    FromJsonIsRepresentable(config);
    RoundTripIff(FromJson(config).value);
  }

  // ---------- Validation ----------

  /** `validate_options`: the message of the first failed check, if any. */
  function Validate(o: CliOptions): Option<string> {
    var n := o.network;
    if o.mode == "engine" then
      if o.ipcPath == "" then Some("engine requires --ipc") else None
    else if o.mode == "tcp-client" then
      if n.host == "" then Some("tcp-client requires --host")
      else if n.port == 0 then Some("tcp-client requires --port")
      else None
    else if o.mode == "tcp-server" then
      if n.listenHost == "" then Some("tcp-server requires --listen-host")
      else if n.listenPort == 0 then Some("tcp-server requires --listen-port")
      else None
    else if o.mode == "tcp-proxy" then
      if n.listenHost == "" then Some("tcp-proxy requires --listen-host")
      else if n.listenPort == 0 then Some("tcp-proxy requires --listen-port")
      else if n.targetHost == "" then Some("tcp-proxy requires --target-host")
      else if n.targetPort == 0 then Some("tcp-proxy requires --target-port")
      else None
    else if o.mode == "serial" then
      if o.serial.port == "" then Some("serial requires --port")
      else if o.serial.baudrate == 0 then Some("serial requires --baudrate")
      else None
    else if o.mode == "udp" then
      if n.bindHost == "" then Some("udp requires --bind-host")
      else if n.bindPort == 0 then Some("udp requires --bind-port")
      else if (n.targetHost != "") != (n.targetPort != 0) then
        Some("udp target requires both --target-host and --target-port")
      else if o.sendOptionCount > 0 && (n.targetHost == "" || n.targetPort == 0) then
        Some("udp send input requires --target-host and --target-port")
      else None
    else Some("unknown or missing mode: " + o.mode)
  }

  datatype CaptureMode = Udp | TcpClient | TcpServer | TcpProxy | Serial

  function ModeText(m: CaptureMode): string {
    match m
    case Udp => "udp"
    case TcpClient => "tcp-client"
    case TcpServer => "tcp-server"
    case TcpProxy => "tcp-proxy"
    case Serial => "serial"
  }

  /** The fields a capture mode cannot do without. */
  predicate HasRequiredFields(m: CaptureMode, o: CliOptions) {
    var n := o.network;
    match m
    case Udp => n.bindHost != "" && n.bindPort != 0 && (n.targetHost == "" <==> n.targetPort == 0)
    case TcpClient => n.host != "" && n.port != 0
    case TcpServer => n.listenHost != "" && n.listenPort != 0
    case TcpProxy => n.listenHost != "" && n.listenPort != 0 && n.targetHost != "" && n.targetPort != 0
    case Serial => o.serial.port != "" && o.serial.baudrate != 0
  }

  /** A configuration is accepted exactly when it names one of the five modes with its fields. */
  lemma AcceptedIffComplete(o: CliOptions)
    requires Representable(o)
    ensures Validate(o).None? <==> exists m :: o.mode == ModeText(m) && HasRequiredFields(m, o)
  {
    ModesDiffer();
    if Validate(o).None? {
      var m :=
        if o.mode == "udp" then Udp
        else if o.mode == "tcp-client" then TcpClient
        else if o.mode == "tcp-server" then TcpServer
        else if o.mode == "tcp-proxy" then TcpProxy
        else Serial;
      assert o.mode == ModeText(m) && HasRequiredFields(m, o);
    }
  }

  lemma ModesDiffer()
    ensures forall m, k :: ModeText(m) == ModeText(k) ==> m == k
    ensures forall m :: ModeText(m) != "engine"
  {
    assert |"udp"| == 3 && |"serial"| == 6 && |"engine"| == 6 && |"tcp-proxy"| == 9;
    assert "serial"[0] == 's' && "engine"[0] == 'e';
    assert "tcp-client"[4] == 'c' && "tcp-server"[4] == 's';
  }
}
