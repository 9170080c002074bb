/** What every member of a configuration reads as, given or not: reading as a relation, without its order. */
module ConfigReading {
  import opened Base
  import opened Decoders
  import opened HexText
  import opened EngineConfig

  predicate Given(f: map<Name, Json>, key: Name) {
    key in f && f[key] != Null
  }

  // ---------- Single members ----------

  predicate StringIs(f: map<Name, Json>, key: Name, fallback: string, s: string) {
    if Given(f, key) then f[key] == Str(s) else s == fallback
  }

  predicate BoolIs(f: map<Name, Json>, key: Name, fallback: bool, b: bool) {
    if Given(f, key) then f[key] == Bool(b) else b == fallback
  }

  /** An integer that is the port modulo 2 to the 64. */
  predicate PortIs(f: map<Name, Json>, key: Name, n: nat) {
    if Given(f, key) then f[key].Int? && f[key].n % 0x1_0000_0000_0000_0000 == n && n <= 65535 else n == 0
  }

  /** The whole part of a number modulo `width`; a boolean is a number where `flags` allows it. */
  predicate NumberIs(j: Json, flags: bool, width: nat, n: nat)
    requires width > 0
  {
    match j
    case Int(m) => n == m % width
    case Float(r) => n == Truncate(r) % width
    case Bool(b) => flags && n == if b then 1 else 0
    case _ => false
  }

  /** The part in front of the decimal point, towards zero. */
  lemma TruncateIs(r: real)
    ensures r >= 0.0 ==> Truncate(r) >= 0 && Truncate(r) as real <= r < Truncate(r) as real + 1.0
    ensures r < 0.0 ==> Truncate(r) <= 0 && Truncate(r) as real - 1.0 < r <= Truncate(r) as real
  {
  }

  predicate BaudrateIs(f: map<Name, Json>, n: nat) {
    if Given(f, Baudrate) then
      0 < n <= 4000000 && NumberIs(f[Baudrate], false, 0x1_0000_0000_0000_0000, n)
    else n == 115200
  }

  predicate DataBitsIs(f: map<Name, Json>, n: nat) {
    if Given(f, DataBits) then
      n in {5, 6, 7, 8} && NumberIs(f[DataBits], true, 0x1_0000_0000, n)
    else n == 8
  }

  predicate StopBitsIs(f: map<Name, Json>, n: nat) {
    if Given(f, StopBits) then
      n in {1, 2} && NumberIs(f[StopBits], true, 0x1_0000_0000, n)
    else n == 1
  }

  predicate SizeIs(f: map<Name, Json>, key: Name, fallback: nat, n: nat) {
    if Given(f, key) then NumberIs(f[key], false, 0x1_0000_0000_0000_0000, n)
    else n == fallback
  }

  predicate ParityIs(f: map<Name, Json>, p: SerialParity) {
    if Given(f, Parity) then
      f[Parity].Str? && Lowercase(f[Parity].s) ==
        match p case ParityNone => "none" case Odd => "odd" case Even => "even"
    else p == ParityNone
  }

  predicate FlowIs(f: map<Name, Json>, flow: SerialFlow) {
    if Given(f, FlowControl) then
      f[FlowControl].Str? && Lowercase(f[FlowControl].s) ==
        match flow case FlowNone => "none" case Software => "software" case Hardware => "hardware"
    else flow == FlowNone
  }

  /** No text, or none given, is no delimiter. */
  predicate DelimiterIs(f: map<Name, Json>, d: bytes) {
    if Given(f, DelimiterHex) && f[DelimiterHex] != Str("") then
      f[DelimiterHex].Str? && DelimiterBytes(f[DelimiterHex].s) == Ok(d)
    else d == []
  }

  // ---------- Groups ----------

  predicate SerialReads(f: map<Name, Json>, o: SerialOptions) {
    && StringIs(f, SerialPort, "", o.port) && BaudrateIs(f, o.baudrate)
    && DataBitsIs(f, o.dataBits) && StopBitsIs(f, o.stopBits)
    && ParityIs(f, o.parity) && FlowIs(f, o.flow)
  }

  predicate NetworkReads(f: map<Name, Json>, o: Network) {
    && StringIs(f, Host, "", o.host) && PortIs(f, Port, o.port)
    && StringIs(f, ListenHost, "", o.listenHost) && PortIs(f, ListenPort, o.listenPort)
    && StringIs(f, BindHost, "0.0.0.0", o.bindHost) && PortIs(f, BindPort, o.bindPort)
    && StringIs(f, TargetHost, "", o.targetHost) && PortIs(f, TargetPort, o.targetPort)
  }

  predicate OutputReads(f: map<Name, Json>, o: Output) {
    && StringIs(f, LogPath, "", o.logPath) && BoolIs(f, HexRaw, false, o.hexRaw)
    && BoolIs(f, HexFrame, false, o.hexFrame) && BoolIs(f, LatencyFlag, true, o.latency)
  }

  predicate DecoderFieldsRead(f: map<Name, Json>, d: DecoderConfig) {
    && StringIs(f, Decoder, "raw", d.decoder) && SizeIs(f, FrameSize, 0, d.frameSize)
    && DelimiterIs(f, d.delimiter) && BoolIs(f, IncludeDelimiter, true, d.includeDelimiter)
    && SizeIs(f, LengthSize, 2, d.lengthSize) && StringIs(f, LengthEndian, "big", d.lengthEndian)
    && BoolIs(f, LengthIncludesHeader, false, d.lengthIncludesHeader)
  }

  predicate DecoderReads(f: map<Name, Json>, d: DecoderConfig) {
    if Given(f, Decoder) then f[Decoder].Obj? && DecoderFieldsRead(f[Decoder].fields, d)
    else d == DecoderConfig("raw", 0, [], true, 2, "big", false)
  }

  predicate Reads(f: map<Name, Json>, o: CliOptions) {
    && StringIs(f, Mode, "", o.mode) && NetworkReads(f, o.network) && SerialReads(f, o.serial)
    && OutputReads(f, o.output) && DecoderReads(f, o.decoder)
    && o.ipcPath == "" && o.sendOptionCount == 0
  }

  // ---------- The reader reads exactly that ----------

  lemma StringIff(f: map<Name, Json>, key: Name, fallback: string, s: string)
    ensures GetString(f, key, fallback) == Ok(s) <==> StringIs(f, key, fallback, s)
  {
    hide NameText;
  }

  lemma BoolIff(f: map<Name, Json>, key: Name, fallback: bool, b: bool)
    ensures GetBool(f, key, fallback) == Ok(b) <==> BoolIs(f, key, fallback, b)
  {
    hide NameText;
  }

  lemma PortReadsIff(f: map<Name, Json>, key: Name, n: nat)
    ensures GetPort(f, key) == Ok(n) <==> PortIs(f, key, n)
  {
    hide NameText;
  }

  lemma UnsignedIff(j: Json, n: nat)
    ensures GetUnsigned(j) == Ok(n) <==> NumberIs(j, false, 0x1_0000_0000_0000_0000, n)
  {
    hide Truncate, NotANumber;
  }

  lemma IntIff(j: Json, n: nat)
    requires n < 0x8000_0000
    ensures GetInt(j) == Ok(n) <==> NumberIs(j, true, 0x1_0000_0000, n)
  {
    hide Truncate, NotANumber;
  }

  lemma BaudrateIff(f: map<Name, Json>, n: nat)
    ensures BaudrateOf(f) == Ok(n) <==> BaudrateIs(f, n)
  {
    hide GetUnsigned, NumberIs, NotANumber, ParseBaudrate;
    if Given(f, Baudrate) {
      UnsignedIff(f[Baudrate], n);
      if GetUnsigned(f[Baudrate]).Ok? {
        SerialNumbersIff(GetUnsigned(f[Baudrate]).value);
      }
    }
  }

  lemma DataBitsIff(f: map<Name, Json>, n: nat)
    ensures DataBitsOf(f) == Ok(n) <==> DataBitsIs(f, n)
  {
    hide NumberIs, NotANumber, ParseDataBits;
    if Given(f, DataBits) {
      if n < 9 {
        IntIff(f[DataBits], n);
      }
      if GetInt(f[DataBits]).Ok? {
        IntIsSmall(f[DataBits]);
        SerialNumbersIff(GetInt(f[DataBits]).value);
      }
    }
    hide GetInt;
  }

  lemma StopBitsIff(f: map<Name, Json>, n: nat)
    ensures StopBitsOf(f) == Ok(n) <==> StopBitsIs(f, n)
  {
    hide NumberIs, NotANumber, ParseStopBits;
    if Given(f, StopBits) {
      if n < 9 {
        IntIff(f[StopBits], n);
      }
      if GetInt(f[StopBits]).Ok? {
        IntIsSmall(f[StopBits]);
        SerialNumbersIff(GetInt(f[StopBits]).value);
      }
    }
    hide GetInt;
  }

  lemma IntIsSmall(j: Json)
    ensures GetInt(j).Ok? ==> -0x8000_0000 <= GetInt(j).value < 0x8000_0000
  {
    hide Truncate, NotANumber;
  }

  lemma ParityIff(f: map<Name, Json>, p: SerialParity)
    ensures ParityOf(f) == Ok(p) <==> ParityIs(f, p)
  {
    hide NameText, Lowercase;
    LowercaseFixed("none");
    assert |"none"| == 4 && |"odd"| == 3 && |"even"| == 4 && "none"[0] != "even"[0];
  }

  lemma FlowIff(f: map<Name, Json>, flow: SerialFlow)
    ensures FlowOf(f) == Ok(flow) <==> FlowIs(f, flow)
  {
    hide NameText, Lowercase;
    LowercaseFixed("none");
    assert |"none"| == 4 && |"software"| == 8 && |"hardware"| == 8 && "software"[0] != "hardware"[0];
  }

  lemma DelimiterIff(f: map<Name, Json>, d: bytes)
    ensures DelimiterOf(f) == Ok(d) <==> DelimiterIs(f, d)
  {
    hide NameText, DelimiterBytes;
  }

  lemma SizeIff(f: map<Name, Json>, key: Name, fallback: nat, n: nat)
    ensures SizeFromJson(f, key, fallback) == Ok(n) <==> SizeIs(f, key, fallback, n)
  {
    hide GetUnsigned, NumberIs;
    if Given(f, key) {
      UnsignedIff(f[key], n);
    }
  }

  lemma SerialIff(f: map<Name, Json>, o: SerialOptions)
    ensures SerialFromJson(f) == Ok(o) <==> SerialReads(f, o)
  {
    StringIff(f, SerialPort, "", o.port);
    BaudrateIff(f, o.baudrate);
    DataBitsIff(f, o.dataBits);
    StopBitsIff(f, o.stopBits);
    ParityIff(f, o.parity);
    FlowIff(f, o.flow);
    hide GetString, StringIs, BaudrateOf, BaudrateIs, DataBitsOf, DataBitsIs, StopBitsOf, StopBitsIs;
    hide ParityOf, ParityIs, FlowOf, FlowIs;
  }

  lemma NetworkIff(f: map<Name, Json>, o: Network)
    ensures (GetString(f, Host, "") == Ok(o.host) && GetPort(f, Port) == Ok(o.port)
             && NetworkFromJson(f, o.host, o.port) == Ok(o)) <==> NetworkReads(f, o)
  {
    StringIff(f, Host, "", o.host);
    PortReadsIff(f, Port, o.port);
    StringIff(f, ListenHost, "", o.listenHost);
    PortReadsIff(f, ListenPort, o.listenPort);
    StringIff(f, BindHost, "0.0.0.0", o.bindHost);
    PortReadsIff(f, BindPort, o.bindPort);
    StringIff(f, TargetHost, "", o.targetHost);
    PortReadsIff(f, TargetPort, o.targetPort);
    hide GetString, StringIs, GetPort, PortIs;
  }

  lemma NetworkKeepsAddress(f: map<Name, Json>, host: string, port: nat)
    ensures var o := NetworkFromJson(f, host, port); o.Ok? ==> o.value.host == host && o.value.port == port
  {
    hide GetString, GetPort;
  }

  lemma DecoderFieldsIff(f: map<Name, Json>, d: DecoderConfig)
    ensures DecoderFromJson(f) == Ok(d) <==> DecoderFieldsRead(f, d)
  {
    StringIff(f, Decoder, "raw", d.decoder);
    SizeIff(f, FrameSize, 0, d.frameSize);
    DelimiterIff(f, d.delimiter);
    BoolIff(f, IncludeDelimiter, true, d.includeDelimiter);
    SizeIff(f, LengthSize, 2, d.lengthSize);
    StringIff(f, LengthEndian, "big", d.lengthEndian);
    BoolIff(f, LengthIncludesHeader, false, d.lengthIncludesHeader);
    hide GetString, StringIs, GetBool, BoolIs, SizeFromJson, SizeIs, DelimiterOf, DelimiterIs;
  }

  lemma DecoderIff(f: map<Name, Json>, d: DecoderConfig)
    ensures DecoderOf(f) == Ok(d) <==> DecoderReads(f, d)
  {
    hide DecoderFromJson, DecoderFieldsRead;
    if Given(f, Decoder) && f[Decoder].Obj? {
      DecoderFieldsIff(f[Decoder].fields, d);
    }
  }

  lemma OutputIff(f: map<Name, Json>, o: Output)
    ensures OutputFromJson(f) == Ok(o) <==> OutputReads(f, o)
  {
    hide GetString, GetBool, StringIs, BoolIs;
    StringIff(f, LogPath, "", o.logPath);
    BoolIff(f, HexRaw, false, o.hexRaw);
    BoolIff(f, HexFrame, false, o.hexFrame);
    BoolIff(f, LatencyFlag, true, o.latency);
  }

  /**
   Reading a configuration: these options come out exactly when every member reads as its option, members
   that are absent or null as their defaults.
   */
  lemma FromJsonIff(f: map<Name, Json>, o: CliOptions)
    ensures FromJson(Obj(f)) == Ok(o) <==> Reads(f, o)
  {
    StringIff(f, Mode, "", o.mode);
    NetworkIff(f, o.network);
    SerialIff(f, o.serial);
    OutputIff(f, o.output);
    DecoderIff(f, o.decoder);
    if GetString(f, Host, "").Ok? && GetPort(f, Port).Ok? {
      NetworkKeepsAddress(f, GetString(f, Host, "").value, GetPort(f, Port).value);
    }
    hide GetString, GetPort, StringIs, NetworkFromJson, NetworkReads, SerialFromJson, SerialReads;
    hide OutputFromJson, OutputReads, DecoderOf, DecoderReads;
  }

  /** An empty object asks for nothing but the defaults. */
  lemma EmptyReadsAsDefaults()
    ensures FromJson(Obj(map[])) == Ok(CliOptions("", Network("", 0, "", 0, "0.0.0.0", 0, "", 0),
              SerialOptions("", 115200, 8, 1, ParityNone, FlowNone), Output("", false, false, true),
              DecoderConfig("raw", 0, [], true, 2, "big", false), "", 0))
  {
    FromJsonIff(map[], CliOptions("", Network("", 0, "", 0, "0.0.0.0", 0, "", 0),
      SerialOptions("", 115200, 8, 1, ParityNone, FlowNone), Output("", false, false, true),
      DecoderConfig("raw", 0, [], true, 2, "big", false), "", 0));
    hide FromJson;
  }
}
