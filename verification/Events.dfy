/** `PacketEvent` and the key under which the pipeline files a stream. */
module Events {
  import opened Base

  datatype Direction = AppToDevice | DeviceToApp | Rx | Tx

  function DirectionText(d: Direction): string {
    match d
    case AppToDevice => "app_to_device"
    case DeviceToApp => "device_to_app"
    case Rx => "rx"
    case Tx => "tx"
  }

  datatype EventType = RawBytes | FrameEvent | DecodedMessage | Error | StateChange | Statistic | Latency

  function EventTypeText(t: EventType): string {
    match t
    case RawBytes => "raw_bytes"
    case FrameEvent => "frame"
    case DecodedMessage => "decoded_message"
    case Error => "error"
    case StateChange => "state_change"
    case Statistic => "statistic"
    case Latency => "latency"
  }

  datatype PacketEvent = PacketEvent(
    sequence: nat,
    parentSequence: nat,
    parentSequences: seq<nat>,
    timestampNs: int,
    sessionId: string,
    transport: string,
    direction: Direction,
    kind: EventType,
    source: string,
    destination: string,
    payload: bytes,
    summary: string,
    decodedJson: string,
    requestSequence: nat,
    responseSequence: nat,
    latencyNs: int,
    requestSize: nat,
    responseSize: nat)

  // ---------- Stream identity ----------

  datatype Stream = Stream(
    sessionId: string, transport: string, direction: Direction, source: string, destination: string)

  function StreamOf(e: PacketEvent): Stream {
    Stream(e.sessionId, e.transport, e.direction, e.source, e.destination)
  }

  function Key(s: Stream): string {
    s.sessionId + "|" + s.transport + "|" + DirectionText(s.direction) + "|" + s.source + "|" + s.destination
  }

  /** The key of `EventPipeline::stream_key`. */
  function StreamKey(e: PacketEvent): string {
    Key(StreamOf(e))
  }

  predicate Plain(s: string) {
    '|' !in s
  }

  /** The parts in front of the last separator contain no separator themselves. */
  predicate Separable(s: Stream) {
    Plain(s.sessionId) && Plain(s.transport) && Plain(s.source)
  }

  lemma SplitAtBar(x: string, u: string, y: string, v: string)
    requires Plain(x) && Plain(y)
    requires x + "|" + u == y + "|" + v
    ensures x == y && u == v
  {
    var s, t := x + "|" + u, y + "|" + v;
    assert s[|x|] == '|' && t[|y|] == '|';
    assert |x| == |y|;
    assert x == s[..|x|] && y == t[..|y|];
    assert u == s[|x| + 1..] && v == t[|y| + 1..];
  }

  function AfterSession(s: Stream): string {
    s.transport + "|" + AfterTransport(s)
  }

  function AfterTransport(s: Stream): string {
    DirectionText(s.direction) + "|" + (s.source + "|" + s.destination)
  }

  lemma KeyParts(s: Stream)
    ensures Key(s) == s.sessionId + "|" + AfterSession(s)
  {
    var d := DirectionText(s.direction);
    assert AfterSession(s) == s.transport + "|" + d + "|" + s.source + "|" + s.destination;
  }

  lemma DirectionTextInjective(a: Direction, b: Direction)
    ensures Plain(DirectionText(a))
    ensures DirectionText(a) == DirectionText(b) ==> a == b
  {
    var first := DirectionText(a)[0];
    assert first == 'a' || first == 'd' || first == 'r' || first == 't';
  }

  /** Streams whose session, transport and source hold no '|' never share a decoder. */
  lemma KeyInjective(a: Stream, b: Stream)
    requires Separable(a) && Separable(b)
    requires Key(a) == Key(b)
    ensures a == b
  {
    KeyParts(a);
    KeyParts(b);
    SplitAtBar(a.sessionId, AfterSession(a), b.sessionId, AfterSession(b));
    SplitAtBar(a.transport, AfterTransport(a), b.transport, AfterTransport(b));
    DirectionTextInjective(a.direction, b.direction);
    DirectionTextInjective(b.direction, a.direction);
    SplitAtBar(DirectionText(a.direction), a.source + "|" + a.destination,
               DirectionText(b.direction), b.source + "|" + b.destination);
    SplitAtBar(a.source, a.destination, b.source, b.destination);
  }

  function Bars(s: string): nat {
    if s == [] then 0 else (if s[0] == '|' then 1 else 0) + Bars(s[1..])
  }

  lemma {:induction false} BarsConcat(s: string, t: string)
    ensures Bars(s + t) == Bars(s) + Bars(t)
  {
    if s == [] {
      assert s + t == t;
    } else {
      assert (s + t)[1..] == s[1..] + t;
      BarsConcat(s[1..], t);
    }
  }

  lemma {:induction false} PlainIffNoBars(s: string)
    ensures Plain(s) <==> Bars(s) == 0
  {
    if s != [] {
      PlainIffNoBars(s[1..]);
      assert s == [s[0]] + s[1..];
    }
  }

  lemma BarsOfKey(s: Stream)
    ensures Bars(Key(s)) == 4 + Bars(s.sessionId) + Bars(s.transport) + Bars(s.source) + Bars(s.destination)
  {
    var d := DirectionText(s.direction);
    DirectionTextInjective(s.direction, s.direction);
    PlainIffNoBars(d);
    BarsConcat(s.sessionId, "|");
    BarsConcat(s.sessionId + "|", s.transport);
    BarsConcat(s.sessionId + "|" + s.transport, "|");
    BarsConcat(s.sessionId + "|" + s.transport + "|", d);
    BarsConcat(s.sessionId + "|" + s.transport + "|" + d, "|");
    BarsConcat(s.sessionId + "|" + s.transport + "|" + d + "|", s.source);
    BarsConcat(s.sessionId + "|" + s.transport + "|" + d + "|" + s.source, "|");
    BarsConcat(s.sessionId + "|" + s.transport + "|" + d + "|" + s.source + "|", s.destination);
  }

  predicate AllPlain(s: Stream) {
    Separable(s) && Plain(s.destination)
  }

  ghost predicate KeyIsUnique(s: Stream) {
    forall t :: Key(t) == Key(s) ==> t == s
  }

  /** A stream can be confused with no other stream exactly when none of its texts holds '|'. */
  lemma KeyUniqueIff(s: Stream)
    ensures KeyIsUnique(s) <==> AllPlain(s)
  {
    if AllPlain(s) {
      forall t | Key(t) == Key(s) ensures t == s {
        BarsOfKey(s);
        BarsOfKey(t);
        PlainIffNoBars(s.sessionId);
        PlainIffNoBars(s.transport);
        PlainIffNoBars(s.source);
        PlainIffNoBars(s.destination);
        PlainIffNoBars(t.sessionId);
        PlainIffNoBars(t.transport);
        PlainIffNoBars(t.source);
        KeyInjective(t, s);
      }
    } else {
      var t := Collision(s);
    }
  }

  /** Text around one of its bars. */
  lemma AroundBar(s: string) returns (before: string, after: string)
    requires !Plain(s)
    ensures s == before + "|" + after && |before| < |s|
  {
    var i :| 0 <= i < |s| && s[i] == '|';
    before, after := s[..i], s[i + 1..];
  }

  /** Moving one bar to the neighbouring part gives another stream with the same key. */
  lemma Collision(s: Stream) returns (t: Stream)
    requires !AllPlain(s)
    ensures Key(t) == Key(s) && t != s
  {
    var d := DirectionText(s.direction);
    if !Plain(s.sessionId) {
      var x, y := AroundBar(s.sessionId);
      t := s.(sessionId := x, transport := y + "|" + s.transport);
      assert x + "|" + (y + "|" + s.transport) == s.sessionId + "|" + s.transport;
    } else if !Plain(s.transport) {
      var x, y := AroundBar(s.transport);
      t := s.(sessionId := s.sessionId + "|" + x, transport := y);
      assert (s.sessionId + "|" + x) + "|" + y == s.sessionId + "|" + s.transport;
    } else if !Plain(s.source) {
      var x, y := AroundBar(s.source);
      t := s.(source := x, destination := y + "|" + s.destination);
      var head := s.sessionId + "|" + s.transport + "|" + d + "|";
      assert head + x + "|" + (y + "|" + s.destination) == head + s.source + "|" + s.destination;
    } else {
      var x, y := AroundBar(s.destination);
      t := s.(source := s.source + "|" + x, destination := y);
      var head := s.sessionId + "|" + s.transport + "|" + d + "|";
      assert head + (s.source + "|" + x) + "|" + y == head + s.source + "|" + s.destination;
    }
  }
}
