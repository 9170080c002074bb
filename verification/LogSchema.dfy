/** The schema of a log line: what stands under which name, and how single characters are escaped. */
module LogSchema {
  import opened Base
  import opened Decimal
  import opened Events
  import opened HexText
  import opened Jsonl
  import opened EventLine

  /** Under the name stands the value, if the member belongs there, and nothing otherwise. */
  predicate Says(d: Dict, name: string, present: bool, v: Value) {
    if present then name in d && d[name] == v else name !in d
  }

  lemma Finds(e: PacketEvent, f: Field)
    ensures Says(DictOf(e), FieldText(f), Present(e, f), FieldValue(e, f))
  {
    hide FieldText, FieldValue, FieldsOf, AsDict;
    FieldsRecovered(e, f);
    FieldIsPresent(e, f);
  }

  /** Every line: numbers of the event and its parents, and its time. */
  lemma HeadSays(e: PacketEvent)
    ensures var d := DictOf(e);
            && Says(d, "seq", true, Number(e.sequence))
            && Says(d, "parent_seq", true, Number(e.parentSequence))
            && Says(d, "parent_seqs", true, Numbers(e.parentSequences))
            && Says(d, "time_ns", true, Number(e.timestampNs))
  {
    hide DictOf, Says;
    Finds(e, Seq);
    Finds(e, ParentSeq);
    Finds(e, ParentSeqs);
    Finds(e, TimeNs);
  }

  function DirectionWord(d: Direction): string {
    match d
    case AppToDevice => "app_to_device"
    case DeviceToApp => "device_to_app"
    case Rx => "rx"
    case Tx => "tx"
  }

  /** Every line: the stream; an endpoint that is empty is left out. */
  lemma StreamSays(e: PacketEvent)
    ensures var d := DictOf(e);
            && Says(d, "session", true, Text(e.sessionId))
            && Says(d, "transport", true, Text(e.transport))
            && Says(d, "direction", true, Text(DirectionWord(e.direction)))
            && Says(d, "source", e.source != "", Text(e.source))
            && Says(d, "destination", e.destination != "", Text(e.destination))
  {
    hide DictOf, Says;
    Finds(e, Session);
    Finds(e, Transport);
    Finds(e, DirectionField);
    Finds(e, Source);
    Finds(e, Destination);
  }

  function TypeWord(t: EventType): string {
    match t
    case RawBytes => "raw_bytes"
    case FrameEvent => "frame"
    case DecodedMessage => "decoded_message"
    case Error => "error"
    case StateChange => "state_change"
    case Statistic => "statistic"
    case Latency => "latency"
  }

  /** Every line: type, number of bytes, the bytes in hexadecimal and the summary. */
  lemma ContentSays(e: PacketEvent)
    ensures var d := DictOf(e);
            && Says(d, "type", true, Text(TypeWord(e.kind)))
            && Says(d, "size", true, Number(|e.payload|))
            && Says(d, "payload_hex", true, Text(ToHex(e.payload, false)))
            && Says(d, "summary", true, Text(e.summary))
  {
    hide DictOf, Says, ToHex;
    Finds(e, Type);
    Finds(e, Size);
    Finds(e, PayloadHex);
    Finds(e, Summary);
  }

  /** Whole microseconds, towards zero. */
  predicate WholeMicroseconds(us: int, ns: int) {
    if ns >= 0 then 1000 * us <= ns < 1000 * (us + 1) else 1000 * (us - 1) < ns <= 1000 * us
  }

  /** The lines of latencies, and only those: both numbers, the time in two units, and both sizes. */
  lemma LatencySays(e: PacketEvent) returns (us: int)
    ensures WholeMicroseconds(us, e.latencyNs)
    ensures var d, there := DictOf(e), e.kind == Latency;
            && Says(d, "request_seq", there, Number(e.requestSequence))
            && Says(d, "response_seq", there, Number(e.responseSequence))
            && Says(d, "latency_ns", there, Number(e.latencyNs))
            && Says(d, "latency_us", there, Number(us))
            && Says(d, "request_size", there, Number(e.requestSize))
            && Says(d, "response_size", there, Number(e.responseSize))
  {
    hide DictOf, Says, TruncatedQuotient, WholeMicroseconds;
    us := TruncatedQuotient(e.latencyNs, 1000);
    Finds(e, RequestSeq);
    Finds(e, ResponseSeq);
    Finds(e, LatencyNs);
    Finds(e, LatencyUs);
    Finds(e, RequestSize);
    Finds(e, ResponseSize);
    Microseconds(e.latencyNs);
  }

  lemma Microseconds(ns: int)
    ensures WholeMicroseconds(TruncatedQuotient(ns, 1000), ns)
  {
  }

  lemma LastPair(p: bytes)
    requires p != []
    ensures var n := |p| - 1; ToHex(p, false) == ToHex(p[..n], false) + PairText(p[n])
    ensures |ToHex(p, false)| == 2 * |p|
  {
    PairsOfToHex(p);
    hide PairText;
  }

  lemma PairDenotes(b: byte)
    ensures Denotes(PairText(b)[0], b / 16) && Denotes(PairText(b)[1], b % 16)
    ensures !('a' <= PairText(b)[0] <= 'f') && !('a' <= PairText(b)[1] <= 'f')
  {
    DigitsDenote(HexDigit(b / 16), b / 16);
    DigitsDenote(HexDigit(b % 16), b % 16);
    hide Denotes, HexValue;
  }

  /** Printed bytes take two digits each, capital ones where they are letters. */
  lemma {:induction false} HexAt(p: bytes, i: nat)
    requires i < |p|
    ensures |ToHex(p, false)| == 2 * |p|
    ensures var a, b := ToHex(p, false)[2 * i], ToHex(p, false)[2 * i + 1];
            && Denotes(a, p[i] / 16) && Denotes(b, p[i] % 16)
            && !('a' <= a <= 'f') && !('a' <= b <= 'f')
  {
    hide *;
    LastPair(p);
    PairDenotes(p[i]);
    if i < |p| - 1 {
      HexAt(p[..|p| - 1], i);
    } else {
      PairsOfToHex(p[..i]);
    }
  }

  /** How a character is written: as it is, as a pair, or, where there is no pair for it, in six characters. */
  lemma EscapeForms(c: char)
    ensures c >= ' ' && c != '"' && c != '\\' ==> EscapeChar(c) == [c]
    ensures c == '"' || c == '\\' ==> EscapeChar(c) == ['\\', c]
    ensures c as int in {8, 9, 10, 12, 13} ==> |EscapeChar(c)| == 2 && EscapeChar(c)[0] == '\\'
    ensures c as int < 32 && c as int !in {8, 9, 10, 12, 13} ==>
              |EscapeChar(c)| == 6 && EscapeChar(c)[..4] == "\\u00"
  {
  }
}
