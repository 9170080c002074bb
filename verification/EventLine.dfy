/** The JSON line of an event, what a reader gets back from it, and the metadata line. */
module EventLine {
  import opened Base
  import opened Decimal
  import opened Events
  import opened HexText
  import opened Jsonl

  // ---------- Fields ----------

  datatype Field =
    | Seq | ParentSeq | ParentSeqs | TimeNs | Session | Transport | DirectionField | Source | Destination
    | Type | Size | PayloadHex | Summary
    | RequestSeq | ResponseSeq | LatencyNs | LatencyUs | RequestSize | ResponseSize

  function FieldText(f: Field): string {
    match f
    case Seq => "seq"
    case ParentSeq => "parent_seq"
    case ParentSeqs => "parent_seqs"
    case TimeNs => "time_ns"
    case Session => "session"
    case Transport => "transport"
    case DirectionField => "direction"
    case Source => "source"
    case Destination => "destination"
    case Type => "type"
    case Size => "size"
    case PayloadHex => "payload_hex"
    case Summary => "summary"
    case RequestSeq => "request_seq"
    case ResponseSeq => "response_seq"
    case LatencyNs => "latency_ns"
    case LatencyUs => "latency_us"
    case RequestSize => "request_size"
    case ResponseSize => "response_size"
  }

  function FieldValue(e: PacketEvent, f: Field): Value {
    match f
    case Seq => Number(e.sequence)
    case ParentSeq => Number(e.parentSequence)
    case ParentSeqs => Numbers(e.parentSequences)
    case TimeNs => Number(e.timestampNs)
    case Session => Text(e.sessionId)
    case Transport => Text(e.transport)
    case DirectionField => Text(DirectionText(e.direction))
    case Source => Text(e.source)
    case Destination => Text(e.destination)
    case Type => Text(EventTypeText(e.kind))
    case Size => Number(|e.payload|)
    case PayloadHex => Text(ToHex(e.payload, false))
    case Summary => Text(e.summary)
    case RequestSeq => Number(e.requestSequence)
    case ResponseSeq => Number(e.responseSequence)
    case LatencyNs => Number(e.latencyNs)
    case LatencyUs => Number(TruncatedQuotient(e.latencyNs, 1000))
    case RequestSize => Number(e.requestSize)
    case ResponseSize => Number(e.responseSize)
  }

  const HEAD_FIELDS := [Seq, ParentSeq, ParentSeqs, TimeNs]

  const STREAM_FIELDS := [Session, Transport, DirectionField]

  function StreamFields(e: PacketEvent): seq<Field> {
    STREAM_FIELDS
    + (if e.source != "" then [Source] else [])
    + (if e.destination != "" then [Destination] else [])
  }

  /** The fields of every event, in the order they are written; empty endpoints are left out. */
  function CommonFields(e: PacketEvent): seq<Field> {
    HEAD_FIELDS + StreamFields(e) + CONTENT_FIELDS
  }

  const CONTENT_FIELDS := [Type, Size, PayloadHex, Summary]

  const TIME_FIELDS := [RequestSeq, ResponseSeq, LatencyNs, LatencyUs]

  const LATENCY_FIELDS := TIME_FIELDS + [RequestSize, ResponseSize]

  function FieldsOf(e: PacketEvent): seq<Field> {
    CommonFields(e) + (if e.kind == Latency then LATENCY_FIELDS else [])
  }

  function Member(e: PacketEvent, f: Field): (string, Value) {
    (FieldText(f), FieldValue(e, f))
  }

  function Members(e: PacketEvent, fs: seq<Field>): (ms: Object)
    ensures |ms| == |fs|
    ensures forall i :: 0 <= i < |fs| ==> ms[i] == Member(e, fs[i])
  {
    seq(|fs|, i requires 0 <= i < |fs| => Member(e, fs[i]))
  }

  function DecodedPart(e: PacketEvent): string {
    if e.decodedJson == "" then "" else ",\"decoded\":" + e.decodedJson
  }

  function LatencyPart(e: PacketEvent): string {
    if e.kind == Latency then "," + MembersText(Members(e, LATENCY_FIELDS)) else ""
  }

  /** The line of an event: one object, with the decoder's own text spliced in where there is any. */
  function EventText(e: PacketEvent): string {
    "{" + MembersText(Members(e, CommonFields(e))) + DecodedPart(e) + LatencyPart(e) + "}"
  }

  // ---------- The printer ----------

  lemma {:induction false} NumbersSnoc(ns: seq<int>, n: int)
    ensures NumbersText(ns + [n]) == if ns == [] then IntText(n) else NumbersText(ns) + "," + IntText(n)
  {
    hide IntText;
    assert (ns + [n])[1..] == if ns == [] then [] else ns[1..] + [n];
    if |ns| == 1 {
      assert (ns + [n])[1..] == [n];
    } else if |ns| > 1 {
      NumbersSnoc(ns[1..], n);
      var head := IntText(ns[0]) + ",";
      assert head + (NumbersText(ns[1..]) + "," + IntText(n)) == head + NumbersText(ns[1..]) + "," + IntText(n);
    }
  }

  /** After `base` the line holds the named members, but for the closing quote when `open`. */
  predicate Holds(line: string, base: string, e: PacketEvent, fs: seq<Field>, open: bool) {
    fs != [] && line + (if open then "\"" else "") == base + MembersText(Members(e, fs))
  }

  lemma FieldSnoc(e: PacketEvent, fs: seq<Field>, f: Field)
    requires fs != []
    ensures MembersText(Members(e, fs + [f])) == MembersText(Members(e, fs)) + "," + MemberText(Member(e, f))
  {
    hide MemberText, Member;
    assert Members(e, fs + [f]) == Members(e, fs) + [Member(e, f)];
    MembersAppend(Members(e, fs), [Member(e, f)]);
  }

  lemma HoldsNext(line: string, base: string, e: PacketEvent, fs: seq<Field>, open: bool, f: Field,
                  lead: string, text: string)
    requires Holds(line, base, e, fs, open)
    requires lead == (if open then "\"" else "") + "," + ("\"" + FieldText(f) + "\":")
    requires text == ValueText(FieldValue(e, f))
    ensures Holds(line + lead + text, base, e, fs + [f], false)
  {
    hide MembersText, FieldText, FieldValue, ValueText;
    FieldSnoc(e, fs, f);
    var quote := if open then "\"" else "";
    var name := "\"" + FieldText(f) + "\":";
    assert MemberText(Member(e, f)) == name + text;
    assert line + lead + text == (line + quote) + "," + (name + text);
    var result := line + lead + text;
    assert result + "" == result;
    var body := MembersText(Members(e, fs));
    assert (base + body) + "," + (name + text) == base + (body + "," + (name + text));
  }

  /** A string value is written between quotes, the closing one with the next piece. */
  lemma HoldsNextText(line: string, base: string, e: PacketEvent, fs: seq<Field>, open: bool, f: Field,
                      lead: string, s: string)
    requires Holds(line, base, e, fs, open)
    requires lead == (if open then "\"" else "") + "," + ("\"" + FieldText(f) + "\":") + "\""
    requires FieldValue(e, f) == Text(s)
    ensures Holds(line + lead + Escape(s), base, e, fs + [f], true)
  {
    hide MembersText, FieldText, FieldValue, Escape;
    var bare := (if open then "\"" else "") + "," + ("\"" + FieldText(f) + "\":");
    var text := "\"" + Escape(s) + "\"";
    HoldsNext(line, base, e, fs, open, f, bare, text);
    assert line + bare + text + "" == line + lead + Escape(s) + "\"";
  }

  /** What the printer writes in front of a value; `seq` opens the line and has no such piece. */
  function Piece(f: Field): string {
    match f
    case Seq => ""
    case ParentSeq => ",\"parent_seq\":"
    case ParentSeqs => ",\"parent_seqs\":"
    case TimeNs => ",\"time_ns\":"
    case Session => ",\"session\":\""
    case Transport => "\",\"transport\":\""
    case DirectionField => "\",\"direction\":\""
    case Source => "\",\"source\":\""
    case Destination => "\",\"destination\":\""
    case Type => "\",\"type\":\""
    case Size => "\",\"size\":"
    case PayloadHex => ",\"payload_hex\":\""
    case Summary => "\",\"summary\":\""
    case RequestSeq => ",\"request_seq\":"
    case ResponseSeq => ",\"response_seq\":"
    case LatencyNs => ",\"latency_ns\":"
    case LatencyUs => ",\"latency_us\":"
    case RequestSize => ",\"request_size\":"
    case ResponseSize => ",\"response_size\":"
  }

  predicate OpenBefore(f: Field) {
    f.Transport? || f.DirectionField? || f.Source? || f.Destination? || f.Type? || f.Size? || f.Summary?
  }

  predicate QuotedAfter(f: Field) {
    f.Session? || f.Transport? || f.DirectionField? || f.Source? || f.Destination? || f.Type? || f.PayloadHex?
    || f.Summary?
  }

  /** A closing quote where one is owed, a comma, the name, and an opening quote for texts. */
  predicate PieceFits(f: Field) {
    var bare := (if OpenBefore(f) then "\"" else "") + "," + ("\"" + FieldText(f) + "\":");
    Piece(f) == if QuotedAfter(f) then bare + "\"" else bare
  }

  // One name at a time: comparing the texts is all there is to it.

  lemma ParentSeqPiece()
    ensures PieceFits(ParentSeq)
  {
  }

  lemma ParentSeqsPiece()
    ensures PieceFits(ParentSeqs)
  {
  }

  lemma TimeNsPiece()
    ensures PieceFits(TimeNs)
  {
  }

  lemma SessionPiece()
    ensures PieceFits(Session)
  {
  }

  lemma TransportPiece()
    ensures PieceFits(Transport)
  {
  }

  lemma DirectionPiece()
    ensures PieceFits(DirectionField)
  {
  }

  lemma SourcePiece()
    ensures PieceFits(Source)
  {
  }

  lemma DestinationPiece()
    ensures PieceFits(Destination)
  {
  }

  lemma TypePiece()
    ensures PieceFits(Type)
  {
  }

  lemma SizePiece()
    ensures PieceFits(Size)
  {
  }

  lemma PayloadHexPiece()
    ensures PieceFits(PayloadHex)
  {
  }

  lemma SummaryPiece()
    ensures PieceFits(Summary)
  {
  }

  lemma RequestSeqPiece()
    ensures PieceFits(RequestSeq)
  {
  }

  lemma ResponseSeqPiece()
    ensures PieceFits(ResponseSeq)
  {
  }

  lemma LatencyNsPiece()
    ensures PieceFits(LatencyNs)
  {
  }

  lemma LatencyUsPiece()
    ensures PieceFits(LatencyUs)
  {
  }

  lemma RequestSizePiece()
    ensures PieceFits(RequestSize)
  {
  }

  lemma ResponseSizePiece()
    ensures PieceFits(ResponseSize)
  {
  }

  lemma PiecesFit(f: Field)
    requires !f.Seq?
    ensures PieceFits(f)
  {
    hide PieceFits;
    match f
    case ParentSeq => ParentSeqPiece();
    case ParentSeqs => ParentSeqsPiece();
    case TimeNs => TimeNsPiece();
    case Session => SessionPiece();
    case Transport => TransportPiece();
    case DirectionField => DirectionPiece();
    case Source => SourcePiece();
    case Destination => DestinationPiece();
    case Type => TypePiece();
    case Size => SizePiece();
    case PayloadHex => PayloadHexPiece();
    case Summary => SummaryPiece();
    case RequestSeq => RequestSeqPiece();
    case ResponseSeq => ResponseSeqPiece();
    case LatencyNs => LatencyNsPiece();
    case LatencyUs => LatencyUsPiece();
    case RequestSize => RequestSizePiece();
    case ResponseSize => ResponseSizePiece();
  }

  lemma {:induction false} HexIsLiteral(p: bytes)
    ensures Literal(ToHex(p, false))
  {
    if p != [] {
      HexIsLiteral(p[..|p| - 1]);
    }
  }

  lemma PlainHex(p: bytes)
    ensures Escape(ToHex(p, false)) == ToHex(p, false)
  {
    HexIsLiteral(p);
    LiteralEscape(ToHex(p, false));
  }

  lemma PlainDirection(d: Direction)
    ensures Escape(DirectionText(d)) == DirectionText(d)
  {
    hide Escape;
    LiteralEscape(DirectionText(d));
  }

  lemma PlainType(t: EventType)
    ensures Escape(EventTypeText(t)) == EventTypeText(t)
  {
    hide Escape;
    LiteralEscape(EventTypeText(t));
  }

  lemma HoldsAll(line: string, base: string, e: PacketEvent, fs: seq<Field>)
    requires Holds(line, base, e, fs, false)
    ensures line == base + MembersText(Members(e, fs))
  {
    hide MembersText;
    assert line + "" == line;
  }

  lemma HoldsClosed(line: string, e: PacketEvent, fs: seq<Field>)
    requires Holds(line, "{", e, fs, true)
    ensures Holds(line + "\"", "{", e, fs, false)
  {
    hide MembersText;
    assert line + "\"" + "" == line + "\"";
  }

  /** One more number at the end of the line, after a comma unless it is the first. */
  lemma ParentsSnoc(line: string, parents: seq<nat>, i: nat, text: string)
    requires i < |parents| && text == line + NumbersText(parents[..i])
    ensures text + (if i > 0 then "," else "") + IntText(parents[i]) == line + NumbersText(parents[..i + 1])
  {
    NumbersSnoc(parents[..i], parents[i]);
    assert parents[..i] + [parents[i]] == parents[..i + 1];
    NoNumbers();
    hide IntText, NumbersText;
    var head, last := NumbersText(parents[..i]), IntText(parents[i]);
    if i > 0 {
      assert line + head + "," + last == line + (head + "," + last);
    } else {
      assert parents[..i] == [] && text + "" == line;
    }
  }

  lemma NoNumbers()
    ensures NumbersText([]) == ""
  {
  }

  method ParentsText(line: string, parents: seq<nat>) returns (result: string)
    ensures result == line + NumbersText(parents)
  {
    hide IntText, NumbersText;
    result := line;
    NoNumbers();
    assert parents[..0] == [] && line + "" == line;
    for i := 0 to |parents|
      invariant result == line + NumbersText(parents[..i])
    {
      ParentsSnoc(line, parents, i, result);
      if i > 0 {
        result := result + ",";
      } else {
        assert result + "" == result;
      }
      result := result + IntText(parents[i]);
    }
    assert parents[..|parents|] == parents;
  }

  method SerializeHead(e: PacketEvent) returns (line: string)
    ensures Holds(line, "{", e, HEAD_FIELDS, false)
  {
    hide IntText, NumbersText, MembersText, Holds;
    line := "{\"seq\":" + IntText(e.sequence);
    ghost var fs := [Seq];
    HoldsFirst("", "{", e, Seq, "{\"seq\":", IntText(e.sequence));
    assert "" + "{\"seq\":" == "{\"seq\":";
    PiecesFit(ParentSeq);
    HoldsNext(line, "{", e, fs, false, ParentSeq, ",\"parent_seq\":", IntText(e.parentSequence));
    line := line + ",\"parent_seq\":";
    line := line + IntText(e.parentSequence);
    fs := fs + [ParentSeq];
    HoldsParents(line, "{", e, fs);
    line := ParentsText(line + ",\"parent_seqs\":[", e.parentSequences);
    line := line + "]";
    fs := fs + [ParentSeqs];
    PiecesFit(TimeNs);
    HoldsNext(line, "{", e, fs, false, TimeNs, ",\"time_ns\":", IntText(e.timestampNs));
    line := line + ",\"time_ns\":";
    line := line + IntText(e.timestampNs);
    assert fs + [TimeNs] == HEAD_FIELDS;
  }

  lemma HoldsParents(line: string, base: string, e: PacketEvent, fs: seq<Field>)
    requires Holds(line, base, e, fs, false)
    ensures Holds(line + ",\"parent_seqs\":[" + NumbersText(e.parentSequences) + "]", base, e, fs + [ParentSeqs], false)
  {
    hide NumbersText, MembersText, Holds;
    var numbers := NumbersText(e.parentSequences);
    PiecesFit(ParentSeqs);
    HoldsNext(line, base, e, fs, false, ParentSeqs, ",\"parent_seqs\":", "[" + numbers + "]");
    assert ",\"parent_seqs\":" + "[" == ",\"parent_seqs\":[";
    OpenBracket(line, ",\"parent_seqs\":", numbers);
  }

  lemma OpenBracket(line: string, lead: string, numbers: string)
    ensures line + lead + ("[" + numbers + "]") == line + (lead + "[") + numbers + "]"
  {
  }

  lemma HoldsFirst(line: string, base: string, e: PacketEvent, f: Field, lead: string, text: string)
    requires line + lead == base + ("\"" + FieldText(f) + "\":")
    requires text == ValueText(FieldValue(e, f))
    ensures Holds(line + lead + text, base, e, [f], false)
  {
    hide FieldText, FieldValue, ValueText;
    var name := "\"" + FieldText(f) + "\":";
    assert Members(e, [f]) == [Member(e, f)];
    assert MemberText(Member(e, f)) == name + text;
    assert line + lead + text + "" == base + (name + text);
  }

  method SerializeStream(head: string, e: PacketEvent) returns (line: string)
    requires Holds(head, "{", e, HEAD_FIELDS, false)
    ensures Holds(line, "{", e, HEAD_FIELDS + STREAM_FIELDS, true)
  {
    hide Escape, MembersText, Holds, DirectionText;
    line := head;
    ghost var fs := HEAD_FIELDS;
    PiecesFit(Session);
    HoldsNextText(line, "{", e, fs, false, Session, ",\"session\":\"", e.sessionId);
    line := line + ",\"session\":\"";
    line := line + Escape(e.sessionId);
    fs := fs + [Session];
    PiecesFit(Transport);
    HoldsNextText(line, "{", e, fs, true, Transport, "\",\"transport\":\"", e.transport);
    line := line + "\",\"transport\":\"";
    line := line + Escape(e.transport);
    fs := fs + [Transport];
    PlainDirection(e.direction);
    PiecesFit(DirectionField);
    HoldsNextText(line, "{", e, fs, true, DirectionField, "\",\"direction\":\"", DirectionText(e.direction));
    line := line + "\",\"direction\":\"";
    line := line + DirectionText(e.direction);
    assert fs + [DirectionField] == HEAD_FIELDS + STREAM_FIELDS;
  }

  method SerializeEndpoints(head: string, e: PacketEvent) returns (line: string)
    requires Holds(head, "{", e, HEAD_FIELDS + STREAM_FIELDS, true)
    ensures Holds(line, "{", e, HEAD_FIELDS + StreamFields(e), true)
  {
    hide Escape, MembersText, Holds;
    line := head;
    ghost var fs := HEAD_FIELDS + STREAM_FIELDS;
    if e.source != "" {
      PiecesFit(Source);
      HoldsNextText(line, "{", e, fs, true, Source, "\",\"source\":\"", e.source);
      line := line + "\",\"source\":\"";
      line := line + Escape(e.source);
      fs := fs + [Source];
    }
    if e.destination != "" {
      PiecesFit(Destination);
      HoldsNextText(line, "{", e, fs, true, Destination, "\",\"destination\":\"", e.destination);
      line := line + "\",\"destination\":\"";
      line := line + Escape(e.destination);
      fs := fs + [Destination];
    }
    assert fs == HEAD_FIELDS + StreamFields(e);
  }

  method SerializeKind(head: string, e: PacketEvent) returns (line: string)
    requires Holds(head, "{", e, HEAD_FIELDS + StreamFields(e), true)
    ensures Holds(line, "{", e, HEAD_FIELDS + StreamFields(e) + [Type, Size], false)
  {
    hide Escape, ToHex, IntText, MembersText, StreamFields;
    line := head;
    ghost var fs := HEAD_FIELDS + StreamFields(e);
    PlainType(e.kind);
    PiecesFit(Type);
    HoldsNextText(line, "{", e, fs, true, Type, "\",\"type\":\"", EventTypeText(e.kind));
    line := line + "\",\"type\":\"";
    line := line + EventTypeText(e.kind);
    fs := fs + [Type];
    PiecesFit(Size);
    HoldsNext(line, "{", e, fs, true, Size, "\",\"size\":", IntText(|e.payload|));
    line := line + "\",\"size\":";
    line := line + IntText(|e.payload|);
    fs := fs + [Size];
    assert fs == HEAD_FIELDS + StreamFields(e) + [Type, Size];
  }

  method SerializeContents(head: string, e: PacketEvent) returns (line: string)
    requires Holds(head, "{", e, HEAD_FIELDS + StreamFields(e) + [Type, Size], false)
    ensures Holds(line, "{", e, CommonFields(e), false)
  {
    hide Escape, ToHex, MembersText, StreamFields, Holds;
    line := head;
    ghost var fs := HEAD_FIELDS + StreamFields(e) + [Type, Size];
    PlainHex(e.payload);
    PiecesFit(PayloadHex);
    HoldsNextText(line, "{", e, fs, false, PayloadHex, ",\"payload_hex\":\"", ToHex(e.payload, false));
    line := line + ",\"payload_hex\":\"";
    line := line + ToHex(e.payload, false);
    fs := fs + [PayloadHex];
    PiecesFit(Summary);
    HoldsNextText(line, "{", e, fs, true, Summary, "\",\"summary\":\"", e.summary);
    line := line + "\",\"summary\":\"";
    line := line + Escape(e.summary);
    fs := fs + [Summary];
    HoldsClosed(line, e, fs);
    line := line + "\"";
    assert fs == CommonFields(e);
  }

  method SerializeSequences(head: string, e: PacketEvent) returns (line: string)
    ensures Holds(line, head + ",", e, [RequestSeq, ResponseSeq], false)
  {
    hide IntText, MembersText, Holds;
    ghost var base, fs := head + ",", [RequestSeq];
    PiecesFit(RequestSeq);
    HoldsFirst(head, base, e, RequestSeq, ",\"request_seq\":", IntText(e.requestSequence));
    line := head + ",\"request_seq\":";
    line := line + IntText(e.requestSequence);
    PiecesFit(ResponseSeq);
    HoldsNext(line, base, e, fs, false, ResponseSeq, ",\"response_seq\":", IntText(e.responseSequence));
    line := line + ",\"response_seq\":";
    line := line + IntText(e.responseSequence);
    fs := fs + [ResponseSeq];
    assert fs == [RequestSeq, ResponseSeq];
  }

  method SerializeTimes(head: string, ghost base: string, e: PacketEvent) returns (line: string)
    requires Holds(head, base, e, [RequestSeq, ResponseSeq], false)
    ensures Holds(line, base, e, TIME_FIELDS, false)
  {
    hide IntText, MembersText, Holds, TruncatedQuotient;
    line := head;
    ghost var fs := [RequestSeq, ResponseSeq];
    PiecesFit(LatencyNs);
    HoldsNext(line, base, e, fs, false, LatencyNs, ",\"latency_ns\":", IntText(e.latencyNs));
    line := line + ",\"latency_ns\":";
    line := line + IntText(e.latencyNs);
    fs := fs + [LatencyNs];
    PiecesFit(LatencyUs);
    HoldsNext(line, base, e, fs, false, LatencyUs, ",\"latency_us\":", IntText(TruncatedQuotient(e.latencyNs, 1000)));
    line := line + ",\"latency_us\":";
    line := line + IntText(TruncatedQuotient(e.latencyNs, 1000));
    fs := fs + [LatencyUs];
    assert fs == TIME_FIELDS;
  }

  method SerializeSizes(head: string, ghost base: string, e: PacketEvent) returns (line: string)
    requires Holds(head, base, e, TIME_FIELDS, false)
    ensures line == base + MembersText(Members(e, LATENCY_FIELDS))
  {
    hide IntText, MembersText, Holds;
    line := head;
    ghost var fs := TIME_FIELDS;
    PiecesFit(RequestSize);
    HoldsNext(line, base, e, fs, false, RequestSize, ",\"request_size\":", IntText(e.requestSize));
    line := line + ",\"request_size\":";
    line := line + IntText(e.requestSize);
    fs := fs + [RequestSize];
    PiecesFit(ResponseSize);
    HoldsNext(line, base, e, fs, false, ResponseSize, ",\"response_size\":", IntText(e.responseSize));
    line := line + ",\"response_size\":";
    line := line + IntText(e.responseSize);
    fs := fs + [ResponseSize];
    assert fs == LATENCY_FIELDS;
    HoldsAll(line, base, e, fs);
  }

  method SerializeEventJsonl(e: PacketEvent) returns (line: string)
    ensures line == EventText(e)
  {
    hide MembersText, CommonFields, Holds;
    line := SerializeHead(e);
    line := SerializeStream(line, e);
    line := SerializeEndpoints(line, e);
    line := SerializeKind(line, e);
    line := SerializeContents(line, e);
    HoldsAll(line, "{", e, CommonFields(e));
    if e.decodedJson != "" {
      line := line + ",\"decoded\":";
      line := line + e.decodedJson;
    }
    if e.kind == Latency {
      ghost var base := line + ",";
      line := SerializeSequences(line, e);
      line := SerializeTimes(line, base, e);
      line := SerializeSizes(line, base, e);
    }
    line := line + "}";
  }

  // ---------- Reading a line back ----------

  /** Without decoder text the line is the object of the event's fields. */
  lemma EventTextIsObject(e: PacketEvent)
    requires e.decodedJson == ""
    ensures EventText(e) == ObjectText(Members(e, FieldsOf(e)))
  {
    hide MembersText, CommonFields, Member;
    var common := CommonFields(e);
    assert common != [] by {
      CommonFieldsAreMany(e);
    }
    var text := MembersText(Members(e, common));
    assert "{" + text + "" == "{" + text;
    if e.kind == Latency {
      assert Members(e, common + LATENCY_FIELDS) == Members(e, common) + Members(e, LATENCY_FIELDS);
      MembersAppend(Members(e, common), Members(e, LATENCY_FIELDS));
      var more := MembersText(Members(e, LATENCY_FIELDS));
      assert "{" + text + ("," + more) + "}" == "{" + (text + "," + more) + "}";
    } else {
      assert common + [] == common;
      assert "{" + text + "" + "}" == "{" + text + "}";
    }
  }

  lemma CommonFieldsAreMany(e: PacketEvent)
    ensures CommonFields(e) != []
  {
  }

  /** Length, first character and last two characters tell the names apart. */
  function Signature(f: Field): (nat, char, char, char) {
    match f
    case Seq => (3, 's', 'e', 'q')
    case ParentSeq => (10, 'p', 'e', 'q')
    case ParentSeqs => (11, 'p', 'q', 's')
    case TimeNs => (7, 't', 'n', 's')
    case Session => (7, 's', 'o', 'n')
    case Transport => (9, 't', 'r', 't')
    case DirectionField => (9, 'd', 'o', 'n')
    case Source => (6, 's', 'c', 'e')
    case Destination => (11, 'd', 'o', 'n')
    case Type => (4, 't', 'p', 'e')
    case Size => (4, 's', 'z', 'e')
    case PayloadHex => (11, 'p', 'e', 'x')
    case Summary => (7, 's', 'r', 'y')
    case RequestSeq => (11, 'r', 'e', 'q')
    case ResponseSeq => (12, 'r', 'e', 'q')
    case LatencyNs => (10, 'l', 'n', 's')
    case LatencyUs => (10, 'l', 'u', 's')
    case RequestSize => (12, 'r', 'z', 'e')
    case ResponseSize => (13, 'r', 'z', 'e')
  }

  lemma SignatureOfText(f: Field)
    ensures var s, g := FieldText(f), Signature(f);
            |s| == g.0 >= 2 && s[0] == g.1 && s[|s| - 2] == g.2 && s[|s| - 1] == g.3
  {
  }

  lemma FieldTextInjective(f: Field, g: Field)
    ensures FieldText(f) == FieldText(g) ==> f == g
  {
    hide FieldText;
    SignatureOfText(f);
    SignatureOfText(g);
  }

  lemma NamesAreLiteral(e: PacketEvent, fs: seq<Field>)
    ensures LiteralKeys(Members(e, fs))
  {
    hide FieldValue;
    forall i | 0 <= i < |fs| ensures Literal(Members(e, fs)[i].0) {
      NameIsLiteral(fs[i]);
    }
  }

  lemma NameIsLiteral(f: Field)
    ensures Literal(FieldText(f))
  {
    hide Literal;
    if f in HEAD_FIELDS {
      HeadNameIsLiteral(f);
    } else if f in STREAM_FIELDS {
      StreamNameIsLiteral(f);
    } else if AboutLatency(f) {
      LatencyNameIsLiteral(f);
    } else {
      ContentNameIsLiteral(f);
    }
  }

  lemma HeadNameIsLiteral(f: Field)
    requires f.Seq? || f.ParentSeq? || f.ParentSeqs? || f.TimeNs?
    ensures Literal(FieldText(f))
  {
  }

  lemma StreamNameIsLiteral(f: Field)
    requires f.Session? || f.Transport? || f.DirectionField?
    ensures Literal(FieldText(f))
  {
  }

  lemma LatencyNameIsLiteral(f: Field)
    requires AboutLatency(f)
    ensures Literal(FieldText(f))
  {
    if f in TIME_FIELDS {
      TimeNameIsLiteral(f);
    } else {
      SizeNameIsLiteral(f);
    }
    hide Literal, FieldText;
  }

  lemma TimeNameIsLiteral(f: Field)
    requires f.RequestSeq? || f.ResponseSeq? || f.LatencyNs? || f.LatencyUs?
    ensures Literal(FieldText(f))
  {
  }

  lemma SizeNameIsLiteral(f: Field)
    requires f.RequestSize? || f.ResponseSize?
    ensures Literal(FieldText(f))
  {
  }

  lemma ContentNameIsLiteral(f: Field)
    requires f.Source? || f.Destination? || f.Type? || f.Size? || f.PayloadHex? || f.Summary?
    ensures Literal(FieldText(f))
  {
  }

  predicate Distinct(fs: seq<Field>) {
    forall i, j :: 0 <= i < j < |fs| ==> fs[i] != fs[j]
  }

  predicate AboutLatency(f: Field) {
    f in LATENCY_FIELDS
  }

  /** The stretch of the line a field belongs to. */
  function Stretch(f: Field): nat {
    if f.Seq? || f.ParentSeq? || f.ParentSeqs? || f.TimeNs? then 0
    else if f.Session? || f.Transport? || f.DirectionField? || f.Source? || f.Destination? then 1
    else if f.Type? || f.Size? || f.PayloadHex? || f.Summary? then 2
    else 3
  }

  predicate Within(fs: seq<Field>, lo: nat, hi: nat) {
    forall i :: 0 <= i < |fs| ==> lo <= Stretch(fs[i]) < hi
  }

  lemma StreamFieldsAreDistinct(e: PacketEvent)
    ensures Distinct(StreamFields(e)) && Within(StreamFields(e), 1, 2)
  {
  }

  lemma OtherFieldsAreDistinct()
    ensures Distinct(HEAD_FIELDS) && Within(HEAD_FIELDS, 0, 1)
    ensures Distinct(CONTENT_FIELDS) && Within(CONTENT_FIELDS, 2, 3)
  {
  }

  lemma LatencyFieldsAreDistinct()
    ensures Distinct(LATENCY_FIELDS) && Within(LATENCY_FIELDS, 3, 4)
  {
  }

  lemma DistinctConcat(a: seq<Field>, b: seq<Field>, lo: nat, mid: nat, hi: nat)
    requires lo <= mid <= hi && Distinct(a) && Within(a, lo, mid) && Distinct(b) && Within(b, mid, hi)
    ensures Distinct(a + b) && Within(a + b, lo, hi)
  {
    hide Stretch;
    var c := a + b;
    forall i, j | 0 <= i < j < |c| ensures c[i] != c[j] {
      if i < |a| <= j {
        assert Stretch(a[i]) < Stretch(b[j - |a|]);
      }
    }
  }

  lemma FieldsAreDistinct(e: PacketEvent)
    ensures Distinct(FieldsOf(e))
  {
    StreamFieldsAreDistinct(e);
    OtherFieldsAreDistinct();
    LatencyFieldsAreDistinct();
    hide StreamFields, Distinct, Within;
    DistinctConcat(HEAD_FIELDS, StreamFields(e), 0, 1, 2);
    DistinctConcat(HEAD_FIELDS + StreamFields(e), CONTENT_FIELDS, 0, 2, 3);
    if e.kind == Latency {
      DistinctConcat(CommonFields(e), LATENCY_FIELDS, 0, 3, 4);
    } else {
      assert CommonFields(e) + [] == CommonFields(e);
    }
  }

  /** What a reader of the line finds under each name. */
  lemma FieldsRecovered(e: PacketEvent, f: Field)
    ensures var d := AsDict(Members(e, FieldsOf(e)));
            (FieldText(f) in d <==> f in FieldsOf(e))
            && (f in FieldsOf(e) ==> d[FieldText(f)] == FieldValue(e, f))
  {
    hide FieldText, FieldValue, FieldsOf, AsDict;
    var fs := FieldsOf(e);
    var ms := Members(e, fs);
    FieldsAreDistinct(e);
    forall i, j | 0 <= i < j < |ms| ensures ms[i].0 != ms[j].0 {
      FieldTextInjective(fs[i], fs[j]);
    }
    if f in fs {
      var i :| 0 <= i < |fs| && fs[i] == f;
      DictLookup(ms, i);
    } else if FieldText(f) in AsDict(ms) {
      DictKeys(ms, FieldText(f));
      var i :| 0 <= i < |ms| && ms[i].0 == FieldText(f);
      FieldTextInjective(f, fs[i]);
      assert false;
    }
  }

  function NumberAt(d: Dict, f: Field): int {
    if FieldText(f) in d && d[FieldText(f)].Number? then d[FieldText(f)].n else 0
  }

  function CountAt(d: Dict, f: Field): nat {
    if NumberAt(d, f) >= 0 then NumberAt(d, f) else 0
  }

  function TextAt(d: Dict, f: Field): string {
    if FieldText(f) in d && d[FieldText(f)].Text? then d[FieldText(f)].s else ""
  }

  function ParentsAt(d: Dict): seq<nat> {
    var key := FieldText(ParentSeqs);
    if key in d && d[key].Numbers? && (forall i :: 0 <= i < |d[key].ns| ==> d[key].ns[i] >= 0) then d[key].ns else []
  }

  function DirectionNamed(s: string): Option<Direction> {
    if s == "app_to_device" then Some(AppToDevice)
    else if s == "device_to_app" then Some(DeviceToApp)
    else if s == "rx" then Some(Rx)
    else if s == "tx" then Some(Tx)
    else None
  }

  function TypeNamed(s: string): Option<EventType> {
    if s == "raw_bytes" then Some(RawBytes)
    else if s == "frame" then Some(FrameEvent)
    else if s == "decoded_message" then Some(DecodedMessage)
    else if s == "error" then Some(Error)
    else if s == "state_change" then Some(StateChange)
    else if s == "statistic" then Some(Statistic)
    else if s == "latency" then Some(Latency)
    else None
  }

  /** The event a dictionary describes; a missing name reads as zero or as the empty text. */
  function EventOf(d: Dict): Option<PacketEvent> {
    var direction := DirectionNamed(TextAt(d, DirectionField));
    var kind := TypeNamed(TextAt(d, Type));
    var payload := ParseHexPayload(TextAt(d, PayloadHex));
    if direction.None? || kind.None? || !payload.Bytes? then None
    else
      Some(PacketEvent(
        CountAt(d, Seq), CountAt(d, ParentSeq), ParentsAt(d), NumberAt(d, TimeNs),
        TextAt(d, Session), TextAt(d, Transport), direction.value, kind.value,
        TextAt(d, Source), TextAt(d, Destination), payload.payload, TextAt(d, Summary), "",
        CountAt(d, RequestSeq), CountAt(d, ResponseSeq), NumberAt(d, LatencyNs),
        CountAt(d, RequestSize), CountAt(d, ResponseSize)))
  }

  /** What a line keeps of an event: its latency part only when it is a latency event. */
  function Logged(e: PacketEvent): PacketEvent {
    if e.kind == Latency then e
    else
      e.(requestSequence := 0, responseSequence := 0, latencyNs := 0, requestSize := 0, responseSize := 0)
  }

  function DictOf(e: PacketEvent): Dict {
    AsDict(Members(e, FieldsOf(e)))
  }

  lemma NumbersRecovered(e: PacketEvent, f: Field)
    requires FieldValue(e, f).Number?
    ensures NumberAt(DictOf(e), f) == if f in FieldsOf(e) then FieldValue(e, f).n else 0
  {
    hide FieldText, FieldValue, FieldsOf, AsDict;
    FieldsRecovered(e, f);
  }

  lemma TextsRecovered(e: PacketEvent, f: Field)
    requires FieldValue(e, f).Text?
    ensures TextAt(DictOf(e), f) == if f in FieldsOf(e) then FieldValue(e, f).s else ""
  {
    hide FieldText, FieldValue, FieldsOf, AsDict;
    FieldsRecovered(e, f);
  }

  lemma ParentsRecovered(e: PacketEvent)
    ensures ParentsAt(DictOf(e)) == e.parentSequences
  {
    hide FieldText, AsDict;
    FieldsRecovered(e, ParentSeqs);
    assert ParentSeqs in FieldsOf(e);
  }

  lemma NamesRecovered(e: PacketEvent)
    ensures DirectionNamed(DirectionText(e.direction)) == Some(e.direction)
    ensures TypeNamed(EventTypeText(e.kind)) == Some(e.kind)
  {
  }

  predicate Present(e: PacketEvent, f: Field) {
    match f
    case Source => e.source != ""
    case Destination => e.destination != ""
    case RequestSeq | ResponseSeq | LatencyNs | LatencyUs | RequestSize | ResponseSize => e.kind == Latency
    case _ => true
  }

  lemma StreamFieldIsPresent(e: PacketEvent, f: Field)
    ensures f in StreamFields(e) <==>
            f in STREAM_FIELDS || (f.Source? && e.source != "") || (f.Destination? && e.destination != "")
  {
  }

  lemma FieldIsPresent(e: PacketEvent, f: Field)
    ensures f in FieldsOf(e) <==> Present(e, f)
  {
    StreamFieldIsPresent(e, f);
    hide StreamFields;
    assert f in FieldsOf(e) <==>
             f in HEAD_FIELDS || f in StreamFields(e) || f in CONTENT_FIELDS
             || (e.kind == Latency && f in LATENCY_FIELDS);
  }

  lemma CoreRecovered(e: PacketEvent)
    ensures var d := DictOf(e);
            && CountAt(d, Seq) == e.sequence && CountAt(d, ParentSeq) == e.parentSequence
            && NumberAt(d, TimeNs) == e.timestampNs
            && TextAt(d, Session) == e.sessionId && TextAt(d, Transport) == e.transport
            && TextAt(d, Source) == e.source && TextAt(d, Destination) == e.destination
            && TextAt(d, Summary) == e.summary
  {
    hide DictOf, NumberAt, TextAt, FieldsOf;
    forall f: Field ensures f in FieldsOf(e) <==> Present(e, f) {
      FieldIsPresent(e, f);
    }
    NumbersRecovered(e, Seq);
    NumbersRecovered(e, ParentSeq);
    NumbersRecovered(e, TimeNs);
    TextsRecovered(e, Session);
    TextsRecovered(e, Transport);
    TextsRecovered(e, Source);
    TextsRecovered(e, Destination);
    TextsRecovered(e, Summary);
  }

  lemma LatencyRecovered(e: PacketEvent)
    ensures var d := DictOf(e);
            && CountAt(d, RequestSeq) == Logged(e).requestSequence
            && CountAt(d, ResponseSeq) == Logged(e).responseSequence
            && NumberAt(d, LatencyNs) == Logged(e).latencyNs
            && CountAt(d, RequestSize) == Logged(e).requestSize
            && CountAt(d, ResponseSize) == Logged(e).responseSize
  {
    hide DictOf, NumberAt, FieldsOf;
    forall f: Field ensures f in FieldsOf(e) <==> Present(e, f) {
      FieldIsPresent(e, f);
    }
    NumbersRecovered(e, RequestSeq);
    NumbersRecovered(e, ResponseSeq);
    NumbersRecovered(e, LatencyNs);
    NumbersRecovered(e, RequestSize);
    NumbersRecovered(e, ResponseSize);
  }

  lemma NamedRecovered(e: PacketEvent)
    ensures var d := DictOf(e);
            && DirectionNamed(TextAt(d, DirectionField)) == Some(e.direction)
            && TypeNamed(TextAt(d, Type)) == Some(e.kind)
            && ParseHexPayload(TextAt(d, PayloadHex)) == Bytes(e.payload)
  {
    hide DictOf, TextAt, FieldsOf, DirectionNamed, TypeNamed, DirectionText, EventTypeText, ParseHexPayload, ToHex;
    FieldIsPresent(e, DirectionField);
    FieldIsPresent(e, Type);
    FieldIsPresent(e, PayloadHex);
    TextsRecovered(e, DirectionField);
    TextsRecovered(e, Type);
    TextsRecovered(e, PayloadHex);
    NamesRecovered(e);
    HexRoundTrip(e.payload, false);
  }

  lemma EventReads(e: PacketEvent)
    requires e.decodedJson == ""
    ensures var ms := ReadObject(EventText(e));
            ms.Some? && AsDict(ms.value) == DictOf(e)
  {
    hide EventText, FieldsOf, Member, ReadObject, ObjectText, AsDict;
    EventTextIsObject(e);
    FieldIsPresent(e, Seq);
    NamesAreLiteral(e, FieldsOf(e));
    ObjectRoundTrip(Members(e, FieldsOf(e)));
  }

  lemma DictRecovered(e: PacketEvent)
    requires e.decodedJson == ""
    ensures EventOf(DictOf(e)) == Some(Logged(e))
  {
    hide DictOf, NumberAt, TextAt, ParentsAt, DirectionNamed, TypeNamed, ParseHexPayload;
    CoreRecovered(e);
    LatencyRecovered(e);
    NamedRecovered(e);
    ParentsRecovered(e);
  }

  /** A line reads back as one object, from which every field that was written is recovered. */
  lemma EventRoundTrip(e: PacketEvent)
    requires e.decodedJson == ""
    ensures var ms := ReadObject(EventText(e));
            ms.Some? && EventOf(AsDict(ms.value)) == Some(Logged(e))
  {
    hide EventText, EventOf, DictOf, ReadObject, AsDict;
    EventReads(e);
    DictRecovered(e);
  }

  /** Two events with the same line agree on all that lines keep. */
  lemma EventTextInjective(a: PacketEvent, b: PacketEvent)
    requires a.decodedJson == "" && b.decodedJson == ""
    requires EventText(a) == EventText(b)
    ensures Logged(a) == Logged(b)
  {
    hide EventText, EventOf, AsDict, ReadObject, Logged;
    EventRoundTrip(a);
    EventRoundTrip(b);
  }

  // ---------- Metadata ----------

  const LOG_SCHEMA := "packet-probe.log.v1"
  const EVENT_SCHEMA := "packet-probe.event.v1"
  const VERSION := "0.1.0"

  function Metadata(logSchema: string, eventSchema: string, version: string): Object {
    [("type", Text("metadata")), ("schema", Text(logSchema)), ("event_schema", Text(eventSchema)),
     ("tool", Text("packet-probe")), ("version", Text(version))]
  }

  const METADATA := Metadata(LOG_SCHEMA, EVENT_SCHEMA, VERSION)

  lemma TextMember(name: string, s: string)
    requires Literal(s)
    ensures MemberText((name, Text(s))) == "\"" + name + "\":\"" + s + "\""
  {
    hide Escape;
    LiteralEscape(s);
    assert "\"" + name + "\":" + ("\"" + s + "\"") == "\"" + name + "\":\"" + s + "\"";
  }

  lemma TypeMember()
    ensures MemberText(("type", Text("metadata"))) == "\"type\":\"metadata\""
  {
    hide MemberText;
    TextMember("type", "metadata");
  }

  lemma SchemaMember(s: string)
    requires Literal(s)
    ensures MemberText(("schema", Text(s))) == "\"schema\":\"" + s + "\""
  {
    hide MemberText;
    TextMember("schema", s);
    assert "\"" + "schema" + "\":\"" == "\"schema\":\"";
  }

  lemma EventSchemaMember(s: string)
    requires Literal(s)
    ensures MemberText(("event_schema", Text(s))) == "\"event_schema\":\"" + s + "\""
  {
    hide MemberText;
    TextMember("event_schema", s);
    assert "\"" + "event_schema" + "\":\"" == "\"event_schema\":\"";
  }

  lemma FrontMembers(logSchema: string, eventSchema: string)
    ensures "\"type\":\"metadata\"" + ","
            + ("\"schema\":\"" + logSchema + "\"" + "," + ("\"event_schema\":\"" + eventSchema + "\""))
         == "\"type\":\"metadata\",\"schema\":\"" + logSchema + "\",\"event_schema\":\"" + eventSchema + "\""
  {
  }

  lemma BackMembers(version: string)
    ensures "\"tool\":\"packet-probe\"" + "," + ("\"version\":\"" + version + "\"")
         == "\"tool\":\"packet-probe\",\"version\":\"" + version + "\""
  {
  }

  lemma FrontText(logSchema: string, eventSchema: string)
    requires Literal(logSchema) && Literal(eventSchema)
    ensures MembersText([("type", Text("metadata")), ("schema", Text(logSchema)), ("event_schema", Text(eventSchema))])
         == "\"type\":\"metadata\",\"schema\":\"" + logSchema + "\",\"event_schema\":\"" + eventSchema + "\""
  {
    hide MemberText;
    var a, b, c := ("type", Text("metadata")), ("schema", Text(logSchema)), ("event_schema", Text(eventSchema));
    TypeMember();
    SchemaMember(logSchema);
    EventSchemaMember(eventSchema);
    FrontMembers(logSchema, eventSchema);
    MembersCons(b, [c]);
    MembersCons(a, [b, c]);
    assert [b] + [c] == [b, c] && [a] + [b, c] == [a, b, c];
  }

  lemma BackText(version: string)
    requires Literal(version)
    ensures MembersText([("tool", Text("packet-probe")), ("version", Text(version))])
         == "\"tool\":\"packet-probe\",\"version\":\"" + version + "\""
  {
    hide MemberText;
    var d, e := ("tool", Text("packet-probe")), ("version", Text(version));
    assert MemberText(d) == "\"tool\":\"packet-probe\"" by {
      TextMember("tool", "packet-probe");
    }
    TextMember("version", version);
    BackMembers(version);
    MembersCons(d, [e]);
    assert [d] + [e] == [d, e];
  }

  lemma MetadataText(logSchema: string, eventSchema: string, version: string)
    requires Literal(logSchema) && Literal(eventSchema) && Literal(version)
    ensures ObjectText(Metadata(logSchema, eventSchema, version))
         == "{"
            + ("\"type\":\"metadata\",\"schema\":\"" + logSchema + "\",\"event_schema\":\"" + eventSchema + "\"") + ","
            + ("\"tool\":\"packet-probe\",\"version\":\"" + version + "\"") + "}"
  {
    hide MembersText;
    FrontText(logSchema, eventSchema);
    BackText(version);
    var front: Object := [("type", Text("metadata")), ("schema", Text(logSchema)), ("event_schema", Text(eventSchema))];
    var back: Object := [("tool", Text("packet-probe")), ("version", Text(version))];
    assert Metadata(logSchema, eventSchema, version) == front + back;
    MembersAppend(front, back);
  }

  method SerializeMetadataJsonl() returns (line: string)
    ensures line == ObjectText(METADATA)
  {
    hide ObjectText;
    var logSchema, eventSchema, version := LOG_SCHEMA, EVENT_SCHEMA, VERSION;
    MetadataText(logSchema, eventSchema, version);
    line := JoinMetadata(logSchema, eventSchema, version);
  }

  lemma Regroup(brace: string, lead: string, logSchema: string, middle: string, eventSchema: string, quote: string)
    ensures brace + lead + logSchema + middle + eventSchema + (quote + ",")
         == brace + (lead + logSchema + middle + eventSchema + quote) + ","
  {
  }

  method JoinSchemas(logSchema: string, eventSchema: string) returns (line: string)
    ensures line == "{"
            + ("\"type\":\"metadata\",\"schema\":\"" + logSchema + "\",\"event_schema\":\"" + eventSchema + "\"") + ","
  {
    Regroup("{", "\"type\":\"metadata\",\"schema\":\"", logSchema, "\",\"event_schema\":\"", eventSchema, "\"");
    line := "{\"type\":\"metadata\",\"schema\":\"";
    assert line == "{" + "\"type\":\"metadata\",\"schema\":\"";
    line := line + logSchema;
    line := line + "\",\"event_schema\":\"";
    line := line + eventSchema;
    assert "\"" + "," == "\",";
    line := line + "\",";
  }

  method JoinMetadata(logSchema: string, eventSchema: string, version: string) returns (line: string)
    ensures line == "{"
            + ("\"type\":\"metadata\",\"schema\":\"" + logSchema + "\",\"event_schema\":\"" + eventSchema + "\"") + ","
            + ("\"tool\":\"packet-probe\",\"version\":\"" + version + "\"") + "}"
  {
    line := JoinSchemas(logSchema, eventSchema);
    ghost var start, lead := line, "\"tool\":\"packet-probe\",\"version\":\"";
    line := line + "\"tool\":\"packet-probe\",\"version\":\"";
    line := line + version;
    line := line + "\"}";
    assert line == start + (lead + version + "\"") + "}";
  }

  /** The metadata line reads back as the metadata. */
  lemma MetadataRoundTrip()
    ensures ReadObject(ObjectText(METADATA)) == Some(METADATA)
  {
    MetadataKeys();
    hide ReadObject, ObjectText, LiteralKeys;
    ObjectRoundTrip(METADATA);
  }

  /** Lines hold no control character, so no line break: one event is one line. */
  lemma EventTextIsOneLine(e: PacketEvent)
    requires e.decodedJson == ""
    ensures var line := EventText(e); Visible(line) && line != "" && line[0] == '{' && line[|line| - 1] == '}'
  {
    hide EventText, MembersText, FieldsOf, Member;
    EventTextIsObject(e);
    NamesAreLiteral(e, FieldsOf(e));
    FieldIsPresent(e, Seq);
    VisibleMembers(Members(e, FieldsOf(e)));
  }

  lemma MetadataIsOneLine()
    ensures var line := ObjectText(METADATA); Visible(line) && line != "" && line[0] == '{' && line[|line| - 1] == '}'
  {
    MetadataKeys();
    hide MembersText, LiteralKeys;
    VisibleMembers(METADATA);
  }

  lemma MetadataKeys()
    ensures METADATA != [] && LiteralKeys(METADATA)
  {
    MetadataKey("type");
    MetadataKey("schema");
    MetadataKey("event_schema");
    MetadataKey("tool");
    MetadataKey("version");
    hide Literal;
  }

  lemma MetadataKey(s: string)
    ensures s in ["type", "schema", "event_schema", "tool", "version"] ==> Literal(s)
  {
  }
}
