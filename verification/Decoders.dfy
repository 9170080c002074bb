/** The frame decoder classes and the factory that builds them from a configuration. */
module Decoders {
  import opened Base
  import opened Framing
  import opened Words

  class LengthPrefixFrameDecoder {
    const lengthSize: nat
    const littleEndian: bool
    const lengthIncludesHeader: bool
    var buffer: bytes

    ghost predicate Valid() {
      Framing.Valid(AsRule())
    }

    function AsRule(): Rule {
      LengthPrefixed(lengthSize, littleEndian, lengthIncludesHeader)
    }

    constructor (lengthSize: nat, littleEndian: bool, lengthIncludesHeader: bool)
      requires lengthSize == 1 || lengthSize == 2 || lengthSize == 4
      ensures Valid() && buffer == []
      ensures AsRule() == LengthPrefixed(lengthSize, littleEndian, lengthIncludesHeader)
    {
      this.lengthSize := lengthSize;
      this.littleEndian := littleEndian;
      this.lengthIncludesHeader := lengthIncludesHeader;
      buffer := [];
    }

    /** The shifts and ors of the header loop compute its base-256 value. */
    method ReadLength() returns (length: nat)
      requires Valid() && lengthSize <= |buffer|
      ensures length == Value(buffer[..lengthSize], littleEndian)
    {
      length := 0;
      if littleEndian {
        for i := 0 to lengthSize
          invariant length == LittleEndian(buffer[..i])
        {
          AccumulateLittle(buffer, i);
          length := Or(length, Shl(buffer[i], 8 * i));
        }
      } else {
        for i := 0 to lengthSize
          invariant length == BigEndian(buffer[..i])
        {
          AccumulateBig(buffer, i);
          length := Or(Shl(length, 8), buffer[i]);
        }
      }
    }

    method Consume(payload: bytes) returns (outcome: Outcome)
      requires Valid()
      modifies this`buffer
      ensures (outcome, buffer) == Framing.Consume(AsRule(), old(buffer), payload)
    {
      hide Resumes, Parse, Next, Value;
      buffer := buffer + payload;
      ghost var start := buffer;
      var frames := [];
      ResumeAtStart(AsRule(), start);
      while |buffer| >= lengthSize
        invariant Resumes(AsRule(), start, frames, buffer)
        decreases |buffer|
      {
        var length := ReadLength();
        HeaderBound(buffer[..lengthSize], littleEndian);
        HeaderDecides(AsRule(), buffer);
        if lengthIncludesHeader {
          if length < lengthSize {
            ResumeAtEnd(AsRule(), start, frames, buffer);
            return Threw;
          }
          if |buffer| < length {
            break;
          }
          ResumeAfterCut(AsRule(), start, frames, buffer);
          frames := frames + [buffer[..length]];
          buffer := buffer[length..];
        } else {
          var totalSize := (lengthSize + length) % TWO_64;
          if |buffer| < totalSize {
            break;
          }
          ResumeAfterCut(AsRule(), start, frames, buffer);
          frames := frames + [buffer[lengthSize..totalSize]];
          buffer := buffer[totalSize..];
        }
      }
      if |buffer| < lengthSize {
        NoHeaderYet(AsRule(), buffer);
      }
      ResumeAtEnd(AsRule(), start, frames, buffer);
      return Returned(frames);
    }

    method Reset()
      modifies this`buffer
      ensures buffer == []
    {
      buffer := [];
    }
  }

  /** The cut at the head of the buffer, once the header is there. */
  lemma HeaderDecides(f: Rule, buffer: bytes)
    requires f.LengthPrefixed? && Framing.Valid(f) && f.lengthSize <= |buffer|
    ensures var k, length := f.lengthSize, Value(buffer[..f.lengthSize], f.little);
            var total := if f.includesHeader then length else k + length;
            Next(f, buffer) == if total < k then Undersized
                               else if |buffer| < total then Incomplete
                               else Frame(buffer[if f.includesHeader then 0 else k..total], total)
  {
  }

  lemma NoHeaderYet(f: Rule, buffer: bytes)
    requires f.LengthPrefixed? && Framing.Valid(f) && |buffer| < f.lengthSize
    ensures Next(f, buffer) == Incomplete
  {
  }

  /** A header of at most four bytes cannot make `length_size_ + length` wrap around. */
  lemma HeaderBound(header: bytes, little: bool)
    requires |header| == 1 || |header| == 2 || |header| == 4
    ensures |header| + Value(header, little) < 0x1_0000_0004 < TWO_64
  {
    SmallPowers();
    ValueBound(header, little);
  }

  /** Loop invariant of every decoder: the frames cut so far, and the same work still to do. */
  ghost predicate Resumes(f: Rule, start: bytes, frames: seq<bytes>, buffer: bytes)
    requires Framing.Valid(f)
  {
    var p := Parse(f, buffer);
    Parse(f, start) == Parsed(frames + p.frames, p.rest, p.threw)
  }

  lemma ResumeAtStart(f: Rule, start: bytes)
    requires Framing.Valid(f)
    ensures Resumes(f, start, [], start)
  {
    assert [] + Parse(f, start).frames == Parse(f, start).frames;
  }

  lemma ResumeAfterCut(f: Rule, start: bytes, frames: seq<bytes>, buffer: bytes)
    requires Framing.Valid(f)
    requires Resumes(f, start, frames, buffer)
    requires Next(f, buffer).Frame?
    ensures var c := Next(f, buffer); Resumes(f, start, frames + [c.frame], buffer[c.size..])
  {
    var c := Next(f, buffer);
    var q := Parse(f, buffer[c.size..]);
    assert frames + ([c.frame] + q.frames) == (frames + [c.frame]) + q.frames;
  }

  lemma ResumeAtEnd(f: Rule, start: bytes, frames: seq<bytes>, buffer: bytes)
    requires Framing.Valid(f)
    requires Resumes(f, start, frames, buffer)
    requires !Next(f, buffer).Frame?
    ensures Parse(f, start) == Parsed(frames, buffer, Next(f, buffer).Undersized?)
  {
    assert frames + [] == frames;
  }

  class DelimiterFrameDecoder {
    const delimiter: bytes
    const includeDelimiter: bool
    var buffer: bytes

    ghost predicate Valid() {
      Framing.Valid(AsRule())
    }

    function AsRule(): Rule {
      Delimited(delimiter, includeDelimiter)
    }

    constructor (delimiter: bytes, includeDelimiter: bool)
      requires delimiter != []
      ensures Valid() && buffer == []
      ensures AsRule() == Delimited(delimiter, includeDelimiter)
    {
      this.delimiter := delimiter;
      this.includeDelimiter := includeDelimiter;
      buffer := [];
    }

    method Consume(payload: bytes) returns (outcome: Outcome)
      requires Valid()
      modifies this`buffer
      ensures (outcome, buffer) == Framing.Consume(AsRule(), old(buffer), payload)
      ensures outcome.Returned?
    {
      hide Resumes, Parse;
      buffer := buffer + payload;
      ghost var start := buffer;
      var frames := [];
      ResumeAtStart(AsRule(), start);
      while true
        invariant Resumes(AsRule(), start, frames, buffer)
        decreases |buffer|
      {
        var found := Search(buffer, delimiter, 0);
        if found == |buffer| {
          break;
        }
        ResumeAfterCut(AsRule(), start, frames, buffer);
        var frameEnd := found + |delimiter|;
        var payloadEnd := if includeDelimiter then frameEnd else found;
        frames := frames + [buffer[..payloadEnd]];
        buffer := buffer[frameEnd..];
      }
      ResumeAtEnd(AsRule(), start, frames, buffer);
      return Returned(frames);
    }

    method Reset()
      modifies this`buffer
      ensures buffer == []
    {
      buffer := [];
    }
  }

  class FixedSizeFrameDecoder {
    const frameSize: nat
    var buffer: bytes

    ghost predicate Valid() {
      Framing.Valid(AsRule())
    }

    function AsRule(): Rule {
      Fixed(frameSize)
    }

    constructor (frameSize: nat)
      requires frameSize > 0
      ensures Valid() && buffer == [] && AsRule() == Fixed(frameSize)
    {
      this.frameSize := frameSize;
      buffer := [];
    }

    method Consume(payload: bytes) returns (outcome: Outcome)
      requires Valid()
      modifies this`buffer
      ensures (outcome, buffer) == Framing.Consume(AsRule(), old(buffer), payload)
      ensures outcome.Returned?
    {
      hide Resumes, Parse;
      buffer := buffer + payload;
      ghost var start := buffer;
      var frames := [];
      ResumeAtStart(AsRule(), start);
      while |buffer| >= frameSize
        invariant Resumes(AsRule(), start, frames, buffer)
        decreases |buffer|
      {
        ResumeAfterCut(AsRule(), start, frames, buffer);
        frames := frames + [buffer[..frameSize]];
        buffer := buffer[frameSize..];
      }
      ResumeAtEnd(AsRule(), start, frames, buffer);
      return Returned(frames);
    }

    method Reset()
      modifies this`buffer
      ensures buffer == []
    {
      buffer := [];
    }
  }

  // ---------- The factory ----------

  datatype DecoderConfig = DecoderConfig(
    decoder: string,
    frameSize: nat,
    delimiter: bytes,
    includeDelimiter: bool,
    lengthSize: nat,
    lengthEndian: string,
    lengthIncludesHeader: bool)

  /** `std::tolower` in the "C" locale, character by character. */
  function Lowercase(s: string): (r: string)
    ensures |r| == |s|
  {
    if s == [] then []
    else [if 'A' <= s[0] <= 'Z' then s[0] + ' ' else s[0]] + Lowercase(s[1..])
  }

  lemma {:induction false} LowercaseFixed(s: string)
    requires forall i :: 0 <= i < |s| ==> !('A' <= s[i] <= 'Z')
    ensures Lowercase(s) == s
  {
    if s != "" {
      LowercaseFixed(s[1..]);
    }
  }

  /** The behaviour a configuration asks for. `Raw` keeps no buffer: each payload is a frame. */
  datatype Kind = Raw | Framed(rule: Rule)

  predicate ValidKind(kind: Kind) {
    kind.Framed? ==> Framing.Valid(kind.rule)
  }

  type DecodingKind = k: Kind | ValidKind(k) witness Raw

  function KindOf(config: DecoderConfig): (r: Result<Kind>)
    ensures r.Ok? ==> ValidKind(r.value)
  {
    var name := Lowercase(config.decoder);
    if name == "raw" then Ok(Raw)
    else if name == "fixed" then
      if config.frameSize == 0 then Err("fixed decoder requires --frame-size")
      else Ok(Framed(Fixed(config.frameSize)))
    else if name == "delimiter" then
      if config.delimiter == [] then Err("delimiter decoder requires --delimiter")
      else Ok(Framed(Delimited(config.delimiter, config.includeDelimiter)))
    else if name == "length-prefix" then
      var endian := Lowercase(config.lengthEndian);
      if config.lengthSize != 1 && config.lengthSize != 2 && config.lengthSize != 4 then
        Err("length-prefix decoder requires --length-size <1|2|4>")
      else if endian != "big" && endian != "little" then
        Err("length-prefix decoder requires --length-endian <little|big>")
      else
        Ok(Framed(LengthPrefixed(config.lengthSize, endian == "little", config.lengthIncludesHeader)))
    else Err("unknown decoder: " + config.decoder)
  }

  /** Which configurations ask for a behaviour: the name and the fields it needs, and no other field. */
  predicate AsksFor(config: DecoderConfig, kind: Kind) {
    var name, endian := Lowercase(config.decoder), Lowercase(config.lengthEndian);
    match kind
    case Raw => name == "raw"
    case Framed(Fixed(size)) => name == "fixed" && size == config.frameSize && size > 0
    case Framed(Delimited(d, inclusive)) =>
      name == "delimiter" && d == config.delimiter && d != [] && inclusive == config.includeDelimiter
    case Framed(LengthPrefixed(size, little, includesHeader)) =>
      && name == "length-prefix" && size == config.lengthSize && size in {1, 2, 4}
      && endian == (if little then "little" else "big") && includesHeader == config.lengthIncludesHeader
  }

  lemma KindOfIff(config: DecoderConfig, kind: Kind)
    ensures KindOf(config) == Ok(kind) <==> AsksFor(config, kind)
  {
    hide Lowercase;
    assert |"raw"| == 3 && |"fixed"| == 5 && |"delimiter"| == 9 && |"length-prefix"| == 13;
    assert |"big"| == 3 && |"little"| == 6;
  }

  /** Every refusal with its text; the first field that is wrong decides. */
  lemma WhyNotDecoder(config: DecoderConfig)
    requires KindOf(config).Err?
    ensures var name, error := Lowercase(config.decoder), KindOf(config).error;
            && name != "raw"
            && (name == "fixed" ==> config.frameSize == 0 && error == "fixed decoder requires --frame-size")
            && (name == "delimiter" ==> config.delimiter == [] && error == "delimiter decoder requires --delimiter")
            && (name == "length-prefix" ==>
                  error == if config.lengthSize !in {1, 2, 4}
                           then "length-prefix decoder requires --length-size <1|2|4>"
                           else "length-prefix decoder requires --length-endian <little|big>")
            && (name !in {"fixed", "delimiter", "length-prefix"} ==> error == "unknown decoder: " + config.decoder)
  {
    hide Lowercase;
    assert |"raw"| == 3 && |"fixed"| == 5 && |"delimiter"| == 9 && |"length-prefix"| == 13;
  }

  /** A configuration for a given behaviour, fields that do not matter at their defaults. */
  function ConfigFor(kind: Kind): DecoderConfig {
    match kind
    case Raw => DecoderConfig("raw", 0, [], true, 2, "big", false)
    case Framed(Fixed(size)) => DecoderConfig("fixed", size, [], true, 2, "big", false)
    case Framed(Delimited(d, inclusive)) => DecoderConfig("delimiter", 0, d, inclusive, 2, "big", false)
    case Framed(LengthPrefixed(size, little, includesHeader)) =>
      DecoderConfig("length-prefix", 0, [], true, size, if little then "little" else "big", includesHeader)
  }

  /**
   The configurations cover exactly the behaviours the decoders accept: each of those has a configuration,
   and what is accepted is one of those.
   */
  lemma ConfigurableIffValid(kind: Kind)
    ensures KindOf(ConfigFor(kind)) == Ok(kind) <==> ValidKind(kind)
    ensures (exists config :: KindOf(config) == Ok(kind)) <==> ValidKind(kind)
  {
    hide KindOf, ConfigFor;
    if ValidKind(kind) {
      ConfigForIsAccepted(kind);
    }
  }

  lemma ConfigForIsAccepted(kind: Kind)
    requires ValidKind(kind)
    ensures KindOf(ConfigFor(kind)) == Ok(kind)
  {
    var config := ConfigFor(kind);
    NamesAreLowercase();
    hide Lowercase;
    assert |"raw"| == 3 && |"fixed"| == 5 && |"delimiter"| == 9 && |"length-prefix"| == 13;
    assert |"big"| == 3 && |"little"| == 6;
    match kind
    case Raw =>
    case Framed(Fixed(_)) =>
    case Framed(Delimited(_, _)) =>
    case Framed(LengthPrefixed(_, _, _)) =>
  }

  lemma NamesAreLowercase()
    ensures Lowercase("raw") == "raw" && Lowercase("fixed") == "fixed" && Lowercase("delimiter") == "delimiter"
    ensures Lowercase("length-prefix") == "length-prefix"
    ensures Lowercase("big") == "big" && Lowercase("little") == "little"
  {
    hide Lowercase;
    LowercaseFixed("raw");
    LowercaseFixed("fixed");
    LowercaseFixed("delimiter");
    LowercaseFixed("length-prefix");
    LowercaseFixed("big");
    LowercaseFixed("little");
  }

  /** Letter case matters neither in the decoder's name nor in the byte order. */
  lemma CaseDoesNotMatter(config: DecoderConfig)
    ensures var lower := config.(decoder := Lowercase(config.decoder), lengthEndian := Lowercase(config.lengthEndian));
            && (KindOf(lower).Ok? <==> KindOf(config).Ok?)
            && (KindOf(config).Ok? ==> KindOf(lower) == KindOf(config))
  {
    LowercaseTwice(config.decoder);
    LowercaseTwice(config.lengthEndian);
    hide Lowercase;
  }

  lemma LowercaseTwice(s: string)
    ensures Lowercase(Lowercase(s)) == Lowercase(s)
  {
    LowercaseHasNoCapitals(s);
    LowercaseFixed(Lowercase(s));
  }

  lemma {:induction false} LowercaseHasNoCapitals(s: string)
    ensures forall i :: 0 <= i < |s| ==> !('A' <= Lowercase(s)[i] <= 'Z')
  {
    if s != "" {
      LowercaseHasNoCapitals(s[1..]);
    }
  }

  function ConsumeAs(kind: Kind, buffer: bytes, payload: bytes): (Outcome, bytes)
    requires ValidKind(kind)
  {
    match kind
    case Raw => (Returned([payload]), [])
    case Framed(rule) => Framing.Consume(rule, buffer, payload)
  }

  class RawFrameDecoder {
    constructor () {
    }

    method Consume(payload: bytes) returns (outcome: Outcome)
      ensures outcome == Returned([payload])
    {
      return Returned([payload]);
    }
  }

  /** A reference to some decoder object; `Consume` is the virtual call. */
  datatype FrameDecoder =
    | RawBytesDecoder(raw: RawFrameDecoder)
    | FixedSize(fixed: FixedSizeFrameDecoder)
    | Delimiter(delimiter: DelimiterFrameDecoder)
    | LengthPrefix(lengthPrefix: LengthPrefixFrameDecoder)
  {
    ghost predicate Valid() {
      match this
      case RawBytesDecoder(_) => true
      case FixedSize(d) => d.Valid()
      case Delimiter(d) => d.Valid()
      case LengthPrefix(d) => d.Valid()
    }

    ghost function Ref(): object {
      match this
      case RawBytesDecoder(d) => d
      case FixedSize(d) => d
      case Delimiter(d) => d
      case LengthPrefix(d) => d
    }

    function Buffer(): bytes
      reads Ref()
    {
      match this
      case RawBytesDecoder(_) => []
      case FixedSize(d) => d.buffer
      case Delimiter(d) => d.buffer
      case LengthPrefix(d) => d.buffer
    }

    function Kind(): (k: Kind)
      ensures Valid() ==> ValidKind(k)
    {
      match this
      case RawBytesDecoder(_) => Raw
      case FixedSize(d) => Framed(d.AsRule())
      case Delimiter(d) => Framed(d.AsRule())
      case LengthPrefix(d) => Framed(d.AsRule())
    }

    method Consume(payload: bytes) returns (outcome: Outcome)
      requires Valid()
      modifies Ref()
      ensures (outcome, Buffer()) == ConsumeAs(Kind(), old(Buffer()), payload)
    {
      match this
      case RawBytesDecoder(d) => outcome := d.Consume(payload);
      case FixedSize(d) => outcome := d.Consume(payload);
      case Delimiter(d) => outcome := d.Consume(payload);
      case LengthPrefix(d) => outcome := d.Consume(payload);
    }
  }

  method CreateFrameDecoder(config: DecoderConfig) returns (r: Result<FrameDecoder>)
    ensures r.Ok? <==> KindOf(config).Ok?
    ensures r.Err? ==> r.error == KindOf(config).error
    ensures r.Ok? ==>
              && r.value.Valid()
              && r.value.Kind() == KindOf(config).value
              && r.value.Buffer() == []
              && fresh(r.value.Ref())
  {
    var name := Lowercase(config.decoder);
    if name == "raw" {
      var d := new RawFrameDecoder();
      return Ok(RawBytesDecoder(d));
    }
    if name == "fixed" {
      if config.frameSize == 0 {
        return Err("fixed decoder requires --frame-size");
      }
      var d := new FixedSizeFrameDecoder(config.frameSize);
      return Ok(FixedSize(d));
    }
    if name == "delimiter" {
      if config.delimiter == [] {
        return Err("delimiter decoder requires --delimiter");
      }
      var d := new DelimiterFrameDecoder(config.delimiter, config.includeDelimiter);
      return Ok(Delimiter(d));
    }
    if name == "length-prefix" {
      var endian := Lowercase(config.lengthEndian);
      if config.lengthSize != 1 && config.lengthSize != 2 && config.lengthSize != 4 {
        return Err("length-prefix decoder requires --length-size <1|2|4>");
      }
      if endian != "big" && endian != "little" {
        return Err("length-prefix decoder requires --length-endian <little|big>");
      }
      var d := new LengthPrefixFrameDecoder(config.lengthSize, endian == "little", config.lengthIncludesHeader);
      return Ok(LengthPrefix(d));
    }
    return Err("unknown decoder: " + config.decoder);
  }
}
