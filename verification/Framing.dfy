/**
 The three buffering frame decoders, seen as one rule: what can be cut from the head of the
 buffer. `Next` is that rule, `Parse` repeats it until it stops. Everything that holds for all
 chunkings of a stream is proved once, from two facts about `Next`.
 */
module Framing {
  import opened Base
  import opened Words

  datatype Rule =
    | Fixed(size: nat)
    | Delimited(delimiter: bytes, inclusive: bool)
    | LengthPrefixed(lengthSize: nat, little: bool, includesHeader: bool)

  /** What the decoder constructors accept. */
  predicate Valid(f: Rule) {
    match f
    case Fixed(size) => size > 0
    case Delimited(delimiter, _) => delimiter != []
    case LengthPrefixed(lengthSize, _, _) => lengthSize == 1 || lengthSize == 2 || lengthSize == 4
  }

  datatype Cut = Incomplete | Undersized | Frame(frame: bytes, size: nat)

  predicate OccursAt(s: bytes, d: bytes, i: nat) {
    i + |d| <= |s| && s[i..i + |d|] == d
  }

  /** `std::search`: the leftmost occurrence, or `|s|` when there is none. */
  function Search(s: bytes, d: bytes, from: nat): (i: nat)
    requires from <= |s|
    requires d != []
    ensures from <= i <= |s|
    ensures i < |s| ==> OccursAt(s, d, i)
    ensures forall j :: from <= j < i ==> !OccursAt(s, d, j)
    ensures i == |s| ==> forall j: nat :: from <= j ==> !OccursAt(s, d, j)
    decreases |s| - from
  {
    if from == |s| then from
    else if OccursAt(s, d, from) then from
    else Search(s, d, from + 1)
  }

  function CutFixed(size: nat, buffer: bytes): (c: Cut)
    requires size > 0
    ensures c.Frame? ==> 0 < c.size <= |buffer|
  {
    if |buffer| < size then Incomplete else Frame(buffer[..size], size)
  }

  function CutDelimited(d: bytes, inclusive: bool, buffer: bytes): (c: Cut)
    requires d != []
    ensures c.Frame? ==> 0 < c.size <= |buffer|
  {
    var found := Search(buffer, d, 0);
    if found == |buffer| then Incomplete
    else Frame(buffer[..if inclusive then found + |d| else found], found + |d|)
  }

  function CutLengthPrefixed(k: nat, little: bool, includesHeader: bool, buffer: bytes): (c: Cut)
    requires k > 0
    ensures c.Frame? ==> k <= c.size <= |buffer|
  {
    if |buffer| < k then Incomplete
    else
      var length := Value(buffer[..k], little);
      if includesHeader then
        if length < k then Undersized
        else if |buffer| < length then Incomplete
        else Frame(buffer[..length], length)
      else
        if |buffer| < k + length then Incomplete
        else Frame(buffer[k..k + length], k + length)
  }

  /** What can be cut from the head of the buffer. */
  function Next(f: Rule, buffer: bytes): (c: Cut)
    requires Valid(f)
    ensures c.Frame? ==> 0 < c.size <= |buffer|
  {
    match f
    case Fixed(size) => CutFixed(size, buffer)
    case Delimited(d, inclusive) => CutDelimited(d, inclusive, buffer)
    case LengthPrefixed(k, little, includesHeader) => CutLengthPrefixed(k, little, includesHeader, buffer)
  }

  datatype Parsed = Parsed(frames: seq<bytes>, rest: bytes, threw: bool)

  /** The reference parse of a whole stream. */
  function Parse(f: Rule, buffer: bytes): Parsed
    requires Valid(f)
    decreases |buffer|
  {
    match Next(f, buffer)
    case Incomplete => Parsed([], buffer, false)
    case Undersized => Parsed([], buffer, true)
    case Frame(frame, size) =>
      var p := Parse(f, buffer[size..]);
      Parsed([frame] + p.frames, p.rest, p.threw)
  }

  // ---------- The two facts about Next ----------

  lemma SliceOfPrefix<T>(s: seq<T>, end: nat, from: nat, to: nat)
    requires from <= to <= end <= |s|
    ensures s[..end][from..to] == s[from..to]
  {
  }

  /** More input never changes a cut that could already be made. */
  lemma NextStable(f: Rule, buffer: bytes, more: bytes)
    requires Valid(f)
    ensures !Next(f, buffer).Incomplete? ==> Next(f, buffer + more) == Next(f, buffer)
  {
    match f
    case Fixed(size) =>
      if size <= |buffer| {
        assert (buffer + more)[..size] == buffer[..size];
      }
    case Delimited(d, inclusive) =>
      if !Next(f, buffer).Incomplete? {
        CutDelimitedStable(d, inclusive, buffer, more);
      }
    case LengthPrefixed(k, little, includesHeader) =>
      if !Next(f, buffer).Incomplete? {
        CutLengthPrefixedStable(k, little, includesHeader, buffer, more);
      }
  }

  lemma CutDelimitedStable(d: bytes, inclusive: bool, buffer: bytes, more: bytes)
    requires d != []
    requires CutDelimited(d, inclusive, buffer).Frame?
    ensures CutDelimited(d, inclusive, buffer + more) == CutDelimited(d, inclusive, buffer)
  {
    var i := Search(buffer, d, 0);
    SearchStable(buffer, more, d);
    assert (buffer + more)[..i + |d|] == buffer[..i + |d|];
    assert (buffer + more)[..i] == buffer[..i];
  }

  lemma SearchStable(s: bytes, more: bytes, d: bytes)
    requires d != []
    requires Search(s, d, 0) < |s|
    ensures Search(s + more, d, 0) == Search(s, d, 0)
  {
    var i := Search(s, d, 0);
    var j := Search(s + more, d, 0);
    assert (s + more)[i..i + |d|] == s[i..i + |d|];
    assert OccursAt(s + more, d, i);
    if j < i {
      assert (s + more)[j..j + |d|] == s[j..j + |d|];
      assert OccursAt(s, d, j);
    }
  }

  lemma CutLengthPrefixedStable(k: nat, little: bool, includesHeader: bool, buffer: bytes, more: bytes)
    requires k > 0
    requires !CutLengthPrefixed(k, little, includesHeader, buffer).Incomplete?
    ensures CutLengthPrefixed(k, little, includesHeader, buffer + more)
         == CutLengthPrefixed(k, little, includesHeader, buffer)
  {
    var whole := buffer + more;
    var c := CutLengthPrefixed(k, little, includesHeader, buffer);
    assert whole[..k] == buffer[..k];
    if c.Frame? {
      assert whole[..c.size] == buffer[..c.size];
      SliceOfPrefix(whole, c.size, k, c.size);
      SliceOfPrefix(buffer, c.size, k, c.size);
    }
  }

  /** The bytes of the stream that stand for one frame. */
  function Wrap(f: Rule, frame: bytes): bytes {
    match f
    case Fixed(_) => frame
    case Delimited(d, inclusive) => if inclusive then frame else frame + d
    case LengthPrefixed(k, little, includesHeader) =>
      if includesHeader then frame else Digits(|frame|, k, little) + frame
  }

  /** A byte string that comes back as one frame when it is sent alone. */
  predicate IsFrame(f: Rule, frame: bytes)
    requires Valid(f)
  {
    Next(f, Wrap(f, frame)) == Frame(frame, |Wrap(f, frame)|)
  }

  lemma NextWraps(f: Rule, buffer: bytes)
    requires Valid(f)
    requires Next(f, buffer).Frame?
    ensures var c := Next(f, buffer); buffer[..c.size] == Wrap(f, c.frame) && IsFrame(f, c.frame)
  {
    match f
    case Fixed(size) =>
      assert buffer[..size][..size] == buffer[..size];
    case Delimited(d, inclusive) =>
      CutDelimitedWraps(d, inclusive, buffer);
    case LengthPrefixed(k, little, includesHeader) =>
      CutLengthPrefixedWraps(k, little, includesHeader, buffer);
  }

  lemma CutDelimitedWraps(d: bytes, inclusive: bool, buffer: bytes)
    requires d != []
    requires CutDelimited(d, inclusive, buffer).Frame?
    ensures var c := CutDelimited(d, inclusive, buffer);
            var head := buffer[..c.size];
            head == Wrap(Delimited(d, inclusive), c.frame) && CutDelimited(d, inclusive, head) == c
  {
    hide OccursAt, Search;
    SearchOnHead(buffer, d);
    var i := Search(buffer, d, 0);
    var head := buffer[..i + |d|];
    SliceOfPrefix(buffer, i + |d|, 0, i);
    SliceOfPrefix(buffer, i + |d|, 0, i + |d|);
  }

  lemma SearchOnHead(buffer: bytes, d: bytes)
    requires d != []
    requires Search(buffer, d, 0) < |buffer|
    ensures var i := Search(buffer, d, 0);
            i + |d| <= |buffer| && buffer[..i + |d|] == buffer[..i] + d && Search(buffer[..i + |d|], d, 0) == i
  {
    var i := Search(buffer, d, 0);
    var head, tail := buffer[..i + |d|], buffer[i + |d|..];
    assert head + tail == buffer;
    SliceOfPrefix(buffer, i + |d|, i, i + |d|);
    assert OccursAt(head, d, i);
    SearchStable(head, tail, d);
  }

  lemma CutLengthPrefixedWraps(k: nat, little: bool, includesHeader: bool, buffer: bytes)
    requires k > 0
    requires CutLengthPrefixed(k, little, includesHeader, buffer).Frame?
    ensures var c := CutLengthPrefixed(k, little, includesHeader, buffer);
            var head := buffer[..c.size];
            && head == Wrap(LengthPrefixed(k, little, includesHeader), c.frame)
            && CutLengthPrefixed(k, little, includesHeader, head) == c
  {
    var c := CutLengthPrefixed(k, little, includesHeader, buffer);
    var head := buffer[..c.size];
    SliceOfPrefix(buffer, c.size, 0, k);
    SliceOfPrefix(buffer, c.size, 0, c.size);
    SliceOfPrefix(buffer, c.size, k, c.size);
    if !includesHeader {
      DigitsOfValue(buffer[..k], little);
      assert head == buffer[..k] + c.frame;
    }
  }

  // ---------- Chunk independence ----------

  /** Parsing in two instalments, carrying the remainder over, is parsing in one. */
  lemma {:induction false} ParseAppend(f: Rule, a: bytes, b: bytes)
    requires Valid(f)
    ensures var p := Parse(f, a); var q := Parse(f, p.rest + b);
            Parse(f, a + b) == Parsed(p.frames + q.frames, q.rest, q.threw)
    decreases |a|
  {
    hide Next;
    NextStable(f, a, b);
    var c, p := Next(f, a), Parse(f, a);
    var q := Parse(f, p.rest + b);
    if c.Frame? {
      var tail := a[c.size..];
      assert (a + b)[c.size..] == tail + b;
      ParseAppend(f, tail, b);
      assert [c.frame] + (Parse(f, tail).frames + q.frames) == p.frames + q.frames;
    } else {
      assert p.frames + q.frames == q.frames;
    }
  }

  /** Once an undersized header is at the head of the buffer, nothing is ever cut again. */
  lemma {:induction false} ThrowIsFinal(f: Rule, a: bytes, b: bytes)
    requires Valid(f)
    requires Parse(f, a).threw
    ensures Parse(f, Parse(f, a).rest + b) == Parsed([], Parse(f, a).rest + b, true)
    decreases |a|
  {
    hide Next;
    NextStable(f, a, b);
    var c := Next(f, a);
    if c.Frame? {
      ThrowIsFinal(f, a[c.size..], b);
    }
  }

  /** What one `consume` call does: it returns frames, or throws and returns nothing. */
  datatype Outcome = Returned(frames: seq<bytes>) | Threw

  function Consume(f: Rule, buffer: bytes, chunk: bytes): (Outcome, bytes)
    requires Valid(f)
  {
    var p := Parse(f, buffer + chunk);
    (if p.threw then Threw else Returned(p.frames), p.rest)
  }

  /** The outcomes of feeding `chunks` to a fresh decoder, and the buffer it ends with. */
  function Feed(f: Rule, chunks: seq<bytes>): (r: (seq<Outcome>, bytes))
    requires Valid(f)
    ensures |r.0| == |chunks|
  {
    if chunks == [] then ([], [])
    else
      var n := |chunks| - 1;
      var before := Feed(f, chunks[..n]);
      var step := Consume(f, before.1, chunks[n]);
      (before.0 + [step.0], step.1)
  }

  function Emitted(outcomes: seq<Outcome>): seq<bytes> {
    if outcomes == [] then []
    else
      var n := |outcomes| - 1;
      Emitted(outcomes[..n]) + (if outcomes[n].Returned? then outcomes[n].frames else [])
  }

  /**
   The state after any chunking is the reference parse of the bytes received so far, and the
   last call reports exactly what that parse gained over the parse before it.
   */
  lemma {:induction false} FeedIsParse(f: Rule, chunks: seq<bytes>)
    requires Valid(f)
    ensures Feed(f, chunks).1 == Parse(f, Flatten(chunks)).rest
    ensures chunks != [] ==>
              var n := |chunks| - 1;
              var p, q := Parse(f, Flatten(chunks[..n])), Parse(f, Flatten(chunks));
              && p.frames <= q.frames
              && (p.threw ==> q.threw && q.frames == p.frames)
              && Feed(f, chunks).0[n] == if q.threw then Threw else Returned(q.frames[|p.frames|..])
  {
    hide Next;
    if chunks != [] {
      var n := |chunks| - 1;
      FeedIsParse(f, chunks[..n]);
      FlattenLast(chunks);
      var before := Flatten(chunks[..n]);
      ParseAppend(f, before, chunks[n]);
      if Parse(f, before).threw {
        ThrowIsFinal(f, before, chunks[n]);
      }
    }
  }

  lemma FeedPrefix(f: Rule, chunks: seq<bytes>, i: nat)
    requires Valid(f)
    requires i <= |chunks|
    ensures Feed(f, chunks[..i]).0 == Feed(f, chunks).0[..i]
    decreases |chunks|
  {
    hide Next;
    var n := |chunks| - 1;
    if i <= n {
      FeedPrefix(f, chunks[..n], i);
      assert chunks[..n][..i] == chunks[..i];
    } else {
      assert chunks[..i] == chunks;
    }
  }

  /** A stream without an undersized header decodes to the reference parse, however it is cut. */
  lemma {:induction false} ChunkIndependence(f: Rule, chunks: seq<bytes>)
    requires Valid(f)
    requires !Parse(f, Flatten(chunks)).threw
    ensures Threw !in Feed(f, chunks).0
    ensures Emitted(Feed(f, chunks).0) == Parse(f, Flatten(chunks)).frames
    ensures Feed(f, chunks).1 == Parse(f, Flatten(chunks)).rest
  {
    hide Next, Parse;
    EmptyParse(f);
    FeedIsParse(f, chunks);
    if chunks != [] {
      var n := |chunks| - 1;
      ChunkIndependence(f, chunks[..n]);
      assert Feed(f, chunks).0[..n] == Feed(f, chunks[..n]).0;
      var p, q := Parse(f, Flatten(chunks[..n])), Parse(f, Flatten(chunks));
      assert q.frames == p.frames + q.frames[|p.frames|..];
    }
  }

  /** The outcome of call `i` is fixed by the bytes received up to and including chunk `i`. */
  lemma OutcomeAt(f: Rule, chunks: seq<bytes>, i: nat)
    requires Valid(f)
    requires i < |chunks|
    ensures var p, q := Parse(f, Flatten(chunks[..i])), Parse(f, Flatten(chunks[..i + 1]));
            && p.frames <= q.frames
            && Feed(f, chunks).0[i] == if q.threw then Threw else Returned(q.frames[|p.frames|..])
  {
    hide Next;
    FeedPrefix(f, chunks, i + 1);
    FeedIsParse(f, chunks[..i + 1]);
    assert chunks[..i + 1][..i] == chunks[..i];
  }

  lemma ParseMonotone(f: Rule, chunks: seq<bytes>, i: nat, j: nat)
    requires Valid(f)
    requires i <= j <= |chunks|
    ensures Parse(f, Flatten(chunks[..i])).frames <= Parse(f, Flatten(chunks[..j])).frames
    ensures Parse(f, Flatten(chunks[..i])).threw ==> Parse(f, Flatten(chunks[..j])).threw
  {
    hide Next;
    assert chunks[..j] == chunks[..i] + chunks[i..j];
    FlattenAppend(chunks[..i], chunks[i..j]);
    ParseAppend(f, Flatten(chunks[..i]), Flatten(chunks[i..j]));
    if Parse(f, Flatten(chunks[..i])).threw {
      ThrowIsFinal(f, Flatten(chunks[..i]), Flatten(chunks[i..j]));
    }
  }

  lemma EmptyParse(f: Rule)
    requires Valid(f)
    ensures Parse(f, []) == Parsed([], [], false)
  {
    assert Next(f, []) == Incomplete;
  }

  /**
   A stream with an undersized header makes every chunking throw. The first call that throws is
   the first whose bytes complete the header; from then on every call throws, and what was
   returned before is a prefix of the frames in front of the header.
   */
  lemma {:induction false} UndersizedHeaderThrows(f: Rule, chunks: seq<bytes>)
    requires Valid(f)
    requires Parse(f, Flatten(chunks)).threw
    ensures Emitted(Feed(f, chunks).0) <= Parse(f, Flatten(chunks)).frames
    ensures chunks != [] && Feed(f, chunks).0[|chunks| - 1] == Threw
    ensures forall i, j :: 0 <= i <= j < |chunks| && Feed(f, chunks).0[i] == Threw ==> Feed(f, chunks).0[j] == Threw
    ensures Feed(f, chunks).1 == Parse(f, Flatten(chunks)).rest
  {
    hide Next, Parse;
    FeedIsParse(f, chunks);
    EmptyParse(f);
    forall i, j | 0 <= i <= j < |chunks| && Feed(f, chunks).0[i] == Threw
      ensures Feed(f, chunks).0[j] == Threw
    {
      OutcomeAt(f, chunks, i);
      OutcomeAt(f, chunks, j);
      ParseMonotone(f, chunks, i + 1, j + 1);
    }
    var n := |chunks| - 1;
    assert Feed(f, chunks).0[..n] == Feed(f, chunks[..n]).0;
    assert chunks[..n + 1] == chunks;
    ParseMonotone(f, chunks, n, n + 1);
    if Parse(f, Flatten(chunks[..n])).threw {
      UndersizedHeaderThrows(f, chunks[..n]);
    } else {
      ChunkIndependence(f, chunks[..n]);
    }
  }

  // ---------- Reset ----------

  datatype Call = Payload(chunk: bytes) | Reset

  /** Outcomes and buffer after a list of calls on a fresh decoder. */
  function Drive(f: Rule, calls: seq<Call>): (seq<Outcome>, bytes)
    requires Valid(f)
  {
    if calls == [] then ([], [])
    else
      var n := |calls| - 1;
      var before := Drive(f, calls[..n]);
      match calls[n]
      case Reset => (before.0, [])
      case Payload(chunk) =>
        var step := Consume(f, before.1, chunk);
        (before.0 + [step.0], step.1)
  }

  function PayloadCalls(chunks: seq<bytes>): (calls: seq<Call>)
    ensures |calls| == |chunks|
  {
    seq(|chunks|, i requires 0 <= i < |chunks| => Payload(chunks[i]))
  }

  /** After a reset a decoder behaves like a new one, whatever it was fed before, undersized headers included. */
  lemma {:induction false} ResetStartsOver(f: Rule, before: seq<Call>, chunks: seq<bytes>)
    requires Valid(f)
    ensures var all := Drive(f, before + [Reset] + PayloadCalls(chunks));
            all.0 == Drive(f, before).0 + Feed(f, chunks).0 && all.1 == Feed(f, chunks).1
    decreases |chunks|
  {
    hide Consume;
    var calls := before + [Reset] + PayloadCalls(chunks);
    if chunks == [] {
      assert calls[..|before|] == before;
    } else {
      var n := |chunks| - 1;
      ResetStartsOver(f, before, chunks[..n]);
      assert calls[..|calls| - 1] == before + [Reset] + PayloadCalls(chunks[..n]);
      assert calls[|calls| - 1] == Payload(chunks[n]);
    }
  }

  // ---------- Characterisation of the parse ----------

  function Wraps(f: Rule, frames: seq<bytes>): seq<bytes> {
    seq(|frames|, i requires 0 <= i < |frames| => Wrap(f, frames[i]))
  }

  /** `stream` splits into `frames` and a remainder from which nothing more can be cut. */
  predicate SplitsInto(f: Rule, stream: bytes, p: Parsed)
    requires Valid(f)
  {
    && stream == Flatten(Wraps(f, p.frames)) + p.rest
    && (forall i :: 0 <= i < |p.frames| ==> IsFrame(f, p.frames[i]))
    && !Next(f, p.rest).Frame?
    && p.threw == Next(f, p.rest).Undersized?
  }

  /** The reference parse is the only such split; in particular no byte is lost or invented. */
  lemma ParseIffSplits(f: Rule, stream: bytes, p: Parsed)
    requires Valid(f)
    ensures Parse(f, stream) == p <==> SplitsInto(f, stream, p)
  {
    ParseSplits(f, stream);
    if SplitsInto(f, stream, p) {
      SplitDeterminesParse(f, stream, p);
    }
  }

  lemma SplitCons(f: Rule, frame: bytes, tail: bytes, q: Parsed)
    requires Valid(f)
    requires IsFrame(f, frame) && SplitsInto(f, tail, q)
    ensures SplitsInto(f, Wrap(f, frame) + tail, Parsed([frame] + q.frames, q.rest, q.threw))
  {
    hide Next;
    var w := Wrap(f, frame);
    assert Wraps(f, [frame] + q.frames) == [w] + Wraps(f, q.frames);
    assert w + tail == (w + Flatten(Wraps(f, q.frames))) + q.rest;
  }

  lemma SplitNil(f: Rule, stream: bytes)
    requires Valid(f)
    requires !Next(f, stream).Frame?
    ensures SplitsInto(f, stream, Parsed([], stream, Next(f, stream).Undersized?))
  {
    hide Next;
    assert Wraps(f, []) == [];
  }

  lemma {:induction false} ParseSplits(f: Rule, stream: bytes)
    requires Valid(f)
    ensures SplitsInto(f, stream, Parse(f, stream))
    decreases |stream|
  {
    hide Next, SplitsInto, Wrap;
    var c := Next(f, stream);
    if c.Frame? {
      var tail := stream[c.size..];
      NextWraps(f, stream);
      ParseSplits(f, tail);
      SplitCons(f, c.frame, tail, Parse(f, tail));
      assert stream == stream[..c.size] + tail;
    } else {
      SplitNil(f, stream);
    }
  }

  lemma {:induction false} SplitDeterminesParse(f: Rule, stream: bytes, p: Parsed)
    requires Valid(f)
    requires SplitsInto(f, stream, p)
    ensures Parse(f, stream) == p
    decreases |p.frames|
  {
    hide Next, Wrap;
    if p.frames != [] {
      var w := Wrap(f, p.frames[0]);
      var tail := Parsed(p.frames[1..], p.rest, p.threw);
      assert IsFrame(f, p.frames[0]);
      assert Wraps(f, p.frames) == [w] + Wraps(f, tail.frames);
      var after := Flatten(Wraps(f, tail.frames)) + p.rest;
      assert stream == w + after;
      NextStable(f, w, after);
      assert stream[|w|..] == after;
      SplitDeterminesParse(f, after, tail);
      assert p.frames == [p.frames[0]] + tail.frames;
    } else {
      assert Wraps(f, []) == [];
      assert stream == p.rest;
    }
  }

  /**
   Encoding and decoding, under any chunking: the decoder gives back exactly the list of frames
   if and only if each of them is a frame on its own.
   */
  lemma RoundTrip(f: Rule, frames: seq<bytes>, chunks: seq<bytes>)
    requires Valid(f)
    requires Flatten(chunks) == Flatten(Wraps(f, frames))
    ensures (forall i :: 0 <= i < |frames| ==> IsFrame(f, frames[i])) <==>
            (Threw !in Feed(f, chunks).0 && Emitted(Feed(f, chunks).0) == frames && Feed(f, chunks).1 == [])
  {
    var stream := Flatten(chunks);
    var p := Parsed(frames, [], false);
    assert !Next(f, []).Frame? && !Next(f, []).Undersized?;
    assert stream == Flatten(Wraps(f, frames)) + [];
    ParseIffSplits(f, stream, p);
    if Parse(f, stream).threw {
      UndersizedHeaderThrows(f, chunks);
      assert Feed(f, chunks).0[|chunks| - 1] in Feed(f, chunks).0;
    } else {
      ChunkIndependence(f, chunks);
    }
  }

  // ---------- What a frame is, for each decoder ----------

  /** Delimiter framing: the first occurrence of the delimiter in `frame ++ d` is at the end. */
  lemma DelimitedFrameIff(d: bytes, inclusive: bool, body: bytes)
    requires d != []
    ensures var frame := if inclusive then body + d else body;
            && Wrap(Delimited(d, inclusive), frame) == body + d
            && (IsFrame(Delimited(d, inclusive), frame) <==> Search(body + d, d, 0) == |body|)
  {
    var s := body + d;
    assert s[|body|..|body| + |d|] == d;
    assert OccursAt(s, d, |body|);
    assert s[..|body|] == body && s[..|body| + |d|] == s;
  }

  /** Length-prefix framing: any payload whose declared length fits the header. */
  lemma LengthPrefixedFrameIff(k: nat, little: bool, includesHeader: bool, payload: bytes)
    requires Valid(LengthPrefixed(k, little, includesHeader))
    ensures var f := LengthPrefixed(k, little, includesHeader);
            var declared := if includesHeader then k + |payload| else |payload|;
            var message := Digits(declared, k, little) + payload;
            var frame := if includesHeader then message else payload;
            && Wrap(f, frame) == message
            && (IsFrame(f, frame) <==> declared < Pow256(k))
  {
    hide Digits, Value, Pow256;
    var declared := if includesHeader then k + |payload| else |payload|;
    HeaderValue(declared, k, little, payload);
    var message := Digits(declared, k, little) + payload;
    SliceOfPrefix(message, |message|, 0, |message|);
  }

  /** A header read back gives the declared length exactly when that length fits. */
  lemma HeaderValue(declared: nat, k: nat, little: bool, payload: bytes)
    ensures var message := Digits(declared, k, little) + payload;
            && |message| == k + |payload|
            && message[k..] == payload
            && (Value(message[..k], little) == declared <==> declared < Pow256(k))
  {
    var header := Digits(declared, k, little);
    assert (header + payload)[..k] == header;
    ValueBound(header, little);
    if declared < Pow256(k) {
      ValueOfDigits(declared, k, little);
    }
  }

  /** Fixed framing: floor(N / n) frames of n consecutive bytes each, N mod n bytes kept. */
  lemma FixedFrames(n: nat, stream: bytes)
    requires n > 0
    ensures var p := Parse(Fixed(n), stream);
            && !p.threw
            && |p.frames| == |stream| / n
            && |p.rest| == |stream| % n
            && p.rest == stream[|stream| - |stream| % n..]
            && (forall i :: 0 <= i < |p.frames| ==>
                  0 <= i * n && i * n + n <= |stream| && p.frames[i] == stream[i * n..i * n + n])
  {
    var p := Parse(Fixed(n), stream);
    FixedCount(n, stream);
    TimesIsProduct(|p.frames|, n);
    QuotientUnique(|stream|, n, |p.frames|, |p.rest|);
    forall i | 0 <= i < |p.frames|
      ensures 0 <= i * n && i * n + n <= |stream| && p.frames[i] == stream[i * n..i * n + n]
    {
      FixedFrameAt(n, stream, i);
      TimesIsProduct(i, n);
    }
  }

  lemma {:induction false} FixedCount(n: nat, stream: bytes)
    requires n > 0
    ensures var p := Parse(Fixed(n), stream);
            && !p.threw
            && |p.rest| < n
            && |stream| == Times(|p.frames|, n) + |p.rest|
            && p.rest == stream[|stream| - |p.rest|..]
    decreases |stream|
  {
    if |stream| >= n {
      FixedCount(n, stream[n..]);
    }
  }

  lemma {:induction false} FixedFrameAt(n: nat, stream: bytes, i: nat)
    requires n > 0
    requires i < |Parse(Fixed(n), stream).frames|
    ensures Times(i, n) + n <= |stream|
    ensures Parse(Fixed(n), stream).frames[i] == stream[Times(i, n)..Times(i, n) + n]
    decreases |stream|
  {
    if i > 0 {
      FixedFrameAt(n, stream[n..], i - 1);
    }
  }

  /** Delimiter framing never throws, and what it keeps contains no delimiter. */
  lemma DelimitedRemainder(d: bytes, inclusive: bool, stream: bytes)
    requires d != []
    ensures var p := Parse(Delimited(d, inclusive), stream);
            !p.threw && forall j: nat :: !OccursAt(p.rest, d, j)
  {
    var f := Delimited(d, inclusive);
    ParseSplits(f, stream);
    var p := Parse(f, stream);
    assert Next(f, p.rest).Incomplete?;
    assert Search(p.rest, d, 0) == |p.rest|;
  }
}
