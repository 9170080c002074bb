/**
 The history of one stream: which raw events stand behind each frame. `es` is everything the
 stream's producer sent, including events that are not decoded.
 */
module Provenance {
  import opened Base
  import opened Decimal
  import opened Decoders
  import opened Events
  import opened Framing
  import opened Pipeline

  function StateAfter(kind: Kind, es: seq<PacketEvent>): StreamState
    requires ValidKind(kind)
  {
    if es == [] then FRESH
    else
      var n := |es| - 1;
      var st := StateAfter(kind, es[..n]);
      if Decodes(es[n]) then Decode(kind, st, es[n]).0 else st
  }

  /** The derived events of step `j`, not yet numbered. */
  function DerivedAt(kind: Kind, es: seq<PacketEvent>, j: nat): seq<PacketEvent>
    requires ValidKind(kind)
    requires j < |es|
  {
    if Decodes(es[j]) then Decode(kind, StateAfter(kind, es[..j]), es[j]).1 else []
  }

  lemma StateAfterSnoc(kind: Kind, es: seq<PacketEvent>, e: PacketEvent)
    requires ValidKind(kind)
    ensures StateAfter(kind, es + [e]) ==
            if Decodes(e) then Decode(kind, StateAfter(kind, es), e).0 else StateAfter(kind, es)
    ensures DerivedAt(kind, es + [e], |es|) ==
            if Decodes(e) then Decode(kind, StateAfter(kind, es), e).1 else []
  {
    hide Decode, Decodes;
    assert (es + [e])[..|es|] == es;
  }

  // ---------- What the history says, without looking at the recorded sequences ----------

  /** The payloads of all raw events, empty ones included. */
  function Payloads(es: seq<PacketEvent>): seq<bytes> {
    if es == [] then []
    else
      var n := |es| - 1;
      Payloads(es[..n]) + (if es[n].kind == RawBytes then [es[n].payload] else [])
  }

  /** Every byte the stream has carried, in order. */
  function Received(es: seq<PacketEvent>): bytes {
    Flatten(Payloads(es))
  }

  function NonEmpty(chunks: seq<bytes>): seq<bytes> {
    if chunks == [] then []
    else
      var n := |chunks| - 1;
      NonEmpty(chunks[..n]) + (if chunks[n] != [] then [chunks[n]] else [])
  }

  /** The sequence numbers of the events that were decoded. */
  function Sequences(es: seq<PacketEvent>): seq<nat> {
    if es == [] then []
    else
      var n := |es| - 1;
      Sequences(es[..n]) + (if Decodes(es[n]) then [es[n].sequence] else [])
  }

  lemma HistorySnoc(es: seq<PacketEvent>, e: PacketEvent)
    ensures Payloads(es + [e]) == if e.kind == RawBytes then Payloads(es) + [e.payload] else Payloads(es)
    ensures Received(es + [e]) == Received(es) + (if e.kind == RawBytes then e.payload else [])
    ensures NonEmpty(Payloads(es + [e])) ==
            NonEmpty(Payloads(es)) + (if e.kind == RawBytes && e.payload != [] then [e.payload] else [])
    ensures Sequences(es + [e]) == if Decodes(e) then Sequences(es) + [e.sequence] else Sequences(es)
  {
    assert (es + [e])[..|es|] == es;
    if e.kind == RawBytes {
      FlattenSnoc(Payloads(es), e.payload);
      assert (Payloads(es) + [e.payload])[..|Payloads(es)|] == Payloads(es);
    } else {
      assert Received(es) + [] == Received(es);
    }
  }

  /**
   The reference parse of every byte received, whatever the decoder was fed; the raw decoder gives each
   payload that is not empty.
   */
  function Reference(kind: Kind, es: seq<PacketEvent>): Parsed
    requires ValidKind(kind)
  {
    match kind
    case Raw => Parsed(NonEmpty(Payloads(es)), [], false)
    case Framed(rule) => Parse(rule, Received(es))
  }

  /** The first event after the moment, at or before step `j`, when the buffer was last empty. */
  function RunStart(kind: Kind, es: seq<PacketEvent>, j: nat): (r: nat)
    requires ValidKind(kind)
    requires j <= |es|
    ensures r <= j
  {
    if j == 0 || Reference(kind, es[..j]).rest == [] then j else RunStart(kind, es, j - 1)
  }

  lemma EmptyReference(kind: Kind)
    requires ValidKind(kind)
    ensures Reference(kind, []) == Parsed([], [], false)
  {
    if kind.Framed? {
      EmptyParse(kind.rule);
    }
  }

  lemma {:induction false} RunStartIsEmpty(kind: Kind, es: seq<PacketEvent>, j: nat)
    requires ValidKind(kind)
    requires j <= |es|
    ensures Reference(kind, es[..RunStart(kind, es, j)]).rest == []
    ensures forall i :: RunStart(kind, es, j) < i <= j ==> Reference(kind, es[..i]).rest != []
  {
    hide Reference;
    if j == 0 {
      assert es[..0] == [];
      EmptyReference(kind);
    } else if Reference(kind, es[..j]).rest != [] {
      RunStartIsEmpty(kind, es, j - 1);
    }
  }

  /** The reference after one more event, from the reference before it. */
  lemma ReferenceStep(kind: Kind, es: seq<PacketEvent>, e: PacketEvent)
    requires ValidKind(kind)
    ensures var p, q := Reference(kind, es), Reference(kind, es + [e]);
            && (!Decodes(e) ==> q == p)
            && p.frames <= q.frames
            && (p.threw ==> q.threw && q.frames == p.frames)
            && (Decodes(e) ==>
                  ConsumeAs(kind, p.rest, e.payload) ==
                    (if q.threw then Threw else Returned(q.frames[|p.frames|..]), q.rest))
  {
    hide Parse, Payloads, Received, NonEmpty, Sequences;
    HistorySnoc(es, e);
    if kind.Raw? {
      assert Decodes(e) ==> Reference(kind, es + [e]).frames[|Reference(kind, es).frames|..] == [e.payload];
    } else if Decodes(e) {
      var before := Received(es);
      ParseAppend(kind.rule, before, e.payload);
      if Parse(kind.rule, before).threw {
        ThrowIsFinal(kind.rule, before, e.payload);
      }
    } else {
      assert Received(es) + [] == Received(es);
    }
  }

  /** The sequences recorded since the buffer was last empty. */
  function RunTo(kind: Kind, es: seq<PacketEvent>): seq<nat>
    requires ValidKind(kind)
  {
    Sequences(es[RunStart(kind, es, |es|)..])
  }

  lemma RunToSnoc(kind: Kind, es: seq<PacketEvent>, e: PacketEvent)
    requires ValidKind(kind)
    ensures RunTo(kind, es + [e]) ==
            if Reference(kind, es + [e]).rest == [] then []
            else RunTo(kind, es) + (if Decodes(e) then [e.sequence] else [])
  {
    var all, n := es + [e], |es|;
    if Reference(kind, all).rest == [] {
      EmptyRun(kind, all);
    } else {
      RunExtends(kind, es, e);
      assert RunStart(kind, all, n + 1) == RunStart(kind, all, n) by {
        hide Reference;
        assert all[..n + 1] == all;
      }
    }
  }

  lemma RunExtends(kind: Kind, es: seq<PacketEvent>, e: PacketEvent)
    requires ValidKind(kind)
    ensures var r := RunStart(kind, es + [e], |es|);
            Sequences((es + [e])[r..]) == RunTo(kind, es) + (if Decodes(e) then [e.sequence] else [])
  {
    hide Reference, Decodes, Sequences;
    var all, n := es + [e], |es|;
    RunStartPrefix(kind, all, n);
    assert all[..n] == es;
    var r := RunStart(kind, es, n);
    hide RunStart;
    assert all[r..] == es[r..] + [e];
    HistorySnoc(es[r..], e);
  }

  /**
   The pipeline's bookkeeping against the history: the decoder's buffer is the remainder of the
   reference parse, and the recorded sequences are the run since the buffer was last empty,
   or nothing once the decoder has thrown.
   */
  lemma {:induction false} StateIsHistory(kind: Kind, es: seq<PacketEvent>)
    requires ValidKind(kind)
    ensures var st, p := StateAfter(kind, es), Reference(kind, es);
            && st.buffer == p.rest
            && st.seqs == if p.threw then [] else RunTo(kind, es)
  {
    if es == [] {
      assert RunTo(kind, es) == [];
      EmptyReference(kind);
    } else {
      var n := |es| - 1;
      assert es == es[..n] + [es[n]];
      StateIsHistory(kind, es[..n]);
      StateIsHistoryStep(kind, es[..n], es[n]);
    }
  }

  lemma StateIsHistoryStep(kind: Kind, es: seq<PacketEvent>, e: PacketEvent)
    requires ValidKind(kind)
    requires StateAfter(kind, es).buffer == Reference(kind, es).rest
    requires StateAfter(kind, es).seqs == if Reference(kind, es).threw then [] else RunTo(kind, es)
    ensures StateAfter(kind, es + [e]).buffer == Reference(kind, es + [e]).rest
    ensures StateAfter(kind, es + [e]).seqs ==
            if Reference(kind, es + [e]).threw then [] else RunTo(kind, es + [e])
  {
    hide Reference, ConsumeAs, Decodes, DerivedOf, RunTo, StateAfter;
    StateAfterSnoc(kind, es, e);
    ReferenceStep(kind, es, e);
    RunToSnoc(kind, es, e);
    if !Decodes(e) && Reference(kind, es).rest == [] {
      EmptyRun(kind, es);
    }
  }

  lemma EmptyRun(kind: Kind, es: seq<PacketEvent>)
    requires ValidKind(kind)
    requires Reference(kind, es).rest == []
    ensures RunTo(kind, es) == []
  {
    assert es[..|es|] == es;
    assert es[|es|..] == [];
  }

  lemma {:induction false} RunStartPrefix(kind: Kind, es: seq<PacketEvent>, j: nat)
    requires ValidKind(kind)
    requires j <= |es|
    ensures RunStart(kind, es, j) == RunStart(kind, es[..j], j)
    ensures forall k :: j <= k <= |es| ==> RunStart(kind, es[..k], j) == RunStart(kind, es, j)
  {
    forall k | j <= k <= |es| ensures RunStart(kind, es[..k], j) == RunStart(kind, es, j) {
      assert es[..k][..j] == es[..j];
      if j > 0 {
        RunStartPrefix(kind, es, j - 1);
      }
    }
  }

  /**
   Provenance. As long as the decoder has not thrown, step `j` derives exactly the frames the
   reference parse gains, and each lists exactly the run of decoded events since the buffer was
   last empty. The first throw reports that run too; after it, nothing but errors that name only
   the event that caused them.
   */
  lemma ParentsAreTheRun(kind: Kind, es: seq<PacketEvent>, j: nat)
    requires ValidKind(kind)
    requires j < |es| && Decodes(es[j])
    ensures var p, q := Reference(kind, es[..j]), Reference(kind, es[..j + 1]);
            var run := Sequences(es[RunStart(kind, es, j)..j + 1]);
            && p.frames <= q.frames
            && (!q.threw ==> DerivedAt(kind, es, j) == FramesOf(es[j], q.frames[|p.frames|..], run))
            && (q.threw && !p.threw ==> DerivedAt(kind, es, j) == [ErrorOf(es[j], run)])
            && (p.threw ==> q.threw && DerivedAt(kind, es, j) == [ErrorOf(es[j], [es[j].sequence])])
  {
    hide Reference, ConsumeAs, Decodes, RunTo, StateAfter, FramesOf, ErrorOf;
    var before, e := es[..j], es[j];
    assert es[..j + 1] == before + [e];
    StateIsHistory(kind, before);
    ReferenceStep(kind, before, e);
    RunExtends(kind, before, e);
    RunStartPrefix(kind, es, j);
    assert es[..j + 1][RunStart(kind, es, j)..] == es[RunStart(kind, es, j)..j + 1];
    assert RunStart(kind, before + [e], j) == RunStart(kind, es, j);
    var p, q := Reference(kind, before), Reference(kind, before + [e]);
    var st := StateAfter(kind, before);
    if p.threw {
      assert st.seqs + [e.sequence] == [e.sequence];
    } else {
      assert st.seqs + [e.sequence] == Sequences(es[RunStart(kind, es, j)..j + 1]);
    }
  }

  /**
   The derived events of step `j`, field by field: they stay in the stream of their raw event and carry its
   time stamp; the k-th frame event carries the k-th frame that the reference parse gains, and nothing of a
   latency measurement; an error event carries no bytes.
   */
  lemma DerivedFields(kind: Kind, es: seq<PacketEvent>, j: nat, k: nat)
    requires ValidKind(kind)
    requires j < |es| && es[j].kind == RawBytes && es[j].payload != []
    requires k < |DerivedAt(kind, es, j)|
    ensures var e, d := es[j], DerivedAt(kind, es, j)[k];
            var p, q := Reference(kind, es[..j]), Reference(kind, es[..j + 1]);
            && StreamOf(d) == StreamOf(e) && d.timestampNs == e.timestampNs && d.parentSequence == e.sequence
            && (q.threw ==> && k == 0 && d.kind == Error && d.payload == []
                            && d.summary == "decoder error: "
                                            + "length-prefix frame length is smaller than the length header")
            && (!q.threw ==> && |p.frames| + k < |q.frames|
                             && d.kind == FrameEvent && d.payload == q.frames[|p.frames| + k]
                             && d.summary == "FRAME " + NatText(|d.payload|) + " bytes" && d.decodedJson == ""
                             && d.requestSequence == 0 && d.responseSequence == 0 && d.latencyNs == 0
                             && d.requestSize == 0 && d.responseSize == 0)
  {
    hide Reference, RunStart, DerivedAt, Sequences, NatText;
    ParentsAreTheRun(kind, es, j);
  }

  // ---------- Bytes and their owners ----------

  /** Event `i` owns the stream positions from `Offset(es, i)` up to `Offset(es, i + 1)`. */
  function Offset(es: seq<PacketEvent>, i: nat): nat
    requires i <= |es|
  {
    |Received(es[..i])|
  }

  lemma {:induction false} OffsetMonotone(es: seq<PacketEvent>, i: nat, j: nat)
    requires i <= j <= |es|
    ensures Offset(es, i) <= Offset(es, j)
    decreases j
  {
    if i < j {
      OffsetMonotone(es, i, j - 1);
      OffsetStep(es, j - 1);
    }
  }

  lemma OffsetStep(es: seq<PacketEvent>, i: nat)
    requires i < |es|
    ensures Offset(es, i + 1) == Offset(es, i) + if es[i].kind == RawBytes then |es[i].payload| else 0
  {
    assert es[..i + 1] == es[..i] + [es[i]];
    HistorySnoc(es[..i], es[i]);
  }

  /** The bytes of the stream that stand for one frame. */
  function WrapAs(kind: Kind, frame: bytes): bytes {
    if kind.Raw? then frame else Wrap(kind.rule, frame)
  }

  /** Where frame `m` of `frames` starts in the stream; it ends where frame `m + 1` starts. */
  function FrameStart(kind: Kind, frames: seq<bytes>, m: nat): nat
    requires m <= |frames|
  {
    if m == 0 then 0 else FrameStart(kind, frames, m - 1) + |WrapAs(kind, frames[m - 1])|
  }

  lemma {:induction false} FrameStartPrefix(kind: Kind, frames: seq<bytes>, more: seq<bytes>, m: nat)
    requires m <= |frames|
    requires frames <= more
    ensures FrameStart(kind, frames, m) == FrameStart(kind, more, m)
  {
    if m > 0 {
      FrameStartPrefix(kind, frames, more, m - 1);
    }
  }

  lemma {:induction false} FrameStartMonotone(kind: Kind, frames: seq<bytes>, m: nat, k: nat)
    requires m <= k <= |frames|
    ensures FrameStart(kind, frames, m) <= FrameStart(kind, frames, k)
    decreases k
  {
    if m < k {
      FrameStartMonotone(kind, frames, m, k - 1);
    }
  }

  lemma {:induction false} FrameStartIsLength(f: Rule, frames: seq<bytes>)
    requires Framing.Valid(f)
    ensures FrameStart(Framed(f), frames, |frames|) == |Flatten(Wraps(f, frames))|
  {
    if frames != [] {
      var n := |frames| - 1;
      FrameStartIsLength(f, frames[..n]);
      FrameStartPrefix(Framed(f), frames[..n], frames, n);
      assert Wraps(f, frames)[..n] == Wraps(f, frames[..n]);
      FlattenLast(Wraps(f, frames));
    }
  }

  lemma {:induction false} RawFrameStart(frames: seq<bytes>)
    ensures FrameStart(Raw, frames, |frames|) == |Flatten(frames)|
  {
    if frames != [] {
      var n := |frames| - 1;
      RawFrameStart(frames[..n]);
      FrameStartPrefix(Raw, frames[..n], frames, n);
      FlattenLast(frames);
    }
  }

  lemma {:induction false} NonEmptyKeepsBytes(chunks: seq<bytes>)
    ensures Flatten(NonEmpty(chunks)) == Flatten(chunks)
  {
    if chunks != [] {
      var n := |chunks| - 1;
      NonEmptyKeepsBytes(chunks[..n]);
      FlattenLast(chunks);
      FlattenSnoc(NonEmpty(chunks[..n]), chunks[n]);
      assert NonEmpty(chunks[..n]) + [] == NonEmpty(chunks[..n]);
    }
  }

  /** The bytes not yet in a frame are exactly the remainder. */
  lemma ConsumedSoFar(kind: Kind, es: seq<PacketEvent>, j: nat)
    requires ValidKind(kind)
    requires j <= |es|
    ensures var p := Reference(kind, es[..j]);
            FrameStart(kind, p.frames, |p.frames|) + |p.rest| == |Received(es[..j])|
  {
    var p := Reference(kind, es[..j]);
    if kind.Framed? {
      ParseSplits(kind.rule, Received(es[..j]));
      FrameStartIsLength(kind.rule, p.frames);
    } else {
      RawFrameStart(p.frames);
      NonEmptyKeepsBytes(Payloads(es[..j]));
    }
  }

  /** Frame `m` of the reference parse is the stretch of the stream from its start to its end. */
  lemma FrameOccupies(f: Rule, stream: bytes, m: nat)
    requires Framing.Valid(f)
    requires m < |Parse(f, stream).frames|
    ensures var frames := Parse(f, stream).frames;
            var a, b := FrameStart(Framed(f), frames, m), FrameStart(Framed(f), frames, m + 1);
            a < b <= |stream| && stream[a..b] == Wrap(f, frames[m])
  {
    hide Next, Parse, Wrap;
    var p := Parse(f, stream);
    ParseSplits(f, stream);
    var ws := Wraps(f, p.frames);
    MiddlePart(ws, m);
    var before, after := Flatten(ws[..m]), Flatten(ws[m + 1..]) + p.rest;
    assert stream == before + ws[m] + after;
    assert stream[|before|..|before| + |ws[m]|] == ws[m];
    assert Wraps(f, p.frames[..m]) == ws[..m];
    FrameStartIsLength(f, p.frames[..m]);
    FrameStartPrefix(Framed(f), p.frames[..m], p.frames, m);
    assert IsFrame(f, p.frames[m]);
  }

  lemma MiddlePart(parts: seq<bytes>, m: nat)
    requires m < |parts|
    ensures Flatten(parts) == Flatten(parts[..m]) + parts[m] + Flatten(parts[m + 1..])
  {
    assert parts == parts[..m] + parts[m..];
    FlattenAppend(parts[..m], parts[m..]);
  }

  lemma {:induction false} SequencesContain(es: seq<PacketEvent>, i: nat)
    requires i < |es| && Decodes(es[i])
    ensures es[i].sequence in Sequences(es)
  {
    var n := |es| - 1;
    if i < n {
      SequencesContain(es[..n], i);
    }
  }

  /** Step `j` decodes without error and completes frame `m`. */
  predicate CompletedAt(kind: Kind, es: seq<PacketEvent>, j: nat, m: nat)
    requires ValidKind(kind) && j < |es|
  {
    && Decodes(es[j])
    && !Reference(kind, es[..j + 1]).threw
    && |Reference(kind, es[..j]).frames| <= m < |Reference(kind, es[..j + 1]).frames|
  }

  /** The bytes of event `i` and the stretch of frame `m` meet. */
  predicate OwnsByteOf(kind: Kind, es: seq<PacketEvent>, i: nat, frames: seq<bytes>, m: nat)
    requires i < |es| && m < |frames|
  {
    && Offset(es, i) < Offset(es, i + 1)
    && Offset(es, i) < FrameStart(kind, frames, m + 1)
    && FrameStart(kind, frames, m) < Offset(es, i + 1)
  }

  /** Every event that owns a byte of a frame is among the parents of that frame. */
  lemma OwnersAreParents(kind: Kind, es: seq<PacketEvent>, j: nat, m: nat, i: nat)
    requires ValidKind(kind)
    requires j < |es| && i < |es|
    ensures CompletedAt(kind, es, j, m) && OwnsByteOf(kind, es, i, Reference(kind, es[..j + 1]).frames, m) ==>
              var p := Reference(kind, es[..j]);
              && m - |p.frames| < |DerivedAt(kind, es, j)|
              && var frame := DerivedAt(kind, es, j)[m - |p.frames|];
                 frame.payload == Reference(kind, es[..j + 1]).frames[m] && es[i].sequence in frame.parentSequences
  {
    hide OwnsByteOf, Reference, DerivedAt;
    if CompletedAt(kind, es, j, m) && OwnsByteOf(kind, es, i, Reference(kind, es[..j + 1]).frames, m) {
      OwnerIsParent(kind, es, j, m, i);
    }
  }

  lemma OwnerIsParent(kind: Kind, es: seq<PacketEvent>, j: nat, m: nat, i: nat)
    requires ValidKind(kind)
    requires j < |es| && i < |es|
    requires CompletedAt(kind, es, j, m) && OwnsByteOf(kind, es, i, Reference(kind, es[..j + 1]).frames, m)
    ensures var p := Reference(kind, es[..j]);
            && m - |p.frames| < |DerivedAt(kind, es, j)|
            && var frame := DerivedAt(kind, es, j)[m - |p.frames|];
               frame.payload == Reference(kind, es[..j + 1]).frames[m] && es[i].sequence in frame.parentSequences
  {
    hide Reference, RunStart, Sequences, DerivedAt, Received, FrameStart;
    ParentsAreTheRun(kind, es, j);
    var p, q := Reference(kind, es[..j]), Reference(kind, es[..j + 1]);
    var r := RunStart(kind, es, j);
    // The frame starts no earlier than the bytes of event r, which come after an empty buffer.
    RunStartIsEmpty(kind, es, j);
    ConsumedSoFar(kind, es, r);
    var atR := Reference(kind, es[..r]);
    ReferenceGrows(kind, es, r, j);
    FrameStartPrefix(kind, atR.frames, q.frames, |atR.frames|);
    FrameStartMonotone(kind, q.frames, |atR.frames|, m);
    if i < r {
      OffsetMonotone(es, i + 1, r);
    }
    // The frame ends no later than the bytes of event j.
    ConsumedSoFar(kind, es, j + 1);
    FrameStartMonotone(kind, q.frames, m + 1, |q.frames|);
    if i > j {
      OffsetMonotone(es, j + 1, i);
    }
    assert r <= i <= j;
    OffsetStep(es, i);
    assert es[r..j + 1][i - r] == es[i];
    SequencesContain(es[r..j + 1], i - r);
  }

  lemma {:induction false} ReferenceGrows(kind: Kind, es: seq<PacketEvent>, i: nat, j: nat)
    requires ValidKind(kind)
    requires i <= j <= |es|
    ensures Reference(kind, es[..i]).frames <= Reference(kind, es[..j]).frames
    decreases j
  {
    if i < j {
      ReferenceGrows(kind, es, i, j - 1);
      assert es[..j] == es[..j - 1] + [es[j - 1]];
      ReferenceStep(kind, es[..j - 1], es[j - 1]);
    }
  }

  // ---------- Order of the recorded numbers ----------

  predicate Increasing(s: seq<nat>) {
    forall i, j :: 0 <= i < j < |s| ==> s[i] < s[j]
  }

  /** The producer of the stream numbers its events in increasing order. */
  predicate NumberedInOrder(es: seq<PacketEvent>) {
    forall i, j :: 0 <= i < j < |es| ==> es[i].sequence < es[j].sequence
  }

  lemma {:induction false} SequencesIncrease(es: seq<PacketEvent>)
    requires NumberedInOrder(es)
    ensures Increasing(Sequences(es))
    ensures es == [] ==> Sequences(es) == []
    ensures es != [] ==> forall i :: 0 <= i < |Sequences(es)| ==> Sequences(es)[i] <= es[|es| - 1].sequence
  {
    if es != [] {
      var n := |es| - 1;
      var before, last := es[..n], es[n].sequence;
      SequencesIncrease(before);
      var xs := Sequences(before);
      assert forall i :: 0 <= i < |xs| ==> xs[i] < last by {
        assert n > 0 ==> before[|before| - 1].sequence < last;
      }
      assert Sequences(es) == if Decodes(es[n]) then xs + [last] else xs;
    }
  }

  lemma DerivedParents(kind: Kind, es: seq<PacketEvent>, j: nat)
    requires ValidKind(kind)
    requires j < |es| && Decodes(es[j])
    ensures forall d :: d in DerivedAt(kind, es, j) ==>
              && d.parentSequence == es[j].sequence
              && (d.parentSequences == Sequences(es[RunStart(kind, es, j)..j + 1])
                  || d.parentSequences == [es[j].sequence])
  {
    hide Reference, Decodes, RunStart, DerivedAt, Sequences;
    ParentsAreTheRun(kind, es, j);
  }

  /** The list is strictly increasing and ends with `last`. */
  predicate ClimbsTo(s: seq<nat>, last: nat) {
    Increasing(s) && s != [] && s[|s| - 1] == last && forall n :: n in s ==> n <= last
  }

  lemma RunClimbs(es: seq<PacketEvent>)
    requires NumberedInOrder(es) && es != [] && Decodes(es[|es| - 1])
    ensures ClimbsTo(Sequences(es), es[|es| - 1].sequence)
  {
    hide Decodes, NumberedInOrder;
    SequencesIncrease(es);
  }

  /** Parent lists are strictly increasing and end with the event that completed the frame. */
  lemma ParentsIncrease(kind: Kind, es: seq<PacketEvent>, j: nat)
    requires ValidKind(kind)
    requires j < |es| && Decodes(es[j])
    requires NumberedInOrder(es)
    ensures forall d :: d in DerivedAt(kind, es, j) ==>
              ClimbsTo(d.parentSequences, es[j].sequence) && d.parentSequence == es[j].sequence
  {
    hide Reference, Decodes, RunStart, DerivedAt, Sequences;
    DerivedParents(kind, es, j);
    var run := es[RunStart(kind, es, j)..j + 1];
    RunClimbs(run);
    assert ClimbsTo([es[j].sequence], es[j].sequence);
  }
}
