/** The event pipeline: many streams, one lazily created decoder each, one sequence allocator. */
module Pipeline {
  import opened Base
  import opened Decimal
  import opened Decoders
  import opened Events
  import opened Framing

  /** `std::atomic<std::uint64_t>` starting at 1; `fetch_add` wraps at 2^64. */
  class SequenceAllocator {
    var counter: nat

    ghost predicate Valid()
      reads this
    {
      counter < TWO_64
    }

    constructor ()
      ensures Valid() && counter == 1
    {
      counter := 1;
    }

    /** One `fetch_add`, after `others` of other threads. */
    method Next(others: nat) returns (n: nat)
      requires Valid()
      modifies this
      ensures Valid() && n == (old(counter) + others) % TWO_64 && counter == (old(counter) + others + 1) % TWO_64
    {
      n := (counter + others) % TWO_64;
      counter := (n + 1) % TWO_64;
    }
  }

  // ---------- One stream ----------

  /** What the pipeline keeps for one stream: the decoder's buffer and the raw sequences. */
  datatype StreamState = StreamState(buffer: bytes, seqs: seq<nat>)

  const FRESH: StreamState := StreamState([], [])

  /** Raw events with a payload are decoded; everything else only passes through. */
  predicate Decodes(e: PacketEvent) {
    e.kind == RawBytes && e.payload != []
  }

  const UNDERSIZED: string := "length-prefix frame length is smaller than the length header"

  // Derived events are built with sequence 0 here; `Numbered` gives them their numbers.

  function FrameOf(parent: PacketEvent, frame: bytes, parents: seq<nat>): PacketEvent {
    parent.(sequence := 0,
            parentSequence := parent.sequence,
            parentSequences := parents,
            kind := FrameEvent,
            payload := frame,
            summary := "FRAME " + NatText(|frame|) + " bytes",
            decodedJson := "",
            requestSequence := 0, responseSequence := 0, latencyNs := 0, requestSize := 0, responseSize := 0)
  }

  function FramesOf(parent: PacketEvent, frames: seq<bytes>, parents: seq<nat>): (r: seq<PacketEvent>)
    ensures |r| == |frames|
  {
    seq(|frames|, i requires 0 <= i < |frames| => FrameOf(parent, frames[i], parents))
  }

  function ErrorOf(parent: PacketEvent, parents: seq<nat>): PacketEvent {
    parent.(sequence := 0,
            parentSequence := parent.sequence,
            parentSequences := parents,
            kind := Error,
            payload := [],
            summary := "decoder error: " + UNDERSIZED)
  }

  function DerivedOf(e: PacketEvent, outcome: Outcome, parents: seq<nat>): seq<PacketEvent> {
    match outcome
    case Returned(frames) => FramesOf(e, frames, parents)
    case Threw => [ErrorOf(e, parents)]
  }

  /** The part of `consume` that runs under the lock, without the numbering. */
  function Decode(kind: Kind, st: StreamState, e: PacketEvent): (StreamState, seq<PacketEvent>)
    requires ValidKind(kind)
  {
    var (outcome, buffer) := ConsumeAs(kind, st.buffer, e.payload);
    var parents := st.seqs + [e.sequence];
    (StreamState(buffer, if outcome.Threw? || buffer == [] then [] else parents), DerivedOf(e, outcome, parents))
  }

  // How many numbers other threads take right before each number of one call.
  type Gaps = nat -> nat

  /** The numbers others take up to and including the gap before number `n - 1`. */
  function Skipped(gaps: Gaps, n: nat): nat {
    if n == 0 then 0 else Skipped(gaps, n - 1) + gaps(n - 1)
  }

  function NumberAt(counter: nat, gaps: Gaps, i: nat): nat {
    (counter + Skipped(gaps, i + 1) + i) % TWO_64
  }

  function Numbered(events: seq<PacketEvent>, counter: nat, gaps: Gaps): (r: seq<PacketEvent>)
    ensures |r| == |events|
  {
    seq(|events|, i requires 0 <= i < |events| => events[i].(sequence := NumberAt(counter, gaps, i)))
  }

  function Lookup(streams: map<string, StreamState>, key: string): StreamState {
    if key in streams then streams[key] else FRESH
  }

  /** One decoding step of the whole pipeline: only the stream of the event moves. */
  function Step(kind: Kind, streams: map<string, StreamState>, e: PacketEvent)
    : (map<string, StreamState>, seq<PacketEvent>)
    requires ValidKind(kind)
  {
    var key := StreamKey(e);
    var (st, derived) := Decode(kind, Lookup(streams, key), e);
    (streams[key := st], derived)
  }

  /** The counter after `n` numbers of one call. */
  function Advance(counter: nat, gaps: Gaps, n: nat): nat {
    (counter + Skipped(gaps, n) + n) % TWO_64
  }

  lemma AdvanceStep(counter: nat, gaps: Gaps, i: nat)
    ensures (Advance(counter, gaps, i) + gaps(i)) % TWO_64 == NumberAt(counter, gaps, i)
    ensures (Advance(counter, gaps, i) + gaps(i) + 1) % TWO_64 == Advance(counter, gaps, i + 1)
  {
    AddToRemainder(counter + Skipped(gaps, i) + i, gaps(i));
    AddToRemainder(counter + Skipped(gaps, i) + i, gaps(i) + 1);
  }

  lemma AdvanceNothing(counter: nat, gaps: Gaps)
    requires counter < TWO_64
    ensures Advance(counter, gaps, 0) == counter
  {
    NoWrap(counter);
  }

  lemma AddToRemainder(a: nat, b: nat)
    ensures (a % TWO_64 + b) % TWO_64 == (a + b) % TWO_64
  {
  }

  lemma {:induction false} SkippedGrows(gaps: Gaps, i: nat, j: nat)
    requires i <= j
    ensures Skipped(gaps, i) <= Skipped(gaps, j)
  {
    if i < j {
      SkippedGrows(gaps, i, j - 1);
    }
  }

  lemma {:induction false} SkippedZero(gaps: Gaps, n: nat)
    ensures Skipped(gaps, n) == 0 <==> forall i :: 0 <= i < n ==> gaps(i) == 0
  {
    if n > 0 {
      SkippedZero(gaps, n - 1);
    }
  }

  /**
   The numbers of one call increase, whatever other threads do meanwhile; they are consecutive exactly when
   no other thread takes a number in between.
   */
  lemma NumbersOfACall(counter: nat, gaps: Gaps, n: nat)
    requires counter + Skipped(gaps, n) + n <= TWO_64
    ensures forall i, j :: 0 <= i < j < n ==> NumberAt(counter, gaps, i) < NumberAt(counter, gaps, j)
    ensures forall i :: 0 <= i < n ==> counter <= NumberAt(counter, gaps, i)
    ensures (forall i :: 0 <= i < n ==> NumberAt(counter, gaps, i) == counter + i) <==>
            (forall i :: 0 <= i < n ==> gaps(i) == 0)
    ensures (forall i :: 0 <= i < n ==> gaps(i) == 0) <==> Skipped(gaps, n) == 0
    ensures n > 0 ==> NumberAt(counter, gaps, n - 1) == counter + Skipped(gaps, n) + (n - 1)
  {
    hide *;
    SkippedZero(gaps, n);
    ConsecutiveIff(counter, gaps, n);
    forall i | 0 <= i < n ensures counter <= NumberAt(counter, gaps, i) {
      NumberIs(counter, gaps, n, i);
    }
    forall i, j | 0 <= i < j < n ensures NumberAt(counter, gaps, i) < NumberAt(counter, gaps, j) {
      NumberIs(counter, gaps, n, i);
      NumberIs(counter, gaps, n, j);
      SkippedGrows(gaps, i + 1, j + 1);
    }
    if n > 0 {
      NumberIs(counter, gaps, n, n - 1);
    }
  }

  lemma ConsecutiveIff(counter: nat, gaps: Gaps, n: nat)
    requires counter + Skipped(gaps, n) + n <= TWO_64
    ensures (forall i :: 0 <= i < n ==> NumberAt(counter, gaps, i) == counter + i) <==> Skipped(gaps, n) == 0
  {
    if Skipped(gaps, n) == 0 {
      hide *;
      forall i | 0 <= i < n ensures NumberAt(counter, gaps, i) == counter + i {
        NumberIs(counter, gaps, n, i);
      }
    } else {
      assert n > 0;
      hide *;
      NumberIs(counter, gaps, n, n - 1);
    }
  }

  lemma NumberIs(counter: nat, gaps: Gaps, n: nat, i: nat)
    requires i < n && counter + Skipped(gaps, n) + n <= TWO_64
    ensures NumberAt(counter, gaps, i) == counter + Skipped(gaps, i + 1) + i
    ensures Skipped(gaps, i + 1) <= Skipped(gaps, n)
  {
    hide Skipped;
    SkippedGrows(gaps, i + 1, n);
    NoWrap(counter + Skipped(gaps, i + 1) + i);
  }

  lemma UpdateTwice<V>(m: map<string, V>, key: string, a: V, b: V)
    ensures m[key := a][key := b] == m[key := b]
  {
  }

  // ---------- The class ----------

  class EventPipeline {
    const factory: Option<DecoderConfig>
    const hasSink: bool
    const allocator: SequenceAllocator
    var decoders: map<string, FrameDecoder>
    var streamRawSequences: map<string, seq<nat>>
    // Everything the sink was given, in order.
    var delivered: seq<PacketEvent>
    // The decoder objects, each with the only key that uses it.
    ghost var owner: map<object, string>
    // The abstract state: what is kept for each stream.
    ghost var streams: map<string, StreamState>

    ghost predicate Valid()
      reads this, allocator, owner.Keys
    {
      && allocator.Valid()
      && this !in owner && allocator !in owner
      && decoders.Keys == streamRawSequences.Keys == streams.Keys
      && (forall k :: k in decoders ==> Owned(k, decoders[k]))
    }

    ghost predicate Owned(key: string, decoder: FrameDecoder)
      requires key in streamRawSequences && key in streams
      reads this, owner.Keys
    {
      && decoder.Valid()
      && factory.Some? && KindOf(factory.value).Ok? && decoder.Kind() == KindOf(factory.value).value
      && decoder.Ref() in owner && owner[decoder.Ref()] == key
      && streams[key] == StreamState(decoder.Buffer(), streamRawSequences[key])
    }

    constructor (factory: Option<DecoderConfig>, hasSink: bool, allocator: SequenceAllocator)
      requires allocator.Valid()
      ensures Valid() && streams == map[] && delivered == [] && owner == map[]
      ensures this.factory == factory && this.hasSink == hasSink && this.allocator == allocator
    {
      this.factory := factory;
      this.hasSink := hasSink;
      this.allocator := allocator;
      decoders := map[];
      streamRawSequences := map[];
      delivered := [];
      owner := map[];
      streams := map[];
    }

    /** `make_frame_event`. */
    method MakeFrameEvent(parent: PacketEvent, payload: bytes, parents: seq<nat>, others: nat)
      returns (frame: PacketEvent)
      requires allocator.Valid()
      modifies allocator
      ensures allocator.Valid()
      ensures frame == FrameOf(parent, payload, parents).(sequence := (old(allocator.counter) + others) % TWO_64)
      ensures allocator.counter == (old(allocator.counter) + others + 1) % TWO_64
    {
      var n := allocator.Next(others);
      frame := parent.(
        sequence := n,
        parentSequence := parent.sequence,
        parentSequences := parents,
        kind := FrameEvent,
        payload := payload,
        summary := "FRAME " + NatText(|payload|) + " bytes",
        decodedJson := "",
        requestSequence := 0, responseSequence := 0, latencyNs := 0, requestSize := 0, responseSize := 0);
    }

    /** Numbers frames in order; each number is one `fetch_add`. */
    method MakeFrameEvents(parent: PacketEvent, frames: seq<bytes>, parents: seq<nat>, gaps: Gaps)
      returns (derived: seq<PacketEvent>)
      requires allocator.Valid()
      modifies allocator
      ensures allocator.Valid()
      ensures derived == Numbered(FramesOf(parent, frames, parents), old(allocator.counter), gaps)
      ensures allocator.counter == Advance(old(allocator.counter), gaps, |frames|)
    {
      hide FrameOf, NumberAt, Advance;
      derived := [];
      AdvanceNothing(allocator.counter, gaps);
      for i := 0 to |frames|
        invariant allocator.Valid()
        invariant allocator.counter == Advance(old(allocator.counter), gaps, i)
        invariant derived == Numbered(FramesOf(parent, frames, parents), old(allocator.counter), gaps)[..i]
      {
        AdvanceStep(old(allocator.counter), gaps, i);
        var e := MakeFrameEvent(parent, frames[i], parents, gaps(i));
        derived := derived + [e];
      }
    }

    /** The decoder of a stream, created on first use; the factory may throw. */
    method FindOrCreate(key: string) returns (r: Result<FrameDecoder>)
      requires Valid() && factory.Some?
      modifies this
      ensures Valid() && fresh(owner.Keys - old(owner.Keys)) && old(owner.Keys) <= owner.Keys
      ensures delivered == old(delivered)
      ensures r.Ok? <==> KindOf(factory.value).Ok?
      ensures r.Err? ==> r.error == KindOf(factory.value).error && streams == old(streams)
      ensures r.Ok? ==> && key in decoders
                        && decoders[key] == r.value
                        && streams == old(streams)[key := Lookup(old(streams), key)]
    {
      hide KindOf;
      hide FrameDecoder.Ref, FrameDecoder.Buffer, FrameDecoder.Kind, FrameDecoder.Valid;
      if key in decoders {
        return Ok(decoders[key]);
      }
      r := CreateFrameDecoder(factory.value);
      if r.Ok? {
        Insert(key, r.value);
      }
    }

    /** `Owned`, from its parts. */
    lemma OwnedFromParts(key: string, decoder: FrameDecoder)
      requires key in streamRawSequences && key in streams
      requires streams[key] == StreamState(decoder.Buffer(), streamRawSequences[key])
      requires factory.Some? && KindOf(factory.value).Ok?
      requires decoder.Valid() && decoder.Kind() == KindOf(factory.value).value
      requires decoder.Ref() in owner && owner[decoder.Ref()] == key
      ensures Owned(key, decoder)
    {
      hide KindOf, FrameDecoder.Ref, FrameDecoder.Buffer, FrameDecoder.Kind, FrameDecoder.Valid;
    }

    lemma PartsOfOwned(key: string)
      requires Valid() && key in decoders
      ensures var d := decoders[key];
              && streams[key] == StreamState(d.Buffer(), streamRawSequences[key])
              && factory.Some? && KindOf(factory.value).Ok?
              && d.Valid() && d.Kind() == KindOf(factory.value).value
              && d.Ref() in owner && owner[d.Ref()] == key && d.Ref() != this
    {
      hide KindOf, FrameDecoder.Ref, FrameDecoder.Buffer, FrameDecoder.Kind, FrameDecoder.Valid;
      assert Owned(key, decoders[key]);
    }

    method AddEntry(key: string, decoder: FrameDecoder)
      requires decoder.Ref() != this
      modifies this`decoders, this`streamRawSequences, this`owner, this`streams
      ensures decoders == old(decoders)[key := decoder] && streamRawSequences == old(streamRawSequences)[key := []]
      ensures owner == old(owner)[decoder.Ref() := key] && streams == old(streams)[key := FRESH]
      ensures decoder.Buffer() == old(decoder.Buffer())
    {
      decoders := decoders[key := decoder];
      streamRawSequences := streamRawSequences[key := []];
      owner := owner[decoder.Ref() := key];
      streams := streams[key := FRESH];
    }

    method Insert(key: string, decoder: FrameDecoder)
      requires Valid() && factory.Some? && KindOf(factory.value).Ok?
      requires key !in decoders
      requires decoder.Valid() && decoder.Kind() == KindOf(factory.value).value && decoder.Buffer() == []
      requires decoder.Ref() !in owner && decoder.Ref() != this && decoder.Ref() != allocator
      modifies this`decoders, this`streamRawSequences, this`owner, this`streams
      ensures Valid() && owner == old(owner)[decoder.Ref() := key]
      ensures key in decoders && decoders[key] == decoder
      ensures streams == old(streams)[key := FRESH]
    {
      hide KindOf;
      hide FrameDecoder.Ref, FrameDecoder.Buffer, FrameDecoder.Kind, FrameDecoder.Valid, EventPipeline.Owned;
      forall k | k in decoders
        ensures var d := decoders[k];
                && streams[k] == StreamState(d.Buffer(), streamRawSequences[k])
                && d.Valid() && d.Kind() == KindOf(factory.value).value
                && d.Ref() in owner && owner[d.Ref()] == k && d.Ref() != this
      {
        PartsOfOwned(k);
      }
      AddEntry(key, decoder);
      forall k | k in decoders ensures Owned(k, decoders[k]) {
        var d := decoders[k];
        if k != key {
          assert d == old(decoders[k]) && d.Ref() in old(owner) && d.Buffer() == old(d.Buffer());
        }
        OwnedFromParts(k, d);
      }
    }

    method Deliver(events: seq<PacketEvent>)
      modifies this`delivered
      ensures delivered == old(delivered) + events
    {
      for i := 0 to |events|
        invariant delivered == old(delivered) + events[..i]
      {
        delivered := delivered + [events[i]];
      }
      assert events[..|events|] == events;
    }

    method Consume(event: PacketEvent, gaps: Gaps) returns (r: Result<()>)
      requires Valid()
      modifies this, allocator, owner.Keys
      ensures Valid() && fresh(owner.Keys - old(owner.Keys))
      // Without a sink nothing happens at all.
      ensures !hasSink ==> r.Ok? && delivered == old(delivered) && streams == old(streams)
                           && allocator.counter == old(allocator.counter)
      // Events that are not decoded are delivered unchanged.
      ensures hasSink && !(event.kind == RawBytes && event.payload != [] && factory.Some?) ==>
                && r.Ok? && delivered == old(delivered) + [event]
                && streams == old(streams) && allocator.counter == old(allocator.counter)
      // A factory that throws does so after the raw event was delivered.
      ensures hasSink && event.kind == RawBytes && event.payload != []
              && factory.Some? && KindOf(factory.value).Err? ==>
                && r == Err(KindOf(factory.value).error) && delivered == old(delivered) + [event]
                && streams == old(streams) && allocator.counter == old(allocator.counter)
      // Otherwise the stream takes one decoding step and no other stream changes.
      ensures hasSink && event.kind == RawBytes && event.payload != [] && factory.Some? && KindOf(factory.value).Ok? ==>
                var (after, derived) := Step(KindOf(factory.value).value, old(streams), event);
                && r.Ok?
                && streams == after
                && delivered == old(delivered) + [event] + Numbered(derived, old(allocator.counter), gaps)
                && allocator.counter == Advance(old(allocator.counter), gaps, |derived|)
    {
      hide KindOf, Step, Numbered, StreamKey, Advance;
      hide FrameDecoder.Ref, FrameDecoder.Buffer, FrameDecoder.Kind, FrameDecoder.Valid;
      if !hasSink {
        return Ok(());
      }
      delivered := delivered + [event];
      if event.kind != RawBytes || event.payload == [] || factory.None? {
        return Ok(());
      }
      var derived := ConsumeLocked(event, gaps);
      if derived.Err? {
        return Err(derived.error);
      }
      Deliver(derived.value);
      return Ok(());
    }

    /** The critical section: everything that touches the decoders and the sequence lists. */
    method ConsumeLocked(event: PacketEvent, gaps: Gaps) returns (r: Result<seq<PacketEvent>>)
      requires Valid() && factory.Some?
      modifies this, allocator, owner.Keys
      ensures Valid() && fresh(owner.Keys - old(owner.Keys)) && delivered == old(delivered)
      ensures r.Ok? <==> KindOf(factory.value).Ok?
      ensures r.Err? ==> && r.error == KindOf(factory.value).error
                         && streams == old(streams) && allocator.counter == old(allocator.counter)
      ensures r.Ok? ==>
                var (after, derived) := Step(KindOf(factory.value).value, old(streams), event);
                && streams == after
                && r.value == Numbered(derived, old(allocator.counter), gaps)
                && allocator.counter == Advance(old(allocator.counter), gaps, |derived|)
    {
      hide KindOf, Decode, Numbered, StreamKey, Lookup, Advance;
      hide FrameDecoder.Ref, FrameDecoder.Buffer, FrameDecoder.Kind, FrameDecoder.Valid;
      var key := StreamKey(event);
      var found := FindOrCreate(key);
      if found.Err? {
        return Err(found.error);
      }
      assert Owned(key, found.value);
      ghost var entry := Lookup(old(streams), key);
      ghost var (st, _) := Decode(found.value.Kind(), entry, event);
      assert streams[key] == entry;
      UpdateTwice(old(streams), key, entry, st);
      var derived := DecodeLocked(event, key, gaps);
      return Ok(derived);
    }

    /** The derived events of one `consume`, numbered as they are built. */
    method MakeDerived(event: PacketEvent, outcome: Outcome, seqs: seq<nat>, gaps: Gaps)
      returns (derived: seq<PacketEvent>)
      requires allocator.Valid()
      modifies allocator
      ensures allocator.Valid()
      ensures var events := DerivedOf(event, outcome, seqs);
              && derived == Numbered(events, old(allocator.counter), gaps)
              && allocator.counter == Advance(old(allocator.counter), gaps, |events|)
    {
      if outcome.Returned? {
        derived := MakeFrameEvents(event, outcome.frames, seqs, gaps);
      } else {
        AdvanceNothing(allocator.counter, gaps);
        AdvanceStep(allocator.counter, gaps, 0);
        var n := allocator.Next(gaps(0));
        var error := event.(
          sequence := n,
          parentSequence := event.sequence,
          parentSequences := seqs,
          kind := Error,
          payload := [],
          summary := "decoder error: " + UNDERSIZED);
        derived := [error];
      }
    }

    /** Feeds the stream's decoder; the other decoders are different objects. */
    method FeedDecoder(key: string, payload: bytes) returns (outcome: Outcome)
      requires Valid() && key in decoders
      modifies this`streams, decoders[key].Ref()
      ensures Valid() && decoders == old(decoders)
      ensures streams.Keys == old(streams.Keys)
      ensures (outcome, streams[key].buffer) == ConsumeAs(decoders[key].Kind(), old(streams[key].buffer), payload)
      ensures streams == old(streams)[key := old(streams[key]).(buffer := streams[key].buffer)]
      ensures decoders[key].Buffer() == streams[key].buffer
    {
      hide KindOf, ConsumeAs;
      hide FrameDecoder.Ref, FrameDecoder.Buffer, FrameDecoder.Kind, FrameDecoder.Valid;
      var decoder := decoders[key];
      assert Owned(key, decoder);
      outcome := decoder.Consume(payload);
      streams := streams[key := streams[key].(buffer := decoder.Buffer())];
    }

    method SetSequences(key: string, seqs: seq<nat>)
      requires Valid() && key in decoders
      modifies this`streamRawSequences, this`streams
      ensures Valid() && streams == old(streams)[key := old(streams[key]).(seqs := seqs)]
      ensures streamRawSequences == old(streamRawSequences)[key := seqs]
    {
      hide KindOf, FrameDecoder.Ref, FrameDecoder.Buffer, FrameDecoder.Kind, FrameDecoder.Valid;
      streamRawSequences := streamRawSequences[key := seqs];
      streams := streams[key := streams[key].(seqs := seqs)];
    }

    /** Records the sequence and feeds the decoder. */
    method RecordAndFeed(event: PacketEvent, key: string) returns (outcome: Outcome)
      requires Valid() && key in decoders
      modifies this`streamRawSequences, this`streams, decoders[key].Ref()
      ensures Valid() && decoders[key].Buffer() == streams[key].buffer
      ensures key in streams && key in streamRawSequences
      ensures var before := old(streams)[key];
              var (fed, buffer) := ConsumeAs(decoders[key].Kind(), before.buffer, event.payload);
              outcome == fed && streams == old(streams)[key := StreamState(buffer, before.seqs + [event.sequence])]
      ensures streamRawSequences[key] == streams[key].seqs
    {
      hide KindOf, ConsumeAs;
      hide FrameDecoder.Ref, FrameDecoder.Buffer, FrameDecoder.Kind, FrameDecoder.Valid;
      assert Owned(key, decoders[key]);
      hide EventPipeline.Valid, EventPipeline.Owned;
      ghost var before := streams;
      SetSequences(key, streamRawSequences[key] + [event.sequence]);
      outcome := FeedDecoder(key, event.payload);
      UpdateTwice(before, key, before[key].(seqs := before[key].seqs + [event.sequence]), streams[key]);
    }

    /** The body of the critical section, once the decoder exists. */
    method DecodeLocked(event: PacketEvent, key: string, gaps: Gaps) returns (derived: seq<PacketEvent>)
      requires Valid() && key in decoders
      modifies this`streamRawSequences, this`streams, allocator, decoders[key].Ref()
      ensures Valid()
      ensures var (st, events) := Decode(decoders[key].Kind(), old(streams)[key], event);
              && streams == old(streams)[key := st]
              && derived == Numbered(events, old(allocator.counter), gaps)
              && allocator.counter == Advance(old(allocator.counter), gaps, |events|)
    {
      hide KindOf, ConsumeAs, DerivedOf, Numbered, Advance;
      hide FrameDecoder.Ref, FrameDecoder.Buffer, FrameDecoder.Kind, FrameDecoder.Valid;
      assert Owned(key, decoders[key]) && decoders[key].Ref() != allocator;
      hide EventPipeline.Owned;
      ghost var before := streams;
      var outcome := RecordAndFeed(event, key);
      ghost var fed := streams[key];
      derived := MakeDerived(event, outcome, streamRawSequences[key], gaps);
      hide EventPipeline.Valid;
      if outcome.Threw? || decoders[key].Buffer() == [] {
        SetSequences(key, []);
        UpdateTwice(before, key, fed, fed.(seqs := []));
      }
    }
  }
}
