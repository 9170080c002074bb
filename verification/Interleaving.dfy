/**
 Producer threads calling `EventPipeline::consume` concurrently. A step is one access to shared
 state: taking a sequence number, one call of the sink, the locked decoder update. Any thread may
 move at any time. Each producer has its own stream; keys of different producers differ.
 */
module Interleaving {
  import opened Base
  import opened Decoders
  import opened Events
  import opened Framing
  import opened Pipeline
  import opened Provenance

  type Thread = nat

  datatype Setup = Setup(kind: DecodingKind, ids: map<Thread, Stream>)

  ghost predicate ValidSetup(s: Setup) {
    forall t, u :: t in s.ids && u in s.ids && t != u ==> Key(s.ids[t]) != Key(s.ids[u])
  }

  /** Distinct streams without '|' in session, transport and source make a valid setup. */
  lemma SeparableStreamsAreValid(s: Setup)
    requires forall t :: t in s.ids ==> Separable(s.ids[t])
    requires forall t, u :: t in s.ids && u in s.ids && t != u ==> s.ids[t] != s.ids[u]
    ensures ValidSetup(s)
  {
    forall t, u | t in s.ids && u in s.ids && t != u ensures Key(s.ids[t]) != Key(s.ids[u]) {
      if Key(s.ids[t]) == Key(s.ids[u]) {
        KeyInjective(s.ids[t], s.ids[u]);
      }
    }
  }

  // `derived` separates what the pipeline made from what the producer sent.
  datatype Delivery = Delivery(thread: Thread, derived: bool, event: PacketEvent)

  datatype Phase =
    | Idle
    | Made(event: PacketEvent)                // numbered, `consume` about to call the sink
    | Sunk(event: PacketEvent)                // delivered, about to take the lock
    | Numbering(event: PacketEvent, done: seq<PacketEvent>, todo: seq<PacketEvent>)  // holds the lock
    | Delivering(rest: seq<PacketEvent>)      // lock released

  datatype World = World(
    kind: DecodingKind,                       // the decoder of this session
    phases: map<Thread, Phase>,
    lock: Option<Thread>,
    streams: map<string, StreamState>,
    next: nat,                                // fetch_add calls so far, plus one
    made: map<Thread, seq<PacketEvent>>,      // what each producer sent in this session
    log: seq<Delivery>,                       // the sink calls of this session
    archive: seq<Delivery>)                   // the sink calls of earlier sessions

  datatype Action =
    | Make(thread: Thread, template: PacketEvent)
    | SinkRaw(thread: Thread)
    | Acquire(thread: Thread)
    | Number(thread: Thread)
    | Release(thread: Thread)
    | Deliver(thread: Thread)
    | Finish(thread: Thread)
    | Restart(kind: DecodingKind)             // stop_capture, perhaps configure, then start_capture

  function Init(s: Setup): World {
    World(s.kind, map t | t in s.ids :: Idle, None, map[], 1, map t | t in s.ids :: [], [], [])
  }

  predicate Enabled(s: Setup, w: World, a: Action) {
    if a.Restart? then forall t :: t in w.phases ==> w.phases[t].Idle?
    else
      && a.thread in s.ids && a.thread in w.phases && a.thread in w.made
      && var phase := w.phases[a.thread];
         match a
         case Make(_, template) => phase.Idle? && StreamOf(template) == s.ids[a.thread]
         case SinkRaw(_) => phase.Made?
         case Acquire(_) => phase.Sunk? && w.lock.None?
         case Number(_) => phase.Numbering? && phase.todo != []
         case Release(_) => phase.Numbering? && phase.todo == []
         case Deliver(_) => phase.Delivering? && phase.rest != []
         case Finish(_) => phase.Delivering? && phase.rest == []
  }

  function WithNumber(e: PacketEvent, w: World): PacketEvent {
    e.(sequence := w.next % TWO_64)
  }

  /** The step seen from the thread that takes it. */
  function PhaseAfter(s: Setup, w: World, a: Action): Phase
    requires Enabled(s, w, a) && !a.Restart?
  {
    var phase := w.phases[a.thread];
    match a
    case Make(_, template) => Made(WithNumber(template, w))
    case SinkRaw(_) => if Decodes(phase.event) then Sunk(phase.event) else Idle
    case Acquire(_) => Numbering(phase.event, [], Step(w.kind, w.streams, phase.event).1)
    case Number(_) => Numbering(phase.event, phase.done + [WithNumber(phase.todo[0], w)], phase.todo[1..])
    case Release(_) => Delivering(phase.done)
    case Deliver(_) => Delivering(phase.rest[1..])
    case Finish(_) => Idle
  }

  /** The steps that call the sink. */
  predicate Sinks(a: Action) {
    a.SinkRaw? || a.Deliver?
  }

  function Said(s: Setup, w: World, a: Action): Delivery
    requires Enabled(s, w, a) && Sinks(a)
  {
    var phase := w.phases[a.thread];
    if a.Deliver? then Delivery(a.thread, true, phase.rest[0]) else Delivery(a.thread, false, phase.event)
  }

  function Do(s: Setup, w: World, a: Action): World
    requires Enabled(s, w, a)
  {
    if a.Restart? then
      World(a.kind, w.phases, w.lock, map[], w.next, map t | t in w.made :: [], [], w.archive + w.log)
    else
      World(
        kind := w.kind,
        phases := w.phases[a.thread := PhaseAfter(s, w, a)],
        lock := if a.Acquire? then Some(a.thread) else if a.Release? then None else w.lock,
        streams := if a.Acquire? then Step(w.kind, w.streams, w.phases[a.thread].event).0 else w.streams,
        next := if a.Make? || a.Number? then w.next + 1 else w.next,
        made := if a.Make? then w.made[a.thread := w.made[a.thread] + [WithNumber(a.template, w)]] else w.made,
        log := if Sinks(a) then w.log + [Said(s, w, a)] else w.log,
        archive := w.archive)
  }

  /** The world after a list of actions, or `None` when one of them was not possible in its turn. */
  function Execute(s: Setup, r: seq<Action>): Option<World>
  {
    if r == [] then Some(Init(s))
    else
      var before := Execute(s, r[..|r| - 1]);
      if before.Some? && Enabled(s, before.value, r[|r| - 1])
      then Some(Do(s, before.value, r[|r| - 1])) else None
  }

  // ---------- What one stream sees ----------

  /** Derived events compared up to their own number; parents and everything else count. */
  datatype Seen = Seen(derived: bool, event: PacketEvent)

  function Unnumbered(e: PacketEvent): PacketEvent {
    e.(sequence := 0)
  }

  function View(d: Delivery): Seen {
    Seen(d.derived, if d.derived then Unnumbered(d.event) else d.event)
  }

  /** The deliveries of one producer, in order. */
  function Mine(log: seq<Delivery>, t: Thread): seq<Seen> {
    if log == [] then []
    else
      var n := |log| - 1;
      Mine(log[..n], t) + (if log[n].thread == t then [View(log[n])] else [])
  }

  function AsSeen(events: seq<PacketEvent>): (r: seq<Seen>)
    ensures |r| == |events|
  {
    seq(|events|, i requires 0 <= i < |events| => Seen(true, Unnumbered(events[i])))
  }

  /** What a pipeline used by this stream alone delivers. */
  function Alone(kind: Kind, es: seq<PacketEvent>): seq<Seen>
    requires ValidKind(kind)
  {
    if es == [] then []
    else
      var n := |es| - 1;
      Alone(kind, es[..n]) + [Seen(false, es[n])] + AsSeen(DerivedAt(kind, es, n))
  }

  lemma AloneSnoc(kind: Kind, es: seq<PacketEvent>, e: PacketEvent)
    requires ValidKind(kind)
    ensures Alone(kind, es + [e]) == Alone(kind, es) + [Seen(false, e)] + AsSeen(DerivedAt(kind, es + [e], |es|))
  {
    hide DerivedAt;
    assert (es + [e])[..|es|] == es;
  }

  lemma MineSnoc(log: seq<Delivery>, d: Delivery, t: Thread)
    ensures Mine(log + [d], t) == Mine(log, t) + (if d.thread == t then [View(d)] else [])
  {
    assert (log + [d])[..|log|] == log;
  }

  // ---------- Non-interference ----------

  /** How far a producer has come, told from the history `m` of its own stream. */
  ghost predicate Agrees(kind: Kind, id: Stream, m: seq<PacketEvent>, phase: Phase, seen: seq<Seen>, st: StreamState)
    requires ValidKind(kind)
  {
    && (forall i :: 0 <= i < |m| ==> StreamOf(m[i]) == id)
    && match phase
       case Idle => seen == Alone(kind, m) && st == StateAfter(kind, m)
       case Made(e) =>
         && m != [] && m[|m| - 1] == e
         && seen == Alone(kind, m[..|m| - 1]) && st == StateAfter(kind, m[..|m| - 1])
       case Sunk(e) =>
         && m != [] && m[|m| - 1] == e && Decodes(e)
         && seen == Alone(kind, m[..|m| - 1]) + [Seen(false, e)] && st == StateAfter(kind, m[..|m| - 1])
       case Numbering(e, done, todo) =>
         seen + (AsSeen(done) + AsSeen(todo)) == Alone(kind, m) && st == StateAfter(kind, m)
       case Delivering(rest) =>
         seen + AsSeen(rest) == Alone(kind, m) && st == StateAfter(kind, m)
  }

  lemma AgreesMake(kind: Kind, id: Stream, m: seq<PacketEvent>, seen: seq<Seen>, st: StreamState, e: PacketEvent)
    requires ValidKind(kind)
    requires Agrees(kind, id, m, Idle, seen, st) && StreamOf(e) == id
    ensures Agrees(kind, id, m + [e], Made(e), seen, st)
  {
    hide Alone, StateAfter;
    assert (m + [e])[..|m|] == m;
  }

  lemma AgreesSink(kind: Kind, id: Stream, m: seq<PacketEvent>, seen: seq<Seen>, st: StreamState, e: PacketEvent)
    requires ValidKind(kind)
    requires Agrees(kind, id, m, Made(e), seen, st)
    ensures Agrees(kind, id, m, if Decodes(e) then Sunk(e) else Idle, seen + [Seen(false, e)], st)
  {
    hide Alone, StateAfter, Decodes, Decode;
    var before := m[..|m| - 1];
    assert m == before + [e];
    if !Decodes(e) {
      AloneSnoc(kind, before, e);
      StateAfterSnoc(kind, before, e);
      assert seen + [Seen(false, e)] + AsSeen([]) == seen + [Seen(false, e)];
    }
  }

  lemma AgreesAcquire(kind: Kind, id: Stream, m: seq<PacketEvent>, seen: seq<Seen>, st: StreamState, e: PacketEvent)
    requires ValidKind(kind)
    requires Agrees(kind, id, m, Sunk(e), seen, st)
    ensures var (after, derived) := Decode(kind, st, e);
            Agrees(kind, id, m, Numbering(e, [], derived), seen, after)
  {
    hide Alone, StateAfter, Decodes, Decode, DerivedAt;
    var before := m[..|m| - 1];
    assert m == before + [e];
    StateAfterSnoc(kind, before, e);
    AloneSnoc(kind, before, e);
    var derived := DerivedAt(kind, m, |m| - 1);
    assert AsSeen([]) + AsSeen(derived) == AsSeen(derived);
  }

  lemma AgreesNumber(kind: Kind, id: Stream, m: seq<PacketEvent>, seen: seq<Seen>, st: StreamState,
                     e: PacketEvent, done: seq<PacketEvent>, todo: seq<PacketEvent>, n: nat)
    requires ValidKind(kind) && todo != []
    requires Agrees(kind, id, m, Numbering(e, done, todo), seen, st)
    ensures Agrees(kind, id, m, Numbering(e, done + [todo[0].(sequence := n)], todo[1..]), seen, st)
  {
    hide Alone, StateAfter;
    var d := todo[0].(sequence := n);
    assert Unnumbered(d) == Unnumbered(todo[0]);
    assert AsSeen(done + [d]) + AsSeen(todo[1..]) == AsSeen(done) + AsSeen(todo);
  }

  lemma AgreesRelease(kind: Kind, id: Stream, m: seq<PacketEvent>, seen: seq<Seen>, st: StreamState,
                      e: PacketEvent, done: seq<PacketEvent>)
    requires ValidKind(kind)
    requires Agrees(kind, id, m, Numbering(e, done, []), seen, st)
    ensures Agrees(kind, id, m, Delivering(done), seen, st)
  {
    hide Alone, StateAfter;
    assert AsSeen(done) + AsSeen([]) == AsSeen(done);
  }

  lemma AgreesDeliver(kind: Kind, id: Stream, m: seq<PacketEvent>, seen: seq<Seen>, st: StreamState,
                      rest: seq<PacketEvent>)
    requires ValidKind(kind) && rest != []
    requires Agrees(kind, id, m, Delivering(rest), seen, st)
    ensures Agrees(kind, id, m, Delivering(rest[1..]), seen + [Seen(true, Unnumbered(rest[0]))], st)
  {
    hide Alone, StateAfter;
    var head := [Seen(true, Unnumbered(rest[0]))];
    assert AsSeen(rest) == head + AsSeen(rest[1..]);
    assert (seen + head) + AsSeen(rest[1..]) == seen + AsSeen(rest);
  }

  lemma AgreesFinish(kind: Kind, id: Stream, m: seq<PacketEvent>, seen: seq<Seen>, st: StreamState)
    requires ValidKind(kind)
    requires Agrees(kind, id, m, Delivering([]), seen, st)
    ensures Agrees(kind, id, m, Idle, seen, st)
  {
    hide Alone, StateAfter;
    assert seen + AsSeen([]) == seen;
  }

  ghost predicate InStep(s: Setup, w: World, t: Thread)
    requires ValidSetup(s)
    requires t in s.ids && t in w.phases && t in w.made
  {
    Agrees(w.kind, s.ids[t], w.made[t], w.phases[t], Mine(w.log, t), Lookup(w.streams, Key(s.ids[t])))
  }

  ghost predicate Inv(s: Setup, w: World)
    requires ValidSetup(s)
  {
    && w.phases.Keys == w.made.Keys == s.ids.Keys
    && (forall t :: t in s.ids ==> InStep(s, w, t))
    && (forall t :: t in s.ids ==> (w.lock == Some(t) <==> w.phases[t].Numbering?))
  }

  lemma MoverKeepsStep(s: Setup, w: World, a: Action)
    requires ValidSetup(s) && Inv(s, w)
    requires Enabled(s, w, a) && !a.Restart?
    ensures var w' := Do(s, w, a); a.thread in w'.phases && a.thread in w'.made && InStep(s, w', a.thread)
  {
    hide Agrees, Mine, Decode, Decodes;
    var t := a.thread;
    assert InStep(s, w, t);
    var kind, id, m, phase := w.kind, s.ids[t], w.made[t], w.phases[t];
    var seen, st := Mine(w.log, t), Lookup(w.streams, Key(id));
    match a
    case Make(_, template) => AgreesMake(kind, id, m, seen, st, template.(sequence := w.next % TWO_64));
    case SinkRaw(_) =>
      AgreesSink(kind, id, m, seen, st, phase.event);
      MineSnoc(w.log, Delivery(t, false, phase.event), t);
    case Acquire(_) =>
      SunkEventIsMine(s, w, t);
      AgreesAcquire(kind, id, m, seen, st, phase.event);
    case Number(_) =>
      AgreesNumber(kind, id, m, seen, st, phase.event, phase.done, phase.todo, w.next % TWO_64);
    case Release(_) => AgreesRelease(kind, id, m, seen, st, phase.event, phase.done);
    case Deliver(_) =>
      AgreesDeliver(kind, id, m, seen, st, phase.rest);
      MineSnoc(w.log, Delivery(t, true, phase.rest[0]), t);
    case Finish(_) => AgreesFinish(kind, id, m, seen, st);
  }

  lemma SunkEventIsMine(s: Setup, w: World, t: Thread)
    requires ValidSetup(s) && Inv(s, w)
    requires t in s.ids && w.phases[t].Sunk?
    ensures StreamKey(w.phases[t].event) == Key(s.ids[t])
  {
    hide Alone, StateAfter, Mine, Lookup, Decodes;
    assert InStep(s, w, t);
  }

  lemma OthersKeepStep(s: Setup, w: World, a: Action, u: Thread)
    requires ValidSetup(s) && Inv(s, w)
    requires Enabled(s, w, a) && !a.Restart?
    requires u in s.ids && u != a.thread
    ensures var w' := Do(s, w, a); u in w'.phases && u in w'.made && InStep(s, w', u)
  {
    hide Agrees, Do, Mine, Lookup;
    assert InStep(s, w, u);
    OthersUntouched(s, w, a, u);
  }

  /** What a step of thread `t` does to phases and lock. */
  lemma MoverChangesPhase(s: Setup, w: World, a: Action)
    requires Enabled(s, w, a) && !a.Restart?
    ensures var w', t := Do(s, w, a), a.thread;
            && w'.phases.Keys == w.phases.Keys && w'.made.Keys == w.made.Keys
            && (forall u :: u in w.phases && u != t ==> w'.phases[u] == w.phases[u])
            && (forall u :: u in w.made && u != t ==> w'.made[u] == w.made[u])
            && (w'.phases[t].Numbering? <==> a.Acquire? || a.Number?)
            && w'.lock == (if a.Acquire? then Some(t) else if a.Release? then None else w.lock)
            && (w.phases[t].Numbering? <==> a.Number? || a.Release?)
            && (a.Acquire? ==> w.lock.None?)
  {
    hide Decodes, Step;
  }

  lemma OthersUntouched(s: Setup, w: World, a: Action, u: Thread)
    requires ValidSetup(s) && Inv(s, w)
    requires Enabled(s, w, a) && !a.Restart?
    requires u in s.ids && u != a.thread
    ensures var w' := Do(s, w, a);
            && u in w'.phases && u in w'.made && w'.kind == w.kind
            && w'.phases[u] == w.phases[u] && w'.made[u] == w.made[u]
            && Mine(w'.log, u) == Mine(w.log, u)
            && Lookup(w'.streams, Key(s.ids[u])) == Lookup(w.streams, Key(s.ids[u]))
  {
    hide InStep, Mine, PhaseAfter, Decode, StreamKey, Key, WithNumber;
    if Sinks(a) {
      MineSnoc(w.log, Said(s, w, a), u);
      assert Mine(w.log, u) + [] == Mine(w.log, u);
    } else if a.Acquire? {
      SunkEventIsMine(s, w, a.thread);
    }
  }

  lemma LockFollowsPhase(s: Setup, w: World, a: Action)
    requires ValidSetup(s) && Inv(s, w)
    requires Enabled(s, w, a)
    ensures var w' := Do(s, w, a);
            && w'.phases.Keys == w'.made.Keys == s.ids.Keys
            && (forall t :: t in s.ids ==> (w'.lock == Some(t) <==> w'.phases[t].Numbering?))
  {
    hide InStep, Step;
    if !a.Restart? {
      assert a.thread in s.ids;
      MoverChangesPhase(s, w, a);
      hide Do, Enabled;
    }
  }

  lemma StepKeepsInv(s: Setup, w: World, a: Action)
    requires ValidSetup(s) && Inv(s, w)
    requires Enabled(s, w, a)
    ensures Inv(s, Do(s, w, a))
  {
    hide InStep;
    var w' := Do(s, w, a);
    LockFollowsPhase(s, w, a);
    forall t | t in s.ids ensures InStep(s, w', t) {
      if a.Restart? {
        FreshStep(s, w', t);
      } else {
        hide Do;
        if t == a.thread {
          MoverKeepsStep(s, w, a);
        } else {
          OthersKeepStep(s, w, a, t);
        }
      }
    }
  }

  lemma FreshStep(s: Setup, w: World, t: Thread)
    requires ValidSetup(s) && t in s.ids && t in w.phases && t in w.made
    requires w.phases[t].Idle? && w.made[t] == [] && w.log == [] && w.streams == map[]
    ensures InStep(s, w, t)
  {
  }

  lemma {:induction false} RunKeepsInv(s: Setup, r: seq<Action>)
    requires ValidSetup(s)
    ensures var w := Execute(s, r); w.Some? ==> Inv(s, w.value)
  {
    hide InStep, Do, Enabled;
    if r == [] {
      forall t | t in s.ids ensures InStep(s, Init(s), t) {
        FreshStep(s, Init(s), t);
      }
    } else if Execute(s, r).Some? {
      RunKeepsInv(s, r[..|r| - 1]);
      StepKeepsInv(s, Execute(s, r[..|r| - 1]).value, r[|r| - 1]);
    }
  }

  /**
   Non-interference: in every interleaving, what a stream has been delivered is a prefix of what
   it would be delivered alone, and all of it once its producer is idle.
   */
  lemma NonInterference(s: Setup, r: seq<Action>, w: World, t: Thread)
    requires ValidSetup(s) && t in s.ids
    requires Execute(s, r) == Some(w)
    ensures t in w.made && t in w.phases
    ensures Mine(w.log, t) <= Alone(w.kind, w.made[t])
    ensures w.phases[t].Idle? ==> Mine(w.log, t) == Alone(w.kind, w.made[t])
  {
    hide Execute, Mine, Alone, Agrees, Lookup;
    RunKeepsInv(s, r);
    assert InStep(s, w, t);
    AgreesIsPrefix(w.kind, s.ids[t], w.made[t], w.phases[t], Mine(w.log, t), Lookup(w.streams, Key(s.ids[t])));
  }

  lemma AgreesIsPrefix(kind: Kind, id: Stream, m: seq<PacketEvent>, phase: Phase, seen: seq<Seen>, st: StreamState)
    requires ValidKind(kind)
    requires Agrees(kind, id, m, phase, seen, st)
    ensures seen <= Alone(kind, m)
    ensures phase.Idle? ==> seen == Alone(kind, m)
  {
    hide Alone, StateAfter;
    if m != [] {
      var before := m[..|m| - 1];
      assert m == before + [m[|m| - 1]];
      AloneSnoc(kind, before, m[|m| - 1]);
    }
  }

  /** The frames among the deliveries. */
  function FramesSeen(seen: seq<Seen>): seq<bytes> {
    if seen == [] then []
    else
      var n := |seen| - 1;
      FramesSeen(seen[..n]) +
      (if seen[n].derived && seen[n].event.kind == FrameEvent then [seen[n].event.payload] else [])
  }

  lemma {:induction false} FramesSeenAppend(a: seq<Seen>, b: seq<Seen>)
    ensures FramesSeen(a + b) == FramesSeen(a) + FramesSeen(b)
  {
    if b == [] {
      assert a + b == a;
    } else {
      var n := |b| - 1;
      assert (a + b)[..|a| + n] == a + b[..n];
      FramesSeenAppend(a, b[..n]);
    }
  }

  lemma {:induction false} FramesSeenOf(e: PacketEvent, frames: seq<bytes>, parents: seq<nat>)
    ensures FramesSeen(AsSeen(FramesOf(e, frames, parents))) == frames
  {
    if frames != [] {
      var n := |frames| - 1;
      FramesSeenOf(e, frames[..n], parents);
      var all := AsSeen(FramesOf(e, frames, parents));
      assert all[..n] == AsSeen(FramesOf(e, frames[..n], parents));
      assert all[n].event.payload == frames[n];
    }
  }

  lemma NoFramesYet(kind: Kind)
    requires ValidKind(kind)
    ensures FramesSeen(Alone(kind, [])) == []
  {
  }

  /** The frames the reference parse gains by one more event; none when it throws. */
  function Gained(kind: Kind, es: seq<PacketEvent>, e: PacketEvent): seq<bytes>
    requires ValidKind(kind)
  {
    var p, q := Reference(kind, es), Reference(kind, es + [e]);
    if q.threw || |q.frames| < |p.frames| then [] else q.frames[|p.frames|..]
  }

  /** Alone, a stream's frames are the reference parse of its own bytes, up to a decoder error. */
  lemma {:induction false} AloneIsReference(kind: Kind, es: seq<PacketEvent>)
    requires ValidKind(kind)
    ensures FramesSeen(Alone(kind, es)) <= Reference(kind, es).frames
    ensures !Reference(kind, es).threw ==> FramesSeen(Alone(kind, es)) == Reference(kind, es).frames
  {
    hide Reference, Decodes, FramesSeen, Alone, DerivedAt;
    if es == [] {
      EmptyReference(kind);
      NoFramesYet(kind);
    } else {
      var n := |es| - 1;
      assert es == es[..n] + [es[n]];
      AloneIsReference(kind, es[..n]);
      ReferenceStep(kind, es[..n], es[n]);
      FramesSnoc(kind, es[..n], es[n]);
    }
  }

  /** One more event adds the frames the reference parse gains, or none at all. */
  lemma FramesSnoc(kind: Kind, es: seq<PacketEvent>, e: PacketEvent)
    requires ValidKind(kind)
    ensures FramesSeen(Alone(kind, es + [e])) == FramesSeen(Alone(kind, es)) + Gained(kind, es, e)
  {
    AloneFramesSnoc(kind, es, e);
    hide DerivedAt, Alone, FramesSeen, AsSeen;
    if Decodes(e) {
      hide Gained;
      DerivedFrames(kind, es, e);
    } else {
      ReferenceStep(kind, es, e);
    }
  }

  lemma AloneFramesSnoc(kind: Kind, es: seq<PacketEvent>, e: PacketEvent)
    requires ValidKind(kind)
    ensures FramesSeen(Alone(kind, es + [e])) ==
            FramesSeen(Alone(kind, es)) + FramesSeen(AsSeen(DerivedAt(kind, es + [e], |es|)))
    ensures !Decodes(e) ==> FramesSeen(AsSeen(DerivedAt(kind, es + [e], |es|))) == []
  {
    var raw := [Seen(false, e)];
    assert FramesSeen(raw) == [] && FramesSeen([]) == [];
    var derived := DerivedAt(kind, es + [e], |es|);
    assert !Decodes(e) ==> AsSeen(derived) == [];
    hide Decodes, Alone, AsSeen, DerivedAt, FramesSeen;
    AloneSnoc(kind, es, e);
    FramesSeenAppend(Alone(kind, es) + raw, AsSeen(derived));
    FramesSeenAppend(Alone(kind, es), raw);
    assert FramesSeen(Alone(kind, es)) + [] == FramesSeen(Alone(kind, es));
  }

  lemma DerivedFrames(kind: Kind, es: seq<PacketEvent>, e: PacketEvent)
    requires ValidKind(kind) && Decodes(e)
    ensures FramesSeen(AsSeen(DerivedAt(kind, es + [e], |es|))) == Gained(kind, es, e)
  {
    var all, n := es + [e], |es|;
    ParentsAreTheRun(kind, all, n);
    assert all[..n + 1] == all && all[..n] == es;
    hide Reference, RunStart, Sequences, DerivedAt, FramesOf, Decodes;
    if !Reference(kind, all).threw {
      FramesSeenOf(e, Gained(kind, es, e), Sequences(all[RunStart(kind, all, n)..n + 1]));
    }
  }

  /**
   Hence in every interleaving an idle stream has received exactly the frames of all bytes its raw events
   carried, however they were cut; with the raw decoder, each of their payloads that is not empty.
   */
  lemma InterleavedFrames(s: Setup, r: seq<Action>, w: World, t: Thread)
    requires ValidSetup(s) && t in s.ids
    requires Execute(s, r) == Some(w)
    requires t in w.phases && t in w.made && w.phases[t].Idle?
    ensures w.kind.Raw? ==> FramesSeen(Mine(w.log, t)) == NonEmpty(Payloads(w.made[t]))
    ensures w.kind.Framed? ==>
              var p := Parse(w.kind.rule, Flatten(Payloads(w.made[t])));
              && FramesSeen(Mine(w.log, t)) <= p.frames
              && (!p.threw ==> FramesSeen(Mine(w.log, t)) == p.frames)
  {
    hide Execute, Mine, Alone, FramesSeen, Payloads, NonEmpty, Parse;
    NonInterference(s, r, w, t);
    AloneIsReference(w.kind, w.made[t]);
  }
}
