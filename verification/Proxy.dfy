/**
 The TCP proxy once both forwarding threads run. Each forwarder reads a chunk, takes a number and a time
 stamp for it, records it, feeds the shared latency tracker under its mutex and writes the chunk on; `stop`
 may be called any number of times, and the pipeline takes numbers from the same allocator at any time.
 A step is one access to something shared. What the sockets and the clock do is free.
 */
module Proxy {
  import opened Base
  import opened Decimal
  import opened Events
  import opened LatencyTracking

  const CHUNK: nat := 4096

  // The forwarder that reads the application's socket, and the one that reads the device's.
  datatype Side = App | Device

  datatype Config = Config(sessionId: string, latencyEnabled: bool, appEndpoint: string, deviceEndpoint: string)

  datatype Phase =
    | Testing                                                    // `while (!stopped_)`
    | Reading
    | Numbered(number: nat, payload: bytes)                      // read and numbered, not yet time-stamped
    | Holding(event: PacketEvent)                                // made, not yet emitted
    | Recorded(event: PacketEvent)                               // emitted, not yet observed
    | Measured(event: PacketEvent, measurement: Measurement)     // holds the latency mutex
    | Announcing(event: PacketEvent, latency: PacketEvent)       // holds the latency mutex
    | Writing(event: PacketEvent)
    | Leaving                                                    // out of the loop
    | Stopping                                                   // first to set stopped_
    | HoldingStop(event: PacketEvent)
    | Finished

  // `unwritten` are the bytes recorded but not passed on.
  datatype Forwarder = Forwarder(phase: Phase, written: bytes, unwritten: bytes)

  datatype StopCall = Won | HoldingNotice(event: PacketEvent) | Returned

  datatype Who = Thread(side: Side) | Caller(id: nat)

  // Where a number of the shared allocator is: not delivered yet, delivered, or used outside the proxy.
  datatype Place = HeldBy(who: Who) | Delivered(index: nat) | Elsewhere

  datatype State = State(
    stopped: bool,
    app: Forwarder,
    device: Forwarder,
    queue: seq<PendingRequest>,
    mutex: Option<Side>,
    next: nat,                       // numbers taken so far by anyone, plus one
    places: map<nat, Place>,         // what became of them
    stops: map<nat, StopCall>,
    log: seq<PacketEvent>,           // what on_event received
    stamped: seq<PacketEvent>,       // the raw events in the order in which they were time-stamped
    observed: seq<PacketEvent>,      // what the tracker observed
    winner: Option<Who>)             // who set stopped_ first

  function Get(p: State, d: Side): Forwarder {
    if d.App? then p.app else p.device
  }

  function Init(): State {
    var f := Forwarder(Testing, [], []);
    State(false, f, f, [], None, 1, map[], map[], [], [], [], None)
  }

  // ---------- Events ----------

  function DirectionOf(d: Side): Direction {
    if d.App? then AppToDevice else DeviceToApp
  }

  function Blank(c: Config, n: nat, ts: int, d: Side, kind: EventType): PacketEvent {
    PacketEvent(n, 0, [], ts, c.sessionId, "tcp", DirectionOf(d), kind,
                if d.App? then c.appEndpoint else c.deviceEndpoint,
                if d.App? then c.deviceEndpoint else c.appEndpoint,
                [], "", "", 0, 0, 0, 0, 0)
  }

  function RawOf(c: Config, n: nat, ts: int, d: Side, payload: bytes): PacketEvent {
    Blank(c, n, ts, d, RawBytes).(
      payload := payload,
      summary := (if d.App? then "APP -> DEVICE " else "DEVICE -> APP ") + NatText(|payload|) + " bytes")
  }

  function LatencyOf(c: Config, n: nat, response: PacketEvent, m: Measurement): PacketEvent {
    Blank(c, n, response.timestampNs, Device, Latency).(
      source := response.source,
      destination := response.destination,
      requestSequence := m.requestSequence,
      responseSequence := response.sequence,
      latencyNs := m.latencyNs,
      requestSize := m.requestSize,
      responseSize := m.responseSize,
      summary := "response latency " + IntText(TruncatedQuotient(m.latencyNs, 1000)) + " us")
  }

  const STOPPED: string := "proxy stopped"

  /** A forwarder puts its own endpoints on the notice, `stop` none. */
  function StopOf(c: Config, n: nat, ts: int, who: Who): PacketEvent {
    Blank(c, n, ts, Device, StateChange).(
      source := if who.Caller? then "" else if who.side.App? then c.appEndpoint else c.deviceEndpoint,
      destination := if who.Caller? then "" else if who.side.App? then c.deviceEndpoint else c.appEndpoint,
      summary := STOPPED)
  }

  lemma RawFacts(c: Config, n: nat, ts: int, d: Side, payload: bytes)
    ensures var e := RawOf(c, n, ts, d, payload);
            && e.kind == RawBytes && e.direction == DirectionOf(d) && e.payload == payload
            && e.sequence == n && e.timestampNs == ts
  {
  }

  lemma LatencyFacts(c: Config, n: nat, response: PacketEvent, m: Measurement)
    ensures var l := LatencyOf(c, n, response, m);
            && l.kind == Latency && l.sequence == n && MeasurementIn(l) == m.(responseSequence := response.sequence)
            && l.timestampNs == response.timestampNs
  {
  }

  predicate IsNotice(e: PacketEvent) {
    e.kind == StateChange && e.summary == STOPPED
  }

  lemma StopFacts(c: Config, n: nat, ts: int, who: Who)
    ensures IsNotice(StopOf(c, n, ts, who)) && StopOf(c, n, ts, who).sequence == n
  {
  }

  // ---------- Steps ----------

  datatype Action =
    | Test(side: Side)
    | ReadOk(side: Side, payload: bytes)
    | Stamp(side: Side, ts: int)
    | ReadFails(side: Side)
    | Record(side: Side)
    | Observe(side: Side)
    | NumberLatency(side: Side)
    | Announce(side: Side)
    | WriteOk(side: Side)
    | WriteFails(side: Side, sent: nat)
    | Exchange(side: Side)
    | MakeStop(side: Side, ts: int)
    | EmitStop(side: Side)
    | StopBegin(id: nat)
    | StopMake(id: nat, ts: int)
    | StopEmit(id: nat)
    | NumberElsewhere                                            // the pipeline numbers an event of its own

  predicate Enabled(c: Config, p: State, a: Action) {
    match a
    case Test(d) => Get(p, d).phase.Testing?
    case ReadOk(d, payload) => Get(p, d).phase.Reading? && |payload| <= CHUNK
    case Stamp(d, _) => Get(p, d).phase.Numbered?
    case ReadFails(d) => Get(p, d).phase.Reading?
    case Record(d) => Get(p, d).phase.Holding?
    case Observe(d) => Get(p, d).phase.Recorded? && (c.latencyEnabled ==> p.mutex.None?)
    case NumberLatency(d) => Get(p, d).phase.Measured?
    case Announce(d) => Get(p, d).phase.Announcing?
    case WriteOk(d) => Get(p, d).phase.Writing?
    case WriteFails(d, sent) => Get(p, d).phase.Writing? && sent <= |Get(p, d).phase.event.payload|
    case Exchange(d) => Get(p, d).phase.Leaving?
    case MakeStop(d, _) => Get(p, d).phase.Stopping?
    case EmitStop(d) => Get(p, d).phase.HoldingStop?
    case StopBegin(id) => id !in p.stops
    case StopMake(id, _) => id in p.stops && p.stops[id].Won?
    case StopEmit(id) => id in p.stops && p.stops[id].HoldingNotice?
    case NumberElsewhere => true
  }

  /** The forwarder that moves, if any does. */
  function Mover(a: Action): Option<Side> {
    if a.StopBegin? || a.StopMake? || a.StopEmit? || a.NumberElsewhere? then None else Some(a.side)
  }

  /** For whom a number is taken, if one is. */
  function Taker(a: Action): Option<Place> {
    match a
    case ReadOk(d, _) => Some(HeldBy(Thread(d)))
    case NumberLatency(d) => Some(HeldBy(Thread(d)))
    case MakeStop(d, _) => Some(HeldBy(Thread(d)))
    case StopMake(id, _) => Some(HeldBy(Caller(id)))
    case NumberElsewhere => Some(Elsewhere)
    case _ => None
  }

  /** Who delivers the stop notice, if anyone does. */
  function Messenger(a: Action): Option<Who> {
    match a
    case EmitStop(d) => Some(Thread(d))
    case StopEmit(id) => Some(Caller(id))
    case _ => None
  }

  /** Who calls `on_event`, if anyone does. */
  function Emitter(a: Action): Option<Who> {
    match a
    case Record(d) => Some(Thread(d))
    case Announce(d) => Some(Thread(d))
    case _ => Messenger(a)
  }

  /** The event `on_event` is called with. */
  function Said(c: Config, p: State, a: Action): PacketEvent
    requires Enabled(c, p, a) && Emitter(a).Some?
  {
    match a
    case Record(d) => Get(p, d).phase.event
    case Announce(d) => Get(p, d).phase.latency
    case EmitStop(d) => Get(p, d).phase.event
    case StopEmit(id) => p.stops[id].event
  }

  predicate Observes(c: Config, a: Action) {
    a.Observe? && c.latencyEnabled
  }

  function StampOf(c: Config, p: State, a: Action): PacketEvent
    requires Enabled(c, p, a) && a.Stamp?
  {
    var phase := Get(p, a.side).phase;
    RawOf(c, phase.number, a.ts, a.side, phase.payload)
  }

  /** The step seen from the forwarder that takes it. */
  function Move(c: Config, p: State, a: Action): Forwarder
    requires Enabled(c, p, a) && Mover(a).Some?
  {
    var f := Get(p, a.side);
    match a
    case Test(_) => f.(phase := if p.stopped then Leaving else Reading)
    case ReadOk(_, payload) => f.(phase := Numbered(p.next % TWO_64, payload))
    case Stamp(_, _) => f.(phase := Holding(StampOf(c, p, a)))
    case ReadFails(_) => f.(phase := Leaving)
    case Record(_) => f.(phase := Recorded(f.phase.event), unwritten := f.unwritten + f.phase.event.payload)
    case Observe(_) => f.(phase := AfterObserve(c, p.queue, f.phase.event))
    case NumberLatency(_) =>
      f.(phase := Announcing(f.phase.event, LatencyOf(c, p.next % TWO_64, f.phase.event, f.phase.measurement)))
    case Announce(_) => f.(phase := Writing(f.phase.event))
    case WriteOk(_) => Forwarder(Testing, f.written + f.phase.event.payload, [])
    case WriteFails(_, sent) =>
      Forwarder(Leaving, f.written + f.phase.event.payload[..sent], f.phase.event.payload[sent..])
    case Exchange(_) => f.(phase := if p.stopped then Finished else Stopping)
    case MakeStop(_, ts) => f.(phase := HoldingStop(StopOf(c, p.next % TWO_64, ts, Thread(a.side))))
    case EmitStop(_) => f.(phase := Finished)
  }

  function AfterObserve(c: Config, queue: seq<PendingRequest>, e: PacketEvent): Phase {
    if c.latencyEnabled && Observed(queue, e).1.Some? then Measured(e, Observed(queue, e).1.value) else Writing(e)
  }

  /** The step seen from the callers of `stop`. */
  function StopsAfter(c: Config, p: State, a: Action): map<nat, StopCall>
    requires Enabled(c, p, a)
  {
    match a
    case StopBegin(id) => p.stops[id := if p.stopped then Returned else Won]
    case StopMake(id, ts) => p.stops[id := HoldingNotice(StopOf(c, p.next % TWO_64, ts, Caller(id)))]
    case StopEmit(id) => p.stops[id := Returned]
    case _ => p.stops
  }

  function PlacesAfter(c: Config, p: State, a: Action): map<nat, Place>
    requires Enabled(c, p, a)
  {
    if Taker(a).Some? then p.places[p.next % TWO_64 := Taker(a).value]
    else if Emitter(a).Some? then p.places[Said(c, p, a).sequence := Delivered(|p.log|)]
    else p.places
  }

  function Do(c: Config, p: State, a: Action): State
    requires Enabled(c, p, a)
  {
    State(
      stopped := p.stopped || a.Exchange? || a.StopBegin?,
      app := if Mover(a) == Some(App) then Move(c, p, a) else p.app,
      device := if Mover(a) == Some(Device) then Move(c, p, a) else p.device,
      queue := if Observes(c, a) then Observed(p.queue, Get(p, a.side).phase.event).0 else p.queue,
      mutex := if a.Announce? then None
               else if a.Observe? && Move(c, p, a).phase.Measured? then Some(a.side)
               else p.mutex,
      next := if Taker(a).Some? then p.next + 1 else p.next,
      places := PlacesAfter(c, p, a),
      stops := StopsAfter(c, p, a),
      log := if Emitter(a).Some? then p.log + [Said(c, p, a)] else p.log,
      stamped := if a.Stamp? then p.stamped + [StampOf(c, p, a)] else p.stamped,
      observed := if Observes(c, a) then p.observed + [Get(p, a.side).phase.event] else p.observed,
      winner := if p.stopped then p.winner
                else if a.Exchange? then Some(Thread(a.side))
                else if a.StopBegin? then Some(Caller(a.id))
                else p.winner)
  }

  /** A forwarder changes only by its own steps. */
  lemma Moves(c: Config, p: State, a: Action, k: Side)
    requires Enabled(c, p, a)
    ensures Get(Do(c, p, a), k) == if Mover(a) == Some(k) then Move(c, p, a) else Get(p, k)
  {
    hide Move, Enabled, Said, StampOf, Observed, StopsAfter, PlacesAfter;
  }

  function Execute(c: Config, r: seq<Action>): Option<State> {
    if r == [] then Some(Init())
    else
      var before := Execute(c, r[..|r| - 1]);
      if before.Some? && Enabled(c, before.value, r[|r| - 1])
      then Some(Do(c, before.value, r[|r| - 1])) else None
  }

  // ---------- Bytes: what is written is what was recorded, one chunk behind ----------

  /** The bytes recorded in one direction. */
  function RecordedBytes(log: seq<PacketEvent>, d: Side): bytes {
    if log == [] then []
    else
      var n := |log| - 1;
      RecordedBytes(log[..n], d) +
      (if log[n].kind == RawBytes && log[n].direction == DirectionOf(d) then log[n].payload else [])
  }

  lemma RecordedSnoc(log: seq<PacketEvent>, e: PacketEvent, d: Side)
    ensures RecordedBytes(log + [e], d) ==
            RecordedBytes(log, d) + (if e.kind == RawBytes && e.direction == DirectionOf(d) then e.payload else [])
  {
    assert (log + [e])[..|log|] == log;
  }

  predicate IsRaw(e: PacketEvent, d: Side) {
    e.kind == RawBytes && e.direction == DirectionOf(d) && |e.payload| <= CHUNK
  }

  /** What each phase says about the chunk in hand. */
  predicate Carries(f: Forwarder, d: Side) {
    && |f.unwritten| <= CHUNK
    && match f.phase
       case Testing => f.unwritten == []
       case Reading => f.unwritten == []
       case Numbered(_, payload) => |payload| <= CHUNK && f.unwritten == []
       case Holding(e) => IsRaw(e, d) && f.unwritten == []
       case Recorded(e) => IsRaw(e, d) && f.unwritten == e.payload
       case Measured(e, _) => IsRaw(e, d) && f.unwritten == e.payload
       case Announcing(e, l) => IsRaw(e, d) && f.unwritten == e.payload && l.kind == Latency
       case Writing(e) => IsRaw(e, d) && f.unwritten == e.payload
       case HoldingStop(e) => IsNotice(e)
       case _ => true
  }

  predicate CallersCarry(stops: map<nat, StopCall>) {
    forall id :: id in stops && stops[id].HoldingNotice? ==> IsNotice(stops[id].event)
  }

  predicate FlowInv(p: State) {
    && (forall d :: Carries(Get(p, d), d))
    && (forall d :: RecordedBytes(p.log, d) == Get(p, d).written + Get(p, d).unwritten)
    && CallersCarry(p.stops)
  }

  lemma FlowCarries(p: State, d: Side)
    requires FlowInv(p)
    ensures Carries(Get(p, d), d) && CallersCarry(p.stops)
    ensures RecordedBytes(p.log, d) == Get(p, d).written + Get(p, d).unwritten
  {
  }

  /** What a delivered event is, by the step that delivers it. */
  lemma SaidFacts(c: Config, p: State, a: Action)
    requires Enabled(c, p, a) && FlowInv(p) && Emitter(a).Some?
    ensures var e := Said(c, p, a);
            && (a.Record? ==> IsRaw(e, a.side))
            && (a.Announce? ==> e.kind == Latency)
            && (Messenger(a).Some? ==> IsNotice(e))
  {
    hide FlowInv, RecordedBytes, IsNotice, IsRaw;
    FlowCarries(p, if a.StopEmit? then App else a.side);
  }

  lemma MoveCarries(c: Config, p: State, a: Action)
    requires Enabled(c, p, a) && Mover(a).Some?
    requires Carries(Get(p, a.side), a.side)
    ensures Carries(Move(c, p, a), a.side)
  {
    if a.Record? || a.WriteOk? || a.WriteFails? {
      PassingOnCarries(c, p, a);
    } else {
      hide StampOf, LatencyOf, StopOf, Observed, IsRaw, IsNotice;
      MakingCarries(c, p, a);
    }
  }

  /** The events that are made on the way are of the right kind. */
  lemma MakingCarries(c: Config, p: State, a: Action)
    requires Enabled(c, p, a) && Mover(a).Some? && Carries(Get(p, a.side), a.side)
    ensures a.Stamp? ==> IsRaw(StampOf(c, p, a), a.side)
    ensures a.NumberLatency? ==>
              var phase := Get(p, a.side).phase;
              LatencyOf(c, p.next % TWO_64, phase.event, phase.measurement).kind == Latency
    ensures a.MakeStop? ==> IsNotice(StopOf(c, p.next % TWO_64, a.ts, Thread(a.side)))
  {
    hide IsNotice, IsRaw, StopOf, StampOf;
    if a.Stamp? {
      StampFacts(c, p, a);
    } else if a.MakeStop? {
      StopFacts(c, p.next % TWO_64, a.ts, Thread(a.side));
    }
  }

  lemma PassingOnCarries(c: Config, p: State, a: Action)
    requires Enabled(c, p, a) && (a.Record? || a.WriteOk? || a.WriteFails?)
    requires Carries(Get(p, a.side), a.side)
    ensures Carries(Move(c, p, a), a.side)
  {
    hide IsRaw;
    RawBound(Get(p, a.side).phase.event, a.side);
  }

  lemma RawBound(e: PacketEvent, d: Side)
    ensures IsRaw(e, d) ==> |e.payload| <= CHUNK
  {
  }

  lemma StampFacts(c: Config, p: State, a: Action)
    requires Enabled(c, p, a) && a.Stamp?
    ensures var e, phase := StampOf(c, p, a), Get(p, a.side).phase;
            && e.sequence == phase.number && e.timestampNs == a.ts && e.payload == phase.payload
            && (|phase.payload| <= CHUNK ==> IsRaw(e, a.side))
  {
    RawFacts(c, Get(p, a.side).phase.number, a.ts, a.side, Get(p, a.side).phase.payload);
    hide RawOf;
  }

  /** Only recording adds bytes to what is written or in hand. */
  lemma MoveConserves(c: Config, p: State, a: Action)
    requires Enabled(c, p, a) && Mover(a).Some?
    requires Carries(Get(p, a.side), a.side)
    ensures var f, g := Get(p, a.side), Move(c, p, a);
            g.written + g.unwritten == f.written + f.unwritten + (if a.Record? then f.phase.event.payload else [])
  {
    hide RawOf, LatencyOf, StopOf, Observed, AfterObserve, IsRaw, IsNotice;
    var f := Get(p, a.side);
    if a.Record? {
      assert f.written + (f.unwritten + f.phase.event.payload) == (f.written + f.unwritten) + f.phase.event.payload;
    } else if a.WriteFails? {
      var payload := f.phase.event.payload;
      assert (f.written + payload[..a.sent]) + payload[a.sent..] == f.written + payload;
    }
  }

  lemma LogBytes(c: Config, p: State, a: Action, k: Side)
    requires Enabled(c, p, a) && FlowInv(p)
    ensures RecordedBytes(Do(c, p, a).log, k) ==
            RecordedBytes(p.log, k) + (if a == Record(k) then Get(p, k).phase.event.payload else [])
  {
    hide FlowInv, RecordedBytes, Move, StopsAfter, PlacesAfter;
    if Emitter(a).Some? {
      SaidFacts(c, p, a);
      RecordedSnoc(p.log, Said(c, p, a), k);
    } else {
      assert RecordedBytes(p.log, k) + [] == RecordedBytes(p.log, k);
    }
  }

  lemma CallersStillCarry(c: Config, p: State, a: Action)
    requires Enabled(c, p, a) && CallersCarry(p.stops)
    ensures CallersCarry(StopsAfter(c, p, a))
  {
    hide StopOf, IsNotice;
    if a.StopMake? {
      StopFacts(c, p.next % TWO_64, a.ts, Caller(a.id));
    }
  }

  lemma StepKeepsFlow(c: Config, p: State, a: Action)
    requires Enabled(c, p, a) && FlowInv(p)
    ensures FlowInv(Do(c, p, a))
  {
    var q := Do(c, p, a);
    FlowCarries(p, App);
    CallersStillCarry(c, p, a);
    assert q.stops == StopsAfter(c, p, a);
    hide FlowInv, RecordedBytes, Carries, CallersCarry, Move, Do, Enabled, StopsAfter;
    forall k ensures Carries(Get(q, k), k) && RecordedBytes(q.log, k) == Get(q, k).written + Get(q, k).unwritten {
      FlowCarries(p, k);
      Moves(c, p, a, k);
      LogBytes(c, p, a, k);
      if Mover(a) == Some(k) {
        MoveCarries(c, p, a);
        MoveConserves(c, p, a);
      } else {
        assert RecordedBytes(p.log, k) + [] == RecordedBytes(p.log, k);
      }
    }
    FlowFrom(q);
  }

  lemma FlowFrom(q: State)
    requires CallersCarry(q.stops)
    requires forall k :: Carries(Get(q, k), k) && RecordedBytes(q.log, k) == Get(q, k).written + Get(q, k).unwritten
    ensures FlowInv(q)
  {
    hide Carries, RecordedBytes, CallersCarry;
  }

  // ---------- "proxy stopped" exactly once ----------

  function Notices(log: seq<PacketEvent>): nat {
    if log == [] then 0
    else
      var n := |log| - 1;
      Notices(log[..n]) + (if log[n].kind == StateChange && log[n].summary == STOPPED then 1 else 0)
  }

  lemma NoticesSnoc(log: seq<PacketEvent>, e: PacketEvent)
    ensures Notices(log + [e]) == Notices(log) + if e.kind == StateChange && e.summary == STOPPED then 1 else 0
  {
    assert (log + [e])[..|log|] == log;
  }

  predicate OwesIn(phase: Phase) {
    phase.Stopping? || phase.HoldingStop?
  }

  /** Who still owes the notice. */
  predicate Owes(p: State, w: Who) {
    match w
    case Thread(d) => OwesIn(Get(p, d).phase)
    case Caller(id) => id in p.stops && !p.stops[id].Returned?
  }

  ghost predicate NoticeInv(p: State) {
    && (p.stopped <==> p.winner.Some?)
    && (!p.stopped ==> Notices(p.log) == 0)
    && (p.stopped ==> Notices(p.log) == if Owes(p, p.winner.value) then 0 else 1)
    && (forall w :: Owes(p, w) ==> p.winner == Some(w))
  }

  lemma MoveOwes(c: Config, p: State, a: Action)
    requires Enabled(c, p, a) && Mover(a).Some?
    ensures OwesIn(Move(c, p, a).phase) <==>
            if a.Exchange? then !p.stopped else OwesIn(Get(p, a.side).phase) && !a.EmitStop?
    ensures a.EmitStop? ==> OwesIn(Get(p, a.side).phase)
  {
    hide StampOf, LatencyOf, StopOf, Observed;
  }

  /** Whoever sets the flag owes the notice, until he delivers it. */
  lemma OwesChanges(c: Config, p: State, a: Action, w: Who)
    requires Enabled(c, p, a)
    ensures var q := Do(c, p, a);
            && (Owes(q, w) <==> if !p.stopped && q.winner == Some(w) && (a.Exchange? || a.StopBegin?) then true
                                else Owes(p, w) && Messenger(a) != Some(w))
            && (Messenger(a) == Some(w) ==> Owes(p, w))
  {
    match w
    case Thread(d) =>
      Moves(c, p, a, d);
      hide Move, Said, StampOf, Observed, StopsAfter, PlacesAfter;
      if Mover(a) == Some(d) {
        MoveOwes(c, p, a);
      }
    case Caller(id) =>
      hide Move, Said, StampOf, StopOf, Observed, PlacesAfter;
  }

  /** Exactly the two steps that deliver the notice change their number. */
  lemma NoticesChange(c: Config, p: State, a: Action)
    requires Enabled(c, p, a) && FlowInv(p)
    ensures Notices(Do(c, p, a).log) == Notices(p.log) + if Messenger(a).Some? then 1 else 0
  {
    hide FlowInv, Notices, Move, StopsAfter, PlacesAfter;
    if Emitter(a).Some? {
      SaidFacts(c, p, a);
      NoticesSnoc(p.log, Said(c, p, a));
    }
  }

  lemma WinnerChanges(c: Config, p: State, a: Action)
    requires Enabled(c, p, a)
    ensures var q, wins := Do(c, p, a), a.Exchange? || a.StopBegin?;
            && q.stopped == (p.stopped || wins)
            && q.winner == if wins && !p.stopped then Some(if a.Exchange? then Thread(a.side) else Caller(a.id))
                           else p.winner
  {
    hide Move, Said, StampOf, Observed, StopsAfter, PlacesAfter, Enabled;
  }

  lemma StepKeepsNotice(c: Config, p: State, a: Action)
    requires Enabled(c, p, a) && FlowInv(p) && NoticeInv(p)
    ensures NoticeInv(Do(c, p, a))
  {
    hide FlowInv, Notices, Owes, Do, Enabled;
    var q := Do(c, p, a);
    NoticesChange(c, p, a);
    WinnerChanges(c, p, a);
    forall w ensures Owes(q, w) ==> q.winner == Some(w) {
      OwesChanges(c, p, a, w);
    }
    if q.stopped {
      OwesChanges(c, p, a, q.winner.value);
    }
    if Messenger(a).Some? {
      OwesChanges(c, p, a, Messenger(a).value);
    }
  }

  // ---------- Latency events ----------

  function MeasurementIn(e: PacketEvent): Measurement {
    Measurement(e.requestSequence, e.responseSequence, e.latencyNs, e.requestSize, e.responseSize)
  }

  /** The measurements announced so far. */
  function Announced(log: seq<PacketEvent>): seq<Measurement> {
    if log == [] then []
    else
      var n := |log| - 1;
      Announced(log[..n]) + (if log[n].kind == Latency then [MeasurementIn(log[n])] else [])
  }

  lemma AnnouncedSnoc(log: seq<PacketEvent>, e: PacketEvent)
    ensures Announced(log + [e]) == Announced(log) + (if e.kind == Latency then [MeasurementIn(e)] else [])
  {
    assert (log + [e])[..|log|] == log;
  }

  /** A measurement taken and not yet announced. */
  function InHand(phase: Phase): seq<Measurement> {
    match phase
    case Measured(_, m) => [m]
    case Announcing(_, l) => [MeasurementIn(l)]
    case _ => []
  }

  /** The latency event tells of this request and this response: their numbers, times and sizes. */
  predicate TellsOf(l: PacketEvent, request: PacketEvent, response: PacketEvent) {
    && request.kind == RawBytes && request.direction == AppToDevice
    && response.kind == RawBytes && response.direction == DeviceToApp
    && l.requestSequence == request.sequence && l.responseSequence == response.sequence
    && l.latencyNs == response.timestampNs - request.timestampNs && l.timestampNs == response.timestampNs
    && l.requestSize == |request.payload| && l.responseSize == |response.payload|
  }

  /** The raw events a latency event tells of were delivered among the first `i` events. */
  predicate NamesDelivered(log: seq<PacketEvent>, l: PacketEvent, i: nat)
    requires i <= |log|
  {
    && (exists j, k :: 0 <= j < i && 0 <= k < i && TellsOf(l, log[j], log[k]))
    && l.requestSequence < l.sequence && l.responseSequence < l.sequence
  }

  predicate Backed(log: seq<PacketEvent>) {
    forall i :: 0 <= i < |log| && log[i].kind == Latency ==> NamesDelivered(log, log[i], i)
  }

  predicate RequestsNumbered(rs: seq<PacketEvent>, next: nat) {
    && (forall i :: 0 <= i < |rs| ==> rs[i].sequence < next)
    && (forall i, j :: 0 <= i < j < |rs| ==> rs[i].sequence < rs[j].sequence)
  }

  predicate Gives(m: Measurement, request: PacketEvent, response: PacketEvent) {
    && IsRequest(request) && IsResponse(response)
    && m.requestSequence == request.sequence && m.responseSequence == response.sequence
    && m.latencyNs == response.timestampNs - request.timestampNs
    && m.requestSize == |request.payload| && m.responseSize == |response.payload|
  }

  /** Both events of the measurement have been delivered, with numbers already taken. */
  predicate Confirmed(log: seq<PacketEvent>, next: nat, response: PacketEvent, m: Measurement) {
    && m.requestSequence < next && m.responseSequence < next && response in log
    && (exists j :: 0 <= j < |log| && Gives(m, log[j], response))
  }

  /** The application's forwarder numbers its chunks in order. */
  predicate AppHolds(phase: Phase, observed: seq<PacketEvent>, log: seq<PacketEvent>, next: nat) {
    && RequestsNumbered(Requests(observed), next)
    && match phase
       case Numbered(n, _) => n < next && RequestsNumbered(Requests(observed), n)
       case Holding(e) => e.sequence < next && RequestsNumbered(Requests(observed), e.sequence)
       case Recorded(e) => e.sequence < next && RequestsNumbered(Requests(observed), e.sequence) && e in log
       case _ => InHand(phase) == []
  }

  predicate DeviceHolds(phase: Phase, log: seq<PacketEvent>, next: nat) {
    match phase
    case Numbered(n, _) => n < next
    case Holding(e) => e.sequence < next
    case Recorded(e) => e.sequence < next && e in log
    case Measured(e, m) => Confirmed(log, next, e, m)
    case Announcing(_, l) => l.kind == Latency && NamesDelivered(log, l, |log|)
    case _ => true
  }

  predicate Counted(p: State) {
    && p.queue == Queue(p.observed)
    && (forall e :: e in p.observed ==> e in p.log)
    && Announced(p.log) + InHand(p.device.phase) == Measurements(p.observed)
    && Backed(p.log)
  }

  predicate LatencyInv(p: State) {
    && Counted(p)
    && AppHolds(p.app.phase, p.observed, p.log, p.next)
    && DeviceHolds(p.device.phase, p.log, p.next)
  }

  lemma StillDelivered(log: seq<PacketEvent>, log': seq<PacketEvent>, l: PacketEvent, i: nat, i': nat)
    requires i <= |log| && log <= log' && i <= i' <= |log'|
    requires NamesDelivered(log, l, i)
    ensures NamesDelivered(log', l, i')
  {
    hide TellsOf;
    var j, k :| 0 <= j < i && 0 <= k < i && TellsOf(l, log[j], log[k]);
    assert TellsOf(l, log'[j], log'[k]);
  }

  lemma BackedSnoc(log: seq<PacketEvent>, e: PacketEvent)
    requires Backed(log)
    requires e.kind == Latency ==> NamesDelivered(log, e, |log|)
    ensures Backed(log + [e])
  {
    hide NamesDelivered;
    var all := log + [e];
    forall i | 0 <= i < |all| && all[i].kind == Latency ensures NamesDelivered(all, all[i], i) {
      StillDelivered(log, all, all[i], i, i);
    }
  }

  lemma ConfirmedLater(log: seq<PacketEvent>, next: nat, log': seq<PacketEvent>, next': nat,
                       response: PacketEvent, m: Measurement)
    requires Confirmed(log, next, response, m)
    requires log <= log' && next <= next'
    ensures Confirmed(log', next', response, m)
  {
    hide Gives;
    var j :| 0 <= j < |log| && Gives(m, log[j], response);
    assert log'[j] == log[j];
  }

  lemma DeviceHoldsLater(phase: Phase, log: seq<PacketEvent>, next: nat, log': seq<PacketEvent>, next': nat)
    requires DeviceHolds(phase, log, next)
    requires log <= log' && next <= next'
    ensures DeviceHolds(phase, log', next')
  {
    hide Confirmed, NamesDelivered;
    if phase.Measured? {
      ConfirmedLater(log, next, log', next', phase.event, phase.measurement);
    } else if phase.Announcing? {
      StillDelivered(log, log', phase.latency, |log|, |log'|);
    }
  }

  lemma AppHoldsLater(phase: Phase, observed: seq<PacketEvent>, log: seq<PacketEvent>, next: nat,
                      observed': seq<PacketEvent>, log': seq<PacketEvent>, next': nat)
    requires AppHolds(phase, observed, log, next)
    requires Requests(observed') == Requests(observed) && log <= log' && next <= next'
    ensures AppHolds(phase, observed', log', next')
  {
    hide Requests;
  }

  lemma BooksGrow(c: Config, p: State, a: Action)
    requires Enabled(c, p, a)
    ensures var q := Do(c, p, a);
            && p.log <= q.log && p.next <= q.next
            && q.log == (if Emitter(a).Some? then p.log + [Said(c, p, a)] else p.log)
            && q.next == (if Taker(a).Some? then p.next + 1 else p.next)
            && q.observed == (if Observes(c, a) then p.observed + [Get(p, a.side).phase.event] else p.observed)
            && q.queue == (if Observes(c, a) then Observed(p.queue, Get(p, a.side).phase.event).0 else p.queue)
  {
    hide Move, StampOf, StopsAfter, PlacesAfter;
  }

  function HeldIn(phase: Phase): Option<nat> {
    match phase
    case Numbered(n, _) => Some(n)
    case Holding(e) => Some(e.sequence)
    case Announcing(_, l) => Some(l.sequence)
    case HoldingStop(e) => Some(e.sequence)
    case _ => None
  }

  /** Phases in which a forwarder has nothing to do with the tracker. */
  predicate Uninvolved(phase: Phase) {
    phase.HoldingStop? || (HeldIn(phase).None? && !phase.Recorded? && !phase.Measured?)
  }

  predicate Involves(a: Action) {
    a.ReadOk? || a.Stamp? || a.Record? || a.Observe? || a.NumberLatency?
  }

  lemma MoveUninvolved(c: Config, p: State, a: Action)
    requires Enabled(c, p, a) && Mover(a).Some? && !Involves(a)
    ensures Uninvolved(Move(c, p, a).phase)
  {
    hide StopOf;
  }

  // A step of the application's forwarder.

  lemma AppAfterObserve(c: Config, queue: seq<PendingRequest>, e: PacketEvent, observed: seq<PacketEvent>,
                        log: seq<PacketEvent>, next: nat)
    requires IsRequest(e) && AppHolds(Phase.Recorded(e), observed, log, next)
    ensures AppHolds(AfterObserve(c, queue, e), if c.latencyEnabled then observed + [e] else observed, log, next)
  {
    hide Requests, Queue, Measurements;
    HistorySnoc(observed, e);
  }

  lemma AppUninvolved(phase: Phase, after: Phase, observed: seq<PacketEvent>, log: seq<PacketEvent>, next: nat)
    requires AppHolds(phase, observed, log, next) && Uninvolved(after)
    ensures AppHolds(after, observed, log, next)
  {
    hide Requests;
  }

  lemma AppMoves(c: Config, p: State, a: Action)
    requires Enabled(c, p, a) && Mover(a) == Some(App) && (Taker(a).Some? ==> p.next < TWO_64)
    requires Carries(p.app, App) && AppHolds(p.app.phase, p.observed, p.log, p.next)
    ensures var q := Do(c, p, a); AppHolds(Move(c, p, a).phase, q.observed, q.log, q.next)
  {
    var q := Do(c, p, a);
    BooksGrow(c, p, a);
    hide Requests, RequestsNumbered, RawOf, LatencyOf, StopOf, Observed, Do;
    if !Involves(a) {
      MoveUninvolved(c, p, a);
      AppHoldsLater(p.app.phase, p.observed, p.log, p.next, q.observed, q.log, q.next);
      hide Move, AppHolds, Enabled, Carries;
      AppUninvolved(p.app.phase, Move(c, p, a).phase, q.observed, q.log, q.next);
    } else if a.Observe? {
      var e := p.app.phase.event;
      assert IsRequest(e) && p.app.phase == Phase.Recorded(e);
      assert Move(c, p, a).phase == AfterObserve(c, p.queue, e);
      hide Move, AppHolds, Enabled, Carries, AfterObserve;
      AppAfterObserve(c, p.queue, e, p.observed, p.log, p.next);
    } else {
      AppMovesOn(c, p, a);
    }
  }

  lemma AppMovesOn(c: Config, p: State, a: Action)
    requires Enabled(c, p, a) && Mover(a) == Some(App) && (Taker(a).Some? ==> p.next < TWO_64)
    requires a.ReadOk? || a.Stamp? || a.Record? || a.NumberLatency?
    requires AppHolds(p.app.phase, p.observed, p.log, p.next)
    ensures var q := Do(c, p, a); AppHolds(Move(c, p, a).phase, q.observed, q.log, q.next)
  {
    BooksGrow(c, p, a);
    hide Requests, StampOf, LatencyOf, Do;
    if a.ReadOk? {
      NoWrap(p.next);
    } else if a.Stamp? {
      StampFacts(c, p, a);
    } else if a.Record? {
      assert p.app.phase.event in Do(c, p, a).log;
    }
  }

  // A step of the device's forwarder.

  lemma DeviceUninvolved(phase: Phase, log: seq<PacketEvent>, next: nat)
    requires Uninvolved(phase)
    ensures DeviceHolds(phase, log, next)
  {
  }

  lemma DeviceMoves(c: Config, p: State, a: Action)
    requires Enabled(c, p, a) && Mover(a) == Some(Device) && (Taker(a).Some? ==> p.next < TWO_64)
    requires FlowInv(p) && LatencyInv(p)
    ensures var q := Do(c, p, a); DeviceHolds(Move(c, p, a).phase, q.log, q.next)
  {
    var q := Do(c, p, a);
    BooksGrow(c, p, a);
    if !Involves(a) {
      MoveUninvolved(c, p, a);
      hide Do, Move, Enabled, LatencyInv, FlowInv, DeviceHolds;
      DeviceUninvolved(Move(c, p, a).phase, q.log, q.next);
    } else if a.Observe? {
      FlowCarries(p, Device);
      hide FlowInv, LatencyInv, AfterObserve, Do;
      DeviceObserves(c, p);
    } else {
      hide FlowInv, Counted, AppHolds, DeviceHolds, Do, Move;
      DeviceMovesOn(c, p, a);
    }
  }

  lemma DeviceMovesOn(c: Config, p: State, a: Action)
    requires Enabled(c, p, a) && Mover(a) == Some(Device) && (Taker(a).Some? ==> p.next < TWO_64)
    requires a.ReadOk? || a.Stamp? || a.Record? || a.NumberLatency?
    requires DeviceHolds(p.device.phase, p.log, p.next)
    ensures var q := Do(c, p, a); DeviceHolds(Move(c, p, a).phase, q.log, q.next)
  {
    BooksGrow(c, p, a);
    hide Confirmed, StampOf, LatencyOf, Do;
    if a.ReadOk? {
      NoWrap(p.next);
    } else if a.Stamp? {
      StampFacts(c, p, a);
    } else if a.Record? {
      assert p.device.phase.event in Do(c, p, a).log;
    } else {
      DeviceNumbers(c, p);
    }
  }

  lemma DeviceNumbers(c: Config, p: State)
    requires p.device.phase.Measured? && p.next < TWO_64 && DeviceHolds(p.device.phase, p.log, p.next)
    ensures var e, m := p.device.phase.event, p.device.phase.measurement;
            DeviceHolds(Announcing(e, LatencyOf(c, p.next % TWO_64, e, m)), p.log, p.next + 1)
  {
    NoWrap(p.next);
    var e, m := p.device.phase.event, p.device.phase.measurement;
    var l := LatencyOf(c, p.next, e, m);
    LatencyFacts(c, p.next, e, m);
    hide LatencyOf;
    var j :| 0 <= j < |p.log| && Gives(m, p.log[j], e);
    var k :| 0 <= k < |p.log| && p.log[k] == e;
    assert TellsOf(l, p.log[j], p.log[k]);
  }

  lemma DeviceObserves(c: Config, p: State)
    requires LatencyInv(p) && p.device.phase.Recorded? && IsRaw(p.device.phase.event, Device)
    ensures DeviceHolds(AfterObserve(c, p.queue, p.device.phase.event), p.log, p.next)
  {
    hide Queue, Measurements, Requests, Announced, Backed, Confirmed, AppHolds, NamesDelivered;
    if p.queue != [] {
      MeasurementConfirmed(p, p.device.phase.event);
    }
  }

  lemma MeasurementConfirmed(p: State, e: PacketEvent)
    requires LatencyInv(p) && p.queue != []
    requires IsResponse(e) && e in p.log && e.sequence < p.next
    ensures Confirmed(p.log, p.next, e, Match(p.queue[0], e))
  {
    QueueLaw(p.observed);
    RequestsAreInHistory(p.observed);
    hide Queue, Measurements, Announced, Backed, Requests, Responses;
    var r := Requests(p.observed)[|Measurements(p.observed)|];
    assert r in p.observed && r in p.log;
    assert p.queue[0] == PendingOf(r);
    var j :| 0 <= j < |p.log| && p.log[j] == r;
    assert Gives(Match(p.queue[0], e), p.log[j], e);
  }

  // The measurements, announced or in hand.

  lemma MoveInHand(c: Config, p: State, a: Action)
    requires Enabled(c, p, a) && Mover(a).Some?
    requires var phase := Get(p, a.side).phase;
             phase.Measured? ==> phase.measurement.responseSequence == phase.event.sequence
    ensures var before, after := InHand(Get(p, a.side).phase), InHand(Move(c, p, a).phase);
            && (a.Announce? ==> before == [MeasurementIn(Said(c, p, a))] && after == [])
            && (a.Observe? ==>
                  var m := Observed(p.queue, Get(p, a.side).phase.event).1;
                  before == [] && after == (if c.latencyEnabled && m.Some? then [m.value] else []))
            && (!a.Observe? && !a.Announce? ==> after == before)
  {
    hide StampOf, StopOf, Observed;
    if a.NumberLatency? {
      LatencyFacts(c, p.next % TWO_64, Get(p, a.side).phase.event, Get(p, a.side).phase.measurement);
    }
    hide LatencyOf, MeasurementIn;
  }

  lemma LogKeepsBacked(c: Config, p: State, a: Action)
    requires Enabled(c, p, a) && FlowInv(p) && LatencyInv(p)
    ensures var q := Do(c, p, a);
            && Backed(q.log) && p.log <= q.log
            && Announced(q.log) == Announced(p.log) + (if a.Announce? then [MeasurementIn(Said(c, p, a))] else [])
  {
    BooksGrow(c, p, a);
    assert Backed(p.log);
    if Emitter(a).Some? {
      SaidFacts(c, p, a);
      AnnouncedSnoc(p.log, Said(c, p, a));
      if a.Announce? {
        AnnouncementIsBacked(c, p, a);
      }
      hide FlowInv, LatencyInv, Announced, Backed, Do;
      assert Announced(p.log) + [] == Announced(p.log);
      BackedSnoc(p.log, Said(c, p, a));
    } else {
      assert Announced(p.log) + [] == Announced(p.log);
    }
  }

  lemma AnnouncementIsBacked(c: Config, p: State, a: Action)
    requires Enabled(c, p, a) && LatencyInv(p) && a.Announce?
    ensures a.side == Device && NamesDelivered(p.log, Said(c, p, a), |p.log|)
  {
    hide Counted, Requests, RequestsNumbered;
  }

  lemma ObserverHolds(c: Config, p: State, d: Side)
    requires LatencyInv(p) && Get(p, d).phase.Recorded?
    ensures Get(p, d).phase.event in p.log && p.queue == Queue(p.observed)
    ensures d == Device ==> InHand(p.device.phase) == []
  {
    hide Requests, RequestsNumbered, Queue, Announced, Measurements, Backed;
  }

  lemma ObserveCounts(c: Config, p: State, a: Action)
    requires Enabled(c, p, a) && FlowInv(p) && LatencyInv(p) && Observes(c, a)
    ensures Counted(Do(c, p, a))
  {
    var q, e := Do(c, p, a), Get(p, a.side).phase.event;
    FlowCarries(p, a.side);
    BooksGrow(c, p, a);
    ObserverHolds(c, p, a.side);
    LogKeepsBacked(c, p, a);
    Moves(c, p, a, Device);
    HistorySnoc(p.observed, e);
    MoveInHand(c, p, a);
    assert IsRaw(e, a.side) && p.device.phase.Recorded? ==> InHand(p.device.phase) == [];
    CountsOf(p);
    hide FlowInv, LatencyInv, Counted, Queue, Announced, Measurements, Requests, Backed, Move, Do, InHand, Enabled;
    assert Announced(p.log) + [] == Announced(p.log);
    assert Measurements(p.observed) + [] == Measurements(p.observed);
    CountedFrom(q);
  }

  lemma CountsOf(p: State)
    requires LatencyInv(p)
    ensures Announced(p.log) + InHand(p.device.phase) == Measurements(p.observed)
    ensures Backed(p.log) && p.queue == Queue(p.observed) && forall e :: e in p.observed ==> e in p.log
  {
    hide Queue, Announced, Measurements, Requests, Backed, InHand, AppHolds, DeviceHolds;
  }

  lemma CountedFrom(q: State)
    requires q.queue == Queue(q.observed) && Backed(q.log)
    requires forall e :: e in q.observed ==> e in q.log
    requires Announced(q.log) + InHand(q.device.phase) == Measurements(q.observed)
    ensures Counted(q)
  {
    hide Queue, Announced, Measurements, Backed, InHand;
  }

  /** Announced plus in hand stays the same, or the one in hand is announced. */
  lemma OtherStepMeasures(c: Config, p: State, a: Action)
    requires Enabled(c, p, a) && LatencyInv(p) && !Observes(c, a)
    ensures var before, after := InHand(p.device.phase), InHand(Do(c, p, a).device.phase);
            before == (if a.Announce? then [MeasurementIn(Said(c, p, a))] else []) + after
  {
    Moves(c, p, a, Device);
    hide Do, Move, Counted, AppHolds, DeviceHolds;
    if Mover(a) == Some(Device) {
      MeasuredFacts(p);
      MoveInHand(c, p, a);
    } else if a.Announce? {
      AnnouncementIsBacked(c, p, a);
    }
  }

  lemma Regroup(a: seq<Measurement>, b: seq<Measurement>, c: seq<Measurement>)
    ensures (a + b) + c == a + (b + c)
  {
  }

  lemma OtherStepCounts(c: Config, p: State, a: Action)
    requires Enabled(c, p, a) && FlowInv(p) && LatencyInv(p) && !Observes(c, a)
    ensures Counted(Do(c, p, a))
  {
    var q := Do(c, p, a);
    BooksGrow(c, p, a);
    LogKeepsBacked(c, p, a);
    CountsOf(p);
    OtherStepMeasures(c, p, a);
    hide FlowInv, LatencyInv, Counted, Queue, Announced, Measurements, Requests, Backed, Do, InHand, Enabled, Said;
    Regroup(Announced(p.log), if a.Announce? then [MeasurementIn(Said(c, p, a))] else [], InHand(q.device.phase));
    CountedFrom(q);
  }

  lemma MeasuredFacts(p: State)
    requires LatencyInv(p)
    ensures var phase := p.device.phase; phase.Measured? ==> phase.measurement.responseSequence == phase.event.sequence
  {
    hide Counted, AppHolds, NamesDelivered;
  }

  lemma AppStillHolds(c: Config, p: State, a: Action)
    requires Enabled(c, p, a) && FlowInv(p) && LatencyInv(p) && (Taker(a).Some? ==> p.next < TWO_64)
    ensures var q := Do(c, p, a); AppHolds(q.app.phase, q.observed, q.log, q.next)
  {
    var q := Do(c, p, a);
    Moves(c, p, a, App);
    if Mover(a) == Some(App) {
      FlowCarries(p, App);
      hide FlowInv, Counted, AppHolds, Do, Move;
      AppMoves(c, p, a);
    } else {
      BooksGrow(c, p, a);
      if Observes(c, a) {
        FlowCarries(p, Device);
        HistorySnoc(p.observed, p.device.phase.event);
      }
      hide FlowInv, Counted, AppHolds, Do, Requests, Measurements, Queue;
      assert Requests(p.observed) + [] == Requests(p.observed);
      AppHoldsLater(p.app.phase, p.observed, p.log, p.next, q.observed, q.log, q.next);
    }
  }

  lemma DeviceStillHolds(c: Config, p: State, a: Action)
    requires Enabled(c, p, a) && FlowInv(p) && LatencyInv(p) && (Taker(a).Some? ==> p.next < TWO_64)
    ensures var q := Do(c, p, a); DeviceHolds(q.device.phase, q.log, q.next)
  {
    var q := Do(c, p, a);
    Moves(c, p, a, Device);
    if Mover(a) == Some(Device) {
      hide LatencyInv, DeviceHolds, Do, Move, FlowInv;
      DeviceMoves(c, p, a);
    } else {
      BooksGrow(c, p, a);
      hide Counted, AppHolds, DeviceHolds, Do, FlowInv;
      DeviceHoldsLater(p.device.phase, p.log, p.next, q.log, q.next);
    }
  }

  lemma StepKeepsLatency(c: Config, p: State, a: Action)
    requires Enabled(c, p, a) && FlowInv(p) && LatencyInv(p) && (Taker(a).Some? ==> p.next < TWO_64)
    ensures LatencyInv(Do(c, p, a))
  {
    hide FlowInv, Counted, AppHolds, DeviceHolds, Do, Enabled;
    AppStillHolds(c, p, a);
    DeviceStillHolds(c, p, a);
    if Observes(c, a) {
      ObserveCounts(c, p, a);
    } else {
      OtherStepCounts(c, p, a);
    }
  }

  // ---------- Where each number is ----------

  /** The number of the event a thread or caller has in hand. */
  function Held(p: State, w: Who): Option<nat> {
    match w
    case Thread(d) => HeldIn(Get(p, d).phase)
    case Caller(id) =>
      if id in p.stops && p.stops[id].HoldingNotice? then Some(p.stops[id].event.sequence) else None
  }

  predicate IsAt(places: map<nat, Place>, n: nat, place: Place) {
    n in places && places[n] == place
  }

  /** Every number is where the books say it is. */
  ghost predicate PlaceInv(p: State) {
    && 0 < p.next
    && (forall n :: n in p.places ==> 0 < n < p.next)
    && (forall i :: 0 <= i < |p.log| ==> IsAt(p.places, p.log[i].sequence, Delivered(i)))
    && (forall w :: Held(p, w).Some? ==> IsAt(p.places, Held(p, w).value, HeldBy(w)))
  }

  lemma TakeKeepsPlaces(p: State, q: State, place: Place)
    requires PlaceInv(p)
    requires q.next == p.next + 1 && q.places == p.places[p.next := place] && q.log == p.log
    requires !place.Delivered?
    requires forall w :: Held(q, w) == if place == HeldBy(w) then Some(p.next) else Held(p, w)
    ensures PlaceInv(q)
  {
    hide Held;
  }

  lemma EmitKeepsPlaces(p: State, q: State, w: Who, e: PacketEvent)
    requires PlaceInv(p) && Held(p, w) == Some(e.sequence)
    requires q.next == p.next && q.log == p.log + [e] && q.places == p.places[e.sequence := Delivered(|p.log|)]
    requires forall v :: Held(q, v) == if v == w then None else Held(p, v)
    ensures PlaceInv(q)
  {
    hide Held;
    assert IsAt(p.places, e.sequence, HeldBy(w));
    forall i | 0 <= i < |q.log| ensures IsAt(q.places, q.log[i].sequence, Delivered(i)) {
      if i < |p.log| {
        assert IsAt(p.places, p.log[i].sequence, Delivered(i));
      }
    }
    forall v | Held(q, v).Some? ensures IsAt(q.places, Held(q, v).value, HeldBy(v)) {
      assert IsAt(p.places, Held(p, v).value, HeldBy(v));
    }
  }

  lemma QuietKeepsPlaces(p: State, q: State)
    requires PlaceInv(p)
    requires q.next == p.next && q.log == p.log && q.places == p.places
    requires forall w :: Held(q, w) == Held(p, w)
    ensures PlaceInv(q)
  {
    hide Held;
  }

  lemma MoveHeld(c: Config, p: State, a: Action)
    requires Enabled(c, p, a) && Mover(a).Some? && (Taker(a).Some? ==> p.next < TWO_64)
    ensures HeldIn(Move(c, p, a).phase) ==
            if Taker(a).Some? then Some(p.next) else if Emitter(a).Some? then None else HeldIn(Get(p, a.side).phase)
  {
    if Taker(a).Some? {
      NoWrap(p.next);
    }
    if a.Stamp? {
      StampFacts(c, p, a);
    } else if a.NumberLatency? {
      LatencyFacts(c, p.next, Get(p, a.side).phase.event, Get(p, a.side).phase.measurement);
    } else if a.MakeStop? {
      StopFacts(c, p.next, a.ts, Thread(a.side));
    }
    hide StampOf, LatencyOf, StopOf, Observed;
  }

  lemma HeldChanges(c: Config, p: State, a: Action, w: Who)
    requires Enabled(c, p, a) && (Taker(a).Some? ==> p.next < TWO_64)
    ensures Held(Do(c, p, a), w) ==
            if Taker(a) == Some(HeldBy(w)) then Some(p.next) else if Emitter(a) == Some(w) then None else Held(p, w)
  {
    match w
    case Thread(d) =>
      Moves(c, p, a, d);
      hide Move, Do, HeldIn;
      if Mover(a) == Some(d) {
        MoveHeld(c, p, a);
      }
    case Caller(id) =>
      if Taker(a).Some? {
        NoWrap(p.next);
      }
      hide Move, Said, StampOf, Observed, PlacesAfter;
  }

  lemma PlacesChange(c: Config, p: State, a: Action)
    requires Enabled(c, p, a) && (Taker(a).Some? ==> p.next < TWO_64)
    ensures Do(c, p, a).places ==
            if Taker(a).Some? then p.places[p.next := Taker(a).value]
            else if Emitter(a).Some? then p.places[Said(c, p, a).sequence := Delivered(|p.log|)]
            else p.places
    ensures Emitter(a).Some? ==> Held(p, Emitter(a).value) == Some(Said(c, p, a).sequence)
  {
    if Taker(a).Some? {
      NoWrap(p.next);
    }
    hide Move, StampOf, Observed, StopsAfter;
  }

  lemma StepKeepsPlaces(c: Config, p: State, a: Action)
    requires Enabled(c, p, a) && PlaceInv(p) && (Taker(a).Some? ==> p.next < TWO_64)
    ensures PlaceInv(Do(c, p, a))
  {
    hide PlaceInv, Held, Do, Enabled, Said;
    var q := Do(c, p, a);
    forall w ensures Held(q, w) == if Taker(a) == Some(HeldBy(w)) then Some(p.next)
                                   else if Emitter(a) == Some(w) then None else Held(p, w)
    {
      HeldChanges(c, p, a, w);
    }
    BooksGrow(c, p, a);
    PlacesChange(c, p, a);
    if Taker(a).Some? {
      TakeKeepsPlaces(p, q, Taker(a).value);
    } else if Emitter(a).Some? {
      EmitKeepsPlaces(p, q, Emitter(a).value, Said(c, p, a));
    } else {
      QuietKeepsPlaces(p, q);
    }
  }

  // ---------- Time stamps ----------

  /** The clock readings of a run, in order. */
  function Stamps(r: seq<Action>): seq<int> {
    if r == [] then []
    else
      var n := |r| - 1;
      Stamps(r[..n]) + (if r[n].Stamp? then [r[n].ts] else [])
  }

  function TimesOf(events: seq<PacketEvent>): (ts: seq<int>)
    ensures |ts| == |events|
  {
    seq(|events|, i requires 0 <= i < |events| => events[i].timestampNs)
  }

  predicate StampedIn(phase: Phase, stamped: seq<PacketEvent>) {
    phase.Holding? || phase.Recorded? ==> phase.event in stamped
  }

  predicate StampInv(p: State) {
    && (forall e :: e in p.observed ==> e in p.stamped)
    && (forall d :: StampedIn(Get(p, d).phase, p.stamped))
  }

  lemma MoveStamped(c: Config, p: State, a: Action)
    requires Enabled(c, p, a) && Mover(a).Some? && StampedIn(Get(p, a.side).phase, p.stamped)
    ensures StampedIn(Move(c, p, a).phase, Do(c, p, a).stamped)
  {
    hide StampOf, LatencyOf, StopOf, Observed, StopsAfter, PlacesAfter, Said;
    if a.Stamp? {
      assert Do(c, p, a).stamped[|p.stamped|] == StampOf(c, p, a);
    }
  }

  lemma StampsGrow(c: Config, p: State, a: Action)
    requires Enabled(c, p, a)
    ensures p.stamped <= Do(c, p, a).stamped
    ensures TimesOf(Do(c, p, a).stamped) == TimesOf(p.stamped) + (if a.Stamp? then [a.ts] else [])
  {
    hide Move, StopsAfter, PlacesAfter, Said, StampOf;
    if a.Stamp? {
      StampFacts(c, p, a);
    }
  }

  lemma StepKeepsStamps(c: Config, p: State, a: Action)
    requires Enabled(c, p, a) && StampInv(p)
    ensures StampInv(Do(c, p, a))
  {
    hide Move, Do, Observed;
    var q := Do(c, p, a);
    StampsGrow(c, p, a);
    BooksGrow(c, p, a);
    assert forall e :: e in p.stamped ==> e in q.stamped;
    forall d ensures StampedIn(Get(q, d).phase, q.stamped) {
      assert StampedIn(Get(p, d).phase, p.stamped);
      Moves(c, p, a, d);
      if Mover(a) == Some(d) {
        MoveStamped(c, p, a);
      }
    }
    if Observes(c, a) {
      assert StampedIn(Get(p, a.side).phase, p.stamped);
    }
  }

  // ---------- What the events look like ----------

  /** What all events of the proxy have in common: no parents, no decoder text. */
  predicate FromProxy(c: Config, e: PacketEvent) {
    && e.sessionId == c.sessionId && e.transport == "tcp"
    && e.parentSequence == 0 && e.parentSequences == [] && e.decodedJson == ""
  }

  predicate NoLatency(e: PacketEvent) {
    && e.requestSequence == 0 && e.responseSequence == 0 && e.latencyNs == 0
    && e.requestSize == 0 && e.responseSize == 0
  }

  /** A chunk goes from the endpoint it was read from to the other one. */
  predicate RawShape(c: Config, e: PacketEvent) {
    && FromProxy(c, e) && NoLatency(e) && e.kind == RawBytes
    && ((&& e.direction == AppToDevice && e.source == c.appEndpoint && e.destination == c.deviceEndpoint
         && e.summary == "APP -> DEVICE " + NatText(|e.payload|) + " bytes")
        || (&& e.direction == DeviceToApp && e.source == c.deviceEndpoint && e.destination == c.appEndpoint
            && e.summary == "DEVICE -> APP " + NatText(|e.payload|) + " bytes"))
  }

  predicate LatencyShape(c: Config, e: PacketEvent) {
    && FromProxy(c, e) && e.kind == Latency && e.direction == DeviceToApp && e.payload == []
    && e.source == c.deviceEndpoint && e.destination == c.appEndpoint
    && e.summary == "response latency " + IntText(TruncatedQuotient(e.latencyNs, 1000)) + " us"
  }

  /** The notice shows the endpoints of the forwarder that was first to stop, or none. */
  predicate NoticeShape(c: Config, e: PacketEvent, who: Who) {
    && FromProxy(c, e) && NoLatency(e) && e.kind == StateChange && e.direction == DeviceToApp && e.payload == []
    && e.summary == "proxy stopped"
    && match who
       case Caller(_) => e.source == "" && e.destination == ""
       case Thread(App) => e.source == c.appEndpoint && e.destination == c.deviceEndpoint
       case Thread(Device) => e.source == c.deviceEndpoint && e.destination == c.appEndpoint
  }

  predicate Shaped(c: Config, winner: Option<Who>, e: PacketEvent) {
    RawShape(c, e) || LatencyShape(c, e) || (winner.Some? && NoticeShape(c, e, winner.value))
  }

  predicate PhaseShape(c: Config, d: Side, phase: Phase) {
    match phase
    case Holding(e) => RawShape(c, e) && e.direction == DirectionOf(d)
    case Recorded(e) => RawShape(c, e) && e.direction == DirectionOf(d)
    case Measured(e, _) => RawShape(c, e) && e.direction == DeviceToApp
    case Announcing(_, l) => LatencyShape(c, l)
    case HoldingStop(e) => NoticeShape(c, e, Thread(d))
    case _ => true
  }

  predicate CallersShape(c: Config, stops: map<nat, StopCall>) {
    forall id :: id in stops && stops[id].HoldingNotice? ==> NoticeShape(c, stops[id].event, Caller(id))
  }

  predicate LogShape(c: Config, winner: Option<Who>, log: seq<PacketEvent>) {
    forall i :: 0 <= i < |log| ==> Shaped(c, winner, log[i])
  }

  predicate ShapeInv(c: Config, p: State) {
    && (forall d :: PhaseShape(c, d, Get(p, d).phase))
    && CallersShape(c, p.stops)
    && LogShape(c, p.winner, p.log)
  }

  lemma RawIsShaped(c: Config, n: nat, ts: int, d: Side, payload: bytes)
    ensures var e := RawOf(c, n, ts, d, payload); RawShape(c, e) && e.direction == DirectionOf(d)
  {
    hide NatText;
  }

  lemma LatencyIsShaped(c: Config, n: nat, response: PacketEvent, m: Measurement)
    requires RawShape(c, response) && response.direction == DeviceToApp
    ensures LatencyShape(c, LatencyOf(c, n, response, m))
  {
    hide NatText, IntText;
  }

  lemma StopIsShaped(c: Config, n: nat, ts: int, who: Who)
    ensures NoticeShape(c, StopOf(c, n, ts, who), who)
  {
  }

  lemma MoveShaped(c: Config, p: State, a: Action)
    requires Enabled(c, p, a) && Mover(a).Some? && PhaseShape(c, a.side, Get(p, a.side).phase)
    ensures PhaseShape(c, a.side, Move(c, p, a).phase)
  {
    if a.Stamp? {
      RawIsShaped(c, Get(p, a.side).phase.number, a.ts, a.side, Get(p, a.side).phase.payload);
    } else if a.NumberLatency? {
      LatencyIsShaped(c, p.next % TWO_64, Get(p, a.side).phase.event, Get(p, a.side).phase.measurement);
    } else if a.MakeStop? {
      StopIsShaped(c, p.next % TWO_64, a.ts, Thread(a.side));
    }
    hide RawOf, LatencyOf, StopOf, RawShape, LatencyShape, NoticeShape;
  }

  lemma CallersStillShaped(c: Config, p: State, a: Action)
    requires Enabled(c, p, a) && CallersShape(c, p.stops)
    ensures CallersShape(c, StopsAfter(c, p, a))
  {
    if a.StopMake? {
      StopIsShaped(c, p.next % TWO_64, a.ts, Caller(a.id));
    }
    hide StopOf, NoticeShape;
  }

  /** Whoever delivers the notice is the one who set the flag. */
  lemma SaidIsShaped(c: Config, p: State, a: Action)
    requires Enabled(c, p, a) && NoticeInv(p) && ShapeInv(c, p) && Emitter(a).Some?
    ensures Shaped(c, p.winner, Said(c, p, a))
  {
    hide RawShape, LatencyShape, NoticeShape, LogShape, Notices;
    if Messenger(a).Some? {
      assert Owes(p, Messenger(a).value);
    }
    if !a.StopEmit? {
      assert PhaseShape(c, a.side, Get(p, a.side).phase);
    }
  }

  lemma LogStillShaped(c: Config, p: State, a: Action)
    requires Enabled(c, p, a) && NoticeInv(p) && ShapeInv(c, p)
    ensures LogShape(c, Do(c, p, a).winner, Do(c, p, a).log)
  {
    BooksGrow(c, p, a);
    WinnerChanges(c, p, a);
    if Emitter(a).Some? {
      SaidIsShaped(c, p, a);
    }
    assert p.winner.Some? ==> Do(c, p, a).winner == p.winner;
    hide Do, RawShape, LatencyShape, NoticeShape, Notices, Owes, Said, Enabled;
  }

  lemma StepKeepsShape(c: Config, p: State, a: Action)
    requires Enabled(c, p, a) && NoticeInv(p) && ShapeInv(c, p)
    ensures ShapeInv(c, Do(c, p, a))
  {
    var q := Do(c, p, a);
    LogStillShaped(c, p, a);
    CallersStillShaped(c, p, a);
    assert q.stops == StopsAfter(c, p, a);
    hide Do, Move, Enabled, NoticeInv, PhaseShape, LogShape, CallersShape, StopsAfter;
    forall d ensures PhaseShape(c, d, Get(q, d).phase) {
      Moves(c, p, a, d);
      assert PhaseShape(c, d, Get(p, d).phase);
      if Mover(a) == Some(d) {
        MoveShaped(c, p, a);
      }
    }
  }

  // ---------- Bytes read ----------

  /** The bytes a forwarder has read from its socket in a run. */
  function BytesRead(r: seq<Action>, d: Side): bytes {
    if r == [] then []
    else
      var n := |r| - 1;
      BytesRead(r[..n], d) + (if r[n].ReadOk? && r[n].side == d then r[n].payload else [])
  }

  /** A chunk read and not yet recorded. */
  function Unrecorded(phase: Phase): bytes {
    match phase
    case Numbered(_, payload) => payload
    case Holding(e) => e.payload
    case _ => []
  }

  predicate ReadInv(p: State, r: seq<Action>) {
    forall d :: RecordedBytes(p.log, d) + Unrecorded(Get(p, d).phase) == BytesRead(r, d)
  }

  lemma MoveUnrecorded(c: Config, p: State, a: Action)
    requires Enabled(c, p, a) && Mover(a).Some?
    ensures Unrecorded(Move(c, p, a).phase) ==
            if a.ReadOk? then a.payload else if a.Record? then [] else Unrecorded(Get(p, a.side).phase)
    ensures a.ReadOk? ==> Unrecorded(Get(p, a.side).phase) == []
    ensures a.Record? ==> Unrecorded(Get(p, a.side).phase) == Get(p, a.side).phase.event.payload
  {
    if a.Stamp? {
      StampFacts(c, p, a);
    }
    hide StampOf, LatencyOf, StopOf, Observed;
  }

  lemma ReadsGrow(c: Config, p: State, a: Action, r: seq<Action>, d: Side)
    requires r != [] && r[|r| - 1] == a
    requires Enabled(c, p, a) && FlowInv(p) && ReadInv(p, r[..|r| - 1])
    ensures RecordedBytes(Do(c, p, a).log, d) + Unrecorded(Get(Do(c, p, a), d).phase) == BytesRead(r, d)
  {
    Moves(c, p, a, d);
    LogBytes(c, p, a, d);
    var before, recorded := BytesRead(r[..|r| - 1], d), RecordedBytes(p.log, d);
    assert recorded + Unrecorded(Get(p, d).phase) == before;
    assert before + [] == before && recorded + [] == recorded;
    if Mover(a) == Some(d) {
      MoveUnrecorded(c, p, a);
    }
    hide FlowInv, RecordedBytes, Move, Do, Enabled, Unrecorded, ReadInv;
  }

  lemma StepKeepsReads(c: Config, p: State, a: Action, r: seq<Action>)
    requires r != [] && r[|r| - 1] == a
    requires Enabled(c, p, a) && FlowInv(p) && ReadInv(p, r[..|r| - 1])
    ensures ReadInv(Do(c, p, a), r)
  {
    hide *;
    forall d ensures RecordedBytes(Do(c, p, a).log, d) + Unrecorded(Get(Do(c, p, a), d).phase) == BytesRead(r, d) {
      ReadsGrow(c, p, a, r, d);
    }
    ReadsFrom(Do(c, p, a), r);
  }

  lemma ReadsFrom(p: State, r: seq<Action>)
    requires forall d :: RecordedBytes(p.log, d) + Unrecorded(Get(p, d).phase) == BytesRead(r, d)
    ensures ReadInv(p, r)
  {
    hide RecordedBytes, Unrecorded, BytesRead;
  }

  // ---------- Runs ----------

  lemma {:induction false} RunInvariant(c: Config, r: seq<Action>)
    ensures Execute(c, r).Some? ==>
              var p := Execute(c, r).value;
              && FlowInv(p) && NoticeInv(p) && StampInv(p) && TimesOf(p.stamped) == Stamps(r)
              && ShapeInv(c, p) && ReadInv(p, r)
              && (p.next <= TWO_64 ==> LatencyInv(p) && PlaceInv(p))
  {
    hide FlowInv, NoticeInv, LatencyInv, PlaceInv, StampInv, ShapeInv, ReadInv, Do, Enabled;
    if r == [] {
      InitInvariant();
      InitShape(c);
    } else if Execute(c, r).Some? {
      RunInvariant(c, r[..|r| - 1]);
      var p, a := Execute(c, r[..|r| - 1]).value, r[|r| - 1];
      StepKeepsFlow(c, p, a);
      StepKeepsNotice(c, p, a);
      StepKeepsStamps(c, p, a);
      StepKeepsShape(c, p, a);
      StepKeepsReads(c, p, a, r);
      StampsGrow(c, p, a);
      BooksGrow(c, p, a);
      if Do(c, p, a).next <= TWO_64 {
        StepKeepsLatency(c, p, a);
        StepKeepsPlaces(c, p, a);
      }
    }
  }

  lemma InitInvariant()
    ensures FlowInv(Init()) && NoticeInv(Init()) && LatencyInv(Init()) && PlaceInv(Init()) && StampInv(Init())
    ensures TimesOf(Init().stamped) == Stamps([])
  {
    hide LatencyInv, PlaceInv;
    InitLatency();
    InitPlaces();
  }

  lemma InitShape(c: Config)
    ensures ShapeInv(c, Init()) && ReadInv(Init(), [])
  {
  }

  lemma InitLatency()
    ensures LatencyInv(Init())
  {
  }

  lemma InitPlaces()
    ensures PlaceInv(Init())
  {
  }

  /**
   In each direction the bytes recorded are a prefix of the bytes read and the bytes written a prefix of the
   bytes recorded, all within one chunk.
   */
  lemma WrittenFollowsRecorded(c: Config, r: seq<Action>, p: State, d: Side)
    requires Execute(c, r) == Some(p)
    ensures Get(p, d).written <= RecordedBytes(p.log, d) <= BytesRead(r, d)
    ensures |BytesRead(r, d)| - |Get(p, d).written| <= 4096
  {
    hide Execute;
    RunInvariant(c, r);
    assert Carries(Get(p, d), d);
    assert RecordedBytes(p.log, d) + Unrecorded(Get(p, d).phase) == BytesRead(r, d);
  }

  /** Every delivered event is a chunk, a latency or the notice of the one who stopped the proxy, fully stated. */
  lemma EventsAreShaped(c: Config, r: seq<Action>, p: State, i: nat)
    requires Execute(c, r) == Some(p) && i < |p.log|
    ensures var e := p.log[i];
            RawShape(c, e) || LatencyShape(c, e) || (p.winner.Some? && NoticeShape(c, e, p.winner.value))
  {
    hide Execute, RawShape, LatencyShape, NoticeShape;
    RunInvariant(c, r);
  }

  /**
   The stop notice is delivered by whoever set the flag: never before the flag is set, never twice, and once
   he no longer owes it, exactly once.
   */
  lemma StoppedOnce(c: Config, r: seq<Action>, p: State)
    requires Execute(c, r) == Some(p)
    ensures p.stopped <==> p.winner.Some?
    ensures Notices(p.log) == if p.stopped && !Owes(p, p.winner.value) then 1 else 0
  {
    hide Execute;
    RunInvariant(c, r);
  }

  /**
   Each latency event comes after two delivered raw events, is numbered above them and carries their numbers,
   times and sizes; the i-th names the i-th observed request, so no request is named twice.
   */
  lemma LatencyEventsAreBacked(c: Config, r: seq<Action>, p: State)
    requires Execute(c, r) == Some(p) && p.next <= TWO_64
    ensures forall i :: 0 <= i < |p.log| && p.log[i].kind == Latency ==>
              exists j, k :: 0 <= j < i && 0 <= k < i && TellsOf(p.log[i], p.log[j], p.log[k])
                             && p.log[j].sequence < p.log[i].sequence && p.log[k].sequence < p.log[i].sequence
    ensures |Announced(p.log)| <= |Requests(p.observed)|
    ensures forall i :: 0 <= i < |Announced(p.log)| ==>
              Announced(p.log)[i].requestSequence == Requests(p.observed)[i].sequence
    ensures forall i, j :: 0 <= i < j < |Announced(p.log)| ==>
              Announced(p.log)[i].requestSequence != Announced(p.log)[j].requestSequence
  {
    hide Execute;
    AnnouncedAreMeasured(c, r, p);
    QueueLaw(p.observed);
    hide Announced, Measurements, Requests, Queue, RequestAt, ResponseAt;
    var ms, rs := Measurements(p.observed), Requests(p.observed);
    forall i | 0 <= i < |Announced(p.log)| ensures Announced(p.log)[i].requestSequence == rs[i].sequence {
      MeasurementNamesRequest(p.observed, i);
    }
  }

  lemma AnnouncedAreMeasured(c: Config, r: seq<Action>, p: State)
    requires Execute(c, r) == Some(p) && p.next <= TWO_64
    ensures Announced(p.log) <= Measurements(p.observed)
    ensures Backed(p.log) && RequestsNumbered(Requests(p.observed), p.next)
    ensures forall e :: e in p.observed ==> e in p.stamped
    ensures TimesOf(p.stamped) == Stamps(r)
  {
    hide Execute, Announced, Measurements, Requests, Queue, Backed, RequestsNumbered, InHand;
    RunInvariant(c, r);
  }

  /**
   One allocator for all: no two delivered events share a number, whatever their kinds, and none carries a
   number that was used outside the proxy.
   */
  lemma NumbersAreUsedOnce(c: Config, r: seq<Action>, p: State)
    requires Execute(c, r) == Some(p) && p.next <= TWO_64
    ensures forall i, j :: 0 <= i < j < |p.log| ==> p.log[i].sequence != p.log[j].sequence
    ensures forall i, n :: 0 <= i < |p.log| && n in p.places && p.places[n] == Elsewhere ==> p.log[i].sequence != n
    ensures forall i :: 0 <= i < |p.log| ==> 0 < p.log[i].sequence < p.next
  {
    hide Execute, Held;
    RunInvariant(c, r);
    forall i | 0 <= i < |p.log| ensures IsAt(p.places, p.log[i].sequence, Delivered(i)) {
    }
  }

  // ---------- Signs of the latencies ----------

  /**
   The announced latencies of a run are all non-negative exactly when, at each answer announced so far, the
   oldest unanswered request was not stamped later than the response.
   */
  lemma LatenciesNonNegativeIff(c: Config, r: seq<Action>, p: State)
    requires Execute(c, r) == Some(p) && p.next <= TWO_64
    ensures |Announced(p.log)| <= |Measurements(p.observed)|
    ensures NonNegative(Announced(p.log)) <==> OldestIsEarlier(p.observed, |Announced(p.log)|)
  {
    hide Execute, Announced, OldestIsEarlier;
    AnnouncedAreMeasured(c, r, p);
    LatencyNonNegativeIff(p.observed, |Announced(p.log)|);
    assert Announced(p.log) == Measurements(p.observed)[..|Announced(p.log)|];
  }

  predicate NonDecreasing(ts: seq<int>) {
    forall i, j :: 0 <= i <= j < |ts| ==> ts[i] <= ts[j]
  }

  /** Two stamped events, the one named `first` before the one named `second`. */
  predicate StampedBefore(p: State, first: nat, second: nat) {
    exists a, b :: 0 <= a < b < |p.stamped| && IsResponse(p.stamped[a]) && p.stamped[a].sequence == first
                   && IsRequest(p.stamped[b]) && p.stamped[b].sequence == second
  }

  /**
   With a clock that never goes back, a latency is negative only if the response was stamped, and so taken
   from its socket, before the request it is matched to.
   */
  lemma NegativeOnlyWhenOvertaken(c: Config, r: seq<Action>, p: State, i: nat)
    requires Execute(c, r) == Some(p) && p.next <= TWO_64
    requires NonDecreasing(Stamps(r))
    requires i < |Announced(p.log)| && Announced(p.log)[i].latencyNs < 0
    ensures StampedBefore(p, Announced(p.log)[i].responseSequence, Announced(p.log)[i].requestSequence)
  {
    hide Execute, Announced, Measurements, Requests, RequestAt, ResponseAt, Stamps, Backed, RequestsNumbered;
    AnnouncedAreMeasured(c, r, p);
    MeasurementNamesRequest(p.observed, i);
    var request := p.observed[RequestAt(p.observed, i)];
    var response := p.observed[ResponseAt(p.observed, i)];
    assert request in p.observed && response in p.observed;
    var b :| 0 <= b < |p.stamped| && p.stamped[b] == request;
    var a :| 0 <= a < |p.stamped| && p.stamped[a] == response;
    assert TimesOf(p.stamped)[a] < TimesOf(p.stamped)[b];
  }

  lemma Extend(c: Config, r: seq<Action>, p: State, a: Action) returns (r': seq<Action>, q: State)
    requires Execute(c, r) == Some(p) && Enabled(c, p, a)
    ensures r' == r + [a] && q == Do(c, p, a) && Execute(c, r') == Some(q)
    ensures Stamps(r') == Stamps(r) + (if a.Stamp? then [a.ts] else [])
  {
    r', q := r + [a], Do(c, p, a);
    assert r'[..|r|] == r;
  }

  /** A running forwarder reads a chunk and stamps it. */
  lemma ReadsChunk(c: Config, r: seq<Action>, p: State, d: Side, payload: bytes, ts: int)
    returns (r': seq<Action>, q: State)
    requires Execute(c, r) == Some(p) && !p.stopped && Get(p, d).phase.Testing? && |payload| <= CHUNK
    requires p.next < TWO_64
    ensures Execute(c, r') == Some(q) && Stamps(r') == Stamps(r) + [ts]
    ensures Get(q, d).phase == Holding(RawOf(c, p.next, ts, d, payload)) && q.next == p.next + 1
    ensures forall k :: k != d ==> Get(q, k) == Get(p, k)
    ensures !q.stopped && q.queue == p.queue && q.mutex == p.mutex
  {
    hide Execute, Stamps, RawOf;
    NoWrap(p.next);
    r', q := Extend(c, r, p, Test(d));
    assert Get(q, d).phase == Reading && !q.stopped && q.next == p.next;
    r', q := Extend(c, r', q, ReadOk(d, payload));
    assert Get(q, d).phase == Numbered(p.next, payload);
    r', q := Extend(c, r', q, Stamp(d, ts));
  }

  /** The device's chunk is read and stamped first, the application's chunk is observed first. */
  lemma RequestOvertakes(c: Config) returns (r: seq<Action>, p: State)
    requires c.latencyEnabled
    ensures Execute(c, r) == Some(p) && p.next == 3 && Stamps(r) == [10, 20]
    ensures p.device.phase == Holding(RawOf(c, 1, 10, Device, [7])) && p.mutex.None?
    ensures p.queue == [PendingRequest(2, 20, 1)]
  {
    r, p := [], Init();
    assert Execute(c, r) == Some(p) && Stamps(r) == [];
    hide Execute, RawOf, Stamps;
    r, p := ReadsChunk(c, r, p, Device, [7], 10);
    assert p.device.phase == Holding(RawOf(c, 1, 10, Device, [7]));
    r, p := ReadsChunk(c, r, p, App, [9], 20);
    r, p := IsObserved(c, r, p);
  }

  lemma IsObserved(c: Config, r: seq<Action>, p: State) returns (r': seq<Action>, q: State)
    requires c.latencyEnabled && Execute(c, r) == Some(p)
    requires p.app.phase == Holding(RawOf(c, 2, 20, App, [9])) && p.queue == [] && p.mutex.None?
    ensures Execute(c, r') == Some(q) && Stamps(r') == Stamps(r) + []
    ensures q.device == p.device && q.next == p.next && q.mutex.None? && q.queue == [PendingRequest(2, 20, 1)]
  {
    hide Execute, Stamps, RawOf;
    RawFacts(c, 2, 20, App, [9]);
    assert Stamps(r) + [] + [] == Stamps(r) + [];
    r', q := Extend(c, r, p, Record(App));
    assert q.app.phase == Phase.Recorded(RawOf(c, 2, 20, App, [9])) && q.queue == [] && q.mutex.None?;
    r', q := Extend(c, r', q, Observe(App));
  }

  /** A response that is matched to a request: up to the lock of the tracker, and on to the announcement. */
  lemma IsMatched(c: Config, r: seq<Action>, p: State, e: PacketEvent) returns (r': seq<Action>, q: State)
    requires c.latencyEnabled && Execute(c, r) == Some(p)
    requires p.device.phase == Holding(e) && IsResponse(e) && p.queue != [] && p.mutex.None?
    ensures Execute(c, r') == Some(q) && Stamps(r') == Stamps(r) + []
    ensures q.device.phase == Measured(e, Match(p.queue[0], e)) && q.next == p.next
  {
    hide Execute, Stamps;
    assert Stamps(r) + [] + [] == Stamps(r) + [];
    r', q := Extend(c, r, p, Record(Device));
    assert q.device.phase == Phase.Recorded(e) && q.queue == p.queue && q.mutex.None?;
    r', q := Extend(c, r', q, Observe(Device));
  }

  lemma IsAnnounced(c: Config, r: seq<Action>, p: State, e: PacketEvent, m: Measurement)
    returns (r': seq<Action>, q: State)
    requires Execute(c, r) == Some(p) && p.device.phase == Measured(e, m) && p.next < TWO_64
    ensures Execute(c, r') == Some(q) && Stamps(r') == Stamps(r) + [] && q.next == p.next + 1
    ensures q.log == p.log + [LatencyOf(c, p.next, e, m)]
  {
    hide Execute, Stamps, LatencyOf;
    NoWrap(p.next);
    assert Stamps(r) + [] + [] == Stamps(r) + [];
    r', q := Extend(c, r, p, NumberLatency(Device));
    assert q.device.phase == Announcing(e, LatencyOf(c, p.next, e, m)) && q.log == p.log;
    r', q := Extend(c, r', q, Announce(Device));
  }

  /**
   Such a run, with a clock that only moves forward: a response read and stamped first is matched to a
   request that is observed before it; the latency is negative.
   */
  lemma LatencyCanBeNegative(c: Config) returns (r: seq<Action>, p: State)
    requires c.latencyEnabled
    ensures Execute(c, r) == Some(p) && p.next <= TWO_64 && NonDecreasing(Stamps(r))
    ensures p.log != [] && var l := p.log[|p.log| - 1];
            l.kind == Latency && l.latencyNs == -10 && l.responseSequence < l.requestSequence
  {
    hide Execute, Stamps, Do;
    r, p := RequestOvertakes(c);
    var e, m := RawOf(c, 1, 10, Device, [7]), Measurement(2, 1, -10, 1, 1);
    r, p := IsMatched(c, r, p, e);
    r, p := IsAnnounced(c, r, p, e, m);
  }
}
