/** Sequence numbers over whole runs: who holds which number, and how numbers are ordered. */
module SequenceOrder {
  import opened Base
  import opened Decoders
  import opened Events
  import opened Framing
  import opened Interleaving
  import opened Pipeline
  import opened Provenance

  // ---------- Numbers as tokens ----------

  predicate Positive(s: seq<nat>, next: nat) {
    forall i :: 0 <= i < |s| ==> 0 < s[i] < next
  }

  predicate Disjoint(s: seq<nat>, t: seq<nat>) {
    forall i, j :: 0 <= i < |s| && 0 <= j < |t| ==> s[i] != t[j]
  }

  predicate Distinct(s: seq<nat>) {
    forall i, j :: 0 <= i < j < |s| ==> s[i] != s[j]
  }

  /** No number is used twice, whether already delivered or still held by a thread. */
  ghost predicate Tokens(used: seq<nat>, held: map<Thread, seq<nat>>, next: nat) {
    && Positive(used, next) && Distinct(used)
    && (forall t :: t in held ==> Positive(held[t], next) && Distinct(held[t]) && Disjoint(held[t], used))
    && (forall t, u :: t in held && u in held && t != u ==> Disjoint(held[t], held[u]))
  }

  lemma TokensIssue(used: seq<nat>, held: map<Thread, seq<nat>>, next: nat, t: Thread)
    requires Tokens(used, held, next) && t in held && next > 0
    ensures Tokens(used, held[t := held[t] + [next]], next + 1)
  {
  }

  lemma TokensDeliver(used: seq<nat>, held: map<Thread, seq<nat>>, next: nat, t: Thread)
    requires Tokens(used, held, next) && t in held && held[t] != []
    ensures Tokens(used + [held[t][0]], held[t := held[t][1..]], next)
  {
    var n := held[t][0];
    hide Positive, Disjoint, Distinct;
    var used', held' := used + [n], held[t := held[t][1..]];
    assert Positive(held[t], next) && Distinct(held[t]) && Disjoint(held[t], used);
    TailOf(used, held[t], next);
    forall u | u in held' ensures Positive(held'[u], next) && Distinct(held'[u]) && Disjoint(held'[u], used') {
      if u != t {
        assert Positive(held[u], next) && Distinct(held[u]) && Disjoint(held[u], used);
        assert Disjoint(held[u], held[t]);
        OtherOf(used, held[u], held[t]);
      }
    }
    forall u, v | u in held' && v in held' && u != v ensures Disjoint(held'[u], held'[v]) {
      assert Disjoint(held[u], held[v]);
      TailDisjoint(held[u], held[v]);
    }
  }

  lemma TailOf(used: seq<nat>, h: seq<nat>, next: nat)
    requires h != [] && Positive(h, next) && Distinct(h) && Disjoint(h, used)
    requires Positive(used, next) && Distinct(used)
    ensures Positive(h[1..], next) && Distinct(h[1..]) && Disjoint(h[1..], used + [h[0]])
    ensures Positive(used + [h[0]], next) && Distinct(used + [h[0]])
  {
  }

  lemma OtherOf(used: seq<nat>, other: seq<nat>, h: seq<nat>)
    requires h != [] && Disjoint(other, used) && Disjoint(other, h)
    ensures Disjoint(other, used + [h[0]])
  {
  }

  lemma TailDisjoint(g: seq<nat>, h: seq<nat>)
    requires Disjoint(g, h)
    ensures g != [] ==> Disjoint(g[1..], h)
    ensures h != [] ==> Disjoint(g, h[1..])
  {
  }

  function Numbers(events: seq<PacketEvent>): (r: seq<nat>)
    ensures |r| == |events|
  {
    seq(|events|, i requires 0 <= i < |events| => events[i].sequence)
  }

  function Used(log: seq<Delivery>): (r: seq<nat>)
    ensures |r| == |log|
  {
    seq(|log|, i requires 0 <= i < |log| => log[i].event.sequence)
  }

  /** The numbers a thread has taken and not yet delivered. */
  function HeldIn(phase: Phase): seq<nat> {
    match phase
    case Idle => []
    case Made(e) => [e.sequence]
    case Sunk(_) => []
    case Numbering(_, done, _) => Numbers(done)
    case Delivering(rest) => Numbers(rest)
  }

  function Held(w: World): map<Thread, seq<nat>> {
    map t | t in w.phases :: HeldIn(w.phases[t])
  }

  function AllDeliveries(w: World): seq<Delivery> {
    w.archive + w.log
  }

  ghost predicate TokenInv(w: World) {
    0 < w.next && Tokens(Used(AllDeliveries(w)), Held(w), w.next)
  }

  /** Numbers are taken and used up in order. */
  lemma MoverHolds(s: Setup, w: World, a: Action)
    requires Enabled(s, w, a) && !a.Restart?
    ensures var before, after := HeldIn(w.phases[a.thread]), HeldIn(PhaseAfter(s, w, a));
            && (a.Make? || a.Number? ==> after == before + [w.next % TWO_64])
            && (Sinks(a) ==> before != [] && Said(s, w, a).event.sequence == before[0] && after == before[1..])
            && (!a.Make? && !a.Number? && !Sinks(a) ==> after == before)
  {
    hide Step, Decodes;
    if a.Number? {
      var phase := w.phases[a.thread];
      var d := WithNumber(phase.todo[0], w);
      assert Numbers(phase.done + [d]) == Numbers(phase.done) + [d.sequence];
    } else if a.Deliver? {
      var rest := w.phases[a.thread].rest;
      assert Numbers(rest)[1..] == Numbers(rest[1..]);
    }
  }

  lemma StepKeepsTokens(s: Setup, w: World, a: Action)
    requires ValidSetup(s) && TokenInv(w)
    requires Enabled(s, w, a)
    requires Do(s, w, a).next <= TWO_64
    ensures TokenInv(Do(s, w, a))
  {
    hide TokenInv, HeldIn, PhaseAfter, Said, Step;
    var w' := Do(s, w, a);
    if a.Restart? {
      RestartStep(w, w');
    } else {
      MoverHolds(s, w, a);
      if a.Make? || a.Number? {
        IssueStep(w, w', a.thread, PhaseAfter(s, w, a));
      } else if Sinks(a) {
        DeliverStep(w, w', a.thread, PhaseAfter(s, w, a), Said(s, w, a));
      } else {
        SameStep(w, w', a.thread, PhaseAfter(s, w, a));
      }
    }
  }

  lemma IssueStep(w: World, w': World, t: Thread, phase: Phase)
    requires TokenInv(w) && t in w.phases && w.next < TWO_64
    requires w'.phases == w.phases[t := phase] && w'.next == w.next + 1
    requires w'.log == w.log && w'.archive == w.archive
    requires HeldIn(phase) == HeldIn(w.phases[t]) + [w.next % TWO_64]
    ensures TokenInv(w')
  {
    hide Tokens, HeldIn;
    NoWrap(w.next);
    TokensIssue(Used(AllDeliveries(w)), Held(w), w.next, t);
    assert Held(w') == Held(w)[t := Held(w)[t] + [w.next]];
  }

  lemma DeliverStep(w: World, w': World, t: Thread, phase: Phase, d: Delivery)
    requires TokenInv(w) && t in w.phases
    requires w'.phases == w.phases[t := phase] && w'.next == w.next
    requires w'.log == w.log + [d] && w'.archive == w.archive
    requires HeldIn(w.phases[t]) != []
    requires d.event.sequence == HeldIn(w.phases[t])[0] && HeldIn(phase) == HeldIn(w.phases[t])[1..]
    ensures TokenInv(w')
  {
    hide Tokens, HeldIn;
    TokensDeliver(Used(AllDeliveries(w)), Held(w), w.next, t);
    assert Held(w') == Held(w)[t := Held(w)[t][1..]];
    assert Used(AllDeliveries(w')) == Used(AllDeliveries(w)) + [d.event.sequence];
  }

  lemma SameStep(w: World, w': World, t: Thread, phase: Phase)
    requires TokenInv(w) && t in w.phases
    requires w'.phases == w.phases[t := phase] && w'.next == w.next
    requires w'.log == w.log && w'.archive == w.archive
    requires HeldIn(phase) == HeldIn(w.phases[t])
    ensures TokenInv(w')
  {
    hide Tokens, HeldIn;
    assert Held(w') == Held(w);
  }

  lemma RestartStep(w: World, w': World)
    requires TokenInv(w)
    requires w'.phases == w.phases && w'.next == w.next
    requires w'.log == [] && w'.archive == w.archive + w.log
    ensures TokenInv(w')
  {
    hide Tokens, HeldIn;
    assert AllDeliveries(w') == AllDeliveries(w);
  }

  // ---------- Order ----------

  predicate Below(parents: seq<nat>, n: nat) {
    forall i :: 0 <= i < |parents| ==> parents[i] < n
  }

  /** A numbered derived event: its parents increase and all lie below its own number. */
  predicate Ordered(d: PacketEvent) {
    Increasing(d.parentSequences) && Below(d.parentSequences, d.sequence)
  }

  /** A derived event that is still to be numbered. */
  predicate Orderable(d: PacketEvent, next: nat) {
    Increasing(d.parentSequences) && Below(d.parentSequences, next)
  }

  /** One producer: its own events and everything it has in hand are in order. */
  ghost predicate ThreadOrdered(m: seq<PacketEvent>, phase: Phase, next: nat) {
    && NumberedInOrder(m)
    && (forall i :: 0 <= i < |m| ==> m[i].sequence < next)
    && match phase
       case Idle => true
       case Made(_) => true
       case Sunk(_) => true
       case Numbering(_, done, todo) =>
         && (forall i :: 0 <= i < |done| ==> Ordered(done[i]))
         && (forall i :: 0 <= i < |todo| ==> Orderable(todo[i], next))
       case Delivering(rest) => forall i :: 0 <= i < |rest| ==> Ordered(rest[i])
  }

  predicate LogOrdered(log: seq<Delivery>) {
    forall i :: 0 <= i < |log| && log[i].derived ==> Ordered(log[i].event)
  }

  lemma OrderedLater(m: seq<PacketEvent>, phase: Phase, next: nat)
    requires ThreadOrdered(m, phase, next)
    ensures ThreadOrdered(m, phase, next + 1)
  {
    hide NumberedInOrder;
    if phase.Numbering? {
      forall i | 0 <= i < |phase.todo| ensures Orderable(phase.todo[i], next + 1) {
        assert Orderable(phase.todo[i], next);
      }
    }
  }

  lemma OrderedMake(m: seq<PacketEvent>, next: nat, e: PacketEvent)
    requires ThreadOrdered(m, Idle, next) && e.sequence == next
    ensures ThreadOrdered(m + [e], Made(e), next + 1)
  {
  }

  lemma OrderedAcquire(kind: Kind, m: seq<PacketEvent>, next: nat, st: StreamState, e: PacketEvent)
    requires ValidKind(kind)
    requires ThreadOrdered(m, Sunk(e), next)
    requires m != [] && m[|m| - 1] == e && Decodes(e) && st == StateAfter(kind, m[..|m| - 1])
    ensures ThreadOrdered(m, Numbering(e, [], Decode(kind, st, e).1), next)
  {
    hide StateAfter, Decode, DerivedAt, NumberedInOrder, Decodes;
    var before := m[..|m| - 1];
    assert m == before + [e];
    StateAfterSnoc(kind, before, e);
    ParentsIncrease(kind, m, |m| - 1);
    var derived := DerivedAt(kind, m, |m| - 1);
    forall i | 0 <= i < |derived| ensures Orderable(derived[i], next) {
      var d := derived[i];
      assert d in derived;
      assert forall j :: 0 <= j < |d.parentSequences| ==> d.parentSequences[j] in d.parentSequences;
    }
  }

  lemma OrderedNumber(m: seq<PacketEvent>, next: nat, e: PacketEvent, done: seq<PacketEvent>, todo: seq<PacketEvent>)
    requires ThreadOrdered(m, Numbering(e, done, todo), next) && todo != []
    ensures ThreadOrdered(m, Numbering(e, done + [todo[0].(sequence := next)], todo[1..]), next + 1)
  {
    hide NumberedInOrder;
    OrderedLater(m, Numbering(e, done, todo), next);
    assert Orderable(todo[0], next);
    assert Ordered(todo[0].(sequence := next));
  }

  ghost predicate OrderInv(s: Setup, w: World)
    requires w.phases.Keys == w.made.Keys == s.ids.Keys
  {
    && (forall t :: t in s.ids ==> ThreadOrdered(w.made[t], w.phases[t], w.next))
    && LogOrdered(AllDeliveries(w))
  }

  lemma OrderedOther(m: seq<PacketEvent>, phase: Phase, next: nat)
    requires ThreadOrdered(m, phase, next)
    ensures ThreadOrdered(m, Idle, next)
    ensures phase.Made? ==> ThreadOrdered(m, Sunk(phase.event), next)
    ensures phase.Numbering? ==> ThreadOrdered(m, Delivering(phase.done), next)
    ensures phase.Delivering? && phase.rest != [] ==> ThreadOrdered(m, Delivering(phase.rest[1..]), next)
  {
    hide NumberedInOrder, Ordered, Orderable;
  }

  lemma MoverKeepsOrder(s: Setup, w: World, a: Action)
    requires ValidSetup(s)
    requires Enabled(s, w, a) && !a.Restart?
    requires InStep(s, w, a.thread)
    requires ThreadOrdered(w.made[a.thread], w.phases[a.thread], w.next)
    requires Do(s, w, a).next <= TWO_64
    ensures var w' := Do(s, w, a);
            && a.thread in w'.phases && a.thread in w'.made
            && ThreadOrdered(w'.made[a.thread], w'.phases[a.thread], w'.next)
  {
    hide InStep, Decodes, Decode, ThreadOrdered, StreamKey, Lookup, ValidSetup;
    var t, m, phase := a.thread, w.made[a.thread], w.phases[a.thread];
    OrderedOther(m, phase, w.next);
    if a.Make? || a.Number? {
      NoWrap(w.next);
    }
    match a
    case Make(_, template) => OrderedMake(m, w.next, template.(sequence := w.next));
    case Acquire(_) => AcquireKeepsOrder(s, w, t);
    case Number(_) => OrderedNumber(m, w.next, phase.event, phase.done, phase.todo);
    case _ =>
  }

  lemma AcquireKeepsOrder(s: Setup, w: World, t: Thread)
    requires ValidSetup(s)
    requires t in s.ids && t in w.phases && t in w.made && w.phases[t].Sunk?
    requires InStep(s, w, t) && ThreadOrdered(w.made[t], w.phases[t], w.next)
    ensures var e := w.phases[t].event;
            ThreadOrdered(w.made[t], Numbering(e, [], Decode(w.kind, Lookup(w.streams, StreamKey(e)), e).1), w.next)
  {
    hide Alone, Mine, StateAfter, Decode, Decodes, Key, ThreadOrdered, Lookup;
    var e := w.phases[t].event;
    OrderedAcquire(w.kind, w.made[t], w.next, Lookup(w.streams, Key(s.ids[t])), e);
  }

  lemma LogKeepsOrder(s: Setup, w: World, a: Action)
    requires Enabled(s, w, a)
    requires LogOrdered(AllDeliveries(w))
    requires a.Deliver? ==> ThreadOrdered(w.made[a.thread], w.phases[a.thread], w.next)
    ensures LogOrdered(AllDeliveries(Do(s, w, a)))
  {
    hide Step, Decodes, LogOrdered, ThreadOrdered;
    match a
    case SinkRaw(t) => LogOrderedSnoc(w, Do(s, w, a), Delivery(t, false, w.phases[t].event));
    case Deliver(t) =>
      HeadIsOrdered(w.made[t], w.phases[t], w.next);
      LogOrderedSnoc(w, Do(s, w, a), Delivery(t, true, w.phases[t].rest[0]));
    case Restart(_) => assert AllDeliveries(Do(s, w, a)) == AllDeliveries(w);
    case _ =>
  }

  lemma LogOrderedSnoc(w: World, w': World, d: Delivery)
    requires LogOrdered(AllDeliveries(w)) && (d.derived ==> Ordered(d.event))
    requires w'.archive == w.archive && w'.log == w.log + [d]
    ensures LogOrdered(AllDeliveries(w'))
  {
    hide Ordered;
    assert AllDeliveries(w') == AllDeliveries(w) + [d];
  }

  lemma HeadIsOrdered(m: seq<PacketEvent>, phase: Phase, next: nat)
    requires ThreadOrdered(m, phase, next) && phase.Delivering? && phase.rest != []
    ensures Ordered(phase.rest[0])
  {
  }

  lemma LogStaysOrdered(s: Setup, w: World, a: Action)
    requires ValidSetup(s) && Inv(s, w) && OrderInv(s, w)
    requires Enabled(s, w, a)
    ensures LogOrdered(AllDeliveries(Do(s, w, a)))
  {
    hide InStep, Do, LogOrdered, ThreadOrdered;
    if a.Deliver? {
      assert ThreadOrdered(w.made[a.thread], w.phases[a.thread], w.next);
    }
    LogKeepsOrder(s, w, a);
  }

  lemma StepKeepsOrder(s: Setup, w: World, a: Action)
    requires ValidSetup(s) && Inv(s, w) && OrderInv(s, w)
    requires Enabled(s, w, a)
    requires Do(s, w, a).next <= TWO_64
    requires Inv(s, Do(s, w, a))
    ensures OrderInv(s, Do(s, w, a))
  {
    hide InStep, LogOrdered, ThreadOrdered, Do, Enabled, Mine, Lookup;
    var w' := Do(s, w, a);
    LogStaysOrdered(s, w, a);
    forall t | t in s.ids ensures ThreadOrdered(w'.made[t], w'.phases[t], w'.next) {
      assert ThreadOrdered(w.made[t], w.phases[t], w.next);
      ThreadKeepsOrder(s, w, a, t);
    }
  }

  lemma ThreadKeepsOrder(s: Setup, w: World, a: Action, t: Thread)
    requires ValidSetup(s) && Inv(s, w)
    requires Enabled(s, w, a) && t in s.ids
    requires ThreadOrdered(w.made[t], w.phases[t], w.next)
    requires Do(s, w, a).next <= TWO_64
    ensures var w' := Do(s, w, a);
            t in w'.phases && t in w'.made && ThreadOrdered(w'.made[t], w'.phases[t], w'.next)
  {
    hide InStep, ThreadOrdered, Mine, Lookup, Do, ValidSetup, Enabled;
    if a.Restart? {
      RestartForgets(s, w, a.kind, t);
      ThreadOrderedNil(w.next);
    } else if t == a.thread {
      assert InStep(s, w, t);
      MoverKeepsOrder(s, w, a);
    } else {
      NextGrows(s, w, a);
      OthersUntouched(s, w, a, t);
      OrderedLater(w.made[t], w.phases[t], w.next);
    }
  }

  lemma RestartForgets(s: Setup, w: World, kind: DecodingKind, t: Thread)
    requires ValidSetup(s) && Enabled(s, w, Restart(kind)) && t in w.phases && t in w.made
    ensures var w' := Do(s, w, Restart(kind));
            t in w'.phases && t in w'.made && w'.made[t] == [] && w'.phases[t].Idle? && w'.next == w.next
  {
  }

  lemma ThreadOrderedNil(next: nat)
    ensures ThreadOrdered([], Idle, next)
  {
  }

  lemma {:induction false} RunKeepsOrder(s: Setup, r: seq<Action>)
    requires ValidSetup(s)
    ensures Execute(s, r).Some? && Execute(s, r).value.next <= TWO_64 ==>
              var w := Execute(s, r).value;
              TokenInv(w) && Inv(s, w) && OrderInv(s, w)
  {
    hide InStep, Do, Enabled, OrderInv, Tokens;
    RunKeepsInv(s, r);
    if r == [] {
      InitOrder(s);
    } else if Execute(s, r).Some? && Execute(s, r).value.next <= TWO_64 {
      var w, a := Execute(s, r[..|r| - 1]).value, r[|r| - 1];
      NextGrows(s, w, a);
      RunKeepsOrder(s, r[..|r| - 1]);
      StepKeepsTokens(s, w, a);
      StepKeepsOrder(s, w, a);
    }
  }

  lemma NextGrows(s: Setup, w: World, a: Action)
    requires Enabled(s, w, a)
    ensures w.next <= Do(s, w, a).next <= w.next + 1
  {
    hide Step, Decodes;
  }

  lemma InitOrder(s: Setup)
    requires ValidSetup(s)
    ensures OrderInv(s, Init(s)) && TokenInv(Init(s))
  {
  }

  /**
   Sequence discipline. Over any interleaving and any number of restarts, with fewer than 2^64
   numbers taken: no two delivered events share a number, and every derived event is numbered
   above all of its parents, which are strictly increasing.
   */
  lemma SequenceDiscipline(s: Setup, r: seq<Action>, w: World)
    requires ValidSetup(s)
    requires Execute(s, r) == Some(w) && w.next <= TWO_64
    ensures var all := AllDeliveries(w);
            && (forall i, j :: 0 <= i < j < |all| ==> all[i].event.sequence != all[j].event.sequence)
            && (forall i :: 0 <= i < |all| ==> 0 < all[i].event.sequence < w.next)
            && (forall i, k :: 0 <= i < |all| && all[i].derived && 0 <= k < |all[i].event.parentSequences| ==>
                  all[i].event.parentSequences[k] < all[i].event.sequence)
            && (forall i :: 0 <= i < |all| && all[i].derived ==> Increasing(all[i].event.parentSequences))
  {
    hide Execute, InStep;
    RunKeepsOrder(s, r);
    var all := AllDeliveries(w);
    assert Distinct(Used(all)) && Positive(Used(all), w.next);
    forall i, j | 0 <= i < j < |all| ensures all[i].event.sequence != all[j].event.sequence {
      assert Used(all)[i] != Used(all)[j];
    }
    forall i | 0 <= i < |all| ensures 0 < all[i].event.sequence < w.next {
      assert Used(all)[i] < w.next;
    }
    forall i | 0 <= i < |all| && all[i].derived ensures Ordered(all[i].event) {
      assert LogOrdered(all);
    }
  }
}
