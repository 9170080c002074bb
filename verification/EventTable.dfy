/** The viewer's event table: a bounded list of rows and the labels its events are shown under. */
module EventTable {
  import opened Base
  import opened Decimal

  // ---------- Events ----------

  /** The viewer's view of a logged event. The table writes the label into the event itself. */
  class ViewerEvent {
    const sequence: int
    const parentSequence: int
    const rawParents: seq<int>
    var shown: Option<string>

    constructor (sequence: int, parentSequence: int, rawParents: seq<int>)
      ensures this.sequence == sequence && this.parentSequence == parentSequence && this.rawParents == rawParents
      ensures shown == None
    {
      this.sequence, this.parentSequence, this.rawParents := sequence, parentSequence, rawParents;
      shown := None;
    }

    /** `PacketEvent.parent_seqs`. */
    function ParentSeqs(): seq<int> {
      if rawParents == [] && parentSequence != 0 then [parentSequence] else rawParents
    }

    /** The text of the first column. */
    function Display(): string
      reads this
    {
      if shown.Some? then shown.value else IntText(sequence)
    }
  }

  /** The packet an event derives from; zero for none. */
  function Parent(e: ViewerEvent): int {
    if e.ParentSeqs() != [] then e.ParentSeqs()[0] else e.parentSequence
  }

  /** In terms of what was logged: the first listed parent, or where none is listed, the single one. */
  predicate ChildOf(e: ViewerEvent, p: int) {
    (e.rawParents != [] && e.rawParents[0] == p) || (e.rawParents == [] && e.parentSequence == p)
  }

  lemma ParentIff(e: ViewerEvent, p: int)
    ensures Parent(e) == p <==> ChildOf(e, p)
  {
  }

  predicate Siblings(e: ViewerEvent, d: ViewerEvent) {
    !ChildOf(e, 0) && ChildOf(d, if e.rawParents != [] then e.rawParents[0] else e.parentSequence)
  }

  lemma SiblingsIff(e: ViewerEvent, d: ViewerEvent)
    ensures Siblings(e, d) <==> Parent(e) != 0 && Parent(d) == Parent(e)
  {
  }

  // ---------- Specification ----------

  // How many children each parent has so far, and the label each event carries.
  datatype Tally = Tally(counts: map<int, nat>, labels: map<ViewerEvent, string>)

  const EMPTY_TALLY := Tally(map[], map[])

  function CountOf(counts: map<int, nat>, p: int): nat {
    if p in counts then counts[p] else 0
  }

  function ChildText(p: int, n: nat): string {
    IntText(p) + "." + NatText(n)
  }

  function Labelled(t: Tally, e: ViewerEvent): Tally {
    var p := Parent(e);
    if p != 0 then
      var n := CountOf(t.counts, p) + 1;
      Tally(t.counts[p := n], t.labels[e := ChildText(p, n)])
    else
      t.(labels := t.labels[e := IntText(e.sequence)])
  }

  function LabelledAll(t: Tally, es: seq<ViewerEvent>): Tally {
    if es == [] then t
    else
      var n := |es| - 1;
      Labelled(LabelledAll(t, es[..n]), es[n])
  }

  datatype Table = Table(rows: seq<ViewerEvent>, tally: Tally)

  datatype Action = Append(e: ViewerEvent) | SetEvents(es: seq<ViewerEvent>) | Clear

  function Last(es: seq<ViewerEvent>, max: nat): seq<ViewerEvent> {
    if |es| <= max then es else es[|es| - max..]
  }

  function Step(t: Table, max: nat, a: Action): Table
    requires max > 0
  {
    match a
    case Append(e) => Table((if |t.rows| >= max then t.rows[1..] else t.rows) + [e], Labelled(t.tally, e))
    case SetEvents(es) => Table(Last(es, max), LabelledAll(Tally(map[], t.tally.labels), Last(es, max)))
    case Clear => Table([], Tally(map[], t.tally.labels))
  }

  function Run(max: nat, actions: seq<Action>): Table
    requires max > 0
  {
    if actions == [] then Table([], EMPTY_TALLY)
    else
      var n := |actions| - 1;
      Step(Run(max, actions[..n]), max, actions[n])
  }

  // ---------- The model ----------

  class PacketTableModel {
    const maxEvents: nat
    var events: seq<ViewerEvent>
    var parentChildCounts: map<int, nat>

    constructor (maxEvents: nat)
      ensures this.maxEvents == maxEvents
      ensures Shows(Table([], EMPTY_TALLY))
    {
      this.maxEvents := maxEvents;
      events := [];
      parentChildCounts := map[];
    }

    ghost predicate Shows(t: Table)
      reads this, t.tally.labels.Keys
    {
      && events == t.rows
      && parentChildCounts == t.tally.counts
      && Carried(t.tally.labels)
    }

    method AppendEvent(event: ViewerEvent, ghost t: Table)
      requires maxEvents > 0 && Shows(t)
      modifies this, event
      ensures Shows(Step(t, maxEvents, Append(event)))
      ensures ChildOf(event, 0) ==> event.shown == Some(IntText(event.sequence))
      ensures forall p :: p != 0 && ChildOf(event, p) ==>
                event.shown == Some(IntText(p) + "." + NatText(CountOf(old(parentChildCounts), p) + 1))
    {
      hide IntText, NatText;
      if |events| >= maxEvents {
        events := events[1..];
      }
      LabelEvent(event, t.tally);
      events := events + [event];
    }

    /** The labelling shared by `append_event` and `set_events`. */
    method LabelEvent(event: ViewerEvent, ghost t: Tally)
      requires parentChildCounts == t.counts && Carried(t.labels)
      modifies this`parentChildCounts, event
      ensures parentChildCounts == Labelled(t, event).counts
      ensures Carried(Labelled(t, event).labels)
      ensures ChildOf(event, 0) ==>
                event.shown == Some(IntText(event.sequence)) && parentChildCounts == old(parentChildCounts)
      ensures forall p :: p != 0 && ChildOf(event, p) ==>
                var n := CountOf(old(parentChildCounts), p) + 1;
                event.shown == Some(IntText(p) + "." + NatText(n))
                && parentChildCounts == old(parentChildCounts)[p := n]
    {
      hide IntText, NatText;
      var p := if event.ParentSeqs() != [] then event.ParentSeqs()[0] else event.parentSequence;
      if p != 0 {
        var count := if p in parentChildCounts then parentChildCounts[p] else 0;
        parentChildCounts := parentChildCounts[p := count + 1];
        event.shown := Some(IntText(p) + "." + NatText(parentChildCounts[p]));
      } else {
        event.shown := Some(IntText(event.sequence));
      }
    }

    method SetEvents(es: seq<ViewerEvent>, ghost t: Table)
      requires maxEvents > 0 && Shows(t)
      modifies this, es
      ensures Shows(Step(t, maxEvents, Action.SetEvents(es)))
    {
      hide Labelled;
      var kept := es;
      if |kept| > maxEvents {
        kept := kept[|kept| - maxEvents..];
      }
      parentChildCounts := map[];
      ghost var start := Tally(map[], t.tally.labels);
      for i := 0 to |kept|
        invariant parentChildCounts == LabelledAll(start, kept[..i]).counts
        invariant Carried(LabelledAll(start, kept[..i]).labels)
      {
        assert kept[..i + 1][..i] == kept[..i];
        LabelEvent(kept[i], LabelledAll(start, kept[..i]));
      }
      assert kept[..|kept|] == kept;
      events := kept;
    }

    /** What the first column shows for a row: the label the table wrote last. */
    method FirstColumn(row: nat, ghost t: Table) returns (text: string)
      requires Shows(t) && row < |events| && t.rows[row] in t.tally.labels
      ensures text == t.tally.labels[t.rows[row]]
    {
      var event := events[row];
      text := event.Display();
    }

    method Clear(ghost t: Table)
      requires maxEvents > 0 && Shows(t)
      modifies this
      ensures Shows(Step(t, maxEvents, Action.Clear))
    {
      events := [];
      parentChildCounts := map[];
    }
  }

  ghost predicate Carried(labels: map<ViewerEvent, string>)
    reads labels.Keys
  {
    forall e :: e in labels ==> e.shown == Some(labels[e])
  }

  // ---------- Label texts ----------

  lemma DigitsHaveNoDot(n: nat)
    ensures '.' !in NatText(n) && '-' !in NatText(n)
  {
    var s := NatText(n);
    assert forall i :: 0 <= i < |s| ==> IsDigit(s[i]);
  }

  lemma IntTextHasNoDot(n: int)
    ensures '.' !in IntText(n)
  {
    hide NatText;
    DigitsHaveNoDot(if n < 0 then -n else n);
  }

  lemma IntTextInjective(m: int, n: int)
    requires IntText(m) == IntText(n)
    ensures m == n
  {
    hide NatText;
    DigitsHaveNoDot(if m < 0 then -m else m);
    DigitsHaveNoDot(if n < 0 then -n else n);
    if m < 0 {
      assert IntText(m)[0] == '-';
      assert IntText(n)[0] == '-';
      assert IntText(m)[1..] == NatText(-m) && IntText(n)[1..] == NatText(-n);
      NatTextInjective(-m, -n);
    } else {
      assert IntText(m)[0] != '-';
      assert n >= 0;
      NatTextInjective(m, n);
    }
  }

  lemma SplitAtDot(x: string, u: string, y: string, v: string)
    requires '.' !in x && '.' !in y
    requires x + "." + u == y + "." + v
    ensures x == y && u == v
  {
    var s, t := x + "." + u, y + "." + v;
    assert s[|x|] == '.' && t[|y|] == '.';
    assert |x| == |y|;
    assert x == s[..|x|] && y == t[..|y|];
    assert u == s[|x| + 1..] && v == t[|y| + 1..];
  }

  lemma ChildTextInjective(p: int, m: nat, q: int, n: nat)
    requires ChildText(p, m) == ChildText(q, n)
    ensures p == q && m == n
  {
    hide IntText, NatText;
    IntTextHasNoDot(p);
    IntTextHasNoDot(q);
    SplitAtDot(IntText(p), NatText(m), IntText(q), NatText(n));
    IntTextInjective(p, q);
    NatTextInjective(m, n);
  }

  lemma ChildTextIsNoNumber(p: int, m: nat, n: int)
    ensures ChildText(p, m) != IntText(n)
  {
    hide IntText, NatText;
    IntTextHasNoDot(n);
    assert ChildText(p, m)[|IntText(p)|] == '.';
  }

  // ---------- Labels in terms of a history ----------

  function Count(es: seq<ViewerEvent>, p: int): nat {
    if es == [] then 0
    else
      var n := |es| - 1;
      Count(es[..n], p) + (if Parent(es[n]) == p then 1 else 0)
  }

  /** The label of the i-th event: its parent and its place among that parent's children. */
  function LabelAt(es: seq<ViewerEvent>, i: nat): string
    requires i < |es|
  {
    var p := Parent(es[i]);
    if p != 0 then ChildText(p, Count(es[..i + 1], p)) else IntText(es[i].sequence)
  }

  lemma {:induction false} CountConcat(a: seq<ViewerEvent>, b: seq<ViewerEvent>, p: int)
    ensures Count(a + b, p) == Count(a, p) + Count(b, p)
  {
    if b == [] {
      assert a + b == a;
    } else {
      var n := |b| - 1;
      assert (a + b)[..|a + b| - 1] == a + b[..n];
      CountConcat(a, b[..n], p);
    }
  }

  lemma {:induction false} CountIsZero(es: seq<ViewerEvent>, p: int)
    ensures Count(es, p) == 0 <==> forall i :: 0 <= i < |es| ==> Parent(es[i]) != p
  {
    if es != [] {
      CountIsZero(es[..|es| - 1], p);
    }
  }

  lemma {:induction false} TallyCounts(es: seq<ViewerEvent>, p: int)
    requires p != 0
    ensures CountOf(LabelledAll(EMPTY_TALLY, es).counts, p) == Count(es, p)
  {
    hide ChildText, IntText;
    if es != [] {
      TallyCounts(es[..|es| - 1], p);
    }
  }

  /** An event carries the label of its last place in the history. */
  lemma {:induction false} LastLabel(es: seq<ViewerEvent>, i: nat)
    requires i < |es| && es[i] !in es[i + 1..]
    ensures es[i] in LabelledAll(EMPTY_TALLY, es).labels
    ensures LabelledAll(EMPTY_TALLY, es).labels[es[i]] == LabelAt(es, i)
  {
    hide ChildText, IntText;
    var n := |es| - 1;
    if i == n {
      var p := Parent(es[n]);
      if p != 0 {
        TallyCounts(es[..n], p);
        assert es[..n + 1] == es;
      }
    } else {
      assert es[n] == es[i + 1..][n - i - 1];
      assert es[i] != es[n];
      assert es[..n][i + 1..] == es[i + 1..][..n - i - 1];
      LastLabel(es[..n], i);
      assert es[..n][..i + 1] == es[..i + 1];
    }
  }

  lemma CountGrows(es: seq<ViewerEvent>, i: nat, j: nat)
    requires i < j < |es|
    ensures Count(es[..i + 1], Parent(es[j])) < Count(es[..j + 1], Parent(es[j]))
  {
    var p, between := Parent(es[j]), es[i + 1..j + 1];
    assert es[..j + 1] == es[..i + 1] + between;
    CountConcat(es[..i + 1], between, p);
    CountIsZero(between, p);
    assert between[j - i - 1] == es[j];
  }

  /** Labels at two places agree only for parentless events with the same sequence number. */
  lemma LabelsDiffer(es: seq<ViewerEvent>, i: nat, j: nat)
    requires i < j < |es|
    ensures LabelAt(es, i) == LabelAt(es, j) <==>
            Parent(es[i]) == 0 && Parent(es[j]) == 0 && es[i].sequence == es[j].sequence
  {
    hide ChildText, IntText;
    var p, q := Parent(es[i]), Parent(es[j]);
    if p != 0 && q != 0 {
      CountGrows(es, i, j);
      if LabelAt(es, i) == LabelAt(es, j) {
        ChildTextInjective(p, Count(es[..i + 1], p), q, Count(es[..j + 1], q));
        assert false;
      }
    } else if p != 0 {
      ChildTextIsNoNumber(p, Count(es[..i + 1], p), es[j].sequence);
    } else if q != 0 {
      ChildTextIsNoNumber(q, Count(es[..j + 1], q), es[i].sequence);
    } else if LabelAt(es, i) == LabelAt(es, j) {
      IntTextInjective(es[i].sequence, es[j].sequence);
    }
  }

  // ---------- Runs ----------

  function HistoryStep(es: seq<ViewerEvent>, max: nat, a: Action): seq<ViewerEvent> {
    match a
    case Append(e) => es + [e]
    case SetEvents(given) => Last(given, max)
    case Clear => []
  }

  /** The events labelled since the last reset. */
  function History(max: nat, actions: seq<Action>): seq<ViewerEvent> {
    if actions == [] then []
    else
      var n := |actions| - 1;
      HistoryStep(History(max, actions[..n]), max, actions[n])
  }

  /** The tally of a history, whatever labels the events carried before. */
  ghost predicate TalliesHistory(t: Tally, es: seq<ViewerEvent>) {
    var anew := LabelledAll(EMPTY_TALLY, es);
    && t.counts == anew.counts
    && (forall i :: 0 <= i < |es| ==>
          es[i] in t.labels && es[i] in anew.labels && t.labels[es[i]] == anew.labels[es[i]])
  }

  lemma TallyStep(t: Tally, es: seq<ViewerEvent>, e: ViewerEvent)
    requires TalliesHistory(t, es)
    ensures TalliesHistory(Labelled(t, e), es + [e])
  {
    hide ChildText, IntText;
    assert (es + [e])[..|es|] == es;
  }

  lemma {:induction false} TallyAll(labels: map<ViewerEvent, string>, es: seq<ViewerEvent>)
    ensures TalliesHistory(LabelledAll(Tally(map[], labels), es), es)
  {
    hide Labelled;
    if es != [] {
      var n := |es| - 1;
      TallyAll(labels, es[..n]);
      hide TalliesHistory;
      TallyStep(LabelledAll(Tally(map[], labels), es[..n]), es[..n], es[n]);
      assert es[..n] + [es[n]] == es;
    }
  }

  lemma NoHistory(labels: map<ViewerEvent, string>)
    ensures TalliesHistory(Tally(map[], labels), [])
  {
  }

  lemma NothingLabelled(t: Tally)
    ensures LabelledAll(t, []) == t
  {
  }

  lemma LastSnoc(es: seq<ViewerEvent>, e: ViewerEvent, max: nat)
    requires max > 0
    ensures Last(es + [e], max) == (if |Last(es, max)| >= max then Last(es, max)[1..] else Last(es, max)) + [e]
  {
    var n := |es| - max;
    if n >= 0 {
      assert (es + [e])[n + 1..] == es[n..][1..] + [e];
    }
  }

  lemma StepKeepsHistory(t: Table, es: seq<ViewerEvent>, max: nat, a: Action)
    requires max > 0
    requires t.rows == Last(es, max) && TalliesHistory(t.tally, es)
    ensures var u, fs := Step(t, max, a), HistoryStep(es, max, a);
            u.rows == Last(fs, max) && TalliesHistory(u.tally, fs)
  {
    hide Labelled, LabelledAll, TalliesHistory;
    match a
    case Append(e) =>
      hide Last;
      LastSnoc(es, e, max);
      TallyStep(t.tally, es, e);
    case SetEvents(given) => TallyAll(t.tally.labels, Last(given, max));
    case Clear => NoHistory(t.tally.labels);
  }

  /** After any run the rows are the last of the history, labelled as in the history. */
  lemma {:induction false} RunIsHistory(max: nat, actions: seq<Action>)
    requires max > 0
    ensures var t, es := Run(max, actions), History(max, actions);
            t.rows == Last(es, max) && TalliesHistory(t.tally, es)
  {
    hide Step, HistoryStep, TalliesHistory;
    if actions == [] {
      NoHistory(map[]);
    } else {
      var n := |actions| - 1;
      RunIsHistory(max, actions[..n]);
      StepKeepsHistory(Run(max, actions[..n]), History(max, actions[..n]), max, actions[n]);
    }
  }

  ghost predicate DistinctRows(rows: seq<ViewerEvent>) {
    forall i, j :: 0 <= i < j < |rows| ==> rows[i] != rows[j]
  }

  ghost predicate DistinctRoots(rows: seq<ViewerEvent>) {
    forall i, j :: 0 <= i < j < |rows| && ChildOf(rows[i], 0) && ChildOf(rows[j], 0) ==>
      rows[i].sequence != rows[j].sequence
  }

  ghost predicate RowsLabelled(t: Table) {
    forall i :: 0 <= i < |t.rows| ==> t.rows[i] in t.tally.labels
  }

  ghost predicate DistinctLabels(t: Table)
    requires RowsLabelled(t)
  {
    forall i, j :: 0 <= i < j < |t.rows| ==> t.tally.labels[t.rows[i]] != t.tally.labels[t.rows[j]]
  }

  predicate EndsWith(es: seq<ViewerEvent>, rows: seq<ViewerEvent>) {
    |rows| <= |es| && forall i :: 0 <= i < |rows| ==> rows[i] == es[|es| - |rows| + i]
  }

  lemma LastIsSuffix(es: seq<ViewerEvent>, max: nat)
    ensures EndsWith(es, Last(es, max)) && |Last(es, max)| == if |es| < max then |es| else max
  {
  }

  predicate NotLater(es: seq<ViewerEvent>, k: nat)
    requires k < |es|
  {
    forall j :: k < j < |es| ==> es[j] != es[k]
  }

  lemma TallyLabel(t: Tally, es: seq<ViewerEvent>, k: nat)
    requires TalliesHistory(t, es) && k < |es| && NotLater(es, k)
    ensures es[k] in t.labels && t.labels[es[k]] == LabelAt(es, k)
  {
    hide LabelAt, LabelledAll;
    LastLabel(es, k);
  }

  /** Where the rows are distinct, each stands at its object's last place in the history. */
  lemma OnlyPlace(es: seq<ViewerEvent>, rows: seq<ViewerEvent>, i: nat)
    requires i < |rows| && EndsWith(es, rows) && DistinctRows(rows)
    ensures var k := |es| - |rows| + i; |rows| <= |es| && es[k] == rows[i] && NotLater(es, k)
  {
    var k := |es| - |rows| + i;
    forall j | k < j < |es| ensures es[j] != es[k] {
      var m := j - (|es| - |rows|);
      assert es[j] == rows[m] && es[k] == rows[i];
    }
  }

  lemma RowLabel(max: nat, actions: seq<Action>, i: nat)
    requires max > 0
    requires var t := Run(max, actions); i < |t.rows| && DistinctRows(t.rows)
    ensures var t, es := Run(max, actions), History(max, actions);
            && |t.rows| <= |es|
            && t.rows[i] == es[|es| - |t.rows| + i]
            && t.rows[i] in t.tally.labels
            && t.tally.labels[t.rows[i]] == LabelAt(es, |es| - |t.rows| + i)
  {
    hide *;
    RunIsHistory(max, actions);
    var t, es := Run(max, actions), History(max, actions);
    LastIsSuffix(es, max);
    OnlyPlace(es, t.rows, i);
    TallyLabel(t.tally, es, |es| - |t.rows| + i);
  }

  lemma RowsAreLabelled(max: nat, actions: seq<Action>)
    requires max > 0
    ensures RowsLabelled(Run(max, actions))
  {
    hide Run, History, LabelledAll;
    RunIsHistory(max, actions);
    var t, es := Run(max, actions), History(max, actions);
    forall i | 0 <= i < |t.rows| ensures t.rows[i] in t.tally.labels {
      assert t.rows[i] == es[|es| - |t.rows| + i];
    }
  }

  lemma RowLabelsDiffer(max: nat, actions: seq<Action>, i: nat, j: nat)
    requires max > 0
    requires var t := Run(max, actions); i < j < |t.rows| && DistinctRows(t.rows) && RowsLabelled(t)
    ensures var t := Run(max, actions);
            t.tally.labels[t.rows[i]] == t.tally.labels[t.rows[j]] <==>
            Parent(t.rows[i]) == 0 && Parent(t.rows[j]) == 0 && t.rows[i].sequence == t.rows[j].sequence
  {
    hide Run, History, LabelAt, Parent, DistinctRows, RowsLabelled;
    RowLabel(max, actions, i);
    RowLabel(max, actions, j);
    var t, es := Run(max, actions), History(max, actions);
    var k := |es| - |t.rows|;
    LabelsDiffer(es, k + i, k + j);
  }

  /**
   After any run of appends, bulk loads and clears, no two rows show the same label exactly when no event
   object is listed twice and the rows without a parent have different sequence numbers.
   */
  lemma LabelsDistinctIff(max: nat, actions: seq<Action>)
    requires max > 0
    ensures var t := Run(max, actions);
            RowsLabelled(t) && (DistinctLabels(t) <==> DistinctRows(t.rows) && DistinctRoots(t.rows))
  {
    hide Run, Parent, ChildOf;
    RowsAreLabelled(max, actions);
    var t := Run(max, actions);
    forall i | 0 <= i < |t.rows| ensures Parent(t.rows[i]) == 0 <==> ChildOf(t.rows[i], 0) {
      ParentIff(t.rows[i], 0);
    }
    if DistinctRows(t.rows) {
      forall i, j | 0 <= i < j < |t.rows|
        ensures t.tally.labels[t.rows[i]] == t.tally.labels[t.rows[j]] <==>
                Parent(t.rows[i]) == 0 && Parent(t.rows[j]) == 0 && t.rows[i].sequence == t.rows[j].sequence
      {
        RowLabelsDiffer(max, actions, i, j);
      }
    }
  }

  // ---------- Labels in terms of what was logged ----------

  lemma {:induction false} CountIsCardinality(es: seq<ViewerEvent>, p: int)
    ensures Count(es, p) == |set k | 0 <= k < |es| && ChildOf(es[k], p)|
  {
    var places := set k | 0 <= k < |es| && ChildOf(es[k], p);
    if es != [] {
      var n := |es| - 1;
      CountIsCardinality(es[..n], p);
      var before := set k | 0 <= k < |es[..n]| && ChildOf(es[..n][k], p);
      ParentIff(es[n], p);
      assert places == before + (if ChildOf(es[n], p) then {n} else {});
    } else {
      assert places == {};
    }
  }

  /** The row's object is not labelled again later. */
  predicate LabelledLast(es: seq<ViewerEvent>, rows: seq<ViewerEvent>, i: nat)
    requires i < |rows| <= |es|
  {
    NotLater(es, |es| - |rows| + i)
  }

  /** The number a child is shown with: one more than the events with that parent before it. */
  function ChildNumber(es: seq<ViewerEvent>, k: nat, p: int): nat
    requires k < |es|
  {
    1 + |set j | 0 <= j < k && ChildOf(es[j], p)|
  }

  /** A child shows its parent and its number; an event without a parent shows its own number. */
  ghost predicate ShowsPlace(text: string, es: seq<ViewerEvent>, k: nat)
    requires k < |es|
  {
    && (ChildOf(es[k], 0) ==> text == IntText(es[k].sequence))
    && (forall p :: p != 0 && ChildOf(es[k], p) ==> text == IntText(p) + "." + NatText(ChildNumber(es, k, p)))
  }

  /**
   The rows after any run are the last of the events added since the last reset, and each whose object is not
   added again later shows its place among them.
   */
  lemma RowShows(max: nat, actions: seq<Action>, i: nat)
    requires max > 0 && i < |Run(max, actions).rows|
    ensures var t, es := Run(max, actions), History(max, actions);
            && EndsWith(es, t.rows) && |t.rows| == (if |es| < max then |es| else max)
            && t.rows[i] in t.tally.labels
            && (LabelledLast(es, t.rows, i) ==>
                  ShowsPlace(t.tally.labels[t.rows[i]], es, |es| - |t.rows| + i))
  {
    hide *;
    RunIsHistory(max, actions);
    var t, es := Run(max, actions), History(max, actions);
    LastIsSuffix(es, max);
    RowHasLabel(max, actions, i);
    RowStands(es, t.rows, i);
    if LabelledLast(es, t.rows, i) {
      LastIsLast(es, t.rows, i);
      TallyLabel(t.tally, es, |es| - |t.rows| + i);
      LabelFields(es, |es| - |t.rows| + i);
    }
  }

  lemma RowHasLabel(max: nat, actions: seq<Action>, i: nat)
    requires max > 0 && i < |Run(max, actions).rows|
    ensures Run(max, actions).rows[i] in Run(max, actions).tally.labels
  {
    RowsAreLabelled(max, actions);
    hide Run;
  }

  lemma RowStands(es: seq<ViewerEvent>, rows: seq<ViewerEvent>, i: nat)
    requires EndsWith(es, rows) && i < |rows|
    ensures |rows| <= |es| && es[|es| - |rows| + i] == rows[i]
  {
  }

  lemma LastIsLast(es: seq<ViewerEvent>, rows: seq<ViewerEvent>, i: nat)
    requires i < |rows| <= |es| && LabelledLast(es, rows, i)
    ensures NotLater(es, |es| - |rows| + i)
  {
  }

  lemma LabelFields(es: seq<ViewerEvent>, k: nat)
    requires k < |es|
    ensures ShowsPlace(LabelAt(es, k), es, k)
  {
    ParentIff(es[k], 0);
    hide IntText, NatText;
    forall p | p != 0 && ChildOf(es[k], p)
      ensures LabelAt(es, k) == IntText(p) + "." + NatText(ChildNumber(es, k, p))
    {
      ParentIff(es[k], p);
      CountIsCardinality(es[..k], p);
      assert es[..k + 1][..k] == es[..k];
      assert (set j | 0 <= j < |es[..k]| && ChildOf(es[..k][j], p)) == (set j | 0 <= j < k && ChildOf(es[j], p));
    }
  }

  /** What counts since the last reset: after a clear only what was appended, after a load also what it kept. */
  lemma HistoryAfterReset(max: nat, before: seq<Action>, es: seq<ViewerEvent>, fs: seq<ViewerEvent>)
    ensures History(max, before + [Clear] + Appends(fs)) == fs
    ensures History(max, before + [SetEvents(es)] + Appends(fs)) == Last(es, max) + fs
  {
    HistorySnoc(max, before, Clear);
    HistorySnoc(max, before, SetEvents(es));
    HistoryAfterAppends(max, before + [Clear], fs);
    HistoryAfterAppends(max, before + [SetEvents(es)], fs);
    assert [] + fs == fs;
    hide History, Last;
  }

  lemma {:induction false} HistoryAfterAppends(max: nat, before: seq<Action>, fs: seq<ViewerEvent>)
    ensures History(max, before + Appends(fs)) == History(max, before) + fs
  {
    hide History;
    if fs == [] {
      assert before + Appends(fs) == before;
    } else {
      var n := |fs| - 1;
      HistoryAfterAppends(max, before, fs[..n]);
      assert before + Appends(fs) == before + Appends(fs[..n]) + [Append(fs[n])];
      HistorySnoc(max, before + Appends(fs[..n]), Append(fs[n]));
      assert fs == fs[..n] + [fs[n]];
      assert History(max, before) + fs == History(max, before) + fs[..n] + [fs[n]];
    }
  }

  lemma HistorySnoc(max: nat, actions: seq<Action>, a: Action)
    ensures History(max, actions + [a]) == HistoryStep(History(max, actions), max, a)
  {
    hide HistoryStep;
    assert (actions + [a])[..|actions|] == actions;
  }

  // ---------- One at a time, or all at once ----------

  function Appends(es: seq<ViewerEvent>): (actions: seq<Action>)
    ensures |actions| == |es|
    ensures forall i :: 0 <= i < |es| ==> actions[i] == Append(es[i])
  {
    seq(|es|, i requires 0 <= i < |es| => Append(es[i]))
  }

  lemma {:induction false} HistoryOfAppends(max: nat, es: seq<ViewerEvent>)
    ensures History(max, Appends(es)) == es
  {
    if es != [] {
      var n := |es| - 1;
      HistoryOfAppends(max, es[..n]);
      assert Appends(es)[..n] == Appends(es[..n]);
    }
  }

  lemma RunSnoc(max: nat, actions: seq<Action>, a: Action)
    requires max > 0
    ensures Run(max, actions + [a]) == Step(Run(max, actions), max, a)
  {
    hide Step;
    assert (actions + [a])[..|actions|] == actions;
  }

  lemma LabelledSnoc(t: Tally, es: seq<ViewerEvent>, e: ViewerEvent)
    ensures LabelledAll(t, es + [e]) == Labelled(LabelledAll(t, es), e)
  {
    hide Labelled;
    assert (es + [e])[..|es|] == es;
  }

  lemma {:induction false} AppendsFromEmpty(max: nat, es: seq<ViewerEvent>)
    requires max > 0 && |es| <= max
    ensures Run(max, Appends(es)) == Table(es, LabelledAll(EMPTY_TALLY, es))
  {
    hide Labelled, LabelledAll;
    if es == [] {
      NothingLabelled(EMPTY_TALLY);
    } else {
      hide Run;
      var n := |es| - 1;
      AppendsFromEmpty(max, es[..n]);
      assert Appends(es) == Appends(es[..n]) + [Append(es[n])];
      RunSnoc(max, Appends(es[..n]), Append(es[n]));
      LabelledSnoc(EMPTY_TALLY, es[..n], es[n]);
      assert es[..n] + [es[n]] == es;
    }
  }

  lemma RunOfBulk(max: nat, es: seq<ViewerEvent>)
    requires max > 0
    ensures Run(max, [SetEvents(es)]) == Table(Last(es, max), LabelledAll(EMPTY_TALLY, Last(es, max)))
  {
    hide LabelledAll;
    assert [SetEvents(es)][..0] == [];
  }

  /** A list that fits is the same table either way: rows, counters and labels. */
  lemma BulkEqualsAppends(max: nat, es: seq<ViewerEvent>)
    requires max > 0 && |es| <= max
    ensures Run(max, Appends(es)) == Run(max, [SetEvents(es)])
  {
    hide Run, LabelledAll;
    AppendsFromEmpty(max, es);
    RunOfBulk(max, es);
  }

  /** The rows are always the same: the last that fit. */
  lemma BulkRowsEqual(max: nat, es: seq<ViewerEvent>)
    requires max > 0
    ensures Run(max, Appends(es)).rows == Last(es, max) == Run(max, [SetEvents(es)]).rows
    ensures EndsWith(es, Last(es, max)) && |Last(es, max)| == if |es| < max then |es| else max
  {
    hide Run, LabelledAll;
    LastIsSuffix(es, max);
    RunIsHistory(max, Appends(es));
    HistoryOfAppends(max, es);
    RunOfBulk(max, es);
  }

  lemma {:induction false} LastPlace(es: seq<ViewerEvent>, e: ViewerEvent) returns (i: nat)
    requires e in es
    ensures i < |es| && es[i] == e && e !in es[i + 1..]
  {
    var n := |es| - 1;
    if es[n] == e {
      i := n;
    } else {
      i := LastPlace(es[..n], e);
      assert es[i + 1..] == es[..n][i + 1..] + [es[n]];
    }
  }

  /** Splitting off a front part changes a label exactly when the front holds children of the same parent. */
  lemma LabelAfterSplit(front: seq<ViewerEvent>, back: seq<ViewerEvent>, i: nat)
    requires i < |back|
    ensures LabelAt(front + back, |front| + i) == LabelAt(back, i) <==>
            Parent(back[i]) == 0 || Count(front, Parent(back[i])) == 0
  {
    hide ChildText, IntText, Count, Parent;
    var p := Parent(back[i]);
    if p != 0 {
      CountSplit(front, back, i, p);
      SameChildText(p, Count((front + back)[..|front| + i + 1], p), Count(back[..i + 1], p));
    }
  }

  lemma CountSplit(front: seq<ViewerEvent>, back: seq<ViewerEvent>, i: nat, p: int)
    requires i < |back|
    ensures Count((front + back)[..|front| + i + 1], p) == Count(front, p) + Count(back[..i + 1], p)
  {
    hide Count;
    assert (front + back)[..|front| + i + 1] == front + back[..i + 1];
    CountConcat(front, back[..i + 1], p);
  }

  lemma SameChildText(p: int, m: nat, n: nat)
    ensures ChildText(p, m) == ChildText(p, n) <==> m == n
  {
    if ChildText(p, m) == ChildText(p, n) {
      ChildTextInjective(p, m, p, n);
    }
  }

  /** The two tables show the same label for an event. */
  ghost predicate SameLabel(a: Table, b: Table, e: ViewerEvent) {
    e in a.tally.labels && e in b.tally.labels && a.tally.labels[e] == b.tally.labels[e]
  }

  lemma AppendedLabel(max: nat, es: seq<ViewerEvent>, i: nat)
    requires max > 0 && i < |es| && es[i] !in es[i + 1..]
    ensures var labels := Run(max, Appends(es)).tally.labels;
            es[i] in labels && labels[es[i]] == LabelAt(es, i)
  {
    hide Run, History, LabelledAll, LabelAt;
    LastLabel(es, i);
    RunIsHistory(max, Appends(es));
    HistoryOfAppends(max, es);
  }

  lemma BulkLabel(max: nat, es: seq<ViewerEvent>, i: nat)
    requires max > 0
    requires var kept := Last(es, max); i < |kept| && kept[i] !in kept[i + 1..]
    ensures var labels, kept := Run(max, [SetEvents(es)]).tally.labels, Last(es, max);
            kept[i] in labels && labels[kept[i]] == LabelAt(kept, i)
  {
    hide Run, LabelledAll, LabelAt, Last;
    LastLabel(Last(es, max), i);
    RunOfBulk(max, es);
  }

  lemma SameLabelIff(max: nat, es: seq<ViewerEvent>, e: ViewerEvent)
    requires max > 0 && |es| > max && e in Last(es, max)
    ensures SameLabel(Run(max, Appends(es)), Run(max, [SetEvents(es)]), e) <==>
            Parent(e) == 0 || forall d :: d in es[..|es| - max] ==> Parent(d) != Parent(e)
  {
    hide Run, LabelAt, Parent, Count;
    var front, back := es[..|es| - max], es[|es| - max..];
    var i := LastPlace(back, e);
    var k := |front| + i;
    assert front + back == es;
    assert es[k + 1..] == back[i + 1..];
    AppendedLabel(max, es, k);
    BulkLabel(max, es, i);
    LabelAfterSplit(front, back, i);
    CountIsZero(front, Parent(e));
  }

  /** Three events of one parent in a table for two: the last two are 1.2 and 1.3, or 1.1 and 1.2. */
  method BulkLabelsCanDiffer() returns (es: seq<ViewerEvent>)
    ensures |es| == 3 && DistinctRows(es) && forall i :: 0 <= i < 3 ==> es[i].rawParents == [1]
    ensures forall i :: 1 <= i < 3 ==> !SameLabel(Run(2, Appends(es)), Run(2, [SetEvents(es)]), es[i])
  {
    var a := new ViewerEvent(2, 1, [1]);
    var b := new ViewerEvent(3, 1, [1]);
    var c := new ViewerEvent(4, 1, [1]);
    es := [a, b, c];
    assert Parent(a) == 1 && Parent(b) == 1 && Parent(c) == 1;
    hide Run, Appends, SameLabel, IntText;
    assert es[..1] == [a] && a in es[..1];
    assert Last(es, 2) == [b, c];
    SameLabelIff(2, es, b);
    SameLabelIff(2, es, c);
  }

  /** One object appended twice is listed twice, under one label. */
  lemma RowsCanShareLabel(e: ViewerEvent)
    ensures var t := Run(2, Appends([e, e]));
            t.rows == [e, e] && RowsLabelled(t) && !DistinctLabels(t)
  {
    hide Run, Appends, IntText;
    BulkRowsEqual(2, [e, e]);
    LabelsDistinctIff(2, Appends([e, e]));
    assert !DistinctRows([e, e]) by {
      assert [e, e][0] == [e, e][1];
    }
  }

  /**
   When the list is too long, loading it and appending it label the rows alike exactly when no kept event
   shares a parent with a dropped one.
   */
  lemma BulkLabelsEqualIff(max: nat, es: seq<ViewerEvent>)
    requires max > 0 && |es| > max
    ensures var a, b := Run(max, Appends(es)), Run(max, [SetEvents(es)]);
            (forall e :: e in Last(es, max) ==> SameLabel(a, b, e)) <==>
            (forall e, d :: e in Last(es, max) && d in es[..|es| - max] ==> !Siblings(e, d))
  {
    hide Run, Last, SameLabel, Parent;
    forall e, d | e in Last(es, max) && d in es[..|es| - max]
      ensures Siblings(e, d) <==> Parent(e) != 0 && Parent(d) == Parent(e)
    {
      SiblingsIff(e, d);
    }
    hide Siblings;
    forall e | e in Last(es, max)
      ensures SameLabel(Run(max, Appends(es)), Run(max, [SetEvents(es)]), e) <==>
              Parent(e) == 0 || forall d :: d in es[..|es| - max] ==> Parent(d) != Parent(e)
    {
      SameLabelIff(max, es, e);
    }
  }
}
