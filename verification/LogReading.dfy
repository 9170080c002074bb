/** What the loader makes of any text whatever, and what a recorder has written after any calls. */
module LogReading {
  import opened Base
  import opened Jsonl
  import opened EventLine
  import opened LogFiles

  predicate Increasing(ns: seq<nat>) {
    forall i, j :: 0 <= i < j < |ns| ==> ns[i] < ns[j]
  }

  // ---------- Lines ----------

  predicate Unbroken(s: string) {
    '\n' !in s && '\r' !in s
  }

  lemma LineEndAt(a: string, b: string)
    requires Unbroken(a) && (b != "" ==> b[0] == '\n' || b[0] == '\r')
    ensures LineEnd(a + b) == |a|
  {
    assert forall i :: 0 <= i < |a| ==> (a + b)[i] == a[i];
    assert b != "" ==> (a + b)[|a|] == b[0];
  }

  /**
   The lines of a text: nothing has none, a rest without a line break is one, and a line ends at a line feed,
   a carriage return or the pair of them.
   */
  lemma LinesAtBreak(a: string, rest: string)
    requires Unbroken(a)
    ensures Lines("") == []
    ensures a != "" ==> Lines(a) == [a]
    ensures Lines(a + "\n" + rest) == [a] + Lines(rest)
    ensures Lines(a + "\r\n" + rest) == [a] + Lines(rest)
    ensures (rest == "" || rest[0] != '\n') ==> Lines(a + "\r" + rest) == [a] + Lines(rest)
  {
    LineEndAt(a, "");
    assert a + "" == a;
    LinesAfter(a, "\n", rest);
    LinesAfter(a, "\r\n", rest);
    if rest == "" || rest[0] != '\n' {
      LinesAfter(a, "\r", rest);
    }
  }

  lemma LinesAfter(a: string, mark: string, rest: string)
    requires Unbroken(a) && mark in {"\n", "\r\n", "\r"}
    requires mark == "\r" ==> rest == "" || rest[0] != '\n'
    ensures Lines(a + mark + rest) == [a] + Lines(rest)
  {
    var text := a + mark + rest;
    LineEndAt(a, mark + rest);
    assert a + (mark + rest) == text;
    assert text[..|a|] == a && text[|a| + |mark|..] == rest;
    assert text[|a|] == mark[0];
    if |a| + 1 < |text| {
      assert text[|a| + 1] == if |mark| == 2 then mark[1] else rest[0];
    }
  }

  predicate Blank(s: string) {
    forall i :: 0 <= i < |s| ==> IsSpace(s[i])
  }

  predicate Trimmed(s: string) {
    s != "" ==> !IsSpace(s[0]) && !IsSpace(s[|s| - 1])
  }

  /** The text lies between these blanks and does not begin or end with one. */
  predicate Around(s: string, before: string, text: string, after: string) {
    s == before + text + after && Blank(before) && Blank(after) && Trimmed(text)
  }

  lemma Widen(s: string, before: string, text: string, after: string, c: char)
    requires Around(s, before, text, after) && IsSpace(c)
    ensures Around([c] + s, [c] + before, text, after)
    ensures Around(s + [c], before, text, after + [c])
  {
    hide IsSpace;
    assert [c] + s == [c] + before + text + after;
    assert s + [c] == before + text + (after + [c]);
  }

  lemma Whole(s: string)
    requires Trimmed(s)
    ensures Around(s, "", s, "") && Strip(s) == s
  {
    hide IsSpace;
  }

  lemma {:induction false} StripOf(s: string) returns (before: string, after: string)
    ensures Around(s, before, Strip(s), after)
    decreases |s|
  {
    hide *;
    if s != "" && IsSpace(s[0]) {
      assert Strip(s) == Strip(s[1..]) by {
        StripFront(s);
      }
      before, after := StripOf(s[1..]);
      assert s == [s[0]] + s[1..];
      Widen(s[1..], before, Strip(s), after, s[0]);
      before := [s[0]] + before;
    } else if s != "" && IsSpace(s[|s| - 1]) {
      assert Strip(s) == Strip(s[..|s| - 1]) by {
        StripBack(s);
      }
      before, after := StripOf(s[..|s| - 1]);
      assert s == s[..|s| - 1] + [s[|s| - 1]];
      Widen(s[..|s| - 1], before, Strip(s), after, s[|s| - 1]);
      after := after + [s[|s| - 1]];
    } else {
      before, after := "", "";
      TrimmedIff(s);
      Whole(s);
    }
  }

  lemma StripFront(s: string)
    requires s != "" && IsSpace(s[0])
    ensures Strip(s) == Strip(s[1..])
  {
    hide IsSpace;
  }

  lemma StripBack(s: string)
    requires s != "" && !IsSpace(s[0]) && IsSpace(s[|s| - 1])
    ensures Strip(s) == Strip(s[..|s| - 1])
  {
    hide IsSpace;
  }

  lemma TrimmedIff(s: string)
    ensures Trimmed(s) <==> s == "" || (!IsSpace(s[0]) && !IsSpace(s[|s| - 1]))
  {
    hide IsSpace;
  }

  lemma {:induction false} StripAround(s: string, before: string, text: string, after: string)
    requires Around(s, before, text, after)
    ensures Strip(s) == text
    decreases |s|
  {
    if before != "" {
      assert s[1..] == before[1..] + text + after;
      assert s[0] == before[0];
      StripAround(s[1..], before[1..], text, after);
    } else if after != "" && text != "" {
      assert s[0] == text[0];
      assert s[..|s| - 1] == before + text + after[..|after| - 1];
      assert s[|s| - 1] == after[|after| - 1];
      StripAround(s[..|s| - 1], before, text, after[..|after| - 1]);
    } else if after != "" {
      assert s == after && s[1..] == before + text + after[1..];
      StripAround(s[1..], before, text, after[1..]);
    } else {
      assert s == text;
    }
  }

  /** Stripping leaves exactly what stands between the blanks at both ends. */
  lemma StripIff(s: string, text: string)
    ensures Strip(s) == text <==> exists before, after :: Around(s, before, text, after)
  {
    hide Strip, Blank, Trimmed;
    var b, a := StripOf(s);
    if before, after :| Around(s, before, text, after) {
      StripAround(s, before, text, after);
    }
  }

  // ---------- Any file ----------

  /** A line the JSON library makes a dictionary of. */
  predicate Readable(line: string, loads: string -> Parsed) {
    Strip(line) != "" && loads(Strip(line)).Dictionary?
  }

  predicate SaysMetadata(line: string, loads: string -> Parsed) {
    Readable(line, loads) && var d := loads(Strip(line)).d; "type" in d && d["type"] == Text("metadata")
  }

  /**
   A pair is reported as malformed exactly when it is the number, counted from one, and the stripped text of
   a line that is not blank and of which no dictionary can be made.
   */
  lemma {:induction false} MalformedIff(lines: seq<string>, loads: string -> Parsed, number: nat, text: string)
    ensures (number, text) in LoadLines(lines, loads).malformed <==>
              && 0 < number <= |lines| && text == Strip(lines[number - 1])
              && text != "" && !loads(text).Dictionary?
  {
    hide Strip, IsMetadata;
    if lines != [] {
      MalformedIff(lines[..|lines| - 1], loads, number, text);
    }
  }

  /** Malformed lines are reported in order, each once. */
  lemma {:induction false} MalformedInOrder(lines: seq<string>, loads: string -> Parsed, i: nat, j: nat)
    requires i < j < |LoadLines(lines, loads).malformed|
    ensures LoadLines(lines, loads).malformed[i].0 < LoadLines(lines, loads).malformed[j].0
  {
    var n := |lines| - 1;
    var before, ms := LoadLines(lines[..n], loads).malformed, LoadLines(lines, loads).malformed;
    assert ms == before || ms == before + [(n + 1, Strip(lines[n]))];
    if j < |before| {
      MalformedInOrder(lines[..n], loads, i, j);
    } else {
      assert before[i] in before;
      MalformedIff(lines[..n], loads, before[i].0, before[i].1);
    }
  }

  lemma EventsSnoc(lines: seq<string>, loads: string -> Parsed)
    requires lines != []
    ensures var n := |lines| - 1;
            var before, after := LoadLines(lines[..n], loads).events, LoadLines(lines, loads).events;
            if Readable(lines[n], loads) && !SaysMetadata(lines[n], loads)
            then loads(Strip(lines[n])).Dictionary? && after == before + [loads(Strip(lines[n])).d]
            else after == before
  {
    hide Strip;
  }

  /** The events are the dictionaries of the lines that are readable and no metadata, in order. */
  lemma {:induction false} EventsInOrder(lines: seq<string>, loads: string -> Parsed) returns (places: seq<nat>)
    ensures Increasing(places) && |places| == |LoadLines(lines, loads).events|
    ensures forall i :: i in places <==>
              0 <= i < |lines| && Readable(lines[i], loads) && !SaysMetadata(lines[i], loads)
    ensures forall m :: 0 <= m < |places| ==>
              places[m] < |lines|
              && loads(Strip(lines[places[m]])) == Dictionary(LoadLines(lines, loads).events[m])
  {
    hide Strip;
    places := [];
    if lines != [] {
      var n := |lines| - 1;
      places := EventsInOrder(lines[..n], loads);
      EventsSnoc(lines, loads);
      hide LoadLines, Readable, SaysMetadata, Increasing;
      assert forall i :: 0 <= i < n ==> lines[..n][i] == lines[i];
      if Readable(lines[n], loads) && !SaysMetadata(lines[n], loads) {
        places := Longer(places, n);
      }
    }
  }

  /** The metadata are the dictionary of the first line that says it is metadata. */
  lemma {:induction false} MetadataIsFirst(lines: seq<string>, loads: string -> Parsed)
    ensures var m := LoadLines(lines, loads).metadata;
            && (m.None? <==> forall i :: 0 <= i < |lines| ==> !SaysMetadata(lines[i], loads))
            && (forall i :: 0 <= i < |lines| && SaysMetadata(lines[i], loads)
                            && (forall k :: 0 <= k < i ==> !SaysMetadata(lines[k], loads)) ==>
                  m == Some(loads(Strip(lines[i])).d))
  {
    hide Strip;
    if lines != [] {
      var n := |lines| - 1;
      MetadataIsFirst(lines[..n], loads);
      assert forall i :: 0 <= i < n ==> lines[..n][i] == lines[i];
    }
  }

  // ---------- Any calls of the recorder ----------

  /** The k-th call opens the file: it could be opened, and everything opened before has been closed. */
  predicate Opens(actions: seq<Action>, k: nat) {
    k < |actions| && actions[k] == Open(true) && !HoldsFile(actions, k)
  }

  /** Before the k-th call: the file could be opened at some call and has not been closed since. */
  predicate HoldsFile(actions: seq<Action>, k: nat)
    requires k <= |actions|
  {
    exists i :: 0 <= i < k && actions[i] == Open(true) && forall m :: i < m < k ==> actions[m] != Close
  }

  /** Before the k-th call: the file was opened, and since then there was nothing but records. */
  predicate Accepts(actions: seq<Action>, k: nat)
    requires k <= |actions|
  {
    exists i :: 0 <= i < k && Opens(actions, i) && forall m :: i < m < k ==> actions[m].Record?
  }

  lemma {:induction false} OutputIff(actions: seq<Action>, k: nat)
    requires k <= |actions|
    ensures Run(actions[..k]).output.isOpen <==> HoldsFile(actions, k)
    ensures Run(actions[..k]).output.isOpen && Run(actions[..k]).output.good <==> Accepts(actions, k)
  {
    if k > 0 {
      OutputIff(actions, k - 1);
      assert actions[..k] == actions[..k - 1] + [actions[k - 1]];
      RunSnoc(actions[..k - 1], actions[k - 1]);
      HoldsSnoc(actions, k);
      AcceptsSnoc(actions, k);
      hide Run, HoldsFile, Accepts;
    }
  }

  lemma HoldsSnoc(actions: seq<Action>, k: nat)
    requires 0 < k <= |actions|
    ensures HoldsFile(actions, k) <==>
            actions[k - 1] == Open(true) || (HoldsFile(actions, k - 1) && actions[k - 1] != Close)
  {
    if actions[k - 1] == Open(true) {
      assert HoldsFile(actions, k);
    }
  }

  lemma AcceptsSnoc(actions: seq<Action>, k: nat)
    requires 0 < k <= |actions|
    ensures Accepts(actions, k) <==>
            Opens(actions, k - 1) || (Accepts(actions, k - 1) && actions[k - 1].Record?)
  {
    hide Opens;
    if Opens(actions, k - 1) {
      assert Accepts(actions, k);
    }
  }

  /** The k-th call puts something into the file: it opens it, or records while events are accepted. */
  predicate Writes(actions: seq<Action>, k: nat) {
    k < |actions| && (Opens(actions, k) || (actions[k].Record? && Accepts(actions, k)))
  }

  function Entered(a: Action): Entry {
    if a.Record? then EventEntry(a.e) else MetadataEntry
  }

  lemma EntriesSnoc(actions: seq<Action>, k: nat)
    requires k < |actions|
    ensures Run(actions[..k + 1]).entries ==
            Run(actions[..k]).entries + (if Writes(actions, k) then [Entered(actions[k])] else [])
  {
    OutputIff(actions, k);
    assert actions[..k + 1] == actions[..k] + [actions[k]];
    RunSnoc(actions[..k], actions[k]);
    hide Run, HoldsFile, Accepts;
  }

  /**
   What is in the file after any calls: metadata for each call that opened it and the event of each record
   that came while it accepted them, in order.
   */
  lemma {:induction false} EntriesInOrder(actions: seq<Action>, k: nat) returns (places: seq<nat>)
    requires k <= |actions|
    ensures Increasing(places) && |places| == |Run(actions[..k]).entries|
    ensures forall i :: i in places <==> 0 <= i < k && Writes(actions, i)
    ensures forall m :: 0 <= m < |places| ==>
              places[m] < k && Run(actions[..k]).entries[m] == Entered(actions[places[m]])
  {
    places := [];
    if k > 0 {
      places := EntriesInOrder(actions, k - 1);
      EntriesSnoc(actions, k - 1);
      hide Run, Writes, Increasing, Entered;
      if Writes(actions, k - 1) {
        places := Longer(places, k - 1);
      }
    }
  }

  lemma Longer(places: seq<nat>, n: nat) returns (longer: seq<nat>)
    requires Increasing(places) && forall i :: i in places ==> i < n
    ensures longer == places + [n] && Increasing(longer)
    ensures forall i :: i in longer <==> i in places || i == n
  {
    longer := places + [n];
    assert longer[|places|] == n;
    assert forall k :: 0 <= k < |places| ==> longer[k] == places[k] && places[k] in places;
    forall i | i in places ensures i in longer {
      var k :| 0 <= k < |places| && places[k] == i;
      assert longer[k] == i;
    }
  }
}
