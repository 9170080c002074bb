/** The log file: the recorder that appends to it and the loader that reads it. */
module LogFiles {
  import opened Base
  import opened Events
  import opened Jsonl
  import opened EventLine

  // ---------- Contents ----------

  datatype Entry = MetadataEntry | EventEntry(e: PacketEvent)

  function EntryLine(entry: Entry): string {
    match entry
    case MetadataEntry => ObjectText(METADATA)
    case EventEntry(e) => EventText(e)
  }

  function LogText(entries: seq<Entry>): string {
    if entries == [] then "" else EntryLine(entries[0]) + "\n" + LogText(entries[1..])
  }

  lemma {:induction false} LogTextAppend(a: seq<Entry>, b: seq<Entry>)
    ensures LogText(a + b) == LogText(a) + LogText(b)
  {
    hide EntryLine;
    if a == [] {
      assert a + b == b;
    } else {
      assert (a + b)[1..] == a[1..] + b;
      LogTextAppend(a[1..], b);
      var line := EntryLine(a[0]) + "\n";
      assert line + (LogText(a[1..]) + LogText(b)) == line + LogText(a[1..]) + LogText(b);
    }
  }

  function EventsIn(entries: seq<Entry>): seq<PacketEvent> {
    if entries == [] then []
    else
      var n := |entries| - 1;
      EventsIn(entries[..n]) + (if entries[n].EventEntry? then [entries[n].e] else [])
  }

  // ---------- The recorder ----------

  // An output file stream: whether it has a file, and whether its error flag is clear.
  datatype OutputState = OutputState(isOpen: bool, good: bool)

  datatype Action = Open(succeeds: bool) | Record(e: PacketEvent) | Close

  /** Opening a stream that is already open fails and sets the error flag; a later success clears it. */
  function After(s: OutputState, a: Action): OutputState {
    match a
    case Open(succeeds) => if succeeds && !s.isOpen then OutputState(true, true) else s.(good := false)
    case Record(_) => s
    case Close => s.(isOpen := false)
  }

  /** What an action adds to the file. */
  function Appended(s: OutputState, a: Action): seq<Entry> {
    match a
    case Open(succeeds) => if succeeds && !s.isOpen then [MetadataEntry] else []
    case Record(e) => if s.isOpen && s.good then [EventEntry(e)] else []
    case Close => []
  }

  class LogFile {
    var contents: string

    constructor ()
      ensures contents == ""
    {
      contents := "";
    }
  }

  lemma LogTextOfOne(entry: Entry)
    ensures LogText([entry]) == EntryLine(entry) + "\n"
  {
  }

  class JsonlRecorder {
    var output: LogFile?
    var good: bool

    constructor ()
      ensures State() == OutputState(false, true)
    {
      output, good := null, true;
    }

    function State(): OutputState
      reads this
    {
      OutputState(output != null, good)
    }

    method Open(file: LogFile, succeeds: bool) returns (r: Result<()>)
      modifies this, file
      ensures State() == After(old(State()), Action.Open(succeeds))
      ensures output == if succeeds && old(output) == null then file else old(output)
      ensures file.contents == old(file.contents) + LogText(Appended(old(State()), Action.Open(succeeds)))
      ensures r.Ok? <==> succeeds && old(output) == null
    {
      hide ObjectText;
      good := succeeds && output == null;
      if !good {
        return Err("failed to open JSONL log");
      }
      output := file;
      var line := SerializeMetadataJsonl();
      LogTextOfOne(MetadataEntry);
      assert EntryLine(MetadataEntry) == line;
      output.contents := output.contents + (line + "\n");
      r := Ok(());
    }

    method Close()
      modifies this
      ensures State() == After(old(State()), Action.Close)
      ensures output == null
    {
      if output != null {
        output := null;
      }
    }

    method Record(e: PacketEvent)
      modifies output
      ensures State() == After(old(State()), Action.Record(e))
      ensures output != null ==>
        output.contents == old(output.contents) + LogText(Appended(old(State()), Action.Record(e)))
    {
      hide EventText;
      if output == null {
        return;
      }
      var line := SerializeEventJsonl(e);
      LogTextOfOne(EventEntry(e));
      if good {
        output.contents := output.contents + (line + "\n");
      }
    }
  }

  // ---------- The loader ----------

  predicate IsBreak(c: char) {
    c == '\n' || c == '\r'
  }

  function LineEnd(s: string): (n: nat)
    ensures n <= |s|
    ensures forall i :: 0 <= i < n ==> !IsBreak(s[i])
    ensures n < |s| ==> IsBreak(s[n])
  {
    if s == "" || IsBreak(s[0]) then 0 else 1 + LineEnd(s[1..])
  }

  /** The lines of a text file; a carriage return, a line feed, or the pair ends a line. */
  function Lines(text: string): seq<string>
    decreases |text|
  {
    if text == "" then []
    else
      var n := LineEnd(text);
      if n == |text| then [text]
      else
        var pair := text[n] == '\r' && n + 1 < |text| && text[n + 1] == '\n';
        [text[..n]] + Lines(text[if pair then n + 2 else n + 1..])
  }

  /** The characters `str.strip` removes. */
  predicate IsSpace(c: char) {
    var n := c as int;
    || 9 <= n <= 13 || 28 <= n <= 32 || n == 0x85 || n == 0xA0 || n == 0x1680 || 0x2000 <= n <= 0x200A
    || n == 0x2028 || n == 0x2029 || n == 0x202F || n == 0x205F || n == 0x3000
  }

  function Strip(s: string): string
    decreases |s|
  {
    if s == "" then ""
    else if IsSpace(s[0]) then Strip(s[1..])
    else if IsSpace(s[|s| - 1]) then Strip(s[..|s| - 1])
    else s
  }

  // What the JSON library makes of a line.
  datatype Parsed = Dictionary(d: Dict) | OtherValue | DecodeError

  /** A JSON parser that understands at least the lines `ReadObject` understands, in the same way. */
  ghost predicate Understands(loads: string -> Parsed) {
    forall line: string :: ReadObject(line).Some? ==> loads(line) == Dictionary(AsDict(ReadObject(line).value))
  }

  datatype LoadResult = LoadResult(metadata: Option<Dict>, events: seq<Dict>, malformed: seq<(nat, string)>)

  predicate IsMetadata(d: Dict) {
    "type" in d && d["type"] == Text("metadata")
  }

  function AddLine(r: LoadResult, number: nat, line: string, loads: string -> Parsed): LoadResult {
    var text := Strip(line);
    if text == "" then r
    else
      match loads(text)
      case Dictionary(d) =>
        if !IsMetadata(d) then r.(events := r.events + [d])
        else if r.metadata.None? then r.(metadata := Some(d))
        else r
      case _ => r.(malformed := r.malformed + [(number, text)])
  }

  function LoadLines(lines: seq<string>, loads: string -> Parsed): LoadResult {
    if lines == [] then LoadResult(None, [], [])
    else
      var n := |lines| - 1;
      AddLine(LoadLines(lines[..n], loads), n + 1, lines[n], loads)
  }

  method LoadPacketProbeJsonl(text: string, loads: string -> Parsed) returns (result: LoadResult)
    ensures result == LoadLines(Lines(text), loads)
  {
    var lines := Lines(text);
    result := LoadResult(None, [], []);
    for i := 0 to |lines|
      invariant result == LoadLines(lines[..i], loads)
    {
      assert lines[..i + 1][..i] == lines[..i];
      var line := Strip(lines[i]);
      if line == "" {
        continue;
      }
      match loads(line)
      case Dictionary(obj) =>
        if "type" in obj && obj["type"] == Text("metadata") {
          if result.metadata.None? {
            result := result.(metadata := Some(obj));
          }
        } else {
          result := result.(events := result.events + [obj]);
        }
      case OtherValue =>
        result := result.(malformed := result.malformed + [(i + 1, line)]);
      case DecodeError =>
        result := result.(malformed := result.malformed + [(i + 1, line)]);
    }
    assert lines[..|lines|] == lines;
  }

  // ---------- Round trip ----------

  /** No entry carries text of a message decoder, as no decoder of this program produces any. */
  predicate Undecoded(entries: seq<Entry>) {
    forall i :: 0 <= i < |entries| && entries[i].EventEntry? ==> entries[i].e.decodedJson == ""
  }

  function EntryLines(entries: seq<Entry>): (lines: seq<string>)
    ensures |lines| == |entries|
    ensures forall i :: 0 <= i < |entries| ==> lines[i] == EntryLine(entries[i])
  {
    seq(|entries|, i requires 0 <= i < |entries| => EntryLine(entries[i]))
  }

  lemma EntryLineShape(entry: Entry)
    requires entry.EventEntry? ==> entry.e.decodedJson == ""
    ensures var line := EntryLine(entry); Visible(line) && line != "" && line[0] == '{' && line[|line| - 1] == '}'
  {
    hide EventText, ObjectText;
    match entry
    case MetadataEntry => MetadataIsOneLine();
    case EventEntry(e) => EventTextIsOneLine(e);
  }

  lemma LinesOfLine(line: string, rest: string)
    requires Visible(line)
    ensures Lines(line + "\n" + rest) == [line] + Lines(rest)
  {
    var text := line + "\n" + rest;
    assert text[|line|] == '\n';
    assert forall i :: 0 <= i < |line| ==> text[i] == line[i];
    assert LineEnd(text) == |line|;
    assert text[..|line|] == line && text[|line| + 1..] == rest;
  }

  lemma {:induction false} LinesOfLog(entries: seq<Entry>)
    requires Undecoded(entries)
    ensures Lines(LogText(entries)) == EntryLines(entries)
  {
    hide EntryLine, Lines;
    if entries == [] {
      assert Lines("") == [] by {
        LinesOfNothing();
      }
    } else {
      EntryLineShape(entries[0]);
      LinesOfLog(entries[1..]);
      LinesOfLine(EntryLine(entries[0]), LogText(entries[1..]));
    }
  }

  lemma LinesOfNothing()
    ensures Lines("") == []
  {
  }

  /** The dictionary a reader makes of an entry's line. */
  function EntryDict(entry: Entry): Dict {
    match entry
    case MetadataEntry => AsDict(METADATA)
    case EventEntry(e) => DictOf(e)
  }

  lemma EntryLoads(entry: Entry, loads: string -> Parsed)
    requires entry.EventEntry? ==> entry.e.decodedJson == ""
    requires Understands(loads)
    ensures loads(EntryLine(entry)) == Dictionary(EntryDict(entry))
  {
    hide EventText, ObjectText, ReadObject, AsDict, DictOf;
    match entry
    case MetadataEntry => MetadataRoundTrip();
    case EventEntry(e) => EventReads(e);
  }

  lemma MetadataIsMetadata(entry: Entry)
    ensures IsMetadata(EntryDict(entry)) <==> entry == MetadataEntry
  {
    hide AsDict, FieldsOf;
    match entry
    case MetadataEntry =>
      hide IsMetadata;
      MetadataType();
    case EventEntry(e) =>
      FieldsRecovered(e, Type);
      FieldIsPresent(e, Type);
      TypeIsNotMetadata(e.kind);
  }

  lemma MetadataType()
    ensures IsMetadata(AsDict(METADATA))
  {
    DictLookup(METADATA, 0);
  }

  lemma TypeIsNotMetadata(t: EventType)
    ensures EventTypeText(t) != "metadata"
  {
  }

  function DictsIn(entries: seq<Entry>): seq<Dict> {
    if entries == [] then []
    else
      var n := |entries| - 1;
      DictsIn(entries[..n]) + (if entries[n].EventEntry? then [EntryDict(entries[n])] else [])
  }

  lemma {:induction false} LoadEntries(entries: seq<Entry>, loads: string -> Parsed)
    requires Undecoded(entries) && Understands(loads)
    ensures LoadLines(EntryLines(entries), loads)
         == LoadResult(if MetadataEntry in entries then Some(AsDict(METADATA)) else None, DictsIn(entries), [])
  {
    hide EntryLine, EntryDict, IsMetadata, Strip, Understands, AsDict;
    if entries != [] {
      var n := |entries| - 1;
      LoadEntries(entries[..n], loads);
      assert EntryLines(entries)[..n] == EntryLines(entries[..n]);
      var line := EntryLine(entries[n]);
      EntryLineShape(entries[n]);
      StripNothing(line);
      EntryLoads(entries[n], loads);
      MetadataIsMetadata(entries[n]);
      assert entries == entries[..n] + [entries[n]];
      MetadataDict();
    }
  }

  lemma MetadataDict()
    ensures EntryDict(MetadataEntry) == AsDict(METADATA)
  {
  }

  lemma StripNothing(line: string)
    requires line != "" && line[0] == '{' && line[|line| - 1] == '}'
    ensures Strip(line) == line
  {
  }

  lemma {:induction false} DictsAreEvents(entries: seq<Entry>)
    requires Undecoded(entries)
    ensures var ds, es := DictsIn(entries), EventsIn(entries);
            |ds| == |es| && forall i :: 0 <= i < |es| ==> EventOf(ds[i]) == Some(Logged(es[i]))
  {
    hide EventOf, DictOf, Logged;
    if entries != [] {
      var n := |entries| - 1;
      DictsAreEvents(entries[..n]);
      if entries[n].EventEntry? {
        DictRecovered(entries[n].e);
      }
    }
  }

  /** The loaded events are the given ones, field by field and in order. */
  ghost predicate Recovers(events: seq<Dict>, es: seq<PacketEvent>) {
    |events| == |es| && forall i :: 0 <= i < |es| ==> EventOf(events[i]) == Some(Logged(es[i]))
  }

  function Loaded(entries: seq<Entry>, loads: string -> Parsed): LoadResult {
    LoadLines(Lines(LogText(entries)), loads)
  }

  lemma EntriesRoundTrip(entries: seq<Entry>, loads: string -> Parsed)
    requires Undecoded(entries) && Understands(loads)
    ensures var r := Loaded(entries, loads);
            && r.metadata == (if MetadataEntry in entries then Some(AsDict(METADATA)) else None)
            && Recovers(r.events, EventsIn(entries))
            && r.malformed == []
  {
    hide EventOf, AsDict, Logged, LogText, Lines, LoadLines, Understands;
    LinesOfLog(entries);
    LoadEntries(entries, loads);
    DictsAreEvents(entries);
  }

  // ---------- Runs ----------

  datatype Log = Log(output: OutputState, entries: seq<Entry>)

  /** A recorder that starts closed on an empty file, after some calls. */
  function Run(actions: seq<Action>): Log {
    if actions == [] then Log(OutputState(false, true), [])
    else
      var n := |actions| - 1;
      var log := Run(actions[..n]);
      Log(After(log.output, actions[n]), log.entries + Appended(log.output, actions[n]))
  }

  lemma RunSnoc(actions: seq<Action>, a: Action)
    ensures var log := Run(actions);
            Run(actions + [a]) == Log(After(log.output, a), log.entries + Appended(log.output, a))
  {
    assert (actions + [a])[..|actions|] == actions;
  }

  /** One call of a recorder that writes, if at all, to this file. */
  method Call(recorder: JsonlRecorder, file: LogFile, a: Action, ghost log: Log)
    requires recorder.output == null || recorder.output == file
    requires recorder.State() == log.output && file.contents == LogText(log.entries)
    modifies recorder, file
    ensures recorder.output == null || recorder.output == file
    ensures recorder.State() == After(log.output, a)
    ensures file.contents == LogText(log.entries + Appended(log.output, a))
  {
    hide LogText, After;
    LogTextAppend(log.entries, Appended(log.output, a));
    NoText(file.contents);
    match a {
      case Open(succeeds) => var _ := recorder.Open(file, succeeds);
      case Record(e) => recorder.Record(e);
      case Close => recorder.Close();
    }
  }

  /** A new recorder, told to do all this with one empty file, leaves the text of the run in it. */
  method Perform(file: LogFile, actions: seq<Action>) returns (recorder: JsonlRecorder)
    requires file.contents == ""
    modifies file
    ensures fresh(recorder) && recorder.State() == Run(actions).output
    ensures file.contents == LogText(Run(actions).entries)
  {
    recorder := new JsonlRecorder();
    NothingRun();
    for i := 0 to |actions|
      invariant fresh(recorder) && (recorder.output == null || recorder.output == file)
      invariant recorder.State() == Run(actions[..i]).output
      invariant file.contents == LogText(Run(actions[..i]).entries)
    {
      hide Run, LogText, After, Appended;
      assert actions[..i + 1] == actions[..i] + [actions[i]];
      RunSnoc(actions[..i], actions[i]);
      Call(recorder, file, actions[i], Run(actions[..i]));
    }
    assert actions[..|actions|] == actions;
  }

  lemma NothingRun()
    ensures Run([]) == Log(OutputState(false, true), []) && LogText([]) == ""
  {
  }

  lemma NoText(s: string)
    ensures LogText([]) == "" && s + LogText([]) == s
  {
  }

  predicate UndecodedRun(actions: seq<Action>) {
    forall i :: 0 <= i < |actions| && actions[i].Record? ==> actions[i].e.decodedJson == ""
  }

  lemma {:induction false} RunShape(actions: seq<Action>)
    ensures var log := Run(actions);
            && (log.output.isOpen ==> log.entries != [])
            && (log.entries != [] ==> log.entries[0] == MetadataEntry)
            && (UndecodedRun(actions) ==> Undecoded(log.entries))
  {
    if actions != [] {
      var n := |actions| - 1;
      RunShape(actions[..n]);
    }
  }

  /**
   Whatever a recorder was told to do, its file loads: the metadata if anything was written, every
   recorded event in order, and no malformed line.
   */
  lemma LogRoundTrip(actions: seq<Action>, loads: string -> Parsed)
    requires UndecodedRun(actions) && Understands(loads)
    ensures var entries := Run(actions).entries;
            var r := Loaded(entries, loads);
            && r.metadata == (if entries == [] then None else Some(AsDict(METADATA)))
            && Recovers(r.events, EventsIn(entries))
            && r.malformed == []
  {
    hide Loaded, AsDict, Understands, Recovers;
    RunShape(actions);
    var entries := Run(actions).entries;
    assert MetadataEntry in entries <==> entries != [];
    EntriesRoundTrip(entries, loads);
  }

  // ---------- Append sessions ----------

  function Records(events: seq<PacketEvent>): (actions: seq<Action>)
    ensures |actions| == |events|
    ensures forall i :: 0 <= i < |events| ==> actions[i] == Record(events[i])
  {
    seq(|events|, i requires 0 <= i < |events| => Record(events[i]))
  }

  /** One session opens the file, records its events, and closes it. */
  function SessionActions(sessions: seq<seq<PacketEvent>>): seq<Action> {
    if sessions == [] then []
    else
      var n := |sessions| - 1;
      SessionActions(sessions[..n]) + [Open(true)] + Records(sessions[n]) + [Close]
  }

  lemma {:induction false} EventsAppend(a: seq<Entry>, b: seq<Entry>)
    ensures EventsIn(a + b) == EventsIn(a) + EventsIn(b)
  {
    if b == [] {
      assert a + b == a;
    } else {
      var n := |b| - 1;
      assert (a + b)[..|a + b| - 1] == a + b[..n];
      EventsAppend(a, b[..n]);
    }
  }

  lemma {:induction false} RunRecords(actions: seq<Action>, events: seq<PacketEvent>)
    requires Run(actions).output == OutputState(true, true)
    ensures var log := Run(actions + Records(events));
            && log.output == OutputState(true, true)
            && EventsIn(log.entries) == EventsIn(Run(actions).entries) + events
  {
    hide Run;
    if events == [] {
      assert actions + Records(events) == actions;
    } else {
      var n := |events| - 1;
      RunRecords(actions, events[..n]);
      assert actions + Records(events) == actions + Records(events[..n]) + [Record(events[n])];
      RunSnoc(actions + Records(events[..n]), Record(events[n]));
      var entries := Run(actions + Records(events[..n])).entries;
      EventsAppend(entries, [EventEntry(events[n])]);
      assert EventsIn([EventEntry(events[n])]) == [events[n]];
      assert events[..n] + [events[n]] == events;
    }
  }

  lemma RunSession(before: seq<Action>, events: seq<PacketEvent>)
    requires !Run(before).output.isOpen
    ensures var log := Run(before + [Open(true)] + Records(events) + [Close]);
            && !log.output.isOpen
            && log.entries != []
            && EventsIn(log.entries) == EventsIn(Run(before).entries) + events
  {
    hide Run, Records;
    var started := before + [Open(true)];
    var recorded := started + Records(events);
    RunSnoc(before, Open(true));
    EventsAppend(Run(before).entries, [MetadataEntry]);
    assert EventsIn([MetadataEntry]) == [];
    assert EventsIn(Run(before).entries) + [] == EventsIn(Run(before).entries);
    RunRecords(started, events);
    RunShape(recorded);
    RunSnoc(recorded, Close);
    assert Run(recorded).entries + [] == Run(recorded).entries;
  }

  lemma {:induction false} RunSessions(sessions: seq<seq<PacketEvent>>)
    ensures var log := Run(SessionActions(sessions));
            && !log.output.isOpen
            && (log.entries == [] <==> sessions == [])
            && EventsIn(log.entries) == Flatten(sessions)
  {
    hide Records, EventsIn;
    if sessions == [] {
      assert EventsIn([]) == [] by {
        EventsInNothing();
      }
    } else {
      hide Run;
      var n := |sessions| - 1;
      RunSessions(sessions[..n]);
      RunSession(SessionActions(sessions[..n]), sessions[n]);
      FlattenLast(sessions);
    }
  }

  lemma EventsInNothing()
    ensures EventsIn([]) == []
  {
  }

  predicate UndecodedSessions(sessions: seq<seq<PacketEvent>>) {
    forall i, j :: 0 <= i < |sessions| && 0 <= j < |sessions[i]| ==> sessions[i][j].decodedJson == ""
  }

  lemma {:induction false} SessionsAreUndecoded(sessions: seq<seq<PacketEvent>>)
    requires UndecodedSessions(sessions)
    ensures UndecodedRun(SessionActions(sessions))
  {
    if sessions != [] {
      SessionsAreUndecoded(sessions[..|sessions| - 1]);
    }
  }

  /** Any number of append sessions on one file: all their events come back, in order. */
  lemma SessionsRoundTrip(sessions: seq<seq<PacketEvent>>, loads: string -> Parsed)
    requires UndecodedSessions(sessions) && Understands(loads)
    ensures var r := Loaded(Run(SessionActions(sessions)).entries, loads);
            && r.metadata == (if sessions == [] then None else Some(AsDict(METADATA)))
            && Recovers(r.events, Flatten(sessions))
            && r.malformed == []
  {
    hide Loaded, AsDict, Understands, Recovers, Run;
    SessionsAreUndecoded(sessions);
    RunSessions(sessions);
    LogRoundTrip(SessionActions(sessions), loads);
  }
}
