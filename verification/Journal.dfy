/** The append-only JSONL execution journal of one attempt, as its lines survive on disk. */
module Journal {
  import opened Wrappers
  import opened HealthContract

  datatype Event =
    | AttemptAccepted
    | MutationSubmitted
    | MutationCompleted
    | MutationFailed
    | HealthStarted
    | HealthPassed
    | HealthFailed
    | ReconciliationStarted
    | ReconciliationResult
    | DbDisconnected
    | AttemptTerminal

  /** The `outcome` object of a record: {}, {"state": s} or {"error_type": ...}. */
  datatype Detail = NoDetail | StateDetail(state: RuntimeState) | ErrorDetail

  datatype Record = Record(event: Event, timestamp: int, detail: Detail)

  /** A line either parses back to the record that was written or no longer parses. */
  datatype Line = Entry(record: Record) | Garbage

  /** `terminated` is false when the file does not end in a newline.
      An absent file and an empty one load alike, so both are the empty file. */
  datatype File = File(lines: seq<Line>, terminated: bool) {
    predicate Valid() {
      terminated || lines != []
    }
  }

  const EMPTY := File([], true)

  /** How much of one os.write reached the disk: everything, everything but the newline,
      a proper prefix of the record, or nothing at all. */
  datatype Write = Full | NoNewline | Torn | Nothing

  /** O_APPEND: bytes written after an unterminated line extend that line, which then never parses. */
  function Append(file: File, record: Record, write: Write): (extended: File)
    requires file.Valid()
    ensures extended.Valid()
  {
    if write == Nothing then file
    else if file.terminated then
      File(file.lines + [if write == Torn then Garbage else Entry(record)], write == Full)
    else
      File(file.lines[..|file.lines| - 1] + [Garbage], write == Full)
  }

  predicate Corrupt(file: File) {
    Garbage in file.lines
  }

  predicate HasEvent(lines: seq<Line>, event: Event) {
    exists i :: 0 <= i < |lines| && lines[i].Entry? && lines[i].record.event == event
  }

  /** The records of the lines before the first one that does not parse. */
  function CleanPrefix(lines: seq<Line>): (records: seq<Record>)
    ensures |records| <= |lines|
    ensures forall i :: 0 <= i < |records| ==> lines[i] == Entry(records[i])
    ensures |records| == |lines| || lines[|records|] == Garbage
    ensures Garbage !in lines ==> |records| == |lines|
  {
    if lines == [] then []
    else if lines[0].Garbage? then []
    else [lines[0].record] + CleanPrefix(lines[1..])
  }

  /** DurableExecutionJournal.load: every line must parse. */
  function Load(file: File): Result<seq<Record>, string> {
    if Corrupt(file) then Failure("journal_corrupt") else Success(CleanPrefix(file.lines))
  }

  /** The timestamp that starts the health window: the first MUTATION_COMPLETED or HEALTH_STARTED. */
  function Anchor(records: seq<Record>): Option<int> {
    if records == [] then None
    else if records[0].event.MutationCompleted? || records[0].event.HealthStarted? then Some(records[0].timestamp)
    else Anchor(records[1..])
  }

  function TerminalRecords(records: seq<Record>): seq<Record> {
    if records == [] then []
    else
      var last := records[|records| - 1];
      TerminalRecords(records[..|records| - 1]) + (if last.event.AttemptTerminal? then [last] else [])
  }

  /** ProductionDeploymentSupervisor._terminal_state. */
  function TerminalState(records: seq<Record>): Result<RuntimeState, string> {
    if records != [] && records[|records| - 1].event.DbDisconnected? then Success(Unknown)
    else
      var terminal := TerminalRecords(records);
      if |terminal| != 1 then Failure("journal_terminal_ambiguous")
      else if !terminal[0].detail.StateDetail? then Failure("journal_terminal_corrupt")
      else Success(terminal[0].detail.state)
  }

  // ---------------------------------------------------------------- facts about appending

  /** What an append leaves of the lines that were there, and what it adds. */
  lemma AppendCases(file: File, record: Record, write: Write)
    requires file.Valid()
    ensures var extended := Append(file, record, write);
      || extended == file
      || (extended.lines == file.lines + [Entry(record)] && (write == Full || write == NoNewline))
      || (|extended.lines| > 0 && extended.lines[|extended.lines| - 1] == Garbage && Corrupt(extended))
    ensures file.terminated && write == Full ==> Append(file, record, write) == File(file.lines + [Entry(record)], true)
    ensures write != Nothing ==> Append(file, record, write).lines != []
  {
  }

  lemma AppendKeepsCorruption(file: File, record: Record, write: Write)
    requires file.Valid() && Corrupt(file)
    ensures Corrupt(Append(file, record, write))
  {
    var extended := Append(file, record, write);
    if write == Nothing {
    } else if file.terminated {
      assert Garbage in extended.lines;
    } else {
      assert extended.lines[|file.lines| - 1] == Garbage;
    }
  }

  /** An event once journalled stays visible to load, or load fails from then on. */
  lemma AppendKeepsEvent(file: File, record: Record, write: Write, event: Event)
    requires file.Valid()
    requires HasEvent(file.lines, event) || Corrupt(file)
    ensures HasEvent(Append(file, record, write).lines, event) || Corrupt(Append(file, record, write))
  {
    var extended := Append(file, record, write);
    if Corrupt(file) {
      AppendKeepsCorruption(file, record, write);
    } else {
      var i :| 0 <= i < |file.lines| && file.lines[i].Entry? && file.lines[i].record.event == event;
      if write != Nothing && !file.terminated {
        assert extended.lines[|file.lines| - 1] == Garbage;
      } else {
        assert extended.lines[i] == file.lines[i];
      }
    }
  }

  /** No append puts an event into the journal other than its own. */
  lemma AppendAddsOnlyItsEvent(file: File, record: Record, write: Write, event: Event)
    requires file.Valid() && record.event != event && !HasEvent(file.lines, event)
    ensures !HasEvent(Append(file, record, write).lines, event)
  {
  }

  /** A completed append is visible to load, or load fails from then on. */
  lemma AppendShowsItsEvent(file: File, record: Record, write: Write)
    requires file.Valid() && write != Nothing
    ensures HasEvent(Append(file, record, write).lines, record.event) || Corrupt(Append(file, record, write))
  {
    var extended := Append(file, record, write);
    assert extended.lines[|extended.lines| - 1] in {Entry(record), Garbage};
  }

  lemma {:induction false} TerminalRecordsExist(records: seq<Record>)
    ensures TerminalRecords(records) != [] <==> exists i :: 0 <= i < |records| && records[i].event.AttemptTerminal?
  {
    if records != [] {
      var n := |records| - 1;
      TerminalRecordsExist(records[..n]);
      assert forall i :: 0 <= i < n ==> records[i] == records[..n][i];
      if i: nat :| i < n && records[i].event.AttemptTerminal? {
        assert records[..n][i].event.AttemptTerminal?;
      }
    }
  }

  /** In a journal that loads, load finds a terminal record exactly if a line shows one. */
  lemma TerminalRecordsShow(file: File)
    requires !Corrupt(file)
    ensures TerminalRecords(CleanPrefix(file.lines)) != [] <==> HasEvent(file.lines, AttemptTerminal)
  {
    var records := CleanPrefix(file.lines);
    TerminalRecordsExist(records);
    assert forall i :: 0 <= i < |records| ==> file.lines[i] == Entry(records[i]);
  }

  lemma {:induction false} CleanPrefixUnique(lines: seq<Line>, records: seq<Record>)
    requires |records| <= |lines| && forall i :: 0 <= i < |records| ==> lines[i] == Entry(records[i])
    requires |records| == |lines| || lines[|records|] == Garbage
    ensures CleanPrefix(lines) == records
  {
    if records != [] {
      assert lines[0] == Entry(records[0]);
      CleanPrefixUnique(lines[1..], records[1..]);
    }
  }

  lemma CleanPrefixOfClean(lines: seq<Line>, line: Line)
    requires Garbage !in lines
    ensures CleanPrefix(lines + [line]) ==
      if line.Entry? then CleanPrefix(lines) + [line.record] else CleanPrefix(lines)
  {
    CleanPrefixUnique(lines + [line], if line.Entry? then CleanPrefix(lines) + [line.record] else CleanPrefix(lines));
  }

  lemma {:induction false} AnchorAppend(records: seq<Record>, record: Record)
    ensures Anchor(records).Some? ==> Anchor(records + [record]) == Anchor(records)
    ensures Anchor(records).None? ==>
      Anchor(records + [record]) ==
        if record.event.MutationCompleted? || record.event.HealthStarted? then Some(record.timestamp) else None
  {
    if records == [] {
    } else {
      assert (records + [record])[1..] == records[1..] + [record];
      AnchorAppend(records[1..], record);
    }
  }

  lemma {:induction false} AnchorExists(records: seq<Record>, i: nat)
    requires i < |records| && (records[i].event.HealthStarted? || records[i].event.MutationCompleted?)
    ensures Anchor(records).Some?
  {
    if i > 0 {
      AnchorExists(records[1..], i - 1);
    }
  }
}
