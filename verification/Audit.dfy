/**
 The rotating audit log (internal/audit/audit.go).

 File 0 is the active log and file `i` is `<path>.i`. A file is the list of chunks
 appended to it: whole lines, and what is left of a line whose write failed.
 */
module Audit {
  import opened Wrappers

  type Files = map<nat, seq<string>>

  datatype Limits = Limits(maxBytes: nat, maxFiles: nat)

  /** What the operating system does to one call of Record. `torn` is how much a failing write still appends. */
  datatype Weather = Weather(
    cancelled: bool, openFails: bool, statFails: bool, closeFails: bool, renameFails: nat -> bool, truncateFails: bool,
    removeFails: bool, syncDirFails: bool, reopenFails: bool, torn: Option<nat>, syncFails: bool)

  function Size(chunks: seq<string>): nat {
    if chunks == [] then 0 else Size(chunks[..|chunks| - 1]) + |chunks[|chunks| - 1]|
  }

  function At(files: Files, i: nat): seq<string> {
    if i in files then files[i] else []
  }

  /** Reading from file `n` down to the active one. */
  function Read(files: Files, n: nat): seq<string> {
    if n == 0 then At(files, 0) else At(files, n) + Read(files, n - 1)
  }

  // ---------- Specification ----------

  /** The renames `.index` to `.index+1`, …, `.1` to `.2`; false if one of them fails. */
  function Shift(files: Files, index: nat, w: Weather): (Files, bool)
    decreases index
  {
    if index == 0 then (files, true)
    else if index !in files then Shift(files, index - 1, w)
    else if w.renameFails(index) then (files, false)
    else Shift(Without(files, index)[index + 1 := files[index]], index - 1, w)
  }

  /** The active log becomes `.1`, or is emptied when no rotated file is kept. */
  function Retire(files: Files, maxFiles: nat, w: Weather): (Files, bool) {
    if maxFiles == 0 then (if w.truncateFails || 0 !in files then (files, false) else (files[0 := []], true))
    else if 0 !in files then (files, true)
    else if w.renameFails(0) then (files, false)
    else (Without(files, 0)[1 := files[0]], true)
  }

  function Rotate(files: Files, maxFiles: nat, w: Weather): (Files, bool) {
    var (shifted, ok) := Shift(files, if maxFiles == 0 then 0 else maxFiles - 1, w);
    if !ok then (shifted, false)
    else
      var (retired, ok) := Retire(shifted, maxFiles, w);
      if !ok || (w.removeFails && maxFiles + 1 in retired) then (retired, false)
      else (Without(retired, maxFiles + 1), !w.syncDirFails)
  }

  function Touched(files: Files): Files {
    files[0 := At(files, 0)]
  }

  function Appended(files: Files, chunk: string): Files {
    files[0 := At(files, 0) + [chunk]]
  }

  /** The files, and everything ever appended. */
  datatype Log = Log(files: Files, history: seq<string>)

  predicate Overflows(l: Limits, files: Files, line: string) {
    Size(At(files, 0)) + |line| > l.maxBytes
  }

  /** What reaches the file: the line, or what a failing write still appends of it. */
  function ChunkOf(line: string, w: Weather): string {
    match w.torn case None => line case Some(n) => if n < |line| then line[..n] else line
  }

  function Write(log: Log, line: string, w: Weather): Log {
    var chunk := ChunkOf(line, w);
    Log(Appended(log.files, chunk), log.history + [chunk])
  }

  function AfterRecord(l: Limits, log: Log, line: string, w: Weather): Log {
    if |line| > l.maxBytes || w.cancelled || w.openFails then log
    else
      var ready := log.(files := Touched(log.files));
      if w.statFails || !Overflows(l, ready.files, line) then Write(ready, line, w)
      else if w.closeFails then ready
      else
        var (rotated, ok) := Rotate(ready.files, l.maxFiles, w);
        if !ok || w.reopenFails then Log(rotated, log.history)
        else Write(Log(Touched(rotated), log.history), line, w)
  }

  /** No call fails. */
  ghost predicate Calm(w: Weather) {
    && !w.cancelled && !w.openFails && !w.closeFails && !w.truncateFails && !w.removeFails && !w.syncDirFails
    && !w.reopenFails && w.torn == None && !w.syncFails && forall i: nat :: !w.renameFails(i)
  }

  // ---------- The window ----------

  ghost predicate Suffix(s: seq<string>, whole: seq<string>) {
    |s| <= |whole| && s == whole[|whole| - |s|..]
  }

  lemma SuffixTransitive(a: seq<string>, b: seq<string>, c: seq<string>)
    requires Suffix(a, b) && Suffix(b, c)
    ensures Suffix(a, c)
  {
  }

  lemma {:induction false} ReadFrame(files: Files, files': Files, n: nat)
    requires forall i: nat | i <= n :: At(files', i) == At(files, i)
    ensures Read(files', n) == Read(files, n)
  {
    if n > 0 {
      ReadFrame(files, files', n - 1);
    }
  }

  function Below(files: Files, i: nat): seq<string> {
    if i == 0 then [] else Read(files, i - 1)
  }

  lemma ReadSplits(files: Files, i: nat)
    ensures Read(files, i) == At(files, i) + Below(files, i)
  {
  }

  /** Moving one file up over an empty slot changes nothing for a reader; over the last slot it drops that file. */
  lemma {:induction false} MoveUpReads(files: Files, i: nat, n: nat)
    requires i < n && i in files && (i + 1 < n ==> i + 1 !in files)
    ensures var moved := Without(files, i)[i + 1 := files[i]];
            && (i + 1 < n ==> Read(moved, n) == Read(files, n))
            && (i + 1 == n ==> At(files, n) + Read(moved, n) == Read(files, n))
  {
    var moved := Without(files, i)[i + 1 := files[i]];
    MovedPair(files, moved, i);
    if i + 1 < n {
      ReadAlike(files, moved, i + 1, n);
    }
  }

  lemma MovedPair(files: Files, moved: Files, i: nat)
    requires i in files && moved == Without(files, i)[i + 1 := files[i]]
    ensures At(files, i + 1) + Read(moved, i + 1) == Read(files, i + 1)
  {
    ReadSplits(files, i);
    ReadSplits(moved, i);
    if i > 0 {
      ReadFrame(files, moved, i - 1);
    }
    assert Below(moved, i) == Below(files, i);
    assert At(moved, i + 1) == files[i] && At(moved, i) == [];
    hide Read;
    assert Read(moved, i) == Below(files, i);
    assert Read(moved, i + 1) == files[i] + Read(moved, i) by {
      ReadSplits(moved, i + 1);
    }
    ReadSplits(files, i + 1);
  }

  lemma {:induction false} ReadAlike(files: Files, files': Files, m: nat, n: nat)
    requires m <= n && Read(files', m) == Read(files, m) && forall i: nat | m < i <= n :: At(files', i) == At(files, i)
    ensures Read(files', n) == Read(files, n)
  {
    if m < n {
      ReadAlike(files, files', m, n - 1);
    }
  }

  lemma MoveUpKeepsSuffix(files: Files, i: nat, n: nat)
    requires i < n && i in files && (i + 1 < n ==> i + 1 !in files)
    ensures Suffix(Read(Without(files, i)[i + 1 := files[i]], n), Read(files, n))
  {
    MoveUpReads(files, i, n);
  }

  /** However far the renames get, what is read is a suffix of what was read before. */
  lemma {:induction false} ShiftKeepsSuffix(files: Files, index: nat, n: nat, w: Weather)
    requires index < n && (index + 1 < n ==> index + 1 !in files)
    ensures Suffix(Read(Shift(files, index, w).0, n), Read(files, n))
    ensures Shift(files, index, w).1 && 1 < n ==> 1 !in Shift(files, index, w).0
    decreases index
  {
    if index > 0 && index !in files {
      ShiftKeepsSuffix(files, index - 1, n, w);
    } else if index > 0 && !w.renameFails(index) {
      var moved := Without(files, index)[index + 1 := files[index]];
      MoveUpKeepsSuffix(files, index, n);
      ShiftKeepsSuffix(moved, index - 1, n, w);
      SuffixTransitive(Read(Shift(files, index, w).0, n), Read(moved, n), Read(files, n));
    }
  }

  lemma RetireKeepsSuffix(files: Files, maxFiles: nat, w: Weather)
    requires 1 < maxFiles ==> 1 !in files
    ensures Suffix(Read(Retire(files, maxFiles, w).0, maxFiles), Read(files, maxFiles))
  {
    if 0 < maxFiles && 0 in files && !w.renameFails(0) {
      MoveUpKeepsSuffix(files, 0, maxFiles);
    }
  }

  lemma NothingToShift(files: Files, w: Weather)
    ensures Shift(files, 0, w) == (files, true) && Suffix(Read(files, 0), Read(files, 0))
  {
  }

  lemma RetireKeepsKeys(files: Files, maxFiles: nat, w: Weather)
    requires forall i <- files :: i <= maxFiles
    ensures forall i <- Retire(files, maxFiles, w).0 :: i <= maxFiles
  {
  }

  lemma RotateKeepsSuffix(files: Files, maxFiles: nat, w: Weather)
    requires forall i <- files :: i <= maxFiles
    ensures Suffix(Read(Rotate(files, maxFiles, w).0, maxFiles), Read(files, maxFiles))
    ensures forall i <- Rotate(files, maxFiles, w).0 :: i <= maxFiles
  {
    hide Shift, Read, Retire, Suffix;
    var index := if maxFiles == 0 then 0 else maxFiles - 1;
    var (shifted, ok) := Shift(files, index, w);
    if maxFiles == 0 {
      NothingToShift(files, w);
    } else {
      ShiftKeepsSuffix(files, index, maxFiles, w);
      ShiftKeepsKeys(files, index, maxFiles, w);
    }
    if ok {
      var (retired, _) := Retire(shifted, maxFiles, w);
      RetireKeepsSuffix(shifted, maxFiles, w);
      RetireKeepsKeys(shifted, maxFiles, w);
      SuffixTransitive(Read(retired, maxFiles), Read(shifted, maxFiles), Read(files, maxFiles));
      ReadFrame(retired, Without(retired, maxFiles + 1), maxFiles);
    }
  }

  lemma {:induction false} ShiftKeepsKeys(files: Files, index: nat, maxFiles: nat, w: Weather)
    requires index < maxFiles && forall i <- files :: i <= maxFiles
    ensures forall i <- Shift(files, index, w).0 :: i <= maxFiles
    decreases index
  {
    if index > 0 {
      if index !in files {
        ShiftKeepsKeys(files, index - 1, maxFiles, w);
      } else if !w.renameFails(index) {
        ShiftKeepsKeys(Without(files, index)[index + 1 := files[index]], index - 1, maxFiles, w);
      }
    }
  }

  /** What may be read is a suffix of all that was ever appended, in at most maxFiles + 1 files. */
  ghost predicate Windowed(l: Limits, log: Log) {
    Suffix(Read(log.files, l.maxFiles), log.history) && forall i <- log.files :: i <= l.maxFiles
  }

  lemma {:induction false} AppendReads(files: Files, chunk: string, n: nat)
    ensures Read(Appended(files, chunk), n) == Read(files, n) + [chunk]
    ensures Read(Touched(files), n) == Read(files, n)
  {
    if n > 0 {
      AppendReads(files, chunk, n - 1);
      assert At(files, n) + (Read(files, n - 1) + [chunk]) == At(files, n) + Read(files, n - 1) + [chunk];
    }
  }

  lemma WriteKeepsWindow(l: Limits, log: Log, line: string, w: Weather)
    requires Windowed(l, log)
    ensures Windowed(l, Write(log, line, w))
  {
    AppendReads(log.files, Write(log, line, w).history[|log.history|], l.maxFiles);
  }

  lemma RecordKeepsWindow(l: Limits, log: Log, line: string, w: Weather)
    requires Windowed(l, log)
    ensures Windowed(l, AfterRecord(l, log, line, w))
  {
    var ready := log.(files := Touched(log.files));
    AppendReads(log.files, line, l.maxFiles);
    if w.statFails || !Overflows(l, ready.files, line) {
      WriteKeepsWindow(l, ready, line, w);
    } else {
      var rotated := Rotate(ready.files, l.maxFiles, w).0;
      RotateKeepsSuffix(ready.files, l.maxFiles, w);
      SuffixTransitive(Read(rotated, l.maxFiles), Read(ready.files, l.maxFiles), log.history);
      AppendReads(rotated, line, l.maxFiles);
      WriteKeepsWindow(l, Log(Touched(rotated), log.history), line, w);
    }
  }

  // ---------- Sizes ----------

  ghost predicate Bounded(l: Limits, files: Files) {
    forall i <- files :: Size(files[i]) <= l.maxBytes
  }

  /** An append within the limit, whole or torn, stays within it. */
  lemma WriteKeepsBound(l: Limits, log: Log, line: string, w: Weather)
    requires Bounded(l, log.files) && !Overflows(l, log.files, line)
    ensures Bounded(l, Write(log, line, w).files)
  {
    var files' := Write(log, line, w).files;
    assert files'[0][..|files'[0]| - 1] == At(log.files, 0);
  }

  lemma {:induction false} ShiftKeepsBound(l: Limits, files: Files, index: nat, w: Weather)
    requires Bounded(l, files)
    ensures Bounded(l, Shift(files, index, w).0)
    ensures At(Shift(files, index, w).0, 0) == At(files, 0)
    decreases index
  {
    if index > 0 {
      if index !in files {
        ShiftKeepsBound(l, files, index - 1, w);
      } else if !w.renameFails(index) {
        ShiftKeepsBound(l, Without(files, index)[index + 1 := files[index]], index - 1, w);
      }
    }
  }

  lemma RotateKeepsBound(l: Limits, files: Files, w: Weather)
    requires Bounded(l, files)
    ensures Bounded(l, Rotate(files, l.maxFiles, w).0)
    ensures Rotate(files, l.maxFiles, w).1 ==> At(Rotate(files, l.maxFiles, w).0, 0) == []
  {
    ShiftKeepsBound(l, files, if l.maxFiles == 0 then 0 else l.maxFiles - 1, w);
  }

  /** Every file stays within maxBytes, as long as the size of the active one can be read. */
  lemma RecordKeepsBound(l: Limits, log: Log, line: string, w: Weather)
    requires Bounded(l, log.files) && !w.statFails
    ensures Bounded(l, AfterRecord(l, log, line, w).files)
  {
    var ready := log.(files := Touched(log.files));
    if |line| <= l.maxBytes {
      if !Overflows(l, ready.files, line) {
        WriteKeepsBound(l, ready, line, w);
      } else {
        RotateKeepsBound(l, ready.files, w);
        if Rotate(ready.files, l.maxFiles, w).1 {
          WriteKeepsBound(l, Log(Touched(Rotate(ready.files, l.maxFiles, w).0), log.history), line, w);
        }
      }
    }
  }

  /** If its size cannot be read the log is not rotated, and the active file may outgrow the limit:
      exactly when the chunk that reaches it does not fit. */
  lemma StatFailureOverflowsIff(l: Limits, log: Log, line: string, w: Weather)
    requires Bounded(l, log.files) && w.statFails && !w.cancelled && !w.openFails && |line| <= l.maxBytes
    ensures Bounded(l, AfterRecord(l, log, line, w).files)
            <==> Size(At(log.files, 0)) + |ChunkOf(line, w)| <= l.maxBytes
  {
    var ready := log.(files := Touched(log.files));
    var files' := Write(ready, line, w).files;
    assert files'[0][..|files'[0]| - 1] == At(log.files, 0);
    assert Size(files'[0]) == Size(At(log.files, 0)) + |ChunkOf(line, w)|;
  }

  // ---------- Any number of records ----------

  datatype Entry = Entry(line: string, weather: Weather)

  function After(l: Limits, log: Log, entries: seq<Entry>): Log {
    if entries == [] then log
    else
      var last := entries[|entries| - 1];
      AfterRecord(l, After(l, log, entries[..|entries| - 1]), last.line, last.weather)
  }

  /** After any sequence of records, whatever fails: reading `.maxFiles` down to `.1` and then the active file
      yields a suffix, in order, of all appended events; and the bound holds as long as sizes can be read. */
  lemma {:induction false} WindowInAnyRun(l: Limits, log: Log, entries: seq<Entry>)
    requires Windowed(l, log)
    ensures Windowed(l, After(l, log, entries))
    ensures Bounded(l, log.files) && (forall e <- entries :: !e.weather.statFails) ==>
              Bounded(l, After(l, log, entries).files)
  {
    if entries != [] {
      var front, last := entries[..|entries| - 1], entries[|entries| - 1];
      WindowInAnyRun(l, log, front);
      assert entries == front + [last];
      RecordKeepsWindow(l, After(l, log, front), last.line, last.weather);
      if Bounded(l, log.files) && forall e <- entries :: !e.weather.statFails {
        assert last in entries && forall e <- front :: e in entries;
        RecordKeepsBound(l, After(l, log, front), last.line, last.weather);
      }
    }
  }

  lemma {:induction false} CalmShift(files: Files, index: nat, w: Weather)
    requires Calm(w)
    ensures Shift(files, index, w).1 && (0 in files ==> 0 in Shift(files, index, w).0)
    ensures At(Shift(files, index, w).0, 0) == At(files, 0)
    decreases index
  {
    if index > 0 {
      CalmShift(if index in files then Without(files, index)[index + 1 := files[index]] else files, index - 1, w);
    }
  }

  lemma CalmRotation(files: Files, maxFiles: nat, w: Weather)
    requires Calm(w) && 0 in files
    ensures Rotate(files, maxFiles, w).1 && At(Rotate(files, maxFiles, w).0, 0) == []
  {
    CalmShift(files, if maxFiles == 0 then 0 else maxFiles - 1, w);
  }

  lemma {:induction false} ShiftedMeans(files: Files, index: nat, w: Weather, i: nat)
    requires Shift(files, index, w).1 && 1 <= i <= index && i in files
    ensures !w.renameFails(i)
    decreases index
  {
    if i < index {
      ShiftedMeans(if index in files then Without(files, index)[index + 1 := files[index]] else files, index - 1, w, i);
    }
  }

  /** A rotation that reports success has met no failing call: each file that was there could be renamed, or the active
      one truncated, no file is left beyond the last one kept, and the directory is synced. */
  lemma RotatedMeans(files: Files, maxFiles: nat, w: Weather, i: nat)
    requires Rotate(files, maxFiles, w).1
    ensures maxFiles + 1 !in Rotate(files, maxFiles, w).0 && !w.syncDirFails
    ensures 1 <= i < maxFiles && i in files ==> !w.renameFails(i)
    ensures maxFiles > 0 && 0 in files ==> !w.renameFails(0)
    ensures maxFiles == 0 ==> !w.truncateFails && 0 in files
  {
    if 1 <= i < maxFiles && i in files {
      ShiftedMeans(files, maxFiles - 1, w, i);
    }
    if 0 < maxFiles {
      ShiftKeepsActive(files, maxFiles - 1, w);
    }
  }

  lemma {:induction false} ShiftKeepsActive(files: Files, index: nat, w: Weather)
    ensures 0 in Shift(files, index, w).0 <==> 0 in files
    decreases index
  {
    if index > 0 && (index !in files || !w.renameFails(index)) {
      var next := if index in files then Without(files, index)[index + 1 := files[index]] else files;
      ShiftKeepsActive(next, index - 1, w);
    }
  }

  lemma CalmRotates(files: Files, maxFiles: nat, w: Weather)
    ensures Calm(w) && 0 in files ==> Rotate(files, maxFiles, w).1
  {
    if Calm(w) && 0 in files {
      CalmRotation(files, maxFiles, w);
    }
  }

  /** If nothing fails an event that fits is kept: it becomes the end of the active file, beside what is there as long
      as that fits, and otherwise alone in a new one. No other file changes without need. */
  lemma CalmRecordIsKept(l: Limits, log: Log, line: string, w: Weather)
    requires Calm(w) && |line| <= l.maxBytes
    ensures var after := AfterRecord(l, log, line, w);
            && after.history == log.history + [line]
            && (!w.statFails && Size(At(log.files, 0)) + |line| > l.maxBytes ==> At(after.files, 0) == [line])
            && (w.statFails || Size(At(log.files, 0)) + |line| <= l.maxBytes ==>
                  after.files == log.files[0 := At(log.files, 0) + [line]])
  {
    var ready := log.(files := Touched(log.files));
    CalmRotation(ready.files, l.maxFiles, w);
    hide Rotate;
  }

  /** A record that is written whole is the last thing a reader sees. */
  lemma RecordedIsLast(l: Limits, log: Log, line: string, w: Weather)
    requires AfterRecord(l, log, line, w).history == log.history + [line]
    ensures var read := Read(AfterRecord(l, log, line, w).files, l.maxFiles);
            read != [] && read[|read| - 1] == line
  {
    var ready := log.(files := Touched(log.files));
    if w.statFails || !Overflows(l, ready.files, line) {
      LastWritten(l, ready, line, w);
    } else {
      LastWritten(l, Log(Touched(Rotate(ready.files, l.maxFiles, w).0), log.history), line, w);
    }
  }

  lemma LastWritten(l: Limits, log: Log, line: string, w: Weather)
    requires Write(log, line, w).history == log.history + [line]
    ensures var read := Read(Write(log, line, w).files, l.maxFiles);
            read != [] && read[|read| - 1] == line
  {
    var chunk := Write(log, line, w).history[|log.history|];
    assert chunk == line;
    AppendReads(log.files, chunk, l.maxFiles);
  }

  /** A rotation that goes through loses the oldest kept file and nothing else. */
  lemma RotationLosesOldestOnly(files: Files, maxFiles: nat, w: Weather)
    requires 0 < maxFiles && (forall i <- files :: i <= maxFiles) && Rotate(files, maxFiles, w).1
    ensures Read(Rotate(files, maxFiles, w).0, maxFiles) == Read(files, maxFiles)
            || At(files, maxFiles) + Read(Rotate(files, maxFiles, w).0, maxFiles) == Read(files, maxFiles)
  {
    hide Shift, Read, Retire, Suffix;
    var (shifted, _) := Shift(files, maxFiles - 1, w);
    ShiftKeepsSuffix(files, maxFiles - 1, maxFiles, w);
    ShiftLosesLastOnly(files, maxFiles - 1, maxFiles, w);
    var (retired, _) := Retire(shifted, maxFiles, w);
    RetireLosesLastOnly(shifted, maxFiles, w);
    ReadFrame(retired, Without(retired, maxFiles + 1), maxFiles);
    if maxFiles == 1 {
      NothingToShift(files, w);
    }
  }

  lemma RetireLosesLastOnly(files: Files, maxFiles: nat, w: Weather)
    requires 0 < maxFiles && (1 < maxFiles ==> 1 !in files)
    ensures var retired := Retire(files, maxFiles, w).0;
            Read(retired, maxFiles) == Read(files, maxFiles)
            || (maxFiles == 1 && At(files, 1) + Read(retired, 1) == Read(files, 1))
  {
    if 0 in files {
      MoveUpReads(files, 0, maxFiles);
    }
  }

  lemma {:induction false} ShiftLosesLastOnly(files: Files, index: nat, n: nat, w: Weather)
    requires index < n && (index + 1 < n ==> index + 1 !in files)
    ensures Read(Shift(files, index, w).0, n) == Read(files, n)
            || (index + 1 == n && At(files, n) + Read(Shift(files, index, w).0, n) == Read(files, n))
    decreases index
  {
    if index > 0 && index !in files {
      ShiftLosesLastOnly(files, index - 1, n, w);
    } else if index > 0 && !w.renameFails(index) {
      MoveUpReads(files, index, n);
      ShiftLosesLastOnly(Without(files, index)[index + 1 := files[index]], index - 1, n, w);
    }
  }

  // ---------- The logger ----------

  datatype Reply = Recorded | TooLarge | Failed

  class Logger {
    const limits: Limits
    var files: Files
    ghost var history: seq<string>

    ghost function State(): Log
      reads this
    {
      Log(files, history)
    }

    /** `New` creates the active file unless there is a log already; its history is then what can be read of it. */
    constructor (limits: Limits, existing: Files)
      ensures this.limits == limits && State() == Log(Touched(existing), Read(existing, limits.maxFiles))
      ensures (forall i <- existing :: i <= limits.maxFiles) ==> Windowed(limits, State())
      ensures Bounded(limits, existing) ==> Bounded(limits, files)
    {
      this.limits, files, history := limits, existing[0 := At(existing, 0)], Read(existing, limits.maxFiles);
      new;
      AppendReads(existing, "", limits.maxFiles);
    }

    method Record(line: string, w: Weather) returns (reply: Reply)
      modifies this
      ensures State() == AfterRecord(limits, old(State()), line, w)
      ensures reply.Recorded? ==> history == old(history) + [line]
      ensures reply.TooLarge? <==> |line| > limits.maxBytes
      ensures reply.Recorded? <==> |history| > |old(history)| && w.torn == None && !w.syncFails
      ensures Calm(w) && |line| <= limits.maxBytes ==> reply.Recorded?
    {
      if |line| > limits.maxBytes {
        return TooLarge;
      }
      if w.cancelled || w.openFails {
        return Failed;
      }
      files := files[0 := At(files, 0)];
      if !w.statFails && Size(files[0]) + |line| > limits.maxBytes {
        if w.closeFails {
          return Failed;
        }
        CalmRotates(files, limits.maxFiles, w);
        var ok := RotateFiles(w);
        if !ok || w.reopenFails {
          return Failed;
        }
        files := files[0 := At(files, 0)];
      }
      var chunk := ChunkOf(line, w);
      files := files[0 := files[0] + [chunk]];
      history := history + [chunk];
      reply := if w.torn.Some? || w.syncFails then Failed else Recorded;
    }

    method RotateFiles(w: Weather) returns (ok: bool)
      modifies `files
      ensures (files, ok) == Rotate(old(files), limits.maxFiles, w)
    {
      var index := if limits.maxFiles == 0 then 0 else limits.maxFiles - 1;
      while index >= 1
        invariant 0 <= index
        invariant Shift(files, index, w)
                  == Shift(old(files), if limits.maxFiles == 0 then 0 else limits.maxFiles - 1, w)
      {
        if index in files {
          if w.renameFails(index) {
            return false;
          }
          files := Without(files, index)[index + 1 := files[index]];
        }
        index := index - 1;
      }
      if limits.maxFiles > 0 {
        if 0 in files {
          if w.renameFails(0) {
            return false;
          }
          files := Without(files, 0)[1 := files[0]];
        }
      } else {
        if w.truncateFails || 0 !in files {
          return false;
        }
        files := files[0 := []];
      }
      if limits.maxFiles + 1 in files {
        if w.removeFails {
          return false;
        }
      }
      files := Without(files, limits.maxFiles + 1);
      return !w.syncDirFails;
    }
  }
}
