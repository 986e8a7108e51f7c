/** The idempotency store (internal/command/file_store.go). */
module FileStore {
  import opened Wrappers
  import D = Durable
  import opened StoreFile

  /** `createdAt` is a clock reading; 0 is Go's zero time. */
  datatype Result = Result(commandID: string, status: string, output: string, timedOut: bool, createdAt: int,
                           tombstone: bool)

  type Results = map<string, Result>

  datatype Limits = Limits(maxEntries: nat, maxBytes: nat)

  datatype Cause = ResultTooLarge | ResultLimit

  datatype Reply = Saved | Refused(cause: Cause) | WriteFailed(committed: bool)

  // ---------- Specification ----------

  ghost function LiveKeys(results: Results): set<string> {
    set k | k in results && !results[k].tombstone
  }

  function Stamped(result: Result, now: int): Result {
    if result.createdAt == 0 then result.(createdAt := now) else result
  }

  function Explanation(cause: Cause): string {
    match cause
    case ResultTooLarge => "{\"error\":\"command result exceeds configured size limit\"}"
    case ResultLimit => "{\"error\":\"command result retention limit reached\"}"
  }

  function Tombstone(key: string, createdAt: int, cause: Cause): Result {
    Result(key, "failed", Explanation(cause), false, createdAt, true)
  }

  /** What `Save` decides to write, before any write: nothing, the result, or a tombstone in its place. */
  datatype Plan = Drop | Keep(results: Results) | Bury(results: Results, cause: Cause)

  ghost function PlanFor(c: Codec<Results>, l: Limits, results: Results, key: string, result: Result): Plan {
    var kept := results[key := result];
    if |c.encode(map[key := result])| > l.maxBytes then Drop
    else if |LiveKeys(kept)| > l.maxEntries then
      Bury(results[key := Tombstone(key, result.createdAt, ResultLimit)], ResultLimit)
    else if |c.encode(kept)| > l.maxBytes then
      Bury(results[key := Tombstone(key, result.createdAt, ResultTooLarge)], ResultTooLarge)
    else Keep(kept)
  }

  /** Memory, and the image of the file behind it. */
  datatype Mirror = Mirror(memory: Results, file: Image<Results>)

  /** Memory follows the file: it takes the new value exactly when the rename happened. */
  function Wrote(m: Mirror, results: Results, outcome: D.Outcome): Mirror {
    Mirror(if outcome.NotCommitted? then m.memory else results, Rewritten(m.file, results, outcome))
  }

  ghost function SaveMirror(m: Mirror, plan: Plan, outcome: D.Outcome): Mirror {
    if plan.Drop? then m else Wrote(m, plan.results, outcome)
  }

  ghost function SaveReply(plan: Plan, outcome: D.Outcome): Reply {
    match plan
    case Drop => Refused(ResultTooLarge)
    case Keep(_) => if outcome.Written? then Saved else WriteFailed(outcome.Committed?)
    case Bury(_, cause) => if outcome.Written? then Refused(cause) else WriteFailed(outcome.Committed?)
  }

  ghost predicate InStep(m: Mirror) {
    m.memory == m.file.visible
  }

  /** Every state a crash may leave holds a record for `key`. */
  ghost predicate Recorded(m: Mirror, key: string) {
    key in m.memory && forall results <- m.file.crash :: key in results
  }

  // ---------- Properties ----------

  /** Memory equals the visible file after any save or reset, under all three outcomes. */
  lemma MemoryEqualsDisk(m: Mirror, plan: Plan, outcome: D.Outcome, results: Results)
    requires InStep(m)
    ensures InStep(SaveMirror(m, plan, outcome))
    ensures InStep(Wrote(m, results, outcome))
  {
  }

  /** A save never loses another key, not even after a crash. */
  lemma SaveKeepsOtherRecords(c: Codec<Results>, l: Limits, m: Mirror, key: string, result: Result,
      outcome: D.Outcome, other: string)
    requires Recorded(m, other)
    ensures Recorded(SaveMirror(m, PlanFor(c, l, m.memory, key, result), outcome), other)
    ensures other != key ==>
              SaveMirror(m, PlanFor(c, l, m.memory, key, result), outcome).memory[other] == m.memory[other]
  {
  }

  /** A save that returns nil or stores a tombstone leaves a record that survives any crash. */
  lemma SuccessfulSaveRecords(c: Codec<Results>, l: Limits, m: Mirror, key: string, result: Result, outcome: D.Outcome)
    requires outcome.Written? && !PlanFor(c, l, m.memory, key, result).Drop?
    ensures Recorded(SaveMirror(m, PlanFor(c, l, m.memory, key, result), outcome), key)
  {
  }

  /** After a save that returned nil, reading the key gives back the caller's result, in this process and after any
      crash; only a missing time has been filled in. */
  lemma SavedIsReadBack(c: Codec<Results>, l: Limits, m: Mirror, key: string, result: Result, now: int,
      outcome: D.Outcome)
    requires SaveReply(PlanFor(c, l, m.memory, key, Stamped(result, now)), outcome) == Saved
    ensures var after := SaveMirror(m, PlanFor(c, l, m.memory, key, Stamped(result, now)), outcome);
            var kept := result.(createdAt := if result.createdAt != 0 then result.createdAt else now);
            && Lookup(after.memory, key) == Some(kept)
            && forall results <- after.file.crash :: Lookup(results, key) == Some(kept)
  {
  }

  /** The result fits by itself, and the map with it fits both limits. */
  ghost predicate FitsIn(c: Codec<Results>, l: Limits, results: Results, key: string, result: Result) {
    && |c.encode(map[key := result])| <= l.maxBytes
    && |LiveKeys(results[key := result])| <= l.maxEntries
    && |c.encode(results[key := result])| <= l.maxBytes
  }

  /** What Save answers: nil exactly if the result fits every limit and the write went through; a write error only
      after a failed write; and a limit that is exceeded by its own name. */
  lemma SaveReplyIff(c: Codec<Results>, l: Limits, m: Mirror, key: string, result: Result, outcome: D.Outcome)
    ensures var reply := SaveReply(PlanFor(c, l, m.memory, key, result), outcome);
            var alone := |c.encode(map[key := result])| <= l.maxBytes;
            var crowded := |LiveKeys(m.memory[key := result])| > l.maxEntries;
            && (reply == Saved <==> FitsIn(c, l, m.memory, key, result) && outcome.Written?)
            && (reply.WriteFailed? <==> alone && !outcome.Written?)
            && (reply.WriteFailed? ==> reply.committed == outcome.Committed?)
            && (reply == Refused(ResultLimit) <==> alone && crowded && outcome.Written?)
  {
  }

  /** A result that is refused though it fits by itself leaves a failed tombstone of its own key and time, also after
      any crash; one that is saved keeps the map within both limits. */
  lemma RefusedIsBuried(c: Codec<Results>, l: Limits, m: Mirror, key: string, result: Result, outcome: D.Outcome)
    ensures var reply := SaveReply(PlanFor(c, l, m.memory, key, result), outcome);
            var after := SaveMirror(m, PlanFor(c, l, m.memory, key, result), outcome);
            && (reply.Refused? && |c.encode(map[key := result])| <= l.maxBytes ==>
                  && key in after.memory && after.memory[key].tombstone && after.memory[key].commandID == key
                  && after.memory[key].status == "failed" && after.memory[key].createdAt == result.createdAt
                  && !after.memory[key].timedOut
                  && forall results <- after.file.crash :: Lookup(results, key) == Lookup(after.memory, key))
            && (reply == Saved ==> |LiveKeys(after.memory)| <= l.maxEntries && |c.encode(after.memory)| <= l.maxBytes)
  {
  }

  /** A key without a record gets one in memory exactly if its result fits by itself and the rename happens. */
  lemma SaveRecordsIff(c: Codec<Results>, l: Limits, m: Mirror, key: string, result: Result, outcome: D.Outcome)
    requires key !in m.memory
    ensures key in SaveMirror(m, PlanFor(c, l, m.memory, key, result), outcome).memory
            <==> |c.encode(map[key := result])| <= l.maxBytes && !outcome.NotCommitted?
  {
  }

  /** docs/reliability.md promises a tombstone whenever a limit would be exceeded. The source keeps
      none for a result that is too large by itself: here, any limit smaller than the encoding. */
  lemma OversizedResultLeavesNoTombstone(c: Codec<Results>, key: string, result: Result, outcome: D.Outcome)
    requires |c.encode(map[key := result])| > 0
    ensures var l := Limits(10000, |c.encode(map[key := result])| - 1);
            var m := Mirror(map[], Image(map[], {map[]}));
            var plan := PlanFor(c, l, m.memory, key, result);
            SaveReply(plan, outcome) == Refused(ResultTooLarge) && SaveMirror(m, plan, outcome) == m
  {
  }

  /** The live entries never exceed the limit, whatever is saved. */
  lemma SaveKeepsEntryLimit(c: Codec<Results>, l: Limits, m: Mirror, key: string, result: Result, outcome: D.Outcome)
    requires |LiveKeys(m.memory)| <= l.maxEntries
    ensures |LiveKeys(SaveMirror(m, PlanFor(c, l, m.memory, key, result), outcome).memory)| <= l.maxEntries
  {
    var plan := PlanFor(c, l, m.memory, key, result);
    if plan.Bury? {
      BuryingAddsNoLiveKey(m.memory, key, plan.results[key]);
    }
  }

  lemma BuryingAddsNoLiveKey(results: Results, key: string, tombstone: Result)
    requires tombstone.tombstone
    ensures LiveKeys(results[key := tombstone]) == LiveKeys(results) - {key}
    ensures |LiveKeys(results[key := tombstone])| <= |LiveKeys(results)|
  {
    var after := LiveKeys(results[key := tombstone]);
    assert after == LiveKeys(results) - {key};
  }

  // ---------- The store ----------

  class Store {
    const fs: D.FileSystem
    const path: D.Name
    const codec: Codec<Results>
    const limits: Limits
    var results: Results
    ghost var image: Image<Results>

    ghost predicate Valid()
      reads this, fs
    {
      RoundTrips(codec) && Shows(fs.disk, path, codec, image) && results == image.visible
    }

    ghost function State(): Mirror
      reads this
    {
      Mirror(results, image)
    }

    constructor (fs: D.FileSystem, path: D.Name, codec: Codec<Results>, limits: Limits, results: Results,
        ghost image: Image<Results>)
      requires RoundTrips(codec) && Shows(fs.disk, path, codec, image) && results == image.visible
      ensures this.fs == fs && this.path == path && this.codec == codec && this.limits == limits
      ensures Valid() && State() == Mirror(results, image)
    {
      this.fs, this.path, this.codec, this.limits := fs, path, codec, limits;
      this.results, this.image := results, image;
    }

    method Get(key: string) returns (found: Option<Result>)
      ensures found == Lookup(results, key)
    {
      found := Lookup(results, key);
    }

    method Save(key: string, result: Result, now: int, weather: D.Weather) returns (reply: Reply)
      requires Valid()
      modifies this, fs
      ensures Valid()
      ensures var plan := PlanFor(codec, limits, old(results), key, Stamped(result, now));
              var outcome := D.ExpectedOutcome(old(fs.disk), weather);
              State() == SaveMirror(old(State()), plan, outcome) && reply == SaveReply(plan, outcome)
    {
      var previous := results;
      var stamped := if result.createdAt == 0 then result.(createdAt := now) else result;
      results := results[key := stamped];
      if |codec.encode(map[key := stamped])| > limits.maxBytes {
        results := previous;
        return Refused(ResultTooLarge);
      }
      var live := LiveResultCount(results);
      if live > limits.maxEntries {
        reply := SaveTombstone(key, stamped.createdAt, previous, ResultLimit, weather);
        return;
      }
      if |codec.encode(results)| > limits.maxBytes {
        reply := SaveTombstone(key, stamped.createdAt, previous, ResultTooLarge, weather);
        return;
      }
      var outcome := Persist(fs, path, codec, results, weather, image);
      image := Rewritten(image, results, outcome);
      if !outcome.Written? {
        if !outcome.Committed? {
          results := previous;
        }
        return WriteFailed(outcome.Committed?);
      }
      return Saved;
    }

    method SaveTombstone(key: string, createdAt: int, previous: Results, cause: Cause,
        weather: D.Weather) returns (reply: Reply)
      requires RoundTrips(codec) && Shows(fs.disk, path, codec, image)
      requires previous == image.visible && key in results && results == previous[key := results[key]]
      modifies this, fs
      ensures Valid()
      ensures var buried := previous[key := Tombstone(key, createdAt, cause)];
              var outcome := D.ExpectedOutcome(old(fs.disk), weather);
              && State() == Wrote(Mirror(previous, old(image)), buried, outcome)
              && reply == if outcome.Written? then Refused(cause) else WriteFailed(outcome.Committed?)
    {
      results := results[key := Tombstone(key, createdAt, cause)];
      assert results == previous[key := Tombstone(key, createdAt, cause)];
      var outcome := Persist(fs, path, codec, results, weather, image);
      image := Rewritten(image, results, outcome);
      if !outcome.Written? {
        if !outcome.Committed? {
          results := previous;
        }
        return WriteFailed(outcome.Committed?);
      }
      return Refused(cause);
    }

    method Reset(weather: D.Weather) returns (outcome: D.Outcome)
      requires Valid()
      modifies this, fs
      ensures Valid()
      ensures outcome == D.ExpectedOutcome(old(fs.disk), weather)
      ensures State() == Wrote(old(State()), map[], outcome)
    {
      var previous := results;
      results := map[];
      outcome := Persist(fs, path, codec, results, weather, image);
      image := Rewritten(image, results, outcome);
      if outcome.NotCommitted? {
        results := previous;
      }
    }
  }

  method LiveResultCount(results: Results) returns (count: nat)
    ensures count == |LiveKeys(results)|
  {
    count := 0;
    var rest := results.Keys;
    ghost var seen: set<string> := {};
    while rest != {}
      invariant rest <= results.Keys
      invariant seen == LiveKeys(results) - rest
      invariant count == |seen|
      decreases rest
    {
      var k :| k in rest;
      rest := rest - {k};
      if !results[k].tombstone {
        count := count + 1;
        seen := seen + {k};
      }
    }
    assert seen == LiveKeys(results);
  }

  // ---------- Opening ----------

  /** What `NewFileStore` makes of the bytes it finds; without a file it starts empty. */
  ghost function Opened(c: Codec<Results>, l: Limits, found: Option<D.Bytes>): Option<Results> {
    match found
    case None => Some(c.empty)
    case Some(bytes) =>
      match c.decode(bytes)
      case None => None
      case Some(results) =>
        if |LiveKeys(results)| > l.maxEntries || |c.encode(results)| > l.maxBytes then None else Some(results)
  }

  /** Whether the bytes found are the ones this program would write, so that opening leaves them alone. */
  predicate Canonical(c: Codec<Results>, found: Option<D.Bytes>, results: Results) {
    found == None || found == Some(c.encode(results))
  }

  /** What was saved opens again exactly if it is within both limits, and as it is; so it does after every save. */
  lemma ReopensIff(c: Codec<Results>, l: Limits, m: Mirror, key: string, result: Result, outcome: D.Outcome)
    requires RoundTrips(c)
    ensures Opened(c, l, Some(c.encode(m.memory))) == Some(m.memory)
            <==> |LiveKeys(m.memory)| <= l.maxEntries && |c.encode(m.memory)| <= l.maxBytes
    ensures Opened(c, l, Some(c.encode(m.memory))) in {None, Some(m.memory)} && Opened(c, l, None) == Some(c.empty)
    ensures Canonical(c, Some(c.encode(m.memory)), m.memory)
    ensures SaveReply(PlanFor(c, l, m.memory, key, result), outcome) == Saved ==>
              var after := SaveMirror(m, PlanFor(c, l, m.memory, key, result), outcome);
              Opened(c, l, Some(c.encode(after.memory))) == Some(after.memory)
  {
    RefusedIsBuried(c, l, m, key, result, outcome);
  }

  /** Reads the file, refuses it unreadable, corrupt or over a limit, and rewrites it if its encoding is not the
      canonical one. `readFails` is any error of the read but absence. */
  method Open(fs: D.FileSystem, path: D.Name, codec: Codec<Results>, limits: Limits, readFails: bool,
      weather: D.Weather, ghost image: Image<Results>)
    returns (store: Store?)
    requires RoundTrips(codec) && ShowsIfSound(fs.disk, path, codec, image)
    modifies fs
    ensures var found := old(D.Visible(fs.disk, path));
            && (store != null
                <==> && !readFails && Opened(codec, limits, found) == Some(image.visible)
                     && (Canonical(codec, found, image.visible)
                         || D.ExpectedOutcome(old(fs.disk), weather) == D.Written))
            && (store != null ==>
                  && fresh(store) && store.Valid()
                  && store.State() == Mirror(image.visible, if Canonical(codec, found, image.visible) then image
                                                            else Image(image.visible, {image.visible}))
                  && store.fs == fs && store.path == path && store.codec == codec && store.limits == limits)
    ensures Decoded(codec, D.Visible(fs.disk, path)) == old(Decoded(codec, D.Visible(fs.disk, path)))
  {
    if readFails {
      return null;
    }
    var found := D.Visible(fs.disk, path);
    if found == None {
      store := new Store(fs, path, codec, limits, codec.empty, image);
      return;
    }
    var decoded := codec.decode(found.value);
    if decoded == None {
      return null;
    }
    var results := decoded.value;
    var live := LiveResultCount(results);
    if live > limits.maxEntries || |codec.encode(results)| > limits.maxBytes {
      return null;
    }
    ghost var now := image;
    if found.value != codec.encode(results) {
      var outcome := Persist(fs, path, codec, results, weather, image);
      now := Rewritten(image, results, outcome);
      if !outcome.Written? {
        return null;
      }
    }
    store := new Store(fs, path, codec, limits, results, now);
  }
}
