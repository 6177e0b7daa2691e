/**
 * The data synchronisation service of utils/data_sync.py.
 *
 * Each symbol is fetched cache-first: a fresh parquet file under the stock
 * directory is returned as is; otherwise the upstream API is tried up to
 * `max_retries` times, and the first non-empty table is saved and returned.
 * A batch collects the per-symbol outcomes into a results dict and an error
 * list, and updates a persistent sync-status record.
 *
 * The batch runs its tasks one after another in symbol order (the source
 * runs them concurrently under a semaphore). The disk is an
 * insertion-ordered map from file to its table, modification time and size;
 * time is integer seconds.
 */
module Sync {
  import opened Wrappers
  import opened Dicts
  import opened Frames

  // ---------------------------------------------------------------- files

  datatype DataDir = StockDir | IndexDir | CryptoDir

  datatype FileKey = FileKey(dir: DataDir, name: string)

  /** A file on disk; `frame` is `None` when it cannot be read back as a table. */
  datatype DataFile = DataFile(frame: Option<Frame>, mtime: int, size: nat)

  /** The constructor's arguments; `maxConcurrent` is the initial value of the batch semaphore. */
  datatype Settings = Settings(cacheDays: int, maxRetries: int, retryDelay: int, maxConcurrent: int, user: string)

  const SecondsPerDay: int := 86400

  /** `{symbol}_{start}_{end}.parquet` in the stock directory. */
  function StockFile(symbol: string, start: string, end: string): (r: FileKey)
    ensures r.dir == StockDir && IsParquet(r.name)
    ensures |symbol| <= |r.name| && r.name[..|symbol|] == symbol
  {
    FileKey(StockDir, symbol + "_" + start + "_" + end + ".parquet")
  }

  /** A file's age in whole days (`timedelta.days` floors) has reached the limit. */
  predicate Stale(s: Settings, f: DataFile, now: int)
    ensures Stale(s, f, now) <==> now - f.mtime >= s.cacheDays * SecondsPerDay
  {
    FloorDays(now - f.mtime, s.cacheDays);
    (now - f.mtime) / SecondsPerDay >= s.cacheDays
  }

  /** Whole days, floored, reach `c` exactly when the seconds reach `c` days. */
  lemma FloorDays(a: int, c: int)
    ensures a / SecondsPerDay >= c <==> a >= c * SecondsPerDay
  {
    var q := a / SecondsPerDay;
    assert a == q * SecondsPerDay + a % SecondsPerDay;
    if q >= c {
      assert q * SecondsPerDay >= c * SecondsPerDay;
    } else {
      assert q + 1 <= c;
      assert (q + 1) * SecondsPerDay <= c * SecondsPerDay;
    }
  }

  /** `_is_cache_expired`: a missing file counts as expired. */
  predicate IsCacheExpired(s: Settings, files: Dict<FileKey, DataFile>, key: FileKey, now: int)
    ensures IsCacheExpired(s, files, key, now) <==>
              key !in files.items || now - files.items[key].mtime >= s.cacheDays * SecondsPerDay
  {
    key !in files.items || Stale(s, files.items[key], now)
  }

  /** Once a file is expired it stays expired as time goes on. */
  lemma StaleStaysStale(s: Settings, f: DataFile, now: int, later: int)
    requires Stale(s, f, now) && now <= later
    ensures Stale(s, f, later)
  {
    var a, b := now - f.mtime, later - f.mtime;
    assert a / SecondsPerDay * SecondsPerDay <= a <= b;
    assert (a / SecondsPerDay) * SecondsPerDay <= b;
    DivMonotone(a, b);
  }

  lemma DivMonotone(a: int, b: int)
    requires a <= b
    ensures a / SecondsPerDay <= b / SecondsPerDay
  {
    var qa, qb := a / SecondsPerDay, b / SecondsPerDay;
    assert a == qa * SecondsPerDay + a % SecondsPerDay;
    assert b == qb * SecondsPerDay + b % SecondsPerDay;
  }

  /**
   * A file written less than a full day before `now`, or at any time after
   * it, is fresh whenever a cache of at least one day is kept.
   */
  lemma FreshWithinADay(s: Settings, f: DataFile, now: int)
    requires s.cacheDays >= 1 && now < f.mtime + SecondsPerDay
    ensures !Stale(s, f, now)
  {
  }

  /** A file stamped after `now` has a negative age, so it is fresh for every non-negative `cache_days`. */
  lemma StampedLaterIsFresh(s: Settings, f: DataFile, now: int)
    requires s.cacheDays >= 0 && now < f.mtime
    ensures !Stale(s, f, now)
  {
  }

  // ---------------------------------------------------------------- one symbol

  /**
   * One API attempt: what `_fetch_from_api` returned, the size `to_parquet`
   * wrote (`None` if it raised), and the wall-clock time of that write, which
   * becomes the file's modification time.
   */
  datatype Attempt = Attempt(response: Option<Frame>, saved: Option<nat>, savedAt: int)

  /**
   * The world seen by one task: an error raised while probing the cache
   * file (it escapes the asyncio task), and the outcome of each attempt.
   */
  datatype Upstream = Upstream(probeError: Option<string>, attempt: nat -> Attempt)

  /** An attempt that returns: a non-empty table, saved. */
  predicate Succeeds(up: Upstream, j: nat)
  {
    var a := up.attempt(j);
    a.response.Some? && !a.response.value.IsEmpty() && a.saved.Some?
  }

  /** An attempt whose save raised, which is the only exception the retry loop sees. */
  predicate RaisedAt(up: Upstream, j: nat)
  {
    var a := up.attempt(j);
    a.response.Some? && !a.response.value.IsEmpty() && a.saved.None?
  }

  /** How many attempts in `[lo, hi)` raised. */
  function CountRaised(up: Upstream, lo: nat, hi: nat): nat
    decreases hi - lo
  {
    if lo >= hi then 0 else (if RaisedAt(up, lo) then 1 else 0) + CountRaised(up, lo + 1, hi)
  }

  /** The retry loop from attempt `i` on: the attempt that returned, how many were made, how many sleeps. */
  datatype Retried = Retried(found: Option<nat>, attempts: nat, sleeps: nat)

  /**
   * `for attempt in range(max_retries)`: at most `max_retries` attempts, stop
   * at the first success, and sleep after every raising attempt except the
   * last one made.
   */
  function RetryLoop(up: Upstream, maxRetries: int, i: nat): (r: Retried)
    ensures r.found.Some? ==> i <= r.found.value < maxRetries && Succeeds(up, r.found.value)
    decreases maxRetries - i
  {
    if i >= maxRetries then Retried(None, 0, 0)
    else if Succeeds(up, i) then Retried(Some(i), 1, 0)
    else
      var rest := RetryLoop(up, maxRetries, i + 1);
      var slept := if RaisedAt(up, i) && i < maxRetries - 1 then 1 else 0;
      Retried(rest.found, rest.attempts + 1, rest.sleeps + slept)
  }

  /**
   * The loop makes at most `max_retries` attempts, stops at the first
   * success and at no earlier one, and sleeps after each raising attempt
   * except the last one made.
   */
  lemma {:induction false} RetryLoopSpec(up: Upstream, maxRetries: int, i: nat)
    ensures var r := RetryLoop(up, maxRetries, i);
            && (r.found.Some? ==>
                  && r.attempts == r.found.value - i + 1
                  && (forall j | i <= j < r.found.value :: !Succeeds(up, j)))
            && (r.found.None? ==>
                  && r.attempts == (if maxRetries > i then maxRetries - i else 0)
                  && (forall j | i <= j < maxRetries :: !Succeeds(up, j)))
            && (r.attempts == 0 ==> r.sleeps == 0)
            && (r.attempts > 0 ==> r.sleeps == CountRaised(up, i, i + r.attempts - 1))
    decreases maxRetries - i
  {
    if i < maxRetries && !Succeeds(up, i) {
      RetryLoopSpec(up, maxRetries, i + 1);
    }
  }

  /** The retry loop's round `i`, unfolded once. */
  lemma RetryNext(up: Upstream, maxRetries: int, i: nat)
    requires i < maxRetries
    ensures Succeeds(up, i) ==> RetryLoop(up, maxRetries, i) == Retried(Some(i), 1, 0)
    ensures !Succeeds(up, i) ==>
              var rest := RetryLoop(up, maxRetries, i + 1);
              RetryLoop(up, maxRetries, i) ==
                Retried(rest.found, rest.attempts + 1, rest.sleeps + if RaisedAt(up, i) && i < maxRetries - 1 then 1 else 0)
  {
  }

  /** What the runner sees from a task: a return value, or an exception it passes on. */
  datatype TaskOutcome = Returned(frame: Option<Frame>) | Raised(message: string)

  datatype Fetched = Fetched(outcome: TaskOutcome, files: Dict<FileKey, DataFile>, attempts: nat, sleeps: nat)

  /** A readable, unexpired cache file. */
  predicate CacheHit(s: Settings, files: Dict<FileKey, DataFile>, key: FileKey, now: int)
  {
    key in files.items && !IsCacheExpired(s, files, key, now) && files.items[key].frame.Some?
  }

  /**
   * `_fetch_stock_data`: a fresh, readable cache file short-circuits; an
   * unreadable one falls through to the API loop; the saved table gets the
   * wall-clock time of the write as its modification time, while freshness
   * is judged against the service's own `now`.
   */
  function Fetch(s: Settings, files: Dict<FileKey, DataFile>, now: int, symbol: string, start: string, end: string,
                 up: Upstream): (r: Fetched)
    requires files.Valid()
    ensures r.files.Valid()
    ensures up.probeError.Some? ==> r == Fetched(Raised(up.probeError.value), files, 0, 0)
    ensures up.probeError.None? && CacheHit(s, files, StockFile(symbol, start, end), now) ==>
              r == Fetched(Returned(files.items[StockFile(symbol, start, end)].frame), files, 0, 0)
    ensures up.probeError.None? && !CacheHit(s, files, StockFile(symbol, start, end), now) ==>
              var loop := RetryLoop(up, s.maxRetries, 0);
              && r.attempts == loop.attempts && r.sleeps == loop.sleeps
              && (loop.found.None? ==> r.outcome == Returned(None) && r.files == files)
              && (loop.found.Some? ==>
                    var a := up.attempt(loop.found.value);
                    && r.outcome == Returned(a.response)
                    && r.files == files.Put(StockFile(symbol, start, end), DataFile(a.response, a.savedAt, a.saved.value)))
  {
    var key := StockFile(symbol, start, end);
    if up.probeError.Some? then Fetched(Raised(up.probeError.value), files, 0, 0)
    else if CacheHit(s, files, key, now) then Fetched(Returned(files.items[key].frame), files, 0, 0)
    else
      var loop := RetryLoop(up, s.maxRetries, 0);
      if loop.found.None? then Fetched(Returned(None), files, loop.attempts, loop.sleeps)
      else
        var a := up.attempt(loop.found.value);
        Fetched(Returned(a.response), files.Put(key, DataFile(a.response, a.savedAt, a.saved.value)), loop.attempts, loop.sleeps)
  }

  /** A fetch that gets past the cache is the retry loop, and a save of what it found. */
  lemma FetchByLoop(s: Settings, files: Dict<FileKey, DataFile>, now: int, symbol: string, start: string, end: string,
                    up: Upstream)
    requires files.Valid() && up.probeError.None? && !CacheHit(s, files, StockFile(symbol, start, end), now)
    ensures var loop := RetryLoop(up, s.maxRetries, 0);
            Fetch(s, files, now, symbol, start, end, up) ==
              if loop.found.None? then Fetched(Returned(None), files, loop.attempts, loop.sleeps)
              else
                var a := up.attempt(loop.found.value);
                Fetched(Returned(a.response), files.Put(StockFile(symbol, start, end), DataFile(a.response, a.savedAt, a.saved.value)),
                        loop.attempts, loop.sleeps)
  {
  }

  /** An unexpired, readable cache file is served without contacting the API at all. */
  lemma CacheFirst(s: Settings, files: Dict<FileKey, DataFile>, now: int, symbol: string, start: string, end: string,
                   up: Upstream)
    requires files.Valid() && up.probeError.None?
    requires CacheHit(s, files, StockFile(symbol, start, end), now)
    ensures Fetch(s, files, now, symbol, start, end, up).attempts == 0
    ensures Fetch(s, files, now, symbol, start, end, up).outcome.frame == files.items[StockFile(symbol, start, end)].frame
  {
  }

  /**
   * A table fetched and saved is served from the cache by the next fetch, so
   * long as the write happened after `now` (as it does when `now` is a fixed
   * date in the past) or less than a day before it.
   */
  lemma FetchThenCached(s: Settings, files: Dict<FileKey, DataFile>, now: int, symbol: string, start: string, end: string,
                        up: Upstream, up2: Upstream)
    requires files.Valid() && up.probeError.None? && up2.probeError.None? && s.cacheDays >= 1
    requires forall j: nat :: now < up.attempt(j).savedAt + SecondsPerDay
    requires var r := Fetch(s, files, now, symbol, start, end, up); r.outcome.Returned? && r.outcome.frame.Some?
    ensures var r := Fetch(s, files, now, symbol, start, end, up);
            var again := Fetch(s, r.files, now, symbol, start, end, up2);
            again.attempts == 0 && again.outcome == r.outcome && again.files == r.files
  {
  }

  /** With a positive limit, a task that never succeeds makes exactly `max_retries` attempts and sleeps after every failure but the last. */
  lemma RetriesExhausted(up: Upstream, maxRetries: int)
    requires maxRetries > 0
    requires forall j | 0 <= j < maxRetries :: RaisedAt(up, j)
    ensures RetryLoop(up, maxRetries, 0) == Retried(None, maxRetries, maxRetries - 1)
  {
    forall j | 0 <= j < maxRetries
      ensures !Succeeds(up, j)
    {
      assert RaisedAt(up, j);
    }
    RetryLoopSpec(up, maxRetries, 0);
    AllRaised(up, 0, maxRetries - 1);
  }

  lemma {:induction false} AllRaised(up: Upstream, lo: nat, hi: nat)
    requires lo <= hi
    requires forall j | lo <= j < hi :: RaisedAt(up, j)
    ensures CountRaised(up, lo, hi) == hi - lo
    decreases hi - lo
  {
    if lo < hi {
      AllRaised(up, lo + 1, hi);
    }
  }

  // ---------------------------------------------------------------- a batch

  datatype Batch = Batch(outcomes: seq<TaskOutcome>, files: Dict<FileKey, DataFile>)

  /** The first `n` tasks of a batch, run in order; each sees the files the previous ones left. */
  function RunTasks(s: Settings, files: Dict<FileKey, DataFile>, now: int, symbols: seq<string>, start: string, end: string,
                    ups: seq<Upstream>, n: nat): (r: Batch)
    requires files.Valid() && n <= |symbols| == |ups|
    ensures r.files.Valid()
    ensures |r.outcomes| == n
  {
    if n == 0 then Batch([], files)
    else
      var prev := RunTasks(s, files, now, symbols, start, end, ups, n - 1);
      var f := Fetch(s, prev.files, now, symbols[n - 1], start, end, ups[n - 1]);
      Batch(prev.outcomes + [f.outcome], f.files)
  }

  /** The next task of a batch runs on the files the earlier ones left. */
  lemma RunTasksNext(s: Settings, files: Dict<FileKey, DataFile>, now: int, symbols: seq<string>, start: string, end: string,
                     ups: seq<Upstream>, i: nat, done: seq<TaskOutcome>, cur: Dict<FileKey, DataFile>)
    requires files.Valid() && i < |symbols| == |ups|
    requires Batch(done, cur) == RunTasks(s, files, now, symbols, start, end, ups, i)
    ensures cur.Valid()
    ensures var f := Fetch(s, cur, now, symbols[i], start, end, ups[i]);
            RunTasks(s, files, now, symbols, start, end, ups, i + 1) == Batch(done + [f.outcome], f.files)
  {
  }

  /** The task delivered a table (it returned, and not `None`). */
  predicate Delivered(o: TaskOutcome)
  {
    o.Returned? && o.frame.Some?
  }

  datatype Aggregated = Aggregated(results: Dict<string, Frame>, errors: seq<(string, string)>)

  /**
   * The `zip(symbols, completed)` loop over the first `n` outcomes: a raised
   * task adds `(symbol, message)` to the errors, a delivered table is stored
   * under its symbol (a later one for the same symbol wins), and `None` adds
   * nothing.
   */
  function Aggregate(symbols: seq<string>, outcomes: seq<TaskOutcome>, n: nat): (r: Aggregated)
    requires n <= |symbols| == |outcomes|
    ensures r.results.Valid()
    ensures |r.errors| <= n && |r.results.keys| <= n
  {
    if n == 0 then Aggregated(Empty(), [])
    else
      var prev := Aggregate(symbols, outcomes, n - 1);
      var sym, o := symbols[n - 1], outcomes[n - 1];
      if o.Raised? then Aggregated(prev.results, prev.errors + [(sym, o.message)])
      else if o.frame.Some? then Aggregated(prev.results.Put(sym, o.frame.value), prev.errors)
      else prev
  }

  /** The `zip` loop's next round. */
  lemma AggregateNext(symbols: seq<string>, outcomes: seq<TaskOutcome>, j: nat, results: Dict<string, Frame>,
                      errors: seq<(string, string)>)
    requires j < |symbols| == |outcomes|
    requires Aggregated(results, errors) == Aggregate(symbols, outcomes, j)
    ensures results.Valid()
    ensures var sym, o := symbols[j], outcomes[j];
            Aggregate(symbols, outcomes, j + 1) ==
              if o.Raised? then Aggregated(results, errors + [(sym, o.message)])
              else if o.frame.Some? then Aggregated(results.Put(sym, o.frame.value), errors)
              else Aggregated(results, errors)
  {
  }

  /** A symbol is in the results iff one of its tasks delivered a table; the stored table is the last one delivered. */
  lemma AggregateResults(symbols: seq<string>, outcomes: seq<TaskOutcome>, n: nat, sym: string)
    requires n <= |symbols| == |outcomes|
    ensures var r := Aggregate(symbols, outcomes, n).results;
            sym in r.items <==> exists i | 0 <= i < n :: symbols[i] == sym && Delivered(outcomes[i])
    ensures var r := Aggregate(symbols, outcomes, n).results;
            sym in r.items ==>
              exists i | 0 <= i < n :: symbols[i] == sym && Delivered(outcomes[i])
                                       && r.items[sym] == outcomes[i].frame.value
                                       && forall j | i < j < n :: symbols[j] == sym ==> !Delivered(outcomes[j])
  {
    AggregateHas(symbols, outcomes, n, sym);
    AggregateLastWins(symbols, outcomes, n, sym);
  }

  lemma {:induction false} AggregateHas(symbols: seq<string>, outcomes: seq<TaskOutcome>, n: nat, sym: string)
    requires n <= |symbols| == |outcomes|
    ensures var r := Aggregate(symbols, outcomes, n).results;
            sym in r.items <==> exists i | 0 <= i < n :: symbols[i] == sym && Delivered(outcomes[i])
  {
    if n > 0 {
      AggregateHas(symbols, outcomes, n - 1, sym);
    }
  }

  lemma {:induction false} AggregateLastWins(symbols: seq<string>, outcomes: seq<TaskOutcome>, n: nat, sym: string)
    requires n <= |symbols| == |outcomes|
    ensures var r := Aggregate(symbols, outcomes, n).results;
            sym in r.items ==>
              exists i | 0 <= i < n :: symbols[i] == sym && Delivered(outcomes[i])
                                       && r.items[sym] == outcomes[i].frame.value
                                       && forall j | i < j < n :: symbols[j] == sym ==> !Delivered(outcomes[j])
  {
    if n > 0 {
      AggregateLastWins(symbols, outcomes, n - 1, sym);
      var prev, r := Aggregate(symbols, outcomes, n - 1).results, Aggregate(symbols, outcomes, n).results;
      var o := outcomes[n - 1];
      if symbols[n - 1] == sym && Delivered(o) {
        assert r.items[sym] == o.frame.value;
      } else if sym in r.items {
        // the last task leaves `sym` as it was
        assert sym in prev.items && r.items[sym] == prev.items[sym];
        var i :| 0 <= i < n - 1 && symbols[i] == sym && Delivered(outcomes[i]) && prev.items[sym] == outcomes[i].frame.value
                 && forall j | i < j < n - 1 :: symbols[j] == sym ==> !Delivered(outcomes[j]);
        assert forall j | i < j < n :: symbols[j] == sym ==> !Delivered(outcomes[j]);
      }
    }
  }

  /** The error list holds exactly the raised tasks, with their symbols and messages. */
  lemma {:induction false} AggregateErrors(symbols: seq<string>, outcomes: seq<TaskOutcome>, n: nat, e: (string, string))
    requires n <= |symbols| == |outcomes|
    ensures e in Aggregate(symbols, outcomes, n).errors <==>
              exists i | 0 <= i < n :: outcomes[i].Raised? && e == (symbols[i], outcomes[i].message)
  {
    if n > 0 {
      AggregateErrors(symbols, outcomes, n - 1, e);
    }
  }

  // ---------------------------------------------------------------- the status record

  datatype SyncStatus = SyncStatus(lastSync: Option<string>, syncCount: int, errors: Dict<string, string>,
                                   lastModified: string, modifiedBy: string)

  /** What is on disk for the status file. */
  datatype StatusFile = NoStatusFile | UnreadableStatus | StoredStatus(status: SyncStatus)

  /** `_load_sync_status`: the stored record, or a fresh one when the file is missing or unreadable. */
  function LoadSyncStatus(file: StatusFile, nowText: string, user: string): (r: SyncStatus)
    requires file.StoredStatus? ==> file.status.errors.Valid()
    ensures r.errors.Valid()
    ensures file.StoredStatus? ==> r == file.status
    ensures !file.StoredStatus? ==>
              r.lastSync == None && r.syncCount == 0 && r.errors.items == map[] &&
              r.lastModified == nowText && r.modifiedBy == user
  {
    if file.StoredStatus? then file.status else SyncStatus(None, 0, Empty(), nowText, user)
  }

  /** The message of the last error reported for `sym`, if any. */
  function LastFor(errors: seq<(string, string)>, sym: string): (r: Option<string>)
    ensures r.Some? <==> exists i | 0 <= i < |errors| :: errors[i].0 == sym
  {
    if errors == [] then None
    else if errors[|errors| - 1].0 == sym then Some(errors[|errors| - 1].1)
    else LastFor(errors[..|errors| - 1], sym)
  }

  /** `errors.update({symbol: error for ...})`: new symbols take their last message; every other entry stays. */
  function MergeErrors(d: Dict<string, string>, errors: seq<(string, string)>): (r: Dict<string, string>)
    requires d.Valid()
    ensures r.Valid()
    ensures d.items.Keys <= r.items.Keys
    ensures |r.items| <= |d.items| + |errors|
  {
    if errors == [] then d
    else
      var last := errors[|errors| - 1];
      MergeErrors(d, errors[..|errors| - 1]).Put(last.0, last.1)
  }

  /** After the update a symbol is present iff it was or it was reported, and carries its last reported message if any. */
  lemma {:induction false} MergeErrorsSpec(d: Dict<string, string>, errors: seq<(string, string)>, sym: string)
    requires d.Valid()
    ensures var r := MergeErrors(d, errors);
            && (sym in r.items <==> sym in d.items || LastFor(errors, sym).Some?)
            && (sym in r.items ==>
                  r.items[sym] == if LastFor(errors, sym).Some? then LastFor(errors, sym).value else d.items[sym])
  {
    if errors != [] {
      MergeErrorsSpec(d, errors[..|errors| - 1], sym);
    }
  }

  /** The status update at the end of `sync_stock_data`, including what `_save_sync_status` stamps. */
  function RecordBatch(status: SyncStatus, errors: seq<(string, string)>, nowText: string, user: string): (r: SyncStatus)
    requires status.errors.Valid()
    ensures r.errors.Valid()
    ensures r.syncCount == status.syncCount + 1
    ensures r.lastSync == Some(nowText) && r.lastModified == nowText && r.modifiedBy == user
    ensures errors == [] ==> r.errors == status.errors
    ensures errors != [] ==> r.errors == MergeErrors(status.errors, errors)
  {
    SyncStatus(Some(nowText), status.syncCount + 1,
               if errors == [] then status.errors else MergeErrors(status.errors, errors),
               nowText, user)
  }

  /** An error recorded earlier survives a later batch in which that symbol succeeds. */
  lemma StaleErrorKept(status: SyncStatus, errors: seq<(string, string)>, nowText: string, user: string, sym: string)
    requires status.errors.Valid() && sym in status.errors.items
    requires forall i | 0 <= i < |errors| :: errors[i].0 != sym
    ensures var r := RecordBatch(status, errors, nowText, user);
            sym in r.errors.items && r.errors.items[sym] == status.errors.items[sym]
  {
    MergeErrorsSpec(status.errors, errors, sym);
  }

  datatype BatchEffect = BatchEffect(results: Dict<string, Frame>, files: Dict<FileKey, DataFile>, status: SyncStatus)

  /**
   * How a batch ends: it returns, `asyncio.Semaphore` raises on a negative
   * initial value before any task exists, or every task waits for ever on a
   * semaphore of value 0 (nothing has changed when it starts waiting).
   */
  datatype BatchRun = Completed(effect: BatchEffect) | SemaphoreRaised(message: string) | Blocked

  /** The `ValueError` text of `asyncio.Semaphore(value)` for `value < 0`. */
  const SemaphoreMessage: string := "Semaphore initial value must be >= 0"

  /** `sync_stock_data` for given dates: make the semaphore, run the tasks, aggregate, record. */
  function SyncBatch(s: Settings, nowText: string, now: int, files: Dict<FileKey, DataFile>, status: SyncStatus,
                     symbols: seq<string>, start: string, end: string, ups: seq<Upstream>): (r: BatchRun)
    requires files.Valid() && status.errors.Valid() && |symbols| == |ups|
    ensures r.SemaphoreRaised? <==> s.maxConcurrent < 0
    ensures r.SemaphoreRaised? ==> r.message == SemaphoreMessage
    ensures r.Blocked? <==> s.maxConcurrent == 0 && symbols != []
    ensures r.Completed? ==> r.effect.files.Valid() && r.effect.status.errors.Valid()
    ensures r.Completed? ==> r.effect.status.syncCount == status.syncCount + 1
    ensures r.Completed? ==> r.effect.status.lastSync == Some(nowText)
  {
    if s.maxConcurrent < 0 then SemaphoreRaised(SemaphoreMessage)
    else if s.maxConcurrent == 0 && symbols != [] then Blocked
    else
      var batch := RunTasks(s, files, now, symbols, start, end, ups, |symbols|);
      var agg := Aggregate(symbols, batch.outcomes, |symbols|);
      Completed(BatchEffect(agg.results, batch.files, RecordBatch(status, agg.errors, nowText, s.user)))
  }

  /** A batch that returns records its tasks' errors in the status as `RecordBatch` does. */
  lemma SyncBatchRecords(s: Settings, nowText: string, now: int, files: Dict<FileKey, DataFile>, status: SyncStatus,
                         symbols: seq<string>, start: string, end: string, ups: seq<Upstream>)
    requires files.Valid() && status.errors.Valid() && |symbols| == |ups|
    ensures var r := SyncBatch(s, nowText, now, files, status, symbols, start, end, ups);
            r.Completed? ==>
              r.effect.status == RecordBatch(status, Aggregate(symbols, RunTasks(s, files, now, symbols, start, end, ups,
                                                                                 |symbols|).outcomes,
                                                               |symbols|).errors, nowText, s.user)
  {
  }

  /** A batch's results hold exactly the symbols whose task delivered a frame. */
  lemma SyncBatchResults(s: Settings, nowText: string, now: int, files: Dict<FileKey, DataFile>, status: SyncStatus,
                         symbols: seq<string>, start: string, end: string, ups: seq<Upstream>, sym: string)
    requires files.Valid() && status.errors.Valid() && |symbols| == |ups|
    ensures var outcomes := RunTasks(s, files, now, symbols, start, end, ups, |symbols|).outcomes;
            var r := SyncBatch(s, nowText, now, files, status, symbols, start, end, ups);
            r.Completed? ==>
              (sym in r.effect.results.items <==> exists i | 0 <= i < |symbols| :: symbols[i] == sym && Delivered(outcomes[i]))
  {
    AggregateResults(symbols, RunTasks(s, files, now, symbols, start, end, ups, |symbols|).outcomes, |symbols|, sym);
  }

  /**
   * After a batch that returns, the status records an error for a symbol iff
   * it had one before or one of its tasks raised in this batch; a symbol none
   * of whose tasks raised keeps the message it had.
   */
  lemma SyncBatchErrors(s: Settings, nowText: string, now: int, files: Dict<FileKey, DataFile>, status: SyncStatus,
                        symbols: seq<string>, start: string, end: string, ups: seq<Upstream>, sym: string)
    requires files.Valid() && status.errors.Valid() && |symbols| == |ups|
    ensures var outcomes := RunTasks(s, files, now, symbols, start, end, ups, |symbols|).outcomes;
            var b := SyncBatch(s, nowText, now, files, status, symbols, start, end, ups);
            var raised := exists i | 0 <= i < |symbols| :: symbols[i] == sym && outcomes[i].Raised?;
            b.Completed? ==>
              && (sym in b.effect.status.errors.items <==> sym in status.errors.items || raised)
              && (!raised && sym in b.effect.status.errors.items ==>
                    b.effect.status.errors.items[sym] == status.errors.items[sym])
  {
    var b := SyncBatch(s, nowText, now, files, status, symbols, start, end, ups);
    if b.Completed? {
      var outcomes := RunTasks(s, files, now, symbols, start, end, ups, |symbols|).outcomes;
      var errs := Aggregate(symbols, outcomes, |symbols|).errors;
      SyncBatchRecords(s, nowText, now, files, status, symbols, start, end, ups);
      RaisedIffReported(symbols, outcomes, sym);
      RecordBatchErrors(status, errs, nowText, s.user, sym);
    }
  }

  /** A symbol has an entry in the aggregated error list iff one of its tasks raised. */
  lemma RaisedIffReported(symbols: seq<string>, outcomes: seq<TaskOutcome>, sym: string)
    requires |outcomes| == |symbols|
    ensures var errs := Aggregate(symbols, outcomes, |symbols|).errors;
            (exists i | 0 <= i < |symbols| :: symbols[i] == sym && outcomes[i].Raised?) <==>
            (exists k | 0 <= k < |errs| :: errs[k].0 == sym)
  {
    var errs := Aggregate(symbols, outcomes, |symbols|).errors;
    if exists i | 0 <= i < |symbols| :: symbols[i] == sym && outcomes[i].Raised? {
      var i :| 0 <= i < |symbols| && symbols[i] == sym && outcomes[i].Raised?;
      AggregateErrors(symbols, outcomes, |symbols|, (sym, outcomes[i].message));
      var k :| 0 <= k < |errs| && errs[k] == (sym, outcomes[i].message);
      assert errs[k].0 == sym;
    }
    if exists k | 0 <= k < |errs| :: errs[k].0 == sym {
      var k :| 0 <= k < |errs| && errs[k].0 == sym;
      AggregateErrors(symbols, outcomes, |symbols|, errs[k]);
    }
  }

  /** The status update records a symbol iff it was recorded or reported, and keeps the message of one not reported. */
  lemma RecordBatchErrors(status: SyncStatus, errs: seq<(string, string)>, nowText: string, user: string, sym: string)
    requires status.errors.Valid()
    ensures var r := RecordBatch(status, errs, nowText, user).errors;
            var reported := exists k | 0 <= k < |errs| :: errs[k].0 == sym;
            && (sym in r.items <==> sym in status.errors.items || reported)
            && (!reported && sym in r.items ==> r.items[sym] == status.errors.items[sym])
  {
    MergeErrorsSpec(status.errors, errs, sym);
  }

  /** The result of `sync_all_data`; `crypto` is always empty. */
  datatype AllResults = AllResults(stocks: Dict<string, Frame>, indices: Dict<string, Frame>, crypto: Dict<string, Frame>,
                                   errors: seq<string>, syncTime: string)

  /** `sync_all_data` returns its results and the new state, or never returns (waiting in the state reached). */
  datatype AllRun = AllReturned(results: AllResults, files: Dict<FileKey, DataFile>, status: SyncStatus)
                  | AllBlocked(files: Dict<FileKey, DataFile>, status: SyncStatus)

  /** The index batch of `sync_all_data` covers the CSI 300 index only. */
  const IndexSymbols: seq<string> := ["000300"]

  /**
   * `sync_all_data`: the stock batch, the index batch, and one more status
   * update of its own; an exception from either batch is caught and its text
   * becomes the only error, with nothing else changed.
   */
  function SyncAll(s: Settings, nowText: string, now: int, files: Dict<FileKey, DataFile>, status: SyncStatus,
                   symbols: seq<string>, start: string, end: string, ups: seq<Upstream>, indexUp: Upstream)
    : (r: AllRun)
    requires files.Valid() && status.errors.Valid() && |symbols| == |ups|
    ensures r.files.Valid() && r.status.errors.Valid()
    ensures r.AllBlocked? <==> s.maxConcurrent == 0
    ensures r.AllReturned? ==> r.results.syncTime == nowText && r.results.crypto == Empty()
    ensures s.maxConcurrent < 0 ==>
              && r.AllReturned? && r.results.errors == [SemaphoreMessage]
              && r.results.stocks == Empty() && r.results.indices == Empty()
              && r.files == files && r.status == status
    ensures s.maxConcurrent >= 1 ==>
              && r.AllReturned? && r.results.errors == []
              && r.status.syncCount == status.syncCount + 3
              && r.status.lastSync == Some(nowText)
  {
    var first := SyncBatch(s, nowText, now, files, status, symbols, start, end, ups);
    match first
    case SemaphoreRaised(msg) => AllReturned(AllResults(Empty(), Empty(), Empty(), [msg], nowText), files, status)
    case Blocked => AllBlocked(files, status)
    case Completed(e1) => AfterStocks(s, nowText, now, e1.files, e1.status, e1.results, start, end, indexUp)
  }

  /** The rest of `sync_all_data` once the stock batch has returned `stocks`: the index batch, then its own update. */
  function AfterStocks(s: Settings, nowText: string, now: int, files: Dict<FileKey, DataFile>, status: SyncStatus,
                       stocks: Dict<string, Frame>, start: string, end: string, indexUp: Upstream): (r: AllRun)
    requires files.Valid() && status.errors.Valid()
    ensures r.files.Valid() && r.status.errors.Valid()
    ensures r.AllBlocked? <==> s.maxConcurrent == 0
    ensures r.AllReturned? ==> r.results.stocks == stocks && r.results.crypto == Empty()
    ensures s.maxConcurrent >= 1 ==>
              && r.AllReturned? && r.results.errors == []
              && r.status.syncCount == status.syncCount + 2
              && r.status.lastSync == Some(nowText)
  {
    var second := SyncBatch(s, nowText, now, files, status, IndexSymbols, start, end, [indexUp]);
    if second.SemaphoreRaised? then AllReturned(AllResults(stocks, Empty(), Empty(), [second.message], nowText), files, status)
    else if second.Blocked? then AllBlocked(files, status)
    else
      var e2 := second.effect;
      AllReturned(AllResults(stocks, e2.results, Empty(), [], nowText),
                  e2.files,
                  SyncStatus(Some(nowText), e2.status.syncCount + 1, e2.status.errors, nowText, s.user))
  }

  // ---------------------------------------------------------------- the expired-file sweep

  /** `directory.glob('*.parquet')`. */
  predicate IsParquet(name: string)
    ensures IsParquet(name) <==> |name| >= 8 && name == name[..|name| - 8] + ".parquet"
  {
    |name| >= 8 && name[|name| - 8..] == ".parquet"
  }

  /** A file the sweep deletes: a stale parquet file whose unlink does not fail. */
  predicate Doomed(s: Settings, files: Dict<FileKey, DataFile>, now: int, locked: set<FileKey>, k: FileKey)
    ensures Doomed(s, files, now, locked, k) ==>
              k in files.items && k !in locked && now - files.items[k].mtime >= s.cacheDays * SecondsPerDay
  {
    k in files.items && IsParquet(k.name) && Stale(s, files.items[k], now) && k !in locked
  }

  ghost function DoomedIn(s: Settings, files: Dict<FileKey, DataFile>, now: int, locked: set<FileKey>, p: seq<FileKey>)
    : set<FileKey>
  {
    set k | k in p && Doomed(s, files, now, locked, k)
  }

  /** The bytes freed by deleting the doomed files among `p`. */
  function FreedIn(s: Settings, files: Dict<FileKey, DataFile>, now: int, locked: set<FileKey>, p: seq<FileKey>): nat
  {
    if p == [] then 0
    else
      var k := p[|p| - 1];
      FreedIn(s, files, now, locked, p[..|p| - 1]) + if Doomed(s, files, now, locked, k) then files.items[k].size else 0
  }

  /** Every file the sweep deletes. */
  ghost function DoomedSet(s: Settings, files: Dict<FileKey, DataFile>, now: int, locked: set<FileKey>): set<FileKey>
  {
    set k | k in files.items && Doomed(s, files, now, locked, k)
  }

  lemma DoomedInAll(s: Settings, files: Dict<FileKey, DataFile>, now: int, locked: set<FileKey>)
    requires files.Valid()
    ensures DoomedIn(s, files, now, locked, files.keys) == DoomedSet(s, files, now, locked)
  {
  }

  lemma DoomedInSnoc(s: Settings, files: Dict<FileKey, DataFile>, now: int, locked: set<FileKey>, p: seq<FileKey>, k: FileKey)
    ensures DoomedIn(s, files, now, locked, p + [k]) ==
            DoomedIn(s, files, now, locked, p) + if Doomed(s, files, now, locked, k) then {k} else {}
  {
  }

  /** One iteration of the sweep on a key it has not seen yet. */
  lemma CleanStep(s: Settings, f0: Dict<FileKey, DataFile>, now: int, locked: set<FileKey>, p: seq<FileKey>, k: FileKey,
                  items: map<FileKey, DataFile>)
    requires k !in p && k in f0.items
    requires items == f0.items - DoomedIn(s, f0, now, locked, p)
    ensures Doomed(s, f0, now, locked, k) ==>
              && items - {k} == f0.items - DoomedIn(s, f0, now, locked, p + [k])
              && |DoomedIn(s, f0, now, locked, p + [k])| == |DoomedIn(s, f0, now, locked, p)| + 1
              && FreedIn(s, f0, now, locked, p + [k]) == FreedIn(s, f0, now, locked, p) + f0.items[k].size
    ensures !Doomed(s, f0, now, locked, k) ==>
              && items == f0.items - DoomedIn(s, f0, now, locked, p + [k])
              && DoomedIn(s, f0, now, locked, p + [k]) == DoomedIn(s, f0, now, locked, p)
              && FreedIn(s, f0, now, locked, p + [k]) == FreedIn(s, f0, now, locked, p)
  {
    DoomedInSnoc(s, f0, now, locked, p, k);
    assert (p + [k])[..|p|] == p;
    assert k !in DoomedIn(s, f0, now, locked, p);
  }

  /** The state the sweep has reached after its first `i` rounds: the files left, the count and the bytes freed. */
  ghost predicate SweptUpTo(s: Settings, f0: Dict<FileKey, DataFile>, now: int, locked: set<FileKey>, i: nat,
                            items: map<FileKey, DataFile>, cleaned: nat, freed: nat)
    requires i <= |f0.keys|
  {
    && items == f0.items - DoomedIn(s, f0, now, locked, f0.keys[..i])
    && cleaned == |DoomedIn(s, f0, now, locked, f0.keys[..i])|
    && freed == FreedIn(s, f0, now, locked, f0.keys[..i])
  }

  /** Round `i` of the sweep: its file is still there, as it was, and deleting it iff doomed reaches the next state. */
  lemma CleanNext(s: Settings, f0: Dict<FileKey, DataFile>, now: int, locked: set<FileKey>, i: nat,
                  items: map<FileKey, DataFile>, cleaned: nat, freed: nat)
    requires f0.Valid() && i < |f0.keys|
    requires SweptUpTo(s, f0, now, locked, i, items, cleaned, freed)
    ensures var k := f0.keys[i];
            k in items && items[k] == f0.items[k]
    ensures var k := f0.keys[i];
            Doomed(s, f0, now, locked, k) ==>
              SweptUpTo(s, f0, now, locked, i + 1, items - {k}, cleaned + 1, freed + f0.items[k].size)
    ensures var k := f0.keys[i];
            !Doomed(s, f0, now, locked, k) ==> SweptUpTo(s, f0, now, locked, i + 1, items, cleaned, freed)
  {
    var ks := f0.keys;
    var k := ks[i];
    assert ks[..i + 1] == ks[..i] + [k];
    assert k !in ks[..i] by {
      assert forall j | 0 <= j < i :: ks[..i][j] == ks[j] && ks[j] != k;
    }
    CleanStep(s, f0, now, locked, ks[..i], k, items);
  }

  /** The `zip(symbols, completed)` loop of `sync_stock_data`. */
  method Collect(symbols: seq<string>, completed: seq<TaskOutcome>) returns (results: Dict<string, Frame>, errors: seq<(string, string)>)
    requires |symbols| == |completed|
    ensures Aggregated(results, errors) == Aggregate(symbols, completed, |symbols|)
  {
    results := Empty();
    errors := [];
    var j := 0;
    while j < |symbols|
      invariant 0 <= j <= |symbols|
      invariant Aggregated(results, errors) == Aggregate(symbols, completed, j)
    {
      var o := completed[j];
      AggregateNext(symbols, completed, j, results, errors);
      if o.Raised? {
        errors := errors + [(symbols[j], o.message)];
      } else if o.frame.Some? {
        results := results.Put(symbols[j], o.frame.value);
      }
      j := j + 1;
    }
  }

  // ---------------------------------------------------------------- the object

  class DataSyncService {
    const settings: Settings
    /** The instant the source freezes at construction, and its `%Y-%m-%d %H:%M:%S` rendering. */
    const now: int
    const nowText: string
    var files: Dict<FileKey, DataFile>
    var status: SyncStatus

    ghost predicate Valid()
      reads this
    {
      files.Valid() && status.errors.Valid()
    }

    /** `__init__`: the settings, the current data directory, and the status loaded from its file. */
    constructor (cacheDays: int, maxRetries: int, retryDelay: int, maxConcurrent: int, user: string,
                 clock: int, clockText: string,
                 disk: Dict<FileKey, DataFile>, statusFile: StatusFile)
      requires disk.Valid()
      requires statusFile.StoredStatus? ==> statusFile.status.errors.Valid()
      ensures Valid()
      ensures settings == Settings(cacheDays, maxRetries, retryDelay, maxConcurrent, user)
      ensures now == clock && nowText == clockText && files == disk
      ensures status == LoadSyncStatus(statusFile, clockText, user)
    {
      settings := Settings(cacheDays, maxRetries, retryDelay, maxConcurrent, user);
      now := clock;
      nowText := clockText;
      files := disk;
      status := LoadSyncStatus(statusFile, clockText, user);
    }

    /** `get_sync_status`. */
    function GetSyncStatus(): (r: SyncStatus)
      reads this
      ensures r == status
    {
      status
    }

    method FetchStockData(symbol: string, start: string, end: string, up: Upstream)
      returns (out: TaskOutcome, attempts: nat, sleeps: nat)
      requires Valid()
      modifies this`files
      ensures Valid()
      ensures Fetched(out, files, attempts, sleeps) == Fetch(settings, old(files), now, symbol, start, end, up)
    {
      var key := StockFile(symbol, start, end);
      if up.probeError.Some? {
        return Raised(up.probeError.value), 0, 0;
      }
      if key in files.items && !IsCacheExpired(settings, files, key, now) {
        var cached := files.items[key].frame;
        if cached.Some? {
          return Returned(cached), 0, 0;
        }
        // reading the file raised: fall through to the API
      }
      attempts, sleeps := 0, 0;
      var attempt: nat := 0;
      ghost var total := RetryLoop(up, settings.maxRetries, 0);
      FetchByLoop(settings, files, now, symbol, start, end, up);
      while attempt < settings.maxRetries
        invariant files == old(files)
        invariant attempts == attempt
        invariant attempt <= (if settings.maxRetries > 0 then settings.maxRetries else 0)
        invariant var rest := RetryLoop(up, settings.maxRetries, attempt);
                  total.found == rest.found && total.attempts == attempt + rest.attempts && total.sleeps == sleeps + rest.sleeps
        decreases settings.maxRetries - attempt
      {
        RetryNext(up, settings.maxRetries, attempt);
        var a := up.attempt(attempt);
        attempts := attempts + 1;
        if a.response.Some? && !a.response.value.IsEmpty() {
          if a.saved.Some? {
            files := files.Put(key, DataFile(a.response, a.savedAt, a.saved.value));
            return Returned(a.response), attempts, sleeps;
          }
          // to_parquet raised
          if attempt < settings.maxRetries - 1 {
            sleeps := sleeps + 1;
          }
        }
        attempt := attempt + 1;
      }
      out := Returned(None);
    }

    /**
     * `sync_stock_data`. A `SemaphoreRaised` result stands for the exception
     * the source lets escape, and `Blocked` for a call that never returns; in
     * both the state is as it was.
     */
    method SyncStockData(symbols: seq<string>, start: string, end: string, ups: seq<Upstream>)
      returns (r: BatchRun)
      requires Valid() && |symbols| == |ups|
      modifies this`files, this`status
      ensures Valid()
      ensures r == SyncBatch(settings, nowText, now, old(files), old(status), symbols, start, end, ups)
      ensures r.Completed? ==> files == r.effect.files && status == r.effect.status
      ensures !r.Completed? ==> files == old(files) && status == old(status)
    {
      if settings.maxConcurrent < 0 {
        return SemaphoreRaised(SemaphoreMessage);
      }
      if settings.maxConcurrent == 0 && symbols != [] {
        // every task waits on the semaphore for ever
        return Blocked;
      }
      ghost var files0 := files;
      var completed := RunFetches(symbols, start, end, ups);
      ghost var batch := Batch(completed, files);
      assert batch == RunTasks(settings, files0, now, symbols, start, end, ups, |symbols|);
      var results, errors := Collect(symbols, completed);
      var errs := status.errors;
      if errors != [] {
        errs := MergeErrors(errs, errors);
      }
      status := SyncStatus(Some(nowText), status.syncCount + 1, errs, nowText, settings.user);
      assert status == RecordBatch(old(status), errors, nowText, settings.user);
      r := Completed(BatchEffect(results, files, status));
    }

    /** The tasks of one batch, run in creation order; each sees the files the earlier ones left. */
    method RunFetches(symbols: seq<string>, start: string, end: string, ups: seq<Upstream>)
      returns (completed: seq<TaskOutcome>)
      requires Valid() && |symbols| == |ups|
      modifies this`files
      ensures Valid()
      ensures Batch(completed, files) == RunTasks(settings, old(files), now, symbols, start, end, ups, |symbols|)
    {
      completed := [];
      var i := 0;
      while i < |symbols|
        invariant 0 <= i <= |symbols|
        invariant Valid()
        invariant Batch(completed, files) == RunTasks(settings, old(files), now, symbols, start, end, ups, i)
      {
        RunTasksNext(settings, old(files), now, symbols, start, end, ups, i, completed, files);
        var o, _, _ := FetchStockData(symbols[i], start, end, ups[i]);
        completed := completed + [o];
        i := i + 1;
      }
    }

    /** `sync_all_data`; `AllBlocked` stands for a call that never returns. */
    method SyncAllData(symbols: seq<string>, start: string, end: string, ups: seq<Upstream>, indexUp: Upstream)
      returns (r: AllRun)
      requires Valid() && |symbols| == |ups|
      modifies this`files, this`status
      ensures Valid()
      ensures r == SyncAll(settings, nowText, now, old(files), old(status), symbols, start, end, ups, indexUp)
      ensures files == r.files && status == r.status
    {
      var first := SyncStockData(symbols, start, end, ups);
      if first.SemaphoreRaised? {
        // the `except` branch: the error text is the only entry
        r := AllReturned(AllResults(Empty(), Empty(), Empty(), [first.message], nowText), files, status);
      } else if first.Blocked? {
        r := AllBlocked(files, status);
      } else {
        r := FinishAll(first.effect.results, start, end, indexUp);
      }
    }

    /** The index batch and the final status update of `sync_all_data`. */
    method FinishAll(stocks: Dict<string, Frame>, start: string, end: string, indexUp: Upstream) returns (r: AllRun)
      requires Valid()
      modifies this`files, this`status
      ensures Valid()
      ensures r == AfterStocks(settings, nowText, now, old(files), old(status), stocks, start, end, indexUp)
      ensures files == r.files && status == r.status
    {
      ghost var want := AfterStocks(settings, nowText, now, files, status, stocks, start, end, indexUp);
      var second := SyncStockData(IndexSymbols, start, end, [indexUp]);
      if second.SemaphoreRaised? {
        r := AllReturned(AllResults(stocks, Empty(), Empty(), [second.message], nowText), files, status);
      } else if second.Blocked? {
        r := AllBlocked(files, status);
      } else {
        status := SyncStatus(Some(nowText), status.syncCount + 1, status.errors, nowText, settings.user);
        r := AllReturned(AllResults(stocks, second.effect.results, Empty(), [], nowText), files, status);
      }
      assert r == want;
    }

    /**
     * `clean_expired_cache` over the three data directories: every stale
     * parquet file whose unlink succeeds is deleted; the counts are the ones
     * the source logs.
     */
    method CleanExpiredCache(locked: set<FileKey>) returns (cleaned: nat, freed: nat)
      requires Valid()
      modifies this`files
      ensures Valid()
      ensures files.items == old(files).items - DoomedSet(settings, old(files), now, locked)
      ensures cleaned == |DoomedSet(settings, old(files), now, locked)|
      ensures freed == FreedIn(settings, old(files), now, locked, old(files).keys)
    {
      ghost var f0 := files;
      var ks := files.keys;
      cleaned, freed := 0, 0;
      var i := 0;
      while i < |ks|
        invariant 0 <= i <= |ks| && ks == f0.keys
        invariant Valid()
        invariant SweptUpTo(settings, f0, now, locked, i, files.items, cleaned, freed)
      {
        var k := ks[i];
        CleanNext(settings, f0, now, locked, i, files.items, cleaned, freed);
        if IsParquet(k.name) && Stale(settings, files.items[k], now) {
          var size := files.items[k].size;
          if k !in locked {
            files := files.Remove(k);
            cleaned := cleaned + 1;
            freed := freed + size;
          }
          // an unlink failure is logged and the file stays
        }
        i := i + 1;
      }
      assert ks[..|ks|] == ks;
      assert SweptUpTo(settings, f0, now, locked, |ks|, files.items, cleaned, freed);
      DoomedInAll(settings, f0, now, locked);
    }
  }
}
