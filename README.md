# TrendQuest data layer and registries, in Dafny

This project models the data-acquisition and caching core of TrendQuest, a
Chinese-equities backtesting tool, together with its small in-memory
registries:

- `Cache` (cache.dfy): the typed key/value file cache `CacheManager`. It has
  a JSON index of entries, lazy expiry on `get`, an explicit expiry sweep,
  and an interval-gated cleanup that evicts the oldest entries until the
  cache fits its size cap.
- `Loader` (loader.dfy): the engine's stock `DataLoader`. It turns a stock
  code into the three address formats its providers expect, tries the
  providers in order (baostock, tushare, akshare), and memoises results.
- `Sync` (sync.dfy): `DataSyncService`. It fetches each symbol cache-first,
  with a bounded retry loop. A batch collects results and errors and
  updates a persistent sync-status record. A sweep deletes stale parquet
  files.
- `Pools` (pools.dfy): `StockPoolManager`, the named pools of stocks.
- `Strategies` (strategies.dfy): `StrategyFactory`, the strategy registry.
  Lookup accepts a code or a display name.
- `Config` (config.dfy): `ConfigManager`. It merges the YAML file into the
  defaults with the recursive `_deep_update`, reads and updates by section,
  and stamps `_metadata` on save.
- `Events` (events.dfy): `EventSystem`, a registry of subscriptions with an
  ordered dispatch.
- Support modules:
  - `Dicts` (dicts.dfy) models Python's insertion-ordered `dict` as a key
    sequence beside a map. Eviction ties and the registry search depend on
    that order.
  - `Wrappers` (wrappers.dfy) holds `Option` and `Result`.
  - `Frames` (frames.dfy) holds an abstract table.

Each component has two layers:

- Pure functions over its state. Their names end in `Step` where they model
  one method call. Their contracts and the lemmas beside them state what
  the component promises.
- A class with the source's fields. Its methods follow the source's
  statements and loops, and are proved equal to those functions.

Exceptions the source catches become explicit outcomes: a `bool`, `None`,
or a `Result` error.

Behaviours of the code a reader may not expect:

- `sync_stock_data` merges new errors into the status record's `errors`
  map. It never clears the entries of symbols that later succeed
  (`Sync.StaleErrorKept`).
- At construction, the cache, sync and pool components freeze the clock as
  a constant. Because of that, the cache's cleanup interval can never pass
  for a non-negative interval.
  The model takes the time as a parameter (`CacheManager.SetTime`), so the
  eviction logic is reachable.
- `get_config` and `update_config` test `if section:`, so an empty section
  name means "the whole config".
- In the cache's eviction loop, a `delete` that fails (its `unlink` raises)
  changes nothing, so the next round picks the same oldest key and fails
  again: `_check_cleanup`, and the `set` that called it, never return. The
  model reports this as a `spins` flag (`Cache.EvictSpinsForever`); when no
  indexed file is locked the loop always ends (`Cache.EvictEndsUnlocked`).
- `set` opens the cache file for writing before it serialises the value. A
  serialiser that raises leaves the old index entry pointing at a truncated
  file, so the next `get` gives None (`Cache.FailedDumpBreaksGet`).
- The sync service stamps saved parquet files with the wall-clock time of
  the write, but judges their age against its frozen `current_time`. A file
  written after that instant has a negative age and, for a non-negative
  `cache_days`, never expires (`Sync.StampedLaterIsFresh`).

## Model

| member | source | states |
|---|---|---|
| Dicts.Dict.Put | utils/cache_manager.py:131-137 | assignment maps the key to the value; an existing key keeps its place in the order, a new key goes last |
| Dicts.Dict.Remove | utils/cache_manager.py:215 | `del` removes exactly that key from the map and from the order and keeps the dict well formed |
| Dicts.PutThenRemove | stock_pool_manager.py:91-209 | creating a new pool and deleting it restores the registry dict, order included |
| Dicts.PutPut | utils/config_manager.py:104-109 | assigning a key twice equals assigning the second value, in the first assignment's place |
| Dicts.CountKeys | stock_pool_manager.py:226 | `len` of a dict is the length of its key order |
| Cache.DetectType | utils/cache_manager.py:109-115 | a DataFrame is stored as `dataframe`, dict/list/str/int/float/bool as `json`, every other class as `pickle` |
| Cache.CachePath | utils/cache_manager.py:84-86 | the path lies under `dir/type/`, its length fixed by the directory, key and type |
| Cache.CachePathInjective | utils/cache_manager.py:84-86 | two keys stored under plain types (no `/`, not empty, not `.`; the three formats among them) never share a path as text; pathlib's folding of keys is admitted under Left out |
| Cache.TotalSizeRemove | utils/cache_manager.py:293-300 | deleting an indexed key lowers `get_cache_size` by exactly that entry's size |
| Cache.TotalSize | utils/cache_manager.py:293-300 | the sum of the entries' sizes: zero for an empty index, and at least each entry's size |
| Cache.CacheStats | utils/cache_manager.py:302-323 | the item count and byte total match the index; each of the three formats is counted as the number of indexed entries of that type; a zero cap raises and gives `{}` |
| Cache.TypeCountCounts | utils/cache_manager.py:316-319 | the per-type count is the number of entries in the index with that type |
| Cache.TypesCountCoversItems | utils/cache_manager.py:316-319 | when every entry has one of the three formats, the per-type counts add up to the item count |
| Cache.EffectiveTtl | utils/cache_manager.py:134 | `ttl or default_ttl`: a missing or zero ttl falls back to the default |
| Cache.ChosenType | utils/cache_manager.py:108-115 | the caller's type when given; otherwise one of the three formats, `dataframe` exactly for a DataFrame |
| Cache.Writable | utils/cache_manager.py:109-128 | a write gets through only when the serialisation completes, and a `dataframe` only for a DataFrame; any other type, known or not, gets through exactly when its write completes (the pickle branch) |
| Cache.WriteStep | utils/cache_manager.py:107-149 | True iff the type opens a file and the value is written (`Writable`); then the key's record is `(type, now, now + ttl, size, user)` and its file holds the value; a `dataframe` type for a non-DataFrame or a failed open (for an unknown type, a missing `dir/type/` directory) changes nothing, while an unknown type whose directory exists is written through the pickle branch and indexed under that type; a serialiser that raises leaves the index and a truncated file that does not read back |
| Cache.DeleteStep | utils/cache_manager.py:192-223 | True iff the key is indexed and its file, if present, can be unlinked; then only that record and its file go; otherwise nothing changes |
| Cache.GetStep | utils/cache_manager.py:151-190 | absent gives None; expired strictly before now gives None and hands the key to `delete`; otherwise the state is kept and the value is the one its file reads back, None when the file is missing or unreadable |
| Cache.SweepExpiredSpec | utils/cache_manager.py:250-270 | exactly the entries with `expires_at < now` whose file can be removed go, with their files; an expired entry whose unlink raises stays; survivors keep their records; the count is the number removed |
| Cache.SweepExpired | utils/cache_manager.py:250-270 | the sweep only removes entries, counts at most one per key, and leaves the locked paths alone |
| Cache.SweepStuck | utils/cache_manager.py:259-263 | an expired key whose unlink raises is skipped: the sweep's state does not change and it is not counted |
| Cache.Oldest | utils/cache_manager.py:282-285 | the evicted key has the least `created_at` in the index |
| Cache.FirstMinIndex | utils/cache_manager.py:282-285 | `min` returns the first minimal key in insertion order |
| Cache.Evict | utils/cache_manager.py:281-286 | eviction only removes entries, and never changes which paths are locked |
| Cache.EvictWithinCap | utils/cache_manager.py:281-286 | when the loop ends the cache is within its cap or empty; when it spins, it is over the cap and its oldest file cannot be removed |
| Cache.EvictSpinsForever | utils/cache_manager.py:281-286 | at the state where the loop spins the guard still holds and a further round changes nothing, so the loop never ends |
| Cache.EvictEndsUnlocked | utils/cache_manager.py:281-286 | when no indexed file's unlink raises, the eviction loop ends |
| Cache.EvictShrinks | utils/cache_manager.py:281-286 | eviction only removes entries and files; survivors keep their records and files |
| Cache.EvictOldestFirst | utils/cache_manager.py:281-286 | each evicted key's file is gone, and no survivor was created before an evicted entry |
| Cache.EvictStopsAtCap | utils/cache_manager.py:281 | a cache already within its cap loses nothing |
| Cache.EvictRemovesOnlyEvictedFiles | utils/cache_manager.py:281-286 | every file eviction removes belongs to an evicted key |
| Cache.CleanupStep | utils/cache_manager.py:272-291 | nothing happens unless more than the interval has passed; then it sweeps and evicts, and restamps `last_cleanup` unless the eviction loop spins |
| Cache.SetStep | utils/cache_manager.py:88-149 | True exactly when the write succeeds; a failed set leaves the index and `last_cleanup` alone and runs no cleanup |
| Cache.SetThenGet | utils/cache_manager.py:88-190 | with no cleanup due, a successful set returns and is read back by get before expiry, with the record's stamps and size |
| Cache.OtherTypeWritten | utils/cache_manager.py:118-137 | an explicit type other than `json` and `dataframe` (the empty type, say) is written by the pickle branch once its `open` succeeds, indexed under that type and read back by get |
| Cache.FailedDumpBreaksGet | utils/cache_manager.py:120-137 | a set whose serialiser raises after the open keeps the old index entry, and a get of that live entry then gives None |
| Cache.SetThenGetAfterCleanup | utils/cache_manager.py:88-190 | when the cleanup runs and keeps the key, get still returns the value set |
| Cache.CleanupKeepsRead | utils/cache_manager.py:151-286 | an unexpired entry whose file holds a value, and which the sweep and eviction keep, is still read back by get |
| Cache.SweepKeepsFile | utils/cache_manager.py:250-270 | the sweep keeps every unexpired key's record and file |
| Cache.EvictKeepsFile | utils/cache_manager.py:281-286 | eviction keeps the file of every key it keeps |
| Cache.GetExpiredDrops | utils/cache_manager.py:170-173 | get on an expired key returns None; its record and file go unless the unlink raises, in which case nothing changes; a second get also gives None |
| Cache.DeleteTwice | utils/cache_manager.py:203-204 | a second delete of the same key reports False and changes nothing |
| Cache.CacheManager.constructor | utils/cache_manager.py:24-74 | the settings in bytes and seconds; the index loaded, or empty when the index file is missing or unreadable |
| Cache.CacheManager.SetTime | utils/cache_manager.py:31 | moves the instant the cache uses as `current_time`, which the source fixes at construction |
| Cache.CacheManager.Set | utils/cache_manager.py:88-149 | the result, new state, `last_cleanup` and spin flag of `SetStep` |
| Cache.CacheManager.Write | utils/cache_manager.py:107-137 | the result and new state of `WriteStep`, including the truncated file a failing serialiser leaves |
| Cache.CacheManager.Get | utils/cache_manager.py:151-190 | the result and new state of `GetStep` |
| Cache.CacheManager.Delete | utils/cache_manager.py:192-223 | the result and new state of `DeleteStep` |
| Cache.CacheManager.Clear | utils/cache_manager.py:225-248 | True iff no file on disk is locked; then the index and the files are emptied; otherwise the index is kept, no file appears, and every locked file remains |
| Cache.CacheManager.CleanExpiredCache | utils/cache_manager.py:250-270 | the loop over a snapshot of the keys, counting only deletes that return True, leaves the state and count of `SweepExpired` |
| Cache.CacheManager.CheckCleanup | utils/cache_manager.py:272-291 | the state, `last_cleanup` and spin flag of `CleanupStep` |
| Cache.CacheManager.EvictOldest | utils/cache_manager.py:281-286 | the while loop leaves the state of `Evict`, and stops with `spins` at the first delete that fails |
| Cache.CacheManager.GetCacheSize | utils/cache_manager.py:293-300 | the total of the index's sizes, at least each entry's size |
| Cache.CacheManager.GetCacheStats | utils/cache_manager.py:302-324 | the statistics of `CacheStats`, whose item count is the index's size |
| Loader.ExchangeTable | engine/data_loader.py:28-32 | every known prefix maps to `sh` or `sz`; `sh` exactly for 600, 601, 603 and 605 |
| Loader.ReplaceAll | engine/data_loader.py:48 | `str.replace(pat, '')` never lengthens the code, and leaves a code without the pattern's first character unchanged |
| Loader.Clean | engine/data_loader.py:48 | removing every `sh` and `sz` never lengthens the code, and leaves a code without an `s` as it is |
| Loader.Take3 | engine/data_loader.py:51 | `[:3]` clamps to the string's length and is a prefix |
| Loader.Upper | engine/data_loader.py:60 | ASCII upper-casing, character by character |
| Loader.FormatStockCode | engine/data_loader.py:38-62 | succeeds exactly when the stripped code's first three characters are a known prefix, giving `ex.code`, `code.EX` and `code`; otherwise fails with the source's message |
| Loader.FormatNumericCode | engine/data_loader.py:47-62 | a plain numeric code with a known prefix is used as is, tagged with the table's exchange |
| Loader.ExchangePrefixIgnored | engine/data_loader.py:48 | an `sh` or `sz` prefix on a numeric code is ignored |
| Loader.ShortCodeRejected | engine/data_loader.py:51-55 | a stripped code shorter than three characters is rejected |
| Loader.Failover | engine/data_loader.py:89-100 | the answer is the first non-None in provider order, and the providers asked are exactly those up to it |
| Loader.FailoverFirstWins | engine/data_loader.py:89-100 | later providers' answers play no part once one has answered |
| Loader.Failover3 | engine/data_loader.py:89-100 | the three-provider chain in closed form |
| Loader.Ask | engine/data_loader.py:240-253 | a missing date makes the provider's loader give None |
| Loader.DataLoader.LoadStockData | engine/data_loader.py:64-117 | a memo hit asks nobody; an unknown code asks nobody and gives None; otherwise the failover result, with the providers asked in order, memoised when found |
| Loader.DataLoader.LoadIndexData | engine/data_loader.py:240-280 | the same provider order with index addresses; the memo is neither read nor written |
| Loader.LoadTwice | engine/data_loader.py:82-84 | a second load of the same stock and dates is served from the memo and asks nobody |
| Sync.StockFile | utils/data_sync.py:183 | a symbol's cache file is a parquet file in the stock directory whose name starts with the symbol |
| Sync.Stale | utils/data_sync.py:287-288 | `timedelta.days >= cache_days` holds exactly when the age in seconds reaches `cache_days` whole days |
| Sync.IsCacheExpired | utils/data_sync.py:282-288 | expired iff the file is missing or its age reaches `cache_days` days |
| Sync.StaleStaysStale | utils/data_sync.py:282-288 | a cache file, once expired, stays expired as time goes on |
| Sync.FreshWithinADay | utils/data_sync.py:282-288 | a file written less than a day before `now`, or at any time after it, is fresh when at least a day of cache is kept |
| Sync.StampedLaterIsFresh | utils/data_sync.py:282-288 | a file stamped after `now` is fresh for every non-negative `cache_days`, 0 included |
| Sync.RetryLoop | utils/data_sync.py:193-213 | a success it reports lies within the `max_retries` attempts, after the start, and is a saved non-empty table |
| Sync.RetryLoopSpec | utils/data_sync.py:193-213 | at most `max_retries` attempts; the loop stops at the first saved non-empty table; it sleeps after each raising attempt except the last one made |
| Sync.RetriesExhausted | utils/data_sync.py:193-213 | when every attempt raises, exactly `max_retries` attempts and one sleep fewer |
| Sync.Fetch | utils/data_sync.py:175-213 | a probe error escapes the asyncio task; a fresh readable file is served; otherwise the retry loop runs, and a table it finds is saved with the write's own time as its modification time |
| Sync.CacheFirst | utils/data_sync.py:186-188 | a fresh, readable cache file is served without any API attempt |
| Sync.FetchThenCached | utils/data_sync.py:186-205 | a table fetched and saved, at a time after `now` or less than a day before it, is served from the cache by the next fetch |
| Sync.RunTasks | utils/data_sync.py:131-143 | one outcome per symbol, each task seeing the files the previous ones left |
| Sync.Aggregate | utils/data_sync.py:145-150 | at most one error and one new result key per task |
| Sync.AggregateResults | utils/data_sync.py:145-150 | a symbol is in the results iff one of its tasks delivered a table, and the stored table is the last one delivered |
| Sync.AggregateHas | utils/data_sync.py:145-150 | a symbol is in the results iff one of its tasks delivered a table |
| Sync.AggregateLastWins | utils/data_sync.py:145-150 | a stored table is the one delivered by the last task of that symbol that delivered one |
| Sync.AggregateErrors | utils/data_sync.py:145-148 | the error list holds exactly the raised tasks, with their symbols and messages |
| Sync.Collect | utils/data_sync.py:145-150 | the loop over the gathered outcomes builds the results and errors of `Aggregate` |
| Sync.LoadSyncStatus | utils/data_sync.py:73-87 | the stored record, or a fresh one (no last sync, count 0, no errors, stamped) when the file is missing or unreadable |
| Sync.LastFor | utils/data_sync.py:156-158 | finds a message for a symbol iff some error names it |
| Sync.MergeErrors | utils/data_sync.py:156-158 | every symbol already recorded keeps an entry, and each reported error adds at most one |
| Sync.MergeErrorsSpec | utils/data_sync.py:156-158 | `update` adds each reported symbol with its last message and keeps every other entry |
| Sync.RecordBatch | utils/data_sync.py:153-159 | the count goes up by one, `last_sync` and the save stamp are set, and errors are merged only when there are any |
| Sync.StaleErrorKept | utils/data_sync.py:155-158 | an error recorded earlier survives a batch in which that symbol does not fail |
| Sync.SyncBatch | utils/data_sync.py:100-161 | a negative `max_concurrent` raises the semaphore's ValueError before anything changes; a value of 0 with any symbol blocks for ever; otherwise the batch returns, increments the sync count and sets `last_sync` |
| Sync.SyncBatchRecords | utils/data_sync.py:145-159 | a batch that returns updates the status as `RecordBatch` does with the errors its tasks raised: count, `last_sync`, save stamp and merged errors |
| Sync.RaisedIffReported | utils/data_sync.py:145-148 | a symbol is named in the aggregated error list iff one of its tasks raised |
| Sync.RecordBatchErrors | utils/data_sync.py:155-158 | after the status update a symbol has an error iff it had one or was reported, and one not reported keeps its message |
| Sync.SyncBatchResults | utils/data_sync.py:145-150 | the results of a batch that returns hold exactly the symbols whose task delivered a table |
| Sync.SyncBatchErrors | utils/data_sync.py:145-158 | after a batch that returns, a symbol has a recorded error iff it had one before or one of its tasks raised; a symbol none of whose tasks raised keeps its old message |
| Sync.AfterStocks | utils/data_sync.py:333-343 | after the stock batch: 0 blocks; otherwise the stock results are kept and `crypto` is empty, and with `max_concurrent >= 1` the index batch and the final update raise the count by two with no error |
| Sync.SyncAll | utils/data_sync.py:312-345 | `crypto` is always empty; a negative `max_concurrent` is caught, giving empty stocks and indices, the semaphore's message as the only error and an unchanged state; 0 never returns; otherwise a stock batch, an index batch of 000300 and one more update: the count rises by three and the error list is empty |
| Sync.DataSyncService.constructor | utils/data_sync.py:31-71 | the settings, the data directory, and the status loaded from its file |
| Sync.DataSyncService.FetchStockData | utils/data_sync.py:175-213 | the outcome, files, attempts and sleeps of `Fetch` |
| Sync.DataSyncService.SyncStockData | utils/data_sync.py:100-161 | the outcome of `SyncBatch`; files and status are the batch's when it returns, and unchanged when it raises or blocks |
| Sync.DataSyncService.RunFetches | utils/data_sync.py:130-143 | the loop creating one task per symbol yields the outcomes and files of `RunTasks` |
| Sync.DataSyncService.SyncAllData | utils/data_sync.py:312-345 | the outcome, files and status of `SyncAll` |
| Sync.DataSyncService.FinishAll | utils/data_sync.py:333-343 | the outcome, files and status of `AfterStocks` |
| Sync.IsParquet | utils/data_sync.py:296 | `glob('*.parquet')` matches exactly the names made of a stem and the `.parquet` suffix |
| Sync.Doomed | utils/data_sync.py:296-301 | a file the sweep deletes is present, unlocked and at least `cache_days` days old |
| Sync.DataSyncService.CleanExpiredCache | utils/data_sync.py:290-306 | exactly the stale parquet files whose unlink succeeds are deleted; the counts are their number and total size |
| Sync.DataSyncService.GetSyncStatus | utils/data_sync.py:308-310 | the status record as it stands |
| Pools.InitialPools | stock_pool_manager.py:17-71 | the CSI 300 and CSI 500 sample pools, in that order, two stocks each |
| Pools.CreateStep | stock_pool_manager.py:91-120 | True iff the name is new; then an empty pool is appended; otherwise no change |
| Pools.AddStep | stock_pool_manager.py:122-155 | True iff the pool exists; then the stock is inserted or overwritten and the pool restamped |
| Pools.RemoveStep | stock_pool_manager.py:157-187 | True iff the pool and the stock exist; then only that stock goes and the pool is restamped |
| Pools.DeleteStep | stock_pool_manager.py:189-209 | True iff the pool exists; then only that pool goes |
| Pools.PoolSymbols | stock_pool_manager.py:77-89 | the pool's stocks, or `{}` for an unknown pool |
| Pools.PoolInfoOf | stock_pool_manager.py:211-231 | None iff the pool is unknown; otherwise the pool record and its stock count |
| Pools.CreateThenDelete | stock_pool_manager.py:91-209 | deleting a pool just created restores the registry, order included |
| Pools.AddThenRemove | stock_pool_manager.py:122-187 | removing a stock just added restores the pool's stocks; only the update stamp moved |
| Pools.AddExistingOverwrites | stock_pool_manager.py:139-144 | adding a stock already there overwrites it in place |
| Pools.OtherPoolsUntouched | stock_pool_manager.py:122-187 | adding to or removing from one pool leaves every other pool as it was |
| Pools.StockPoolManager.constructor | stock_pool_manager.py:11-15 | the frozen time and user, and the initial pools |
| Pools.StockPoolManager.CreatePool | stock_pool_manager.py:91-120 | the result and new registry of `CreateStep` |
| Pools.StockPoolManager.AddSymbol | stock_pool_manager.py:122-155 | the result and new registry of `AddStep` |
| Pools.StockPoolManager.RemoveSymbol | stock_pool_manager.py:157-187 | the result and new registry of `RemoveStep` |
| Pools.StockPoolManager.DeletePool | stock_pool_manager.py:189-209 | the result and new registry of `DeleteStep` |
| Pools.StockPoolManager.GetAllPools | stock_pool_manager.py:73-75 | the whole registry, every pool in creation order |
| Pools.StockPoolManager.GetPoolSymbols | stock_pool_manager.py:77-89 | the pool's stocks, or `{}` for an unknown pool |
| Pools.StockPoolManager.GetPoolInfo | stock_pool_manager.py:211-231 | None iff the pool is unknown; otherwise the pool record and its stock count |
| Strategies.FindDisplay | strategies/strategy_factory.py:75-77 | the first entry at or after a position, in registration order, whose display name matches |
| Strategies.Available | strategies/strategy_factory.py:80-83 | one `display (code)` entry per registered strategy |
| Strategies.Lookup | strategies/strategy_factory.py:60-89 | a code wins; else the first matching display name; it fails iff neither matches, with the query and the available list |
| Strategies.RegisterStep | strategies/strategy_factory.py:91-104 | fails with the TypeError message iff the class does not derive from BaseStrategy; otherwise `map[name] = info` |
| Strategies.RegisterThenLookup | strategies/strategy_factory.py:71-104 | after registering, the code resolves to the new class |
| Strategies.ReRegisterKeepsOrder | strategies/strategy_factory.py:104 | re-registering a code keeps the registry's size and order |
| Strategies.DisplayNamesUpTo | strategies/strategy_factory.py:123-126 | the display-name map is a well-formed dict |
| Strategies.DisplayNames | strategies/strategy_factory.py:116-126 | a well-formed dict in which every display name leads, by its code, to a class with that display name |
| Strategies.DisplayNamesStep | strategies/strategy_factory.py:123-126 | the dict's pairs are those of assigning each entry's display name its code, in registration order |
| Strategies.NamesMapKeys | strategies/strategy_factory.py:123-126 | the pairs hold exactly the display names of the entries assigned so far |
| Strategies.NamesMapLastWins | strategies/strategy_factory.py:123-126 | a display name maps to the code of its last entry so far |
| Strategies.DisplayNamesLastWins | strategies/strategy_factory.py:116-126 | the map holds exactly the registered display names, and a shared display name maps to the code registered last under it |
| Strategies.DisplayNameRoundTrip | strategies/strategy_factory.py:116-126 | looking a display name up in the map gives a code whose display name it is |
| Strategies.BuiltIns | strategies/strategy_factory.py:42-58 | the built-in registry is well formed |
| Strategies.BuiltInsRegistered | strategies/strategy_factory.py:42-89 | DualMA and MACD, in that order; DualMA resolves by code and by display name; an unknown name fails |
| Strategies.StrategyFactory.constructor | strategies/strategy_factory.py:26-58 | the registry is the built-ins |
| Strategies.StrategyFactory.GetStrategy | strategies/strategy_factory.py:60-89 | the result of `Lookup`, by a loop over the registry in order |
| Strategies.StrategyFactory.RegisterStrategy | strategies/strategy_factory.py:91-104 | the error and new registry of `RegisterStep` |
| Strategies.StrategyFactory.ListStrategies | strategies/strategy_factory.py:107-114 | a copy of the registry as it stands |
| Strategies.StrategyFactory.GetDisplayNames | strategies/strategy_factory.py:116-126 | the map of `DisplayNames`; every name in it leads back to a class with that display name |
| Config.DeepMerge | utils/config_manager.py:119-126 | a non-dict base with a non-empty update raises and is unchanged; a dict base stays a dict |
| Config.MergeEntries | utils/config_manager.py:121-125 | the loop over `update.items()` keeps every base key in its place, so new keys come after them |
| Config.MergeEntriesKeys | utils/config_manager.py:121-125 | the loop only adds keys, and adds every update key when it runs to the end |
| Config.MergeEntriesKeepsBase | utils/config_manager.py:121-125 | a key only base has keeps its value |
| Config.RoundValue | utils/config_manager.py:122-125 | one round gives its key the nested merge or the update's value |
| Config.MergeEntriesRound | utils/config_manager.py:121-125 | a key keeps the value its round gave it |
| Config.DeepMergeKeys | utils/config_manager.py:119-126 | the merged keys are the union of base's and update's |
| Config.DeepMergeKeepsBase | utils/config_manager.py:119-126 | keys only base has keep their values, even when the merge raised |
| Config.DeepMergeValue | utils/config_manager.py:122-125 | when the merge returns, a non-dict value or a new key overwrites, and a dict value for an existing key is the nested merge, which also returned |
| Config.MergeEntriesOk | utils/config_manager.py:121-125 | the loop runs without an exception iff none of its rounds raises |
| Config.RoundOkAt | utils/config_manager.py:121-125 | a round started without an exception returns iff its own nested merge returns |
| Config.DeepMergeOk | utils/config_manager.py:119-126 | `_deep_update` returns iff each of its recursive merges returns |
| Config.FailureSticks | utils/config_manager.py:121-125 | once the loop has raised, later rounds change nothing |
| Config.DeepUpdate | utils/config_manager.py:119-126 | the loop, with its recursion, yields the tree and outcome of `DeepMerge` |
| Config.LoadStep | utils/config_manager.py:52-72 | a missing file stamps the defaults, saves them and loads them; a parsed dict is merged into the defaults; anything else falls back to the defaults |
| Config.EmptyDocumentLoadsDefaults | utils/config_manager.py:60-64 | an empty document loads the defaults unchanged |
| Config.LoadKeepsSections | utils/config_manager.py:52-72 | whatever the file holds, no default section is lost |
| Config.UpdateStep | utils/config_manager.py:100-117 | True only when the file is written, and then the file holds the config stamped with `_metadata`; a False result leaves the file as it was |
| Config.UpdateSectionOnly | utils/config_manager.py:100-117 | a section update changes only that section and the stamp; it succeeds iff the merge returns and the file is written |
| Config.UpdateCreatesSection | utils/config_manager.py:103-105 | updating a missing section with nothing creates it empty |
| Config.UpdateWholeConfig | utils/config_manager.py:110-113 | a whole-config update keeps every key it does not name |
| Config.UpdateThenGet | utils/config_manager.py:94-117 | after a section update that returns, the section holds its old keys and the updated ones |
| Config.DefaultConfig | utils/config_manager.py:23-47 | the defaults hold the sections `system`, `trading`, `backtest` and `display`, in that order, each a dict |
| Config.WithMetadata | utils/config_manager.py:80-83 | the stamp adds or replaces `_metadata` with the time and user, keeps every other key and value and the key order |
| Config.SectionOf | utils/config_manager.py:94-98 | an empty name gives the whole config; a known section gives that section; an unknown one gives `{}` |
| Config.ConfigManager.constructor | utils/config_manager.py:15-50 | the defaults, then `LoadStep` |
| Config.ConfigManager.LoadConfig | utils/config_manager.py:52-72 | the config, defaults and file of `LoadStep` |
| Config.ConfigManager.SaveConfig | utils/config_manager.py:74-92 | the dict is stamped with `_metadata`; the file holds it when the write succeeds |
| Config.ConfigManager.GetConfig | utils/config_manager.py:94-98 | the section by name, as `SectionOf`: the whole config, the section, or `{}` |
| Config.ConfigManager.UpdateConfig | utils/config_manager.py:100-117 | the result, config and file of `UpdateStep` |
| Events.IndexOf | utils/event_system.py:39 | the position of the first occurrence |
| Events.RemoveFirst | utils/event_system.py:39 | `list.remove` takes out the first occurrence and the rest keep their order: the result is the list without the element at the first index holding the handler, so one element fewer and the same multiset minus the handler |
| Events.RemoveAppended | utils/event_system.py:33-39 | removing a handler appended to a list without it gives the list back |
| Events.SubscribeStep | utils/event_system.py:31-34 | the handler goes last in its type's list, created if missing; other types unchanged |
| Events.UnsubscribeStep | utils/event_system.py:36-40 | an unknown type is a no-op; a missing handler raises ValueError; otherwise the first occurrence goes, the rest keep their order, and other types are unchanged |
| Events.TurnOf | utils/event_system.py:44-53 | a call that raises is logged, whatever the kind of handler; a coroutine function whose call returns is scheduled; a plain function is called |
| Events.Dispatch | utils/event_system.py:44-53 | every handler gets its turn in subscription order, whatever earlier handlers did; a raising call is logged, and only coroutine functions whose call returns are scheduled |
| Events.PublishStep | utils/event_system.py:42-56 | an unknown type runs nothing; otherwise one turn per handler |
| Events.DispatchAppend | utils/event_system.py:44-53 | a handler added last takes the last turn |
| Events.PublishAfterSubscribe | utils/event_system.py:31-56 | a newly subscribed handler takes the last turn |
| Events.SubscribeThenUnsubscribe | utils/event_system.py:31-40 | unsubscribing what was just subscribed succeeds and restores the list's handlers |
| Events.SubscribeThenUnsubscribeRestores | utils/event_system.py:31-40 | when the handler was not yet there, the registry comes back exactly (an empty list for a new type) |
| Events.OtherTypesUntouched | utils/event_system.py:31-40 | subscribing or unsubscribing under one type leaves other types as they were |
| Events.ClearSilences | utils/event_system.py:58-60 | after clear, publishing runs no handler and unsubscribing is a no-op |
| Events.EventSystem.constructor | utils/event_system.py:24-29 | no handlers |
| Events.EventSystem.Subscribe | utils/event_system.py:31-34 | the new registry of `SubscribeStep` |
| Events.EventSystem.Unsubscribe | utils/event_system.py:36-40 | the error and new registry of `UnsubscribeStep` |
| Events.EventSystem.Publish | utils/event_system.py:42-56 | the turns of `PublishStep`, by a loop over the handlers |
| Events.EventSystem.Clear | utils/event_system.py:58-60 | no handlers remain |

## Left out

- Concurrency. `sync_stock_data` runs its tasks concurrently, with an
  `asyncio.Semaphore` and `gather` (utils/data_sync.py:127-143). The model
  runs them one after another in symbol order. Of the semaphore it keeps
  only what its initial value decides: a negative value raises before any
  task exists, and 0 makes every task wait for ever (`Sync.Blocked`,
  `Sync.AllBlocked`, which stand for a call that never returns). `publish` wraps coroutine
  handlers in tasks and gathers them; the model records them as scheduled
  and does not model their outcome, nor an exception `gather` would pass on.
- Providers and the network: akshare, tushare, baostock and ccxt. A
  provider is a function parameter returning an optional table.
  `_fetch_from_api` becomes one outcome per attempt.
- pandas and floating point: `reindex`/`ffill` before memoising,
  `pct_change` for index returns, and the technical indicators. The model
  memoises and returns the provider's table unchanged.
- Serialisation:
  - JSON, pickle, parquet and YAML encoding and decoding;
  - byte sizes, which come from a write outcome;
  - the cache index file, a value handed to the constructor;
  - the YAML round trip of `save_config`.
- Scalars in the configuration are kept as text.
- Time: datetimes and ISO strings become integer seconds, and `stat`
  becomes an mtime field. The sync service's date defaults (one year back,
  up to now) are left out; dates are given.
- `retry_delay` plays no part beyond counting sleeps; a `max_concurrent` of
  1 or more changes nothing in the sequential model.
- The singleton `__new__` of `StrategyFactory` and the module-level
  wrapper functions. The model has one factory object.
- `issubclass` is reduced to a flag on the class.
- Config.LoadStep (and so `Config.ConfigManager.constructor` and
  `Config.ConfigManager.LoadConfig`): `load_config` merges into
  `default_config.copy()`, a shallow copy, so nested default sections are
  updated in place. If that merge raises, the fallback defaults can hold
  part of the merge; the model falls back to pristine defaults. After a
  successful load the defaults are not read again, so the model shares
  nothing between them.
- Aliasing between a caller's update dict and the config is not modelled.
- Cache.CachePath: the path is kept as literal text. pathlib drops empty and
  `.` components, so the empty type gives `dir/key.` and `.` gives
  `dir/key..`; those two can name one file that the model keeps apart. The
  same folding applies to keys: `./a` and `a` both name `dir/json/a.json`,
  and so do `a//b` and `a/b`, so two index entries can share one file and
  deleting one unlinks the other's data. Keys are assumed to be plain file
  names (no `/`, not `.` or `..`). `Cache.CachePathInjective`,
  `Cache.SweepKeepsFile`, `Cache.EvictKeepsFile`, `Cache.CleanupKeepsRead`
  and `Cache.SetThenGetAfterCleanup` hold for the text paths; they carry
  over to real files only for plain keys, and their own `requires` ask for
  plain types, where text and pathlib agree.
- The sync status loaded from its file is assumed to be a well-formed
  record. A file holding some other JSON shape is not modelled.
- The cache index loaded from `cache_index.json` is assumed to hold
  well-formed entries (`Cache.Entry` is typed). An entry without `size`
  would make `get_cache_size` raise KeyError, which nothing there catches
  (utils/cache_manager.py:300); a malformed `expires_at` or `created_at`
  would be swallowed by the `try` blocks of `get`, `clean_expired_cache`
  and `_check_cleanup`. Neither is modelled.
- Re-entrant handlers: `publish` iterates the live handler list
  (utils/event_system.py:46), so a plain handler that subscribes or
  unsubscribes on its own event type changes which handlers run next.
  `Events.Dispatch` iterates the list as it was when `publish` began, and
  handlers are not given access to the registry.
- Aliasing of returned containers: `get_sync_status`
  (utils/data_sync.py:310), `get_all_pools` and `get_pool_symbols`
  (stock_pool_manager.py:75, 89) hand out the live dict, so a caller that
  mutates it changes the service's state. The model returns values.
- Cache.CacheManager.Clear: when `rmtree` raises, it has removed the files
  it reached before the locked one, in its own directory-scan order. The
  model promises only that the index is kept, that no file appears and that
  the locked files remain; which unlocked files are gone is left open.
- Cache.CacheStats: the rounded floating-point fields `total_size_mb`,
  `max_size_mb` and `usage_percent` are not computed; the division by the
  cap is kept only as the error it raises for a zero cap.
- Cache.CacheManager.SetTime: this method has no counterpart in the
  source. The source fixes `current_time` once.
- Where a cache file cannot be removed: the set of such paths is a
  constant of the store; nothing in the model locks or unlocks a file.
- Logging, the `Event` payload, and the `logger` calls.
- The thin akshare cache-aside wrappers in utils/data_loader.py and
  engine/data_handler.py are not part of this model. Their only logic
  repeats key formatting and an mtime test that are modelled above.
