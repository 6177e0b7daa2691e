/**
 * The typed key/value cache of utils/cache_manager.py.
 *
 * The cache keeps one file per key under `dir/<type>/<key>.<type>` and an
 * index `key -> {type, created_at, expires_at, size, created_by}`. Entries
 * expire lazily on `get`, can be swept explicitly, and a cleanup pass gated
 * by a time interval sweeps expired entries and then evicts the oldest-created
 * ones until the total size is within the cap.
 *
 * The disk is a map from path to stored file, beside the set of paths whose
 * unlink raises; timestamps are integer seconds; the clock is the field `now`.
 *
 * The module has two layers: pure functions over a `Store` (index plus
 * disk), whose contracts and lemmas state what the cache promises, and the
 * class `CacheManager`, whose methods follow the source's statements and are
 * proved equal to those functions.
 */
module Cache {
  import opened Wrappers
  import opened Dicts

  // ---------------------------------------------------------------- values

  /** The runtime class of a value handed to `set`; it alone decides the automatic format. */
  datatype PyClass =
    | DataFrameClass
    | DictClass | ListClass | StrClass | IntClass | FloatClass | BoolClass
    | OtherClass(name: string)

  /** A cached value: its class and an abstract rendering of its contents. */
  datatype Value = Value(cls: PyClass, content: string)

  const Json: string := "json"
  const Pickle: string := "pickle"
  const DataFrame: string := "dataframe"

  /** The three storage formats, one subdirectory each. */
  predicate KnownType(t: string)
  {
    t == Json || t == Pickle || t == DataFrame
  }

  /** Classes that `set` stores as JSON when no type is given. */
  predicate JsonClass(c: PyClass)
  {
    c.DictClass? || c.ListClass? || c.StrClass? || c.IntClass? || c.FloatClass? || c.BoolClass?
  }

  /** The format `set` picks when the caller gives no `data_type`. */
  function DetectType(v: Value): (t: string)
    ensures KnownType(t)
    ensures t == DataFrame <==> v.cls == DataFrameClass
    ensures t == Json <==> JsonClass(v.cls)
    ensures t == Pickle <==> !JsonClass(v.cls) && v.cls != DataFrameClass
  {
    if v.cls == DataFrameClass then DataFrame
    else if JsonClass(v.cls) then Json
    else Pickle
  }

  /** `_get_cache_path`: `dir/type/key.type`. */
  function CachePath(dir: string, key: string, t: string): (p: string)
    ensures dir + "/" + t + "/" <= p
    ensures |p| == |dir| + 2 * |t| + |key| + 3
  {
    dir + "/" + t + "/" + key + "." + t
  }

  /**
   * A type whose path is one ordinary directory component: no `/`, and not
   * the empty or `.` component that pathlib would fold away. The three formats
   * are plain.
   */
  predicate PlainType(t: string)
  {
    t != "" && t != "." && '/' !in t
  }

  /**
   * Two keys stored under plain types never share a backing file. The path is
   * compared as text, so keys are taken to be plain file names: pathlib would
   * fold `./a` and `a` into one file.
   */
  lemma CachePathInjective(dir: string, k1: string, t1: string, k2: string, t2: string)
    requires PlainType(t1) && PlainType(t2)
    requires CachePath(dir, k1, t1) == CachePath(dir, k2, t2)
    ensures k1 == k2 && t1 == t2
  {
    var p1, p2 := CachePath(dir, k1, t1), CachePath(dir, k2, t2);
    var a := |dir| + 1;
    assert p1[a..] == t1 + "/" + k1 + "." + t1;
    assert p2[a..] == t2 + "/" + k2 + "." + t2;
    // the first `/` after the directory ends the type in both paths
    assert p1[a + |t1|] == '/' == p2[a + |t2|];
    assert |t1| == |t2|;
    assert t1 == p1[a..a + |t1|];
    assert t2 == p2[a..a + |t2|];
    var b := a + |t1| + 1;
    assert |k1| == |k2|;
    assert k1 == p1[b..b + |k1|];
    assert k2 == p2[b..b + |k2|];
  }

  // ---------------------------------------------------------------- state

  /** One index record; `size` is the byte size of the file written for it. */
  datatype Entry = Entry(dataType: string, createdAt: int, expiresAt: int, size: nat, createdBy: string)

  /** A file on disk: the value it deserialises to (`None` when reading it raises) and its byte size. */
  datatype StoredFile = StoredFile(value: Option<Value>, size: nat)

  /** Construction-time settings, already converted to bytes and seconds. */
  datatype Settings = Settings(dir: string, maxSize: int, defaultTtl: int, cleanupInterval: int, user: string)

  /**
   * The index (in insertion order), the files under the cache directory, and
   * the paths whose `unlink` raises (a file held open elsewhere, a read-only
   * directory); no operation of the cache changes the last.
   */
  datatype Store = Store(index: Dict<string, Entry>, files: map<string, StoredFile>, locked: set<string>)

  /**
   * What opening and serialising did in `set`: the open raised; the open
   * created or truncated the file and then the serialiser raised, leaving
   * `partial` bytes that do not read back; or the value was written.
   */
  datatype WriteOutcome = OpenFailed | DumpFailed(partial: nat) | Written(size: nat)

  ghost predicate ValidStore(st: Store)
  {
    st.index.Valid()
  }

  function PathOf(s: Settings, st: Store, k: string): string
    requires k in st.index.items
  {
    CachePath(s.dir, k, st.index.items[k].dataType)
  }

  /** `delete(k)` raises at its `unlink`: the key's file exists and cannot be removed. */
  predicate Undeletable(s: Settings, st: Store, k: string)
  {
    k in st.index.items && PathOf(s, st, k) in st.files && PathOf(s, st, k) in st.locked
  }

  // ---------------------------------------------------------------- sizes and statistics

  function SumSizes(ks: seq<string>, items: map<string, Entry>): nat
    requires forall i | 0 <= i < |ks| :: ks[i] in items
  {
    if ks == [] then 0 else items[ks[0]].size + SumSizes(ks[1..], items)
  }

  /** `get_cache_size`: the sum of the indexed sizes, to which every entry contributes its own. */
  function TotalSize(d: Dict<string, Entry>): (r: nat)
    requires d.Valid()
    ensures d.items == map[] ==> r == 0
    ensures forall k | k in d.items :: d.items[k].size <= r
  {
    assert d.items == map[] ==> d.keys == [] by {
      if d.keys != [] {
        assert d.keys[0] in d.items;
      }
    }
    assert forall k | k in d.items :: d.items[k].size <= SumSizes(d.keys, d.items) by {
      forall k | k in d.items
        ensures d.items[k].size <= SumSizes(d.keys, d.items)
      {
        SumSizesBound(d.keys, d.items, k);
      }
    }
    SumSizes(d.keys, d.items)
  }

  lemma {:induction false} SumSizesBound(ks: seq<string>, items: map<string, Entry>, k: string)
    requires forall i | 0 <= i < |ks| :: ks[i] in items
    requires k in ks && k in items
    ensures items[k].size <= SumSizes(ks, items)
  {
    if ks[0] != k {
      assert k in ks[1..];
      SumSizesBound(ks[1..], items, k);
    }
  }

  lemma {:induction false} SumSizesWithout(ks: seq<string>, items: map<string, Entry>, k: string)
    requires Distinct(ks) && k in ks
    requires forall i | 0 <= i < |ks| :: ks[i] in items
    ensures forall i | 0 <= i < |Without(ks, k)| :: Without(ks, k)[i] in items - {k}
    ensures SumSizes(ks, items) == items[k].size + SumSizes(Without(ks, k), items - {k})
  {
    var w := Without(ks, k);
    assert forall i | 0 <= i < |w| :: w[i] in w;
    assert Distinct(ks[1..]);
    if ks[0] == k {
      assert k !in ks[1..];
      assert w == ks[1..];
      SumSizesOther(ks[1..], items, k);
    } else {
      assert k in ks[1..];
      SumSizesWithout(ks[1..], items, k);
      assert w == [ks[0]] + Without(ks[1..], k);
      assert w[1..] == Without(ks[1..], k);
    }
  }

  /** Taking a key that does not occur out of the map changes no sum. */
  lemma {:induction false} SumSizesOther(ks: seq<string>, items: map<string, Entry>, k: string)
    requires k !in ks
    requires forall i | 0 <= i < |ks| :: ks[i] in items
    ensures forall i | 0 <= i < |ks| :: ks[i] in items - {k}
    ensures SumSizes(ks, items) == SumSizes(ks, items - {k})
  {
    assert forall i | 0 <= i < |ks| :: ks[i] in ks;
    if ks != [] {
      SumSizesOther(ks[1..], items, k);
    }
  }

  /** Deleting an indexed key lowers the total size by exactly that entry's size. */
  lemma TotalSizeRemove(d: Dict<string, Entry>, k: string)
    requires d.Valid() && k in d.items
    ensures TotalSize(d.Remove(k)) == TotalSize(d) - d.items[k].size
  {
    SumSizesWithout(d.keys, d.items, k);
  }

  function CountType(ks: seq<string>, items: map<string, Entry>, t: string): (n: nat)
    requires forall i | 0 <= i < |ks| :: ks[i] in items
    ensures n <= |ks|
  {
    if ks == [] then 0
    else (if items[ks[0]].dataType == t then 1 else 0) + CountType(ks[1..], items, t)
  }

  /** The entries of type `t`, counted over any duplicate-free listing of the index's keys. */
  lemma {:induction false} CountTypeSet(ks: seq<string>, items: map<string, Entry>, t: string)
    requires Distinct(ks)
    requires forall i | 0 <= i < |ks| :: ks[i] in items
    ensures CountType(ks, items, t) == |set k | k in ks && k in items && items[k].dataType == t|
  {
    var all := set k | k in ks && k in items && items[k].dataType == t;
    if ks != [] {
      var rest := set k | k in ks[1..] && k in items && items[k].dataType == t;
      assert Distinct(ks[1..]);
      CountTypeSet(ks[1..], items, t);
      assert ks[0] !in ks[1..];
      if items[ks[0]].dataType == t {
        assert all == {ks[0]} + rest;
      } else {
        assert all == rest;
      }
    } else {
      assert all == {};
    }
  }

  /** The per-type count of `get_cache_stats` is the number of indexed entries of that type. */
  lemma TypeCountCounts(d: Dict<string, Entry>, t: string)
    requires d.Valid()
    ensures CountType(d.keys, d.items, t) == |set k | k in d.items && d.items[k].dataType == t|
  {
    CountTypeSet(d.keys, d.items, t);
    assert (set k | k in d.keys && k in d.items && d.items[k].dataType == t) ==
           (set k | k in d.items && d.items[k].dataType == t);
  }

  /** `get_cache_stats`, with sizes kept in bytes. */
  datatype Stats = Stats(totalItems: nat, totalSize: nat, maxSize: int, typesCount: map<string, nat>)

  /**
   * `get_cache_stats`. The source divides by `max_size` for `usage_percent`,
   * so a zero cap raises inside the `try` and the method returns `{}`
   * (here `None`).
   */
  function CacheStats(s: Settings, d: Dict<string, Entry>): (r: Option<Stats>)
    requires d.Valid()
    ensures r.None? <==> s.maxSize == 0
    ensures r.Some? ==> r.value.totalItems == |d.items| && r.value.totalSize == TotalSize(d)
    ensures r.Some? ==> r.value.typesCount.Keys == {Json, Pickle, DataFrame}
    ensures r.Some? ==> forall t | t in r.value.typesCount ::
              r.value.typesCount[t] == |set k | k in d.items && d.items[k].dataType == t|
  {
    if s.maxSize == 0 then None
    else
      CountKeys(d);
      TypeCountCounts(d, Json);
      TypeCountCounts(d, Pickle);
      TypeCountCounts(d, DataFrame);
      Some(Stats(|d.keys|, TotalSize(d), s.maxSize,
                 map[Json := CountType(d.keys, d.items, Json),
                     Pickle := CountType(d.keys, d.items, Pickle),
                     DataFrame := CountType(d.keys, d.items, DataFrame)]))
  }

  lemma {:induction false} CountTypesSum(ks: seq<string>, items: map<string, Entry>)
    requires forall i | 0 <= i < |ks| :: ks[i] in items && KnownType(items[ks[i]].dataType)
    ensures CountType(ks, items, Json) + CountType(ks, items, Pickle) + CountType(ks, items, DataFrame) == |ks|
  {
    if ks != [] {
      CountTypesSum(ks[1..], items);
    }
  }

  /** When every entry has one of the three types, the per-type counts add up to the item count. */
  lemma TypesCountCoversItems(s: Settings, d: Dict<string, Entry>)
    requires d.Valid() && s.maxSize != 0
    requires forall k | k in d.items :: KnownType(d.items[k].dataType)
    ensures var st := CacheStats(s, d).value;
            st.typesCount[Json] + st.typesCount[Pickle] + st.typesCount[DataFrame] == st.totalItems
  {
    CountKeys(d);
    CountTypesSum(d.keys, d.items);
  }

  // ---------------------------------------------------------------- set / get / delete

  /** `ttl or self.default_ttl`: a missing or zero time-to-live falls back to the default. */
  function EffectiveTtl(ttl: Option<int>, defaultTtl: int): (d: int)
    ensures ttl.Some? && ttl.value != 0 ==> d == ttl.value
    ensures ttl.None? || ttl.value == 0 ==> d == defaultTtl
  {
    if ttl.Some? && ttl.value != 0 then ttl.value else defaultTtl
  }

  /** The format `set` uses: the caller's, else the detected one. */
  function ChosenType(value: Value, dataType: Option<string>): (t: string)
    ensures dataType.Some? ==> t == dataType.value
    ensures dataType.None? ==> KnownType(t) && (t == DataFrame <==> value.cls == DataFrameClass)
  {
    if dataType.Some? then dataType.value else DetectType(value)
  }

  /**
   * Whether `set` gets as far as writing: a `dataframe` needs a DataFrame
   * (`to_parquet` raises on anything else before a file exists). Every type
   * other than `json` and `dataframe` takes the pickle branch, whose `open`
   * raises (`OpenFailed`) when `dir/type/` does not exist; the empty type, for
   * one, lands in the cache directory itself and is written.
   */
  predicate OpensFile(t: string, value: Value)
  {
    t == DataFrame ==> value.cls == DataFrameClass
  }

  /** Whether the write in `set` succeeds: the file is opened and the serialiser and file system do not fail. */
  predicate Writable(t: string, value: Value, w: WriteOutcome)
    ensures Writable(t, value, w) ==> w.Written?
    ensures Writable(t, value, w) && t == DataFrame ==> value.cls == DataFrameClass
    ensures t != DataFrame ==> (Writable(t, value, w) <==> w.Written?)
  {
    OpensFile(t, value) && w.Written?
  }

  /**
   * The write and index update of `set`, before its cleanup check, with
   * whether it got through. A write that raises leaves the index alone; if
   * the open had already truncated the file, the key's file no longer reads.
   */
  function WriteStep(s: Settings, st: Store, now: int, key: string, value: Value,
                     ttl: Option<int>, dataType: Option<string>, w: WriteOutcome): (r: (bool, Store))
    requires ValidStore(st)
    ensures ValidStore(r.1) && r.1.locked == st.locked
    ensures r.0 <==> Writable(ChosenType(value, dataType), value, w)
    ensures r.0 ==>
      var t := ChosenType(value, dataType);
      && r.1.index.items == st.index.items[key := Entry(t, now, now + EffectiveTtl(ttl, s.defaultTtl), w.size, s.user)]
      && r.1.files == st.files[CachePath(s.dir, key, t) := StoredFile(Some(value), w.size)]
    ensures !r.0 ==> r.1.index == st.index
    ensures !OpensFile(ChosenType(value, dataType), value) || w.OpenFailed? ==> r.1 == st
    ensures OpensFile(ChosenType(value, dataType), value) && w.DumpFailed? ==>
              r.1.files == st.files[CachePath(s.dir, key, ChosenType(value, dataType)) := StoredFile(None, w.partial)]
  {
    var t := ChosenType(value, dataType);
    var path := CachePath(s.dir, key, t);
    if !OpensFile(t, value) || w.OpenFailed? then (false, st)
    else if w.DumpFailed? then (false, Store(st.index, st.files[path := StoredFile(None, w.partial)], st.locked))
    else
      var e := Entry(t, now, now + EffectiveTtl(ttl, s.defaultTtl), w.size, s.user);
      (true, Store(st.index.Put(key, e), st.files[path := StoredFile(Some(value), w.size)], st.locked))
  }

  /** A `set` that gets its value written: the new record goes into the index and the value into the file. */
  lemma WriteStepWritten(s: Settings, st: Store, now: int, key: string, value: Value,
                         ttl: Option<int>, dataType: Option<string>, size: nat)
    requires ValidStore(st) && OpensFile(ChosenType(value, dataType), value)
    ensures var t := ChosenType(value, dataType);
            var e := Entry(t, now, now + EffectiveTtl(ttl, s.defaultTtl), size, s.user);
            WriteStep(s, st, now, key, value, ttl, dataType, Written(size)) ==
              (true, Store(st.index.Put(key, e), st.files[CachePath(s.dir, key, t) := StoredFile(Some(value), size)], st.locked))
  {
  }

  /**
   * `delete`: an unknown key gives False and no change; so does a file whose
   * unlink raises, caught before the index entry is dropped. Otherwise the
   * file (if any) and only that index entry go.
   */
  function DeleteStep(s: Settings, st: Store, key: string): (r: (bool, Store))
    requires ValidStore(st)
    ensures ValidStore(r.1) && r.1.locked == st.locked
    ensures r.0 <==> key in st.index.items && !Undeletable(s, st, key)
    ensures !r.0 ==> r.1 == st
    ensures r.0 ==> r.1.index.items == st.index.items - {key}
    ensures r.0 ==> r.1.files == st.files - {PathOf(s, st, key)}
    ensures r.0 ==> |r.1.index.keys| == |st.index.keys| - 1
  {
    if key !in st.index.items || Undeletable(s, st, key) then (false, st)
    else (true, Store(st.index.Remove(key), st.files - {PathOf(s, st, key)}, st.locked))
  }

  /**
   * `get`: absent; lazily expired (strictly before `now`, and then handed to
   * `delete`, whose outcome is ignored); or read from the stored type's file,
   * where a missing or unreadable file gives None.
   */
  function GetStep(s: Settings, st: Store, now: int, key: string): (r: (Option<Value>, Store))
    requires ValidStore(st)
    ensures ValidStore(r.1)
    ensures key !in st.index.items ==> r == (None, st)
    ensures key in st.index.items && st.index.items[key].expiresAt < now ==>
              r == (None, DeleteStep(s, st, key).1)
    ensures key in st.index.items && st.index.items[key].expiresAt >= now ==>
              && r.1 == st
              && (r.0.Some? <==> PathOf(s, st, key) in st.files && st.files[PathOf(s, st, key)].value.Some?)
              && (r.0.Some? ==> r.0 == st.files[PathOf(s, st, key)].value)
  {
    if key !in st.index.items then (None, st)
    else if st.index.items[key].expiresAt < now then (None, DeleteStep(s, st, key).1)
    else
      var path := PathOf(s, st, key);
      if path in st.files then (st.files[path].value, st) else (None, st)
  }

  // ---------------------------------------------------------------- expired sweep

  /** The keys of `p` the sweep deletes: expired strictly before `now`, with a removable file. */
  ghost function SweptAmong(s: Settings, st: Store, now: int, p: seq<string>): set<string>
  {
    set k | k in p && k in st.index.items && st.index.items[k].expiresAt < now && !Undeletable(s, st, k)
  }

  /** The keys whose entries expired strictly before `now` and whose `delete` goes through. */
  ghost function Swept(s: Settings, st: Store, now: int): set<string>
  {
    set k | k in st.index.items && st.index.items[k].expiresAt < now && !Undeletable(s, st, k)
  }

  ghost function PathsOf(s: Settings, st: Store, ks: set<string>): set<string>
  {
    set k | k in ks && k in st.index.items :: PathOf(s, st, k)
  }

  /** One round of `clean_expired_cache`: an expired key is handed to `delete`, and counted only if that returns True. */
  function SweepRound(s: Settings, now: int, prev: (nat, Store), k: string): (r: (nat, Store))
    requires ValidStore(prev.1)
    ensures ValidStore(r.1) && r.1.locked == prev.1.locked
    ensures r.1.index.items.Keys <= prev.1.index.items.Keys && prev.0 <= r.0 <= prev.0 + 1
  {
    if k in prev.1.index.items && prev.1.index.items[k].expiresAt < now then
      var del := DeleteStep(s, prev.1, k);
      (if del.0 then prev.0 + 1 else prev.0, del.1)
    else prev
  }

  /** The loop of `clean_expired_cache` over a snapshot of the keys, as a fold of its rounds. */
  function SweepKeys(s: Settings, st: Store, now: int, ks: seq<string>): (r: (nat, Store))
    requires ValidStore(st)
    ensures ValidStore(r.1) && r.1.locked == st.locked
    ensures r.1.index.items.Keys <= st.index.items.Keys && r.0 <= |ks|
    decreases |ks|
  {
    if ks == [] then (0, st)
    else SweepRound(s, now, SweepKeys(s, st, now, ks[..|ks| - 1]), ks[|ks| - 1])
  }

  lemma SweptAmongSnoc(s: Settings, st: Store, now: int, p: seq<string>, k: string)
    ensures SweptAmong(s, st, now, p + [k]) ==
            SweptAmong(s, st, now, p) +
              (if k in st.index.items && st.index.items[k].expiresAt < now && !Undeletable(s, st, k) then {k} else {})
  {
  }

  lemma PathsOfAdd(s: Settings, st: Store, g: set<string>, k: string)
    requires k in st.index.items
    ensures PathsOf(s, st, g + {k}) == PathsOf(s, st, g) + {PathOf(s, st, k)}
  {
  }

  /** The state the sweep has reached after the keys whose deletes went through, `gone`. */
  ghost predicate SweptTo(s: Settings, st: Store, r: (nat, Store), gone: set<string>)
    requires ValidStore(st)
  {
    && r.1.index.items == st.index.items - gone
    && r.1.files == st.files - PathsOf(s, st, gone)
    && r.1.locked == st.locked
    && r.0 == |gone|
  }

  /** One iteration of the sweep that deletes its key. */
  lemma SweepOne(s: Settings, st: Store, now: int, prev: (nat, Store), gone: set<string>, k: string)
    requires ValidStore(st) && ValidStore(prev.1)
    requires k in st.index.items && k !in gone && !Undeletable(s, st, k)
    requires SweptTo(s, st, prev, gone)
    ensures var del := DeleteStep(s, prev.1, k);
            && del.0
            && SweptTo(s, st, (prev.0 + 1, del.1), gone + {k})
  {
    PathsOfAdd(s, st, gone, k);
    assert PathOf(s, prev.1, k) == PathOf(s, st, k);
  }

  /** One iteration of the sweep whose delete raises: the file is still there, since every key deleted before had a removable file. */
  lemma SweepStuck(s: Settings, st: Store, now: int, prev: (nat, Store), gone: set<string>, k: string)
    requires ValidStore(st) && ValidStore(prev.1)
    requires k in st.index.items && k !in gone && Undeletable(s, st, k)
    requires forall e | e in gone :: e in st.index.items && !Undeletable(s, st, e)
    requires SweptTo(s, st, prev, gone)
    ensures DeleteStep(s, prev.1, k) == (false, prev.1)
  {
    var p := PathOf(s, st, k);
    assert PathOf(s, prev.1, k) == p;
    forall e | e in gone
      ensures PathOf(s, st, e) != p
    {
    }
    assert p !in PathsOf(s, st, gone);
  }

  /** The fold's last step, unfolded once. */
  lemma SweepKeysSnoc(s: Settings, st: Store, now: int, p: seq<string>, k: string)
    requires ValidStore(st)
    ensures SweepKeys(s, st, now, p + [k]) == SweepRound(s, now, SweepKeys(s, st, now, p), k)
  {
    DropSnoc(p, k);
  }

  lemma {:induction false} SweepKeysSpec(s: Settings, st: Store, now: int, p: seq<string>)
    requires ValidStore(st) && Distinct(p)
    requires forall j | 0 <= j < |p| :: p[j] in st.index.items
    ensures SweptTo(s, st, SweepKeys(s, st, now, p), SweptAmong(s, st, now, p))
    decreases |p|
  {
    if p == [] {
      assert SweptAmong(s, st, now, p) == {};
      assert PathsOf(s, st, {}) == {};
    } else {
      var q, k := p[..|p| - 1], p[|p| - 1];
      assert p == q + [k];
      assert Distinct(q) && k !in q by {
        assert forall j | 0 <= j < |q| :: q[j] == p[j];
      }
      assert forall j | 0 <= j < |q| :: q[j] in st.index.items by {
        assert forall j | 0 <= j < |q| :: q[j] == p[j];
      }
      SweepKeysSpec(s, st, now, q);
      SweepStepSpec(s, st, now, q, k);
    }
  }

  lemma SweepStepSpec(s: Settings, st: Store, now: int, q: seq<string>, k: string)
    requires ValidStore(st) && k !in q && k in st.index.items
    requires SweptTo(s, st, SweepKeys(s, st, now, q), SweptAmong(s, st, now, q))
    ensures SweptTo(s, st, SweepKeys(s, st, now, q + [k]), SweptAmong(s, st, now, q + [k]))
  {
    var gone := SweptAmong(s, st, now, q);
    assert k !in gone;
    SweptAmongSnoc(s, st, now, q, k);
    SweepKeysSnoc(s, st, now, q, k);
    var prev := SweepKeys(s, st, now, q);
    assert k in prev.1.index.items && prev.1.index.items[k] == st.index.items[k];
    if st.index.items[k].expiresAt < now {
      if Undeletable(s, st, k) {
        SweepStuck(s, st, now, prev, gone, k);
      } else {
        SweepOne(s, st, now, prev, gone, k);
      }
    }
  }

  /** The sweep's round `i`, from the state `cur` the earlier rounds left: its key is still indexed, as it was, and is handed to `delete` if expired. */
  lemma SweepNext(s: Settings, st: Store, now: int, i: nat, count: nat, cur: Store)
    requires ValidStore(st) && i < |st.index.keys|
    requires (count, cur) == SweepKeys(s, st, now, st.index.keys[..i])
    ensures ValidStore(cur)
    ensures var k := st.index.keys[i];
            && k in cur.index.items && cur.index.items[k] == st.index.items[k]
            && SweepKeys(s, st, now, st.index.keys[..i + 1]) ==
                 if st.index.items[k].expiresAt < now
                 then var del := DeleteStep(s, cur, k); (if del.0 then count + 1 else count, del.1)
                 else (count, cur)
  {
    var ks := st.index.keys;
    var p, k := ks[..i], ks[i];
    TakeSnoc(ks, i);
    SweepKeysSnoc(s, st, now, p, k);
    PrefixOfKeys(st.index, i);
    SweepKeysSpec(s, st, now, p);
    var gone := SweptAmong(s, st, now, p);
    assert k !in gone;
    assert cur.index.items == st.index.items - gone;
  }

  /** A prefix of a dictionary's key order is itself duplicate-free, indexed, and does not hold the next key. */
  lemma PrefixOfKeys(d: Dict<string, Entry>, i: nat)
    requires d.Valid() && i < |d.keys|
    ensures Distinct(d.keys[..i]) && d.keys[i] !in d.keys[..i]
    ensures forall j | 0 <= j < i :: d.keys[..i][j] in d.items
  {
    var p := d.keys[..i];
    assert forall j | 0 <= j < i :: p[j] == d.keys[j];
  }

  /** `clean_expired_cache`: the sweep over the keys in their order at the start. */
  function SweepExpired(s: Settings, st: Store, now: int): (r: (nat, Store))
    requires ValidStore(st)
    ensures ValidStore(r.1) && r.1.locked == st.locked
    ensures r.1.index.items.Keys <= st.index.items.Keys && r.0 <= |st.index.keys|
  {
    SweepKeys(s, st, now, st.index.keys)
  }

  /**
   * The sweep removes exactly the entries with `expires_at < now` whose file
   * can be removed, with their files; an expired entry whose unlink raises
   * stays; every surviving entry is untouched; the count is the number removed.
   */
  lemma SweepExpiredSpec(s: Settings, st: Store, now: int)
    requires ValidStore(st)
    ensures var r := SweepExpired(s, st, now);
            && (forall k :: k in r.1.index.items <==>
                  k in st.index.items && (st.index.items[k].expiresAt >= now || Undeletable(s, st, k)))
            && (forall k | k in r.1.index.items :: r.1.index.items[k] == st.index.items[k])
            && r.1.files == st.files - PathsOf(s, st, Swept(s, st, now))
            && r.1.locked == st.locked
            && r.0 == |Swept(s, st, now)|
  {
    var ks := st.index.keys;
    SweepKeysSpec(s, st, now, ks);
    assert SweptAmong(s, st, now, ks) == Swept(s, st, now);
  }

  // ---------------------------------------------------------------- size eviction

  function CreatedAt(d: Dict<string, Entry>, i: nat): int
    requires d.Valid() && i < |d.keys|
  {
    d.items[d.keys[i]].createdAt
  }

  /** The position `min(keys, key=created_at)` returns among the first `n` keys: the first minimal one. */
  function FirstMinIndex(d: Dict<string, Entry>, n: nat): (m: nat)
    requires d.Valid() && 0 < n <= |d.keys|
    ensures m < n
    ensures forall j | 0 <= j < n :: CreatedAt(d, m) <= CreatedAt(d, j)
    ensures forall j | 0 <= j < m :: CreatedAt(d, j) > CreatedAt(d, m)
  {
    if n == 1 then 0
    else
      var m := FirstMinIndex(d, n - 1);
      if CreatedAt(d, n - 1) < CreatedAt(d, m) then n - 1 else m
  }

  /** The key `_check_cleanup` evicts next: least `created_at`, ties to the earliest inserted. */
  function Oldest(d: Dict<string, Entry>): (k: string)
    requires d.Valid() && |d.keys| > 0
    ensures k in d.items
    ensures forall j | j in d.items :: d.items[k].createdAt <= d.items[j].createdAt
  {
    var m := FirstMinIndex(d, |d.keys|);
    forall j | j in d.items
      ensures d.items[d.keys[m]].createdAt <= d.items[j].createdAt
    {
      assert j in d.keys;
      var i :| 0 <= i < |d.keys| && d.keys[i] == j;
      assert CreatedAt(d, m) <= CreatedAt(d, i);
    }
    d.keys[m]
  }

  /**
   * The while loop of `_check_cleanup`: delete the oldest entry until within
   * the cap or empty. The loop ignores what `delete` returns, and a delete
   * that raises changes nothing, so the next round picks the same key and the
   * loop never ends. The result is the state the loop ends in, or spins in,
   * and whether it spins.
   */
  function Evict(s: Settings, st: Store): (r: (Store, bool))
    requires ValidStore(st)
    ensures ValidStore(r.0) && r.0.locked == st.locked
    ensures r.0.index.items.Keys <= st.index.items.Keys
    decreases |st.index.keys|
  {
    if TotalSize(st.index) > s.maxSize && |st.index.keys| > 0 then
      var del := DeleteStep(s, st, Oldest(st.index));
      if del.0 then Evict(s, del.1) else (st, true)
    else (st, false)
  }

  /** When the loop ends, the cache is within its cap or empty; when it spins, it is over the cap and its oldest file cannot be removed. */
  lemma {:induction false} EvictWithinCap(s: Settings, st: Store)
    requires ValidStore(st)
    ensures var r := Evict(s, st);
            && (!r.1 ==> TotalSize(r.0.index) <= s.maxSize || r.0.index.items == map[])
            && (r.1 ==> TotalSize(r.0.index) > s.maxSize && |r.0.index.keys| > 0 && Undeletable(s, r.0, Oldest(r.0.index)))
    decreases |st.index.keys|
  {
    if TotalSize(st.index) > s.maxSize && |st.index.keys| > 0 {
      var del := DeleteStep(s, st, Oldest(st.index));
      if del.0 {
        EvictWithinCap(s, del.1);
      }
    } else if |st.index.keys| == 0 {
      assert forall k | k in st.index.items :: k in st.index.keys;
    }
  }

  /**
   * A spinning loop never gets out: at the state it spins in, the guard holds
   * and one more round leaves that state as it is.
   */
  lemma EvictSpinsForever(s: Settings, st: Store)
    requires ValidStore(st) && Evict(s, st).1
    ensures var stuck := Evict(s, st).0;
            && TotalSize(stuck.index) > s.maxSize && |stuck.index.keys| > 0
            && DeleteStep(s, stuck, Oldest(stuck.index)) == (false, stuck)
  {
    EvictWithinCap(s, st);
  }

  /** When no indexed file is locked, the loop always ends. */
  lemma {:induction false} EvictEndsUnlocked(s: Settings, st: Store)
    requires ValidStore(st)
    requires forall k | k in st.index.items :: !Undeletable(s, st, k)
    ensures !Evict(s, st).1
    decreases |st.index.keys|
  {
    if TotalSize(st.index) > s.maxSize && |st.index.keys| > 0 {
      var o := Oldest(st.index);
      var del := DeleteStep(s, st, o);
      forall k | k in del.1.index.items
        ensures !Undeletable(s, del.1, k)
      {
        assert PathOf(s, del.1, k) == PathOf(s, st, k);
      }
      EvictEndsUnlocked(s, del.1);
    }
  }

  /** Eviction only removes entries, and keeps the survivors' records and files. */
  lemma {:induction false} EvictShrinks(s: Settings, st: Store)
    requires ValidStore(st)
    ensures var r := Evict(s, st).0;
            && (forall k | k in r.index.items :: k in st.index.items && r.index.items[k] == st.index.items[k])
            && (forall p | p in r.files :: p in st.files && r.files[p] == st.files[p])
    decreases |st.index.keys|
  {
    if TotalSize(st.index) > s.maxSize && |st.index.keys| > 0 {
      var del := DeleteStep(s, st, Oldest(st.index));
      if del.0 {
        EvictShrinks(s, del.1);
      }
    }
  }

  /**
   * Eviction removes each evicted key's file and never evicts an entry
   * created after one it keeps.
   */
  lemma {:induction false} EvictOldestFirst(s: Settings, st: Store)
    requires ValidStore(st)
    ensures var r := Evict(s, st).0;
            && (forall e | e in st.index.items && e !in r.index.items :: PathOf(s, st, e) !in r.files)
            && (forall e, k | e in st.index.items && e !in r.index.items && k in r.index.items && k in st.index.items ::
                  st.index.items[e].createdAt <= st.index.items[k].createdAt)
    decreases |st.index.keys|
  {
    if TotalSize(st.index) > s.maxSize && |st.index.keys| > 0 {
      var o := Oldest(st.index);
      var del := DeleteStep(s, st, o);
      if del.0 {
        var mid := del.1;
        var r := Evict(s, st).0;
        assert r == Evict(s, mid).0;
        EvictShrinks(s, mid);
        EvictOldestFirst(s, mid);
        forall e | e in st.index.items && e !in r.index.items
          ensures PathOf(s, st, e) !in r.files
        {
          if e != o {
            assert e in mid.index.items && PathOf(s, mid, e) == PathOf(s, st, e);
          }
        }
      }
    }
  }

  /** Once within the cap, eviction removes nothing. */
  lemma EvictStopsAtCap(s: Settings, st: Store)
    requires ValidStore(st) && TotalSize(st.index) <= s.maxSize
    ensures Evict(s, st) == (st, false)
  {
  }

  /** One round of the eviction loop: a removed oldest entry leaves the rest of the loop to the smaller store, a refused one leaves it spinning. */
  lemma EvictRound(s: Settings, st: Store, del: (bool, Store))
    requires ValidStore(st) && TotalSize(st.index) > s.maxSize && |st.index.keys| > 0
    requires del == DeleteStep(s, st, Oldest(st.index))
    ensures del.0 ==> Evict(s, st) == Evict(s, del.1)
    ensures !del.0 ==> Evict(s, st) == (st, true)
  {
  }

  /** When the loop guard fails, nothing is evicted and the loop ends. */
  lemma EvictDone(s: Settings, st: Store)
    requires ValidStore(st) && !(TotalSize(st.index) > s.maxSize && |st.index.keys| > 0)
    ensures Evict(s, st) == (st, false)
  {
  }

  // ---------------------------------------------------------------- cleanup and the whole set

  /**
   * `_check_cleanup`: nothing unless more than the interval has passed; then
   * sweep, evict, and restamp. The last component says the eviction loop
   * spins: the call never returns, `last_cleanup` is never restamped, and the
   * store is the one the loop spins in.
   */
  function CleanupStep(s: Settings, st: Store, now: int, lastCleanup: int): (r: (Store, int, bool))
    requires ValidStore(st)
    ensures ValidStore(r.0)
    ensures now - lastCleanup <= s.cleanupInterval ==> r == (st, lastCleanup, false)
    ensures now - lastCleanup > s.cleanupInterval ==>
              var ev := Evict(s, SweepExpired(s, st, now).1);
              r == (ev.0, if ev.1 then lastCleanup else now, ev.1)
  {
    if now - lastCleanup > s.cleanupInterval then
      var ev := Evict(s, SweepExpired(s, st, now).1);
      (ev.0, if ev.1 then lastCleanup else now, ev.1)
    else (st, lastCleanup, false)
  }

  /** `_check_cleanup` once the interval has passed, in terms of the sweep and the eviction it runs. */
  lemma CleanupOf(s: Settings, st: Store, now: int, lastCleanup: int, swept: Store, ev: (Store, bool))
    requires ValidStore(st) && now - lastCleanup > s.cleanupInterval
    requires swept == SweepExpired(s, st, now).1 && ev == Evict(s, swept)
    ensures CleanupStep(s, st, now, lastCleanup) == (ev.0, if ev.1 then lastCleanup else now, ev.1)
  {
  }

  /**
   * `set`: the write and index update, then the cleanup check. False when
   * the write raises, with the index unchanged (the key's file may be
   * truncated). The last component says the call never returns, because the
   * cleanup's eviction loop spins.
   */
  function SetStep(s: Settings, st: Store, now: int, lastCleanup: int, key: string, value: Value,
                   ttl: Option<int>, dataType: Option<string>, w: WriteOutcome): (r: (bool, Store, int, bool))
    requires ValidStore(st)
    ensures ValidStore(r.1)
    ensures r.0 <==> Writable(ChosenType(value, dataType), value, w)
    ensures !r.0 ==> (r.1, r.2, r.3) == (WriteStep(s, st, now, key, value, ttl, dataType, w).1, lastCleanup, false)
    ensures !r.0 ==> r.1.index == st.index
  {
    var written := WriteStep(s, st, now, key, value, ttl, dataType, w);
    if !written.0 then (false, written.1, lastCleanup, false)
    else
      var c := CleanupStep(s, written.1, now, lastCleanup);
      (true, c.0, c.1, c.2)
  }

  /** A `set` whose write succeeds is that write followed by the cleanup check. */
  lemma SetStepOfWrite(s: Settings, st: Store, now: int, lastCleanup: int, key: string, value: Value,
                       ttl: Option<int>, dataType: Option<string>, w: WriteOutcome, written: Store)
    requires ValidStore(st)
    requires WriteStep(s, st, now, key, value, ttl, dataType, w) == (true, written)
    ensures var c := CleanupStep(s, written, now, lastCleanup);
            SetStep(s, st, now, lastCleanup, key, value, ttl, dataType, w) == (true, c.0, c.1, c.2)
  {
  }

  /**
   * While no cleanup is due, a successful `set` returns and is read back by
   * `get` before its expiry: same value, from the chosen type's file.
   */
  lemma SetThenGet(s: Settings, st: Store, now: int, lastCleanup: int, key: string, value: Value,
                   ttl: Option<int>, dataType: Option<string>, w: WriteOutcome)
    requires ValidStore(st)
    requires Writable(ChosenType(value, dataType), value, w)
    requires now - lastCleanup <= s.cleanupInterval
    requires EffectiveTtl(ttl, s.defaultTtl) >= 0
    ensures var r := SetStep(s, st, now, lastCleanup, key, value, ttl, dataType, w);
            var after := r.1;
            && !r.3
            && after.index.items[key].createdAt == now
            && after.index.items[key].expiresAt == now + EffectiveTtl(ttl, s.defaultTtl)
            && after.index.items[key].size == w.size
            && GetStep(s, after, now, key) == (Some(value), after)
  {
  }

  /**
   * An explicit type other than `json` and `dataframe` whose directory exists
   * (the empty type writes into the cache directory itself) is written by the
   * pickle branch and indexed under that type, and `get` reads it back.
   */
  lemma OtherTypeWritten(s: Settings, st: Store, now: int, key: string, value: Value,
                         ttl: Option<int>, t: string, size: nat)
    requires ValidStore(st) && t != Json && t != DataFrame
    requires EffectiveTtl(ttl, s.defaultTtl) >= 0
    ensures var r := WriteStep(s, st, now, key, value, ttl, Some(t), Written(size));
            && r.0 && r.1.index.items[key].dataType == t
            && r.1.files[CachePath(s.dir, key, t)] == StoredFile(Some(value), size)
            && GetStep(s, r.1, now, key) == (Some(value), r.1)
  {
  }

  /**
   * A `set` whose serialiser raises after the open truncated the file leaves
   * the old index entry in place, and the next `get` of a live entry of the
   * same type gives None instead of the old value.
   */
  lemma FailedDumpBreaksGet(s: Settings, st: Store, now: int, lastCleanup: int, key: string, value: Value,
                            ttl: Option<int>, dataType: Option<string>, partial: nat)
    requires ValidStore(st)
    requires key in st.index.items && st.index.items[key].expiresAt >= now
    requires OpensFile(ChosenType(value, dataType), value)
    requires st.index.items[key].dataType == ChosenType(value, dataType)
    ensures var r := SetStep(s, st, now, lastCleanup, key, value, ttl, dataType, DumpFailed(partial));
            && !r.0 && r.1.index == st.index
            && GetStep(s, r.1, now, key) == (None, r.1)
  {
  }

  /** Every indexed entry has a plain type, so no two entries share a file; the three formats are plain. */
  ghost predicate PlainTypes(st: Store)
  {
    forall k | k in st.index.items :: PlainType(st.index.items[k].dataType)
  }

  /** With plain types only, sweeping keeps the file of every key it keeps. */
  lemma SweepKeepsFile(s: Settings, st: Store, now: int, key: string)
    requires ValidStore(st) && PlainTypes(st)
    requires key in st.index.items && st.index.items[key].expiresAt >= now
    ensures var r := SweepExpired(s, st, now).1;
            && PlainTypes(r)
            && key in r.index.items && r.index.items[key] == st.index.items[key]
            && PathOf(s, r, key) == PathOf(s, st, key)
            && (PathOf(s, st, key) in st.files ==>
                  PathOf(s, st, key) in r.files && r.files[PathOf(s, st, key)] == st.files[PathOf(s, st, key)])
  {
    SweepExpiredSpec(s, st, now);
    var path := PathOf(s, st, key);
    forall e | e in Swept(s, st, now) ensures PathOf(s, st, e) != path {
      if PathOf(s, st, e) == path {
        CachePathInjective(s.dir, e, st.index.items[e].dataType, key, st.index.items[key].dataType);
      }
    }
    assert path !in PathsOf(s, st, Swept(s, st, now));
  }

  /** With plain types only, eviction keeps the file of every key it keeps. */
  lemma {:induction false} EvictKeepsFile(s: Settings, st: Store, key: string)
    requires ValidStore(st) && PlainTypes(st)
    requires key in Evict(s, st).0.index.items
    ensures key in st.index.items
    ensures PathOf(s, st, key) in st.files ==>
              PathOf(s, st, key) in Evict(s, st).0.files &&
              Evict(s, st).0.files[PathOf(s, st, key)] == st.files[PathOf(s, st, key)]
    decreases |st.index.keys|
  {
    EvictShrinks(s, st);
    if TotalSize(st.index) > s.maxSize && |st.index.keys| > 0 {
      var o := Oldest(st.index);
      var del := DeleteStep(s, st, o);
      if del.0 {
        var mid := del.1;
        EvictShrinks(s, mid);
        assert key in mid.index.items;
        if PathOf(s, st, o) == PathOf(s, st, key) {
          CachePathInjective(s.dir, o, st.index.items[o].dataType, key, st.index.items[key].dataType);
        }
        assert PathOf(s, mid, key) == PathOf(s, st, key);
        EvictKeepsFile(s, mid, key);
      }
    }
  }

  /**
   * When the cleanup runs, a key that survives it is still read back, provided
   * every indexed entry and the new one have plain types (so no two entries share a file).
   */
  lemma SetThenGetAfterCleanup(s: Settings, st: Store, now: int, lastCleanup: int, key: string, value: Value,
                               ttl: Option<int>, dataType: Option<string>, w: WriteOutcome)
    requires ValidStore(st) && PlainTypes(st)
    requires Writable(ChosenType(value, dataType), value, w)
    requires PlainType(ChosenType(value, dataType))
    requires EffectiveTtl(ttl, s.defaultTtl) >= 0
    requires key in SetStep(s, st, now, lastCleanup, key, value, ttl, dataType, w).1.index.items
    ensures var after := SetStep(s, st, now, lastCleanup, key, value, ttl, dataType, w).1;
            GetStep(s, after, now, key) == (Some(value), after)
  {
    var written := WriteStep(s, st, now, key, value, ttl, dataType, w).1;
    SetStepOfWrite(s, st, now, lastCleanup, key, value, ttl, dataType, w, written);
    WrittenIsLive(s, st, now, key, value, ttl, dataType, w);
    var after := SetStep(s, st, now, lastCleanup, key, value, ttl, dataType, w).1;
    assert after == CleanupStep(s, written, now, lastCleanup).0;
    if now - lastCleanup > s.cleanupInterval {
      assert after == Evict(s, SweepExpired(s, written, now).1).0;
      CleanupKeepsRead(s, written, now, key, value);
    } else {
      assert after == written;
    }
  }

  /** Right after a write of a plain type, the key is live, its file holds the value, and get reads it back. */
  lemma WrittenIsLive(s: Settings, st: Store, now: int, key: string, value: Value,
                      ttl: Option<int>, dataType: Option<string>, w: WriteOutcome)
    requires ValidStore(st) && PlainTypes(st)
    requires Writable(ChosenType(value, dataType), value, w)
    requires PlainType(ChosenType(value, dataType))
    requires EffectiveTtl(ttl, s.defaultTtl) >= 0
    ensures var r := WriteStep(s, st, now, key, value, ttl, dataType, w);
            && r.0 && ValidStore(r.1) && PlainTypes(r.1)
            && key in r.1.index.items && r.1.index.items[key].expiresAt >= now
            && PathOf(s, r.1, key) in r.1.files
            && r.1.files[PathOf(s, r.1, key)].value == Some(value)
            && GetStep(s, r.1, now, key) == (Some(value), r.1)
  {
    var written := WriteStep(s, st, now, key, value, ttl, dataType, w).1;
    assert written.files[PathOf(s, written, key)] == StoredFile(Some(value), w.size);
  }

  /** A live entry whose file holds `value` is still read back after a sweep and an eviction that keep it. */
  lemma CleanupKeepsRead(s: Settings, st: Store, now: int, key: string, value: Value)
    requires ValidStore(st) && PlainTypes(st)
    requires key in st.index.items && st.index.items[key].expiresAt >= now
    requires PathOf(s, st, key) in st.files && st.files[PathOf(s, st, key)].value == Some(value)
    requires key in Evict(s, SweepExpired(s, st, now).1).0.index.items
    ensures var after := Evict(s, SweepExpired(s, st, now).1).0;
            GetStep(s, after, now, key) == (Some(value), after)
  {
    var path := PathOf(s, st, key);
    SweepKeepsFile(s, st, now, key);
    var swept := SweepExpired(s, st, now).1;
    var after := Evict(s, swept).0;
    EvictKeepsFile(s, swept, key);
    EvictShrinks(s, swept);
    assert after.index.items[key] == st.index.items[key];
    assert PathOf(s, after, key) == path;
    assert path in after.files && after.files[path].value == Some(value);
  }

  /** Every file eviction removes belongs to an evicted key. */
  lemma {:induction false} EvictRemovesOnlyEvictedFiles(s: Settings, st: Store)
    requires ValidStore(st)
    ensures var r := Evict(s, st).0;
            forall p | p in st.files && p !in r.files ::
              exists e :: e in st.index.items && e !in r.index.items && PathOf(s, st, e) == p
    decreases |st.index.keys|
  {
    if TotalSize(st.index) > s.maxSize && |st.index.keys| > 0 {
      var o := Oldest(st.index);
      var del := DeleteStep(s, st, o);
      if del.0 {
        var mid := del.1;
        EvictRemovesOnlyEvictedFiles(s, mid);
        EvictShrinks(s, mid);
        var r := Evict(s, st).0;
        forall p | p in st.files && p !in r.files
          ensures exists e :: e in st.index.items && e !in r.index.items && PathOf(s, st, e) == p
        {
          if p == PathOf(s, st, o) {
            assert o !in mid.index.items;
          } else {
            assert p in mid.files;
            var e :| e in mid.index.items && e !in r.index.items && PathOf(s, mid, e) == p;
            assert PathOf(s, st, e) == p;
          }
        }
      }
    }
  }

  /**
   * `get` on a key whose entry expired strictly before `now` returns None and
   * drops the entry and its file, unless the file cannot be removed, in which
   * case nothing changes; either way a second `get` finds nothing.
   */
  lemma GetExpiredDrops(s: Settings, st: Store, now: int, key: string)
    requires ValidStore(st) && key in st.index.items && st.index.items[key].expiresAt < now
    ensures var r := GetStep(s, st, now, key);
            && r.0 == None
            && (key !in r.1.index.items <==> !Undeletable(s, st, key))
            && (!Undeletable(s, st, key) ==> PathOf(s, st, key) !in r.1.files)
            && (Undeletable(s, st, key) ==> r.1 == st)
            && GetStep(s, r.1, now, key) == (None, r.1)
  {
  }

  /** A second `delete` of the same key reports False and changes nothing. */
  lemma DeleteTwice(s: Settings, st: Store, key: string)
    requires ValidStore(st)
    ensures var once := DeleteStep(s, st, key).1;
            DeleteStep(s, once, key) == (false, once)
  {
  }

  // ---------------------------------------------------------------- the object

  class CacheManager {
    const settings: Settings
    /** The paths whose `unlink` raises; the file system's, not the cache's. */
    const locked: set<string>
    var now: int
    var lastCleanup: int
    var index: Dict<string, Entry>
    var files: map<string, StoredFile>

    ghost predicate Valid()
      reads this
    {
      index.Valid()
    }

    function State(): Store
      reads this
    {
      Store(index, files, locked)
    }

    /**
     * `__init__`: sizes are converted to bytes and seconds; the index is the
     * one read from disk, or empty when the index file is missing or unreadable.
     */
    constructor (cacheDir: string, maxSizeMb: int, defaultTtlDays: int, cleanupIntervalHours: int,
                 user: string, clock: int, storedIndex: Option<Dict<string, Entry>>,
                 disk: map<string, StoredFile>, lockedPaths: set<string>)
      requires storedIndex.Some? ==> storedIndex.value.Valid()
      ensures Valid()
      ensures settings == Settings(cacheDir, maxSizeMb * 1024 * 1024, defaultTtlDays * 86400,
                                   cleanupIntervalHours * 3600, user)
      ensures now == clock && lastCleanup == clock
      ensures index == if storedIndex.Some? then storedIndex.value else Empty()
      ensures files == disk && locked == lockedPaths
    {
      settings := Settings(cacheDir, maxSizeMb * 1024 * 1024, defaultTtlDays * 86400,
                           cleanupIntervalHours * 3600, user);
      locked := lockedPaths;
      now := clock;
      lastCleanup := clock;
      index := if storedIndex.Some? then storedIndex.value else Empty();
      files := disk;
    }

    /**
     * Moves `current_time`, which the source fixes to a literal date at
     * construction, so that expiry and the cleanup interval can be reached.
     */
    method SetTime(t: int)
      modifies this`now
      ensures now == t
    {
      now := t;
    }

    /** `set`; `spins` says the call never returns, because the cleanup's eviction loop spins. */
    method Set(key: string, value: Value, ttl: Option<int>, dataType: Option<string>, w: WriteOutcome)
      returns (ok: bool, spins: bool)
      requires Valid()
      modifies this`index, this`files, this`lastCleanup
      ensures Valid()
      ensures (ok, State(), lastCleanup, spins) ==
              SetStep(settings, old(State()), now, old(lastCleanup), key, value, ttl, dataType, w)
    {
      spins := false;
      ok := Write(key, value, ttl, dataType, w);
      if ok {
        SetStepOfWrite(settings, old(State()), now, lastCleanup, key, value, ttl, dataType, w, State());
        spins := CheckCleanup();
      }
    }

    /** The `try` of `set` up to the index update: the file, then the index entry. */
    method Write(key: string, value: Value, ttl: Option<int>, dataType: Option<string>, w: WriteOutcome)
      returns (ok: bool)
      requires Valid()
      modifies this`files, this`index
      ensures Valid()
      ensures (ok, State()) == WriteStep(settings, old(State()), now, key, value, ttl, dataType, w)
    {
      ghost var st0 := State();
      ghost var r := WriteStep(settings, st0, now, key, value, ttl, dataType, w);
      var t := ChosenType(value, dataType);
      var path := CachePath(settings.dir, key, t);
      if !OpensFile(t, value) || w.OpenFailed? {
        return false;
      }
      if w.DumpFailed? {
        // the open has created or truncated the file before the serialiser raised
        files := files[path := StoredFile(None, w.partial)];
        assert r.1 == State();
        return false;
      }
      var e := Entry(t, now, now + EffectiveTtl(ttl, settings.defaultTtl), w.size, settings.user);
      WriteStepWritten(settings, st0, now, key, value, ttl, dataType, w.size);
      files := files[path := StoredFile(Some(value), w.size)];
      index := index.Put(key, e);
      ok := true;
      assert State() == Store(st0.index.Put(key, e), st0.files[path := StoredFile(Some(value), w.size)], locked);
    }

    method Get(key: string) returns (v: Option<Value>)
      requires Valid()
      modifies this`index, this`files
      ensures Valid()
      ensures (v, State()) == GetStep(settings, old(State()), now, key)
    {
      if key !in index.items {
        return None;
      }
      var info := index.items[key];
      if info.expiresAt < now {
        var _ := Delete(key);
        return None;
      }
      var path := CachePath(settings.dir, key, info.dataType);
      if path !in files {
        // the open raises and is caught
        return None;
      }
      v := files[path].value;
    }

    method Delete(key: string) returns (ok: bool)
      requires Valid()
      modifies this`index, this`files
      ensures Valid()
      ensures (ok, State()) == DeleteStep(settings, old(State()), key)
    {
      if key !in index.items {
        return false;
      }
      var info := index.items[key];
      var path := CachePath(settings.dir, key, info.dataType);
      if path in files {
        if path in locked {
          // `unlink` raises; the handler returns False before the index is touched
          return false;
        }
        files := files - {path};
      } else {
        assert files - {path} == files;
      }
      index := index.Remove(key);
      ok := true;
    }

    /**
     * `clear`: the whole directory tree goes and the index is emptied. When a
     * file cannot be removed, `rmtree` raises and `clear` returns False with
     * the index as it was; the locked files are still there.
     */
    method Clear() returns (ok: bool)
      requires Valid()
      modifies this`index, this`files
      ensures Valid()
      ensures ok <==> old(files).Keys !! locked
      ensures ok ==> index == Empty() && files == map[]
      ensures !ok ==> index == old(index) && files.Keys <= old(files).Keys
      ensures !ok ==> forall p | p in old(files) && p in locked :: p in files && files[p] == old(files)[p]
    {
      if files.Keys !! locked {
        files := map[];
        index := Empty();
        ok := true;
      } else {
        files := map p | p in files && p in locked :: files[p];
        ok := false;
      }
    }

    method CleanExpiredCache() returns (count: nat)
      requires Valid()
      modifies this`index, this`files
      ensures Valid()
      ensures (count, State()) == SweepExpired(settings, old(State()), now)
    {
      ghost var st0 := State();
      var ks := index.keys;
      count := 0;
      var i := 0;
      while i < |ks|
        invariant 0 <= i <= |ks| && ks == st0.index.keys
        invariant Valid()
        invariant (count, State()) == SweepKeys(settings, st0, now, ks[..i])
      {
        var key := ks[i];
        SweepNext(settings, st0, now, i, count, State());
        ghost var next := SweepKeys(settings, st0, now, ks[..i + 1]);
        if index.items[key].expiresAt < now {
          var ok := Delete(key);
          if ok {
            count := count + 1;
          }
        }
        assert (count, State()) == next;
        i := i + 1;
      }
      assert ks[..|ks|] == ks;
      assert (count, State()) == SweepExpired(settings, st0, now);
      assert st0 == old(State());
    }

    /**
     * `_check_cleanup`. Where a `delete` in the eviction loop fails, the
     * source's loop repeats that round forever; the method stops there and
     * reports it in `spins`, leaving `last_cleanup` as it was.
     */
    method CheckCleanup() returns (spins: bool)
      requires Valid()
      modifies this`index, this`files, this`lastCleanup
      ensures Valid()
      ensures (State(), lastCleanup, spins) == CleanupStep(settings, old(State()), now, old(lastCleanup))
    {
      spins := false;
      ghost var st0 := State();
      if now - lastCleanup > settings.cleanupInterval {
        var _ := CleanExpiredCache();
        ghost var swept := State();
        spins := EvictOldest();
        CleanupOf(settings, st0, now, lastCleanup, swept, (State(), spins));
        if !spins {
          lastCleanup := now;
        }
      }
    }

    /**
     * The eviction loop of `_check_cleanup`: drop the oldest entry while the
     * cache is over its cap. If the oldest file cannot be removed the loop
     * would pick it again forever; the method returns `spins` instead.
     */
    method EvictOldest() returns (spins: bool)
      requires Valid()
      modifies this`index, this`files
      ensures Valid()
      ensures (State(), spins) == Evict(settings, old(State()))
    {
      spins := false;
      while GetCacheSize() > settings.maxSize && |index.keys| > 0
        invariant Valid()
        invariant Evict(settings, State()) == Evict(settings, old(State()))
        decreases |index.keys|
      {
        ghost var before := State();
        var oldest := Oldest(index);
        var ok := Delete(oldest);
        EvictRound(settings, before, (ok, State()));
        if !ok {
          // nothing changed, so every later round picks `oldest` again and fails again
          spins := true;
          return;
        }
      }
      EvictDone(settings, State());
    }

    /** `get_cache_size`. */
    function GetCacheSize(): (r: nat)
      reads this
      requires Valid()
      ensures r == TotalSize(index)
      ensures forall k | k in index.items :: index.items[k].size <= r
    {
      TotalSize(index)
    }

    /** `get_cache_stats`. */
    function GetCacheStats(): (r: Option<Stats>)
      reads this
      requires Valid()
      ensures r == CacheStats(settings, index)
      ensures r.Some? ==> r.value.totalItems == |index.items|
    {
      CacheStats(settings, index)
    }
  }
}
