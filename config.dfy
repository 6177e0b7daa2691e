/**
 * The configuration tree of utils/config_manager.py: nested dicts whose
 * leaves are scalars, merged recursively by `_deep_update`, read by section
 * and written back with a `_metadata` stamp.
 *
 * A leaf stands for any non-dict YAML value (string, number, boolean,
 * list, null) and is kept as its text; nothing here depends on which.
 */
module Config {
  import opened Wrappers
  import opened Dicts

  datatype Config = Node(entries: Dict<string, Config>) | Leaf(text: string)

  // ---------------------------------------------------------------- _deep_update

  /** The state of `base` part-way through the loop, and whether the loop is still running (no exception). */
  datatype Merging = Merging(entries: Dict<string, Config>, ok: bool)

  /** The tree `_deep_update` leaves behind, and whether it returned (`ok`) or raised. */
  datatype Merged = Merged(tree: Config, ok: bool)

  /**
   * Round `i` of the loop over `update.items()`: a dict value for a key
   * already in `base` is merged recursively, anything else overwrites. Once
   * an exception has stopped the loop, nothing more happens. (A key of the
   * order that is not mapped occurs in no well-formed dict; it is skipped.)
   */
  function MergeRound(prev: Merging, update: Dict<string, Config>, i: nat): Merging
    requires i < |update.keys|
    decreases update, 0, 0
  {
    var key := update.keys[i];
    if !prev.ok || key !in update.items then prev
    else
      var value := update.items[key];
      if value.Node? && key in prev.entries.items then
        var sub := DeepMerge(prev.entries.items[key], value.entries);
        Merging(prev.entries.Put(key, sub.tree), sub.ok)
      else
        Merging(prev.entries.Put(key, value), true)
  }

  /**
   * The first `n` rounds. An exception from a nested merge stops the loop;
   * what was merged so far, nested levels included, stays written, as it
   * does in place.
   */
  function MergeEntries(base: Dict<string, Config>, update: Dict<string, Config>, n: nat): (r: Merging)
    requires n <= |update.keys|
    ensures base.keys <= r.entries.keys
    decreases update, 0, n
  {
    if n == 0 then Merging(base, true) else MergeRound(MergeEntries(base, update, n - 1), update, n - 1)
  }

  /**
   * `_deep_update(base, update)`. A non-dict `base` with a non-empty
   * `update` raises on the first key (a scalar supports neither `in` nor
   * item assignment), so it comes back unchanged and failed.
   */
  function DeepMerge(base: Config, update: Dict<string, Config>): (r: Merged)
    ensures base.Leaf? ==> r.tree == base && (r.ok <==> update.keys == [])
    ensures base.Node? ==> r.tree.Node?
    decreases update, 1
  {
    if base.Leaf? then Merged(base, update.keys == [])
    else
      var m := MergeEntries(base.entries, update, |update.keys|);
      Merged(Node(m.entries), m.ok)
  }

  /** The recursive `_deep_update(base[key], update[key])` of a dict value for a key both have. */
  function NestedMerge(base: Dict<string, Config>, update: Dict<string, Config>, key: string): Merged
    requires key in base.items && key in update.items && update.items[key].Node?
  {
    DeepMerge(base.items[key], update.items[key].entries)
  }

  /** Round `i` does not raise: it does not recurse, or its recursive merge returns. */
  predicate RoundOk(base: Dict<string, Config>, update: Dict<string, Config>, i: nat)
    requires update.Valid() && i < |update.keys|
  {
    var key := update.keys[i];
    update.items[key].Node? && key in base.items ==> NestedMerge(base, update, key).ok
  }

  lemma KeysDistinctAt<V>(d: Dict<string, V>, i: nat, j: nat)
    requires d.Valid() && i < |d.keys| && j < |d.keys| && i != j
    ensures d.keys[i] != d.keys[j]
  {
    if i > j { assert d.keys[j] != d.keys[i]; }
  }

  /** The key of round `j` has not been handled before it. */
  lemma FreshKey<V>(update: Dict<string, V>, j: nat)
    requires update.Valid() && j < |update.keys|
    ensures update.keys[j] !in update.keys[..j]
  {
    forall i | 0 <= i < j ensures update.keys[..j][i] != update.keys[j] {
      KeysDistinctAt(update, i, j);
    }
  }

  /**
   * The loop only adds keys: after `n` rounds the keys are those of `base`
   * and some of the first `n` keys of `update`, whether or not it stopped
   * early; when it ran all `n` rounds every one of them is present.
   */
  lemma {:induction false} MergeEntriesKeys(base: Dict<string, Config>, update: Dict<string, Config>, n: nat, k: string)
    requires update.Valid() && n <= |update.keys|
    ensures var r := MergeEntries(base, update, n);
            && (k in base.items ==> k in r.entries.items)
            && (k in r.entries.items ==> k in base.items || k in update.keys[..n])
            && (r.ok && k in update.keys[..n] ==> k in r.entries.items)
  {
    if n > 0 {
      MergeEntriesKeys(base, update, n - 1, k);
      var prev, r := MergeEntries(base, update, n - 1), MergeEntries(base, update, n);
      var key := update.keys[n - 1];
      assert update.keys[..n] == update.keys[..n - 1] + [key];
      assert r == MergeRound(prev, update, n - 1);
      if prev.ok && key in update.items {
        assert r.entries.items.Keys == prev.entries.items.Keys + {key};
      } else {
        assert r == prev;
      }
    }
  }

  /** A key only `base` has keeps its value, even when the merge raised. */
  lemma {:induction false} MergeEntriesKeepsBase(base: Dict<string, Config>, update: Dict<string, Config>, n: nat, k: string)
    requires n <= |update.keys|
    requires k in base.items && k !in update.keys[..n]
    ensures var r := MergeEntries(base, update, n);
            k in r.entries.items && r.entries.items[k] == base.items[k]
  {
    if n > 0 {
      assert update.keys[..n - 1] <= update.keys[..n];
      assert update.keys[n - 1] == update.keys[..n][n - 1];
      MergeEntriesKeepsBase(base, update, n - 1, k);
    }
  }

  /**
   * Round `j`, when it returns, gives its key the `_deep_update` branch's
   * value: the recursive merge with `base`'s own value for a dict that
   * `base` already has, the update's value otherwise.
   */
  lemma RoundValue(base: Dict<string, Config>, update: Dict<string, Config>, j: nat)
    requires update.Valid() && j < |update.keys|
    requires MergeEntries(base, update, j + 1).ok
    ensures var key := update.keys[j];
            var value := update.items[key];
            var r := MergeEntries(base, update, j + 1).entries;
            && key in r.items
            && (value.Leaf? || key !in base.items ==> r.items[key] == value)
            && (value.Node? && key in base.items ==>
                  NestedMerge(base, update, key).ok && r.items[key] == NestedMerge(base, update, key).tree)
  {
    var key := update.keys[j];
    FreshKey(update, j);
    if key in base.items {
      MergeEntriesKeepsBase(base, update, j, key);
    } else {
      MergeEntriesKeys(base, update, j, key);
    }
  }

  /**
   * Once round `j` has run, the key it handled has the value it was given
   * there: later rounds handle other keys.
   */
  lemma {:induction false} MergeEntriesRound(base: Dict<string, Config>, update: Dict<string, Config>, n: nat, j: nat)
    requires update.Valid() && j < n <= |update.keys|
    requires MergeEntries(base, update, n).ok
    ensures MergeEntries(base, update, j + 1).ok
    ensures var key := update.keys[j];
            && key in MergeEntries(base, update, n).entries.items
            && key in MergeEntries(base, update, j + 1).entries.items
            && MergeEntries(base, update, n).entries.items[key]
               == MergeEntries(base, update, j + 1).entries.items[key]
  {
    if n > j + 1 {
      MergeEntriesRound(base, update, n - 1, j);
      KeysDistinctAt(update, j, n - 1);
    } else {
      RoundValue(base, update, j);
    }
  }

  /** `keys(result) = keys(base) ∪ keys(update)` when `_deep_update` returns. */
  lemma DeepMergeKeys(base: Dict<string, Config>, update: Dict<string, Config>)
    requires update.Valid()
    requires DeepMerge(Node(base), update).ok
    ensures DeepMerge(Node(base), update).tree.entries.items.Keys == base.items.Keys + update.items.Keys
  {
    var r := DeepMerge(Node(base), update).tree.entries;
    forall k ensures k in r.items <==> k in base.items || k in update.items {
      MergeEntriesKeys(base, update, |update.keys|, k);
      assert update.keys[..|update.keys|] == update.keys;
    }
  }

  /** Keys found only in `base` keep their values, even when the merge raised. */
  lemma DeepMergeKeepsBase(base: Dict<string, Config>, update: Dict<string, Config>, k: string)
    requires update.Valid()
    requires k in base.items && k !in update.items
    ensures var r := DeepMerge(Node(base), update).tree.entries;
            k in r.items && r.items[k] == base.items[k]
  {
    assert update.keys[..|update.keys|] == update.keys;
    MergeEntriesKeepsBase(base, update, |update.keys|, k);
  }

  /**
   * When `_deep_update` returns: a non-dict value, or a key `base` lacks,
   * overwrites; a dict value for a key `base` has is the recursive merge of
   * the two, and that inner merge returned too.
   */
  lemma DeepMergeValue(base: Dict<string, Config>, update: Dict<string, Config>, k: string)
    requires update.Valid()
    requires DeepMerge(Node(base), update).ok && k in update.items
    ensures var r := DeepMerge(Node(base), update).tree.entries;
            var value := update.items[k];
            && k in r.items
            && (value.Leaf? || k !in base.items ==> r.items[k] == value)
            && (value.Node? && k in base.items ==>
                  NestedMerge(base, update, k).ok && r.items[k] == NestedMerge(base, update, k).tree)
  {
    var j :| 0 <= j < |update.keys| && update.keys[j] == k;
    MergeEntriesRound(base, update, |update.keys|, j);
    RoundValue(base, update, j);
  }

  /** The loop runs its first `n` rounds without an exception exactly when none of those rounds raises. */
  lemma {:induction false} MergeEntriesOk(base: Dict<string, Config>, update: Dict<string, Config>, n: nat)
    requires update.Valid() && n <= |update.keys|
    ensures MergeEntries(base, update, n).ok <==> forall i | 0 <= i < n :: RoundOk(base, update, i)
  {
    if n > 0 {
      MergeEntriesOk(base, update, n - 1);
      var prev := MergeEntries(base, update, n - 1);
      assert MergeEntries(base, update, n) == MergeRound(prev, update, n - 1);
      if prev.ok {
        RoundOkAt(base, update, n - 1);
      } else {
        assert !MergeRound(prev, update, n - 1).ok;
      }
    }
  }

  /** When the loop reaches round `j`, that round returns exactly when `RoundOk` says it does. */
  lemma RoundOkAt(base: Dict<string, Config>, update: Dict<string, Config>, j: nat)
    requires update.Valid() && j < |update.keys|
    requires MergeEntries(base, update, j).ok
    ensures MergeRound(MergeEntries(base, update, j), update, j).ok <==> RoundOk(base, update, j)
  {
    var prev := MergeEntries(base, update, j);
    var key := update.keys[j];
    FreshKey(update, j);
    if key in base.items {
      MergeEntriesKeepsBase(base, update, j, key);
      assert prev.entries.items[key] == base.items[key];
    } else {
      MergeEntriesKeys(base, update, j, key);
      assert key !in prev.entries.items;
    }
  }

  /**
   * `_deep_update` on a dict returns, rather than raising, exactly when each
   * of its recursive merges returns; a merge into a scalar raises unless
   * there is nothing to merge, as `DeepMerge` states.
   */
  lemma DeepMergeOk(base: Dict<string, Config>, update: Dict<string, Config>)
    requires update.Valid()
    ensures DeepMerge(Node(base), update).ok <==>
              forall k | k in update.items && update.items[k].Node? && k in base.items :: NestedMerge(base, update, k).ok
  {
    MergeEntriesOk(base, update, |update.keys|);
    var allRounds := forall i | 0 <= i < |update.keys| :: RoundOk(base, update, i);
    var allKeys := forall k | k in update.items && update.items[k].Node? && k in base.items :: NestedMerge(base, update, k).ok;
    if allRounds {
      forall k | k in update.items && update.items[k].Node? && k in base.items
        ensures NestedMerge(base, update, k).ok
      {
        var i :| 0 <= i < |update.keys| && update.keys[i] == k;
        assert RoundOk(base, update, i);
      }
    }
    if allKeys {
      forall i | 0 <= i < |update.keys| ensures RoundOk(base, update, i) {
        assert update.keys[i] in update.items;
      }
    }
    assert DeepMerge(Node(base), update).ok == MergeEntries(base, update, |update.keys|).ok;
  }

  /** Once the loop has raised, later rounds change nothing. */
  lemma {:induction false} FailureSticks(base: Dict<string, Config>, update: Dict<string, Config>, j: nat, n: nat)
    requires j <= n <= |update.keys|
    requires !MergeEntries(base, update, j).ok
    ensures MergeEntries(base, update, n) == MergeEntries(base, update, j)
  {
    if n > j {
      FailureSticks(base, update, j, n - 1);
    }
  }

  /** `_deep_update`: the loop over `update`, recursing into dicts `base` already has; the merged tree is handed back. */
  method DeepUpdate(base: Config, update: Dict<string, Config>) returns (r: Config, ok: bool)
    ensures Merged(r, ok) == DeepMerge(base, update)
    decreases update, 1
  {
    if base.Leaf? {
      return base, update.keys == [];
    }
    var b := base.entries;
    var i := 0;
    while i < |update.keys|
      invariant 0 <= i <= |update.keys|
      invariant MergeEntries(base.entries, update, i) == Merging(b, true)
    {
      var key := update.keys[i];
      if key in update.items {
        var value := update.items[key];
        if value.Node? && key in b.items {
          var sub, subOk := DeepUpdate(b.items[key], value.entries);
          b := b.Put(key, sub);
          if !subOk {
            FailureSticks(base.entries, update, i + 1, |update.keys|);
            return Node(b), false;
          }
        } else {
          b := b.Put(key, value);
        }
      }
      i := i + 1;
    }
    r, ok := Node(b), true;
  }

  // ---------------------------------------------------------------- defaults, sections, metadata

  /** `default_config`, its scalars as text. */
  function DefaultConfig(): (r: Dict<string, Config>)
    ensures r.keys == ["system", "trading", "backtest", "display"]
    ensures forall k | k in r.items :: r.items[k].Node?
  {
    var system := Node(Dict(["version", "debug", "log_level", "data_cache_days"],
                            map["version" := Leaf("1.0.0"), "debug" := Leaf("False"), "log_level" := Leaf("INFO"),
                                "data_cache_days" := Leaf("7")]));
    var trading := Node(Dict(["commission_rate", "slippage", "min_trade_unit", "max_position_size"],
                             map["commission_rate" := Leaf("0.0003"), "slippage" := Leaf("0.0002"),
                                 "min_trade_unit" := Leaf("100"), "max_position_size" := Leaf("0.2")]));
    var backtest := Node(Dict(["default_initial_cash", "default_strategy", "risk_free_rate", "performance_benchmark"],
                              map["default_initial_cash" := Leaf("1000000"), "default_strategy" := Leaf("DualMA"),
                                  "risk_free_rate" := Leaf("0.03"), "performance_benchmark" := Leaf("000300")]));
    var display := Node(Dict(["theme", "chart_style", "date_format"],
                             map["theme" := Leaf("light"), "chart_style" := Leaf("default"),
                                 "date_format" := Leaf("%Y-%m-%d")]));
    Dict(["system", "trading", "backtest", "display"],
         map["system" := system, "trading" := trading, "backtest" := backtest, "display" := display])
  }

  const MetadataKey: string := "_metadata"

  function Metadata(time: string, user: string): Config
  {
    Node(Dict(["last_modified", "modified_by"], map["last_modified" := Leaf(time), "modified_by" := Leaf(user)]))
  }

  /** `save_config` first stamps the dict it is given with `_metadata`. */
  function WithMetadata(c: Dict<string, Config>, time: string, user: string): (r: Dict<string, Config>)
    ensures c.Valid() ==> r.Valid()
    ensures r.items.Keys == c.items.Keys + {MetadataKey}
    ensures r.items[MetadataKey] == Metadata(time, user)
    ensures forall k | k in c.items && k != MetadataKey :: r.items[k] == c.items[k]
    ensures c.keys <= r.keys
  {
    c.Put(MetadataKey, Metadata(time, user))
  }

  /** `get_config(section)`: an empty section name means the whole config; a missing section is `{}`. */
  function SectionOf(config: Dict<string, Config>, section: string): (r: Config)
    ensures section == "" ==> r == Node(config)
    ensures section != "" && section in config.items ==> r == config.items[section]
    ensures section != "" && section !in config.items ==> r == Node(Empty()) && r.entries.items == map[]
  {
    if section == "" then Node(config)
    else if section in config.items then config.items[section]
    else Node(Empty())
  }

  // ---------------------------------------------------------------- load_config

  /** `config.yaml` on disk: absent, parsed (`None` for an empty document), or failing to open or parse. */
  datatype YamlFile = Missing | Loaded(content: Option<Config>) | Unreadable

  /** What `load_config` leaves: the loaded config, the defaults (which saving stamps in place) and the file. */
  datatype LoadOutcome = LoadOutcome(config: Dict<string, Config>, defaults: Dict<string, Config>, file: YamlFile)

  /**
   * `load_config`. A missing file saves the stamped defaults and loads
   * them; an empty document is `{}` merged into the defaults; a parsed
   * dict is merged into them; everything else, including a merge that
   * raises and a document that is not a dict, falls back to the defaults.
   */
  function LoadStep(defaults: Dict<string, Config>, file: YamlFile, time: string, user: string, writable: bool): (r: LoadOutcome)
    ensures file.Missing? ==> r.config == r.defaults && r.defaults.items == defaults.items[MetadataKey := Metadata(time, user)]
    ensures file.Missing? ==> r.file == if writable then Loaded(Some(Node(r.defaults))) else Missing
    ensures !file.Missing? ==> r.defaults == defaults && r.file == file
    ensures file == Unreadable ==> r.config == defaults
    ensures file.Loaded? && file.content.Some? && file.content.value.Leaf? ==> r.config == defaults
    ensures file.Loaded? && file.content.Some? && file.content.value.Node? ==>
              var m := DeepMerge(Node(defaults), file.content.value.entries);
              r.config == if m.ok then m.tree.entries else defaults
  {
    match file
    case Missing =>
      var stamped := WithMetadata(defaults, time, user);
      LoadOutcome(stamped, stamped, if writable then Loaded(Some(Node(stamped))) else Missing)
    case Unreadable => LoadOutcome(defaults, defaults, file)
    case Loaded(content) =>
      var userConfig := if content.None? then Node(Empty()) else content.value;
      if userConfig.Leaf? then LoadOutcome(defaults, defaults, file)
      else
        var m := DeepMerge(Node(defaults), userConfig.entries);
        LoadOutcome(if m.ok then m.tree.entries else defaults, defaults, file)
  }

  /** An empty YAML document loads the defaults unchanged. */
  lemma EmptyDocumentLoadsDefaults(defaults: Dict<string, Config>, time: string, user: string, writable: bool)
    ensures LoadStep(defaults, Loaded(None), time, user, writable).config == defaults
  {
    assert MergeEntries(defaults, Empty(), 0) == Merging(defaults, true);
  }

  /** Whatever the file holds, no default section is lost. */
  lemma LoadKeepsSections(defaults: Dict<string, Config>, file: YamlFile, time: string, user: string, writable: bool, k: string)
    requires file.Loaded? && file.content.Some? && file.content.value.Node? ==> file.content.value.entries.Valid()
    requires k in defaults.items
    ensures k in LoadStep(defaults, file, time, user, writable).config.items
  {
    if file.Loaded? && file.content.Some? && file.content.value.Node? {
      var m := DeepMerge(Node(defaults), file.content.value.entries);
      if m.ok {
        DeepMergeKeys(defaults, file.content.value.entries);
      }
    }
  }

  // ---------------------------------------------------------------- update_config

  /** What `update_config` leaves: its result, the config, and the file. */
  datatype UpdateOutcome = UpdateOutcome(ok: bool, config: Dict<string, Config>, file: YamlFile)

  /**
   * `update_config`. With a section, a missing one is created as `{}` and
   * only that section is merged into; without one the whole config is.
   * A merge that raises keeps what it wrote so far and returns `False`
   * without saving; otherwise the result is that of `save_config`, which
   * stamps the config with `_metadata` even when the write then fails.
   */
  function UpdateStep(config: Dict<string, Config>, file: YamlFile, updates: Dict<string, Config>, section: string,
                      time: string, user: string, writable: bool): (r: UpdateOutcome)
    ensures r.ok ==> writable
    ensures r.ok ==> MetadataKey in r.config.items && r.config.items[MetadataKey] == Metadata(time, user)
    ensures r.ok ==> r.file == Loaded(Some(Node(r.config)))
    ensures !r.ok ==> r.file == file
  {
    var merged :=
      if section != "" then
        var target := if section in config.items then config.items[section] else Node(Empty());
        var m := DeepMerge(target, updates);
        Merging(config.Put(section, m.tree), m.ok)
      else
        var m := DeepMerge(Node(config), updates);
        Merging(m.tree.entries, m.ok);
    if !merged.ok then UpdateOutcome(false, merged.entries, file)
    else
      var stamped := WithMetadata(merged.entries, time, user);
      UpdateOutcome(writable, stamped, if writable then Loaded(Some(Node(stamped))) else file)
  }

  /**
   * A section update touches that section (and the stamp) only: every other
   * section is kept; the section becomes the merge of its old value, or of
   * `{}`, with the updates; it succeeds exactly when that merge returns and
   * the file is written; and the file changes only then.
   */
  lemma UpdateSectionOnly(config: Dict<string, Config>, file: YamlFile, updates: Dict<string, Config>, section: string,
                          time: string, user: string, writable: bool, other: string)
    requires section != "" && section != MetadataKey
    ensures var target := if section in config.items then config.items[section] else Node(Empty());
            var m := DeepMerge(target, updates);
            var r := UpdateStep(config, file, updates, section, time, user, writable);
            && (r.ok <==> m.ok && writable)
            && (r.file != file ==> r.ok && r.file == Loaded(Some(Node(r.config))))
            && SectionOf(r.config, section) == m.tree
            && (m.ok ==> SectionOf(r.config, MetadataKey) == Metadata(time, user))
            && (other != section && other != MetadataKey && other in config.items ==>
                  other in r.config.items && r.config.items[other] == config.items[other])
  {
  }

  /** Updating a section that does not exist with no keys creates it empty. */
  lemma UpdateCreatesSection(config: Dict<string, Config>, file: YamlFile, section: string,
                             time: string, user: string, writable: bool)
    requires section != "" && section != MetadataKey && section !in config.items
    ensures var r := UpdateStep(config, file, Empty(), section, time, user, writable);
            r.ok == writable && SectionOf(r.config, section) == Node(Empty())
  {
    assert MergeEntries(Empty(), Empty(), 0) == Merging(Empty(), true);
  }

  /** A whole-config update keeps every key it does not name, and returns exactly when the merge and the write do. */
  lemma UpdateWholeConfig(config: Dict<string, Config>, file: YamlFile, updates: Dict<string, Config>,
                          time: string, user: string, writable: bool, k: string)
    requires updates.Valid()
    requires k in config.items && k !in updates.items && k != MetadataKey
    ensures var r := UpdateStep(config, file, updates, "", time, user, writable);
            && (r.ok <==> DeepMerge(Node(config), updates).ok && writable)
            && k in r.config.items && r.config.items[k] == config.items[k]
  {
    DeepMergeKeepsBase(config, updates, k);
  }

  /** After a section update whose merge returns, the section holds its old keys and the updated ones. */
  lemma UpdateThenGet(config: Dict<string, Config>, file: YamlFile, updates: Dict<string, Config>, section: string,
                      time: string, user: string, writable: bool)
    requires section != "" && section != MetadataKey
    requires section in config.items && config.items[section].Node? && updates.Valid()
    requires DeepMerge(config.items[section], updates).ok
    ensures var r := UpdateStep(config, file, updates, section, time, user, writable);
            var s := SectionOf(r.config, section);
            s.Node? && s.entries.items.Keys == config.items[section].entries.items.Keys + updates.items.Keys
  {
    DeepMergeKeys(config.items[section].entries, updates);
  }

  // ---------------------------------------------------------------- the object

  class ConfigManager {
    /** The frozen `current_time` (as text) and `current_user`. */
    const now: string
    const user: string
    var defaults: Dict<string, Config>
    var config: Dict<string, Config>
    /** `config_dir / 'config.yaml'`. */
    var file: YamlFile

    /** `__init__`: the defaults, then `load_config`. `writable` says whether writing the file succeeds. */
    constructor (clock: string, currentUser: string, stored: YamlFile, writable: bool)
      ensures now == clock && user == currentUser
      ensures var r := LoadStep(DefaultConfig(), stored, clock, currentUser, writable);
              config == r.config && defaults == r.defaults && file == r.file
    {
      now := clock;
      user := currentUser;
      defaults := DefaultConfig();
      file := stored;
      config := Empty();
      new;
      ghost var r := LoadStep(defaults, file, now, user, writable);
      config := LoadConfig(writable);
      assert config == r.config && defaults == r.defaults && file == r.file;
    }

    /** `load_config`. */
    method LoadConfig(writable: bool) returns (c: Dict<string, Config>)
      modifies this`defaults, this`file
      ensures var r := LoadStep(old(defaults), old(file), now, user, writable);
              c == r.config && defaults == r.defaults && file == r.file
    {
      match file
      case Missing =>
        var stamped := SaveConfig(defaults, writable);
        defaults := stamped;
        c := defaults;
      case Unreadable =>
        c := defaults;
      case Loaded(content) =>
        var userConfig := if content.None? then Node(Empty()) else content.value;
        if userConfig.Leaf? {
          // `.items()` on a non-dict document raises
          return defaults;
        }
        var merged, ok := DeepUpdate(Node(defaults), userConfig.entries);
        if !ok {
          return defaults;
        }
        c := merged.entries;
    }

    /** `save_config`: stamp, then write; the stamped dict is handed back because the source stamps it in place. */
    method SaveConfig(c: Dict<string, Config>, writable: bool) returns (stamped: Dict<string, Config>)
      modifies this`file
      ensures stamped == WithMetadata(c, now, user)
      ensures file == if writable then Loaded(Some(Node(stamped))) else old(file)
    {
      stamped := c.Put(MetadataKey, Metadata(now, user));
      if writable {
        file := Loaded(Some(Node(stamped)));
      }
    }

    /** `get_config`. */
    function GetConfig(section: string): (r: Config)
      reads this
      ensures section == "" ==> r == Node(config)
      ensures section != "" && section in config.items ==> r == config.items[section]
      ensures section != "" && section !in config.items ==> r == Node(Empty())
    {
      SectionOf(config, section)
    }

    /** `update_config`. */
    method UpdateConfig(updates: Dict<string, Config>, section: string, writable: bool) returns (ok: bool)
      modifies this`config, this`file
      ensures UpdateOutcome(ok, config, file) == UpdateStep(old(config), old(file), updates, section, now, user, writable)
    {
      var mergeOk: bool;
      if section != "" {
        ghost var before := config;
        if section !in config.items {
          config := config.Put(section, Node(Empty()));
        }
        var sub;
        sub, mergeOk := DeepUpdate(config.items[section], updates);
        if section !in before.items {
          PutPut(before, section, Node(Empty()), sub);
        }
        config := config.Put(section, sub);
        assert config == before.Put(section, sub);
      } else {
        var merged;
        merged, mergeOk := DeepUpdate(Node(config), updates);
        config := merged.entries;
      }
      if !mergeOk {
        return false;
      }
      config := SaveConfig(config, writable);
      ok := writable;
    }
  }
}
