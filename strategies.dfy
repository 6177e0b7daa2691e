/**
 * The strategy registry of strategies/strategy_factory.py: strategy codes
 * mapped, in registration order, to a class, a display name and a
 * description. Lookup accepts either a code or a display name.
 */
module Strategies {
  import opened Wrappers
  import opened Dicts

  /** A strategy class, reduced to its name and whether it derives from `BaseStrategy`. */
  datatype StrategyClass = StrategyClass(name: string, derivesFromBase: bool)

  /** `StrategyInfo`. */
  datatype StrategyInfo = StrategyInfo(cls: StrategyClass, displayName: string, description: string)

  type Registry = Dict<string, StrategyInfo>

  /** The `ValueError` of a failed lookup: the query and the `display (code)` list it offers. */
  datatype LookupError = NotFound(query: string, available: seq<string>)

  const DualMAClass: StrategyClass := StrategyClass("DualMAStrategy", true)
  const MACDClass: StrategyClass := StrategyClass("MACDStrategy", true)

  const TypeErrorMessage: string := "Strategy class must inherit from BaseStrategy"

  function DisplayAt(reg: Registry, i: nat): string
    requires reg.Valid() && i < |reg.keys|
  {
    reg.items[reg.keys[i]].displayName
  }

  /** The position of the first entry at or after `i`, in registration order, with display name `q`. */
  function FindDisplay(reg: Registry, q: string, i: nat): (r: Option<nat>)
    requires reg.Valid() && i <= |reg.keys|
    ensures r.Some? ==> i <= r.value < |reg.keys| && DisplayAt(reg, r.value) == q
    ensures r.Some? ==> forall j | i <= j < r.value :: DisplayAt(reg, j) != q
    ensures r.None? ==> forall j | i <= j < |reg.keys| :: DisplayAt(reg, j) != q
    decreases |reg.keys| - i
  {
    if i == |reg.keys| then None
    else if DisplayAt(reg, i) == q then Some(i)
    else FindDisplay(reg, q, i + 1)
  }

  /** The `display (code)` entries listed in the lookup error, in registration order. */
  function Available(reg: Registry): (r: seq<string>)
    requires reg.Valid()
    ensures |r| == |reg.keys|
  {
    seq(|reg.keys|, i requires 0 <= i < |reg.keys| => DisplayAt(reg, i) + " (" + reg.keys[i] + ")")
  }

  /**
   * `get_strategy`, as a specification: a code wins; otherwise the first
   * entry whose display name matches; otherwise `ValueError`.
   */
  function Lookup(reg: Registry, q: string): (r: Result<StrategyClass, LookupError>)
    requires reg.Valid()
    ensures q in reg.items ==> r == Success(reg.items[q].cls)
    ensures q !in reg.items && r.Success? ==>
              exists i | 0 <= i < |reg.keys| ::
                && DisplayAt(reg, i) == q && r.value == reg.items[reg.keys[i]].cls
                && forall j | 0 <= j < i :: DisplayAt(reg, j) != q
    ensures r.Failure? <==> q !in reg.items && forall j | 0 <= j < |reg.keys| :: DisplayAt(reg, j) != q
    ensures r.Failure? ==> r.error == NotFound(q, Available(reg))
  {
    if q in reg.items then Success(reg.items[q].cls)
    else
      var found := FindDisplay(reg, q, 0);
      if found.Some? then Success(reg.items[reg.keys[found.value]].cls)
      else Failure(NotFound(q, Available(reg)))
  }

  /** `register_strategy`: a class outside the `BaseStrategy` hierarchy raises `TypeError` and nothing changes; otherwise `map[name] = info`. */
  function RegisterStep(reg: Registry, name: string, info: StrategyInfo): (r: Result<Registry, string>)
    requires reg.Valid()
    ensures r.Failure? <==> !info.cls.derivesFromBase
    ensures r.Failure? ==> r.error == TypeErrorMessage
    ensures r.Success? ==> r.value.Valid() && r.value.items == reg.items[name := info]
    ensures r.Success? ==> r.value.keys == if name in reg.items then reg.keys else reg.keys + [name]
  {
    if !info.cls.derivesFromBase then Failure(TypeErrorMessage) else Success(reg.Put(name, info))
  }

  /** After a successful registration the code resolves to the new class, whatever was registered under it before. */
  lemma RegisterThenLookup(reg: Registry, name: string, info: StrategyInfo)
    requires reg.Valid() && info.cls.derivesFromBase
    ensures Lookup(RegisterStep(reg, name, info).value, name) == Success(info.cls)
  {
  }

  /** Re-registering a code keeps the registry's size and the code's place in the order. */
  lemma ReRegisterKeepsOrder(reg: Registry, name: string, info: StrategyInfo)
    requires reg.Valid() && info.cls.derivesFromBase && name in reg.items
    ensures RegisterStep(reg, name, info).value.keys == reg.keys
    ensures |RegisterStep(reg, name, info).value.items| == |reg.items|
  {
    assert reg.items[name := info].Keys == reg.items.Keys;
  }

  /** `get_display_names` over the first `n` entries: each display name mapped to its code. */
  function DisplayNamesUpTo(reg: Registry, n: nat): (r: Dict<string, string>)
    requires reg.Valid() && n <= |reg.keys|
    ensures r.Valid()
  {
    if n == 0 then Empty()
    else DisplayNamesUpTo(reg, n - 1).Put(DisplayAt(reg, n - 1), reg.keys[n - 1])
  }

  /** Every display name in the map leads back, by code, to a class carrying that display name. */
  function DisplayNames(reg: Registry): (r: Dict<string, string>)
    requires reg.Valid()
    ensures r.Valid()
    ensures forall d | d in r.items :: r.items[d] in reg.items && reg.items[r.items[d]].displayName == d
  {
    var r := DisplayNamesUpTo(reg, |reg.keys|);
    DisplayNamesStep(reg, |reg.keys|);
    forall d | d in r.items
      ensures r.items[d] in reg.items && reg.items[r.items[d]].displayName == d
    {
      NamesMapLastWins(reg, |reg.keys|, d);
    }
    r
  }

  /** The pairs of the display-name map over the first `n` entries, without the key order. */
  function NamesMap(reg: Registry, n: nat): map<string, string>
    requires reg.Valid() && n <= |reg.keys|
  {
    if n == 0 then map[] else NamesMap(reg, n - 1)[DisplayAt(reg, n - 1) := reg.keys[n - 1]]
  }

  /** The display-name dict holds the pairs of `NamesMap`: each entry in turn maps its display name to its code. */
  lemma {:induction false} DisplayNamesStep(reg: Registry, n: nat)
    requires reg.Valid() && n <= |reg.keys|
    ensures DisplayNamesUpTo(reg, n).items == NamesMap(reg, n)
  {
    if n > 0 {
      var prev := DisplayNamesUpTo(reg, n - 1);
      DisplayNamesStep(reg, n - 1);
      assert DisplayNamesUpTo(reg, n) == prev.Put(DisplayAt(reg, n - 1), reg.keys[n - 1]);
    }
  }

  /** The pairs hold exactly the display names of the first `n` entries. */
  lemma {:induction false} NamesMapKeys(reg: Registry, n: nat, d: string)
    requires reg.Valid() && n <= |reg.keys|
    ensures d in NamesMap(reg, n) <==> exists i | 0 <= i < n :: DisplayAt(reg, i) == d
  {
    if n > 0 {
      NamesMapKeys(reg, n - 1, d);
      if DisplayAt(reg, n - 1) == d {
        assert d in NamesMap(reg, n);
      } else {
        assert d in NamesMap(reg, n) <==> d in NamesMap(reg, n - 1);
        assert (exists i | 0 <= i < n :: DisplayAt(reg, i) == d) ==> (exists i | 0 <= i < n - 1 :: DisplayAt(reg, i) == d);
      }
    }
  }

  /** A display name maps to the code of its last entry among the first `n`. */
  lemma {:induction false} NamesMapLastWins(reg: Registry, n: nat, d: string)
    requires reg.Valid() && n <= |reg.keys|
    requires d in NamesMap(reg, n)
    ensures exists i | 0 <= i < n :: && DisplayAt(reg, i) == d && NamesMap(reg, n)[d] == reg.keys[i]
                                     && forall j | i < j < n :: DisplayAt(reg, j) != d
  {
    var m := NamesMap(reg, n);
    if DisplayAt(reg, n - 1) == d {
      assert m[d] == reg.keys[n - 1];
    } else {
      var prev := NamesMap(reg, n - 1);
      assert d in prev && m[d] == prev[d];
      NamesMapLastWins(reg, n - 1, d);
      var i :| 0 <= i < n - 1 && DisplayAt(reg, i) == d && prev[d] == reg.keys[i]
               && forall j | i < j < n - 1 :: DisplayAt(reg, j) != d;
      assert forall j | i < j < n :: DisplayAt(reg, j) != d;
    }
  }

  /**
   * `get_display_names`: the map holds exactly the registered display names,
   * and each maps to the code registered last, in order, under it.
   */
  lemma DisplayNamesLastWins(reg: Registry, d: string)
    requires reg.Valid()
    ensures d in DisplayNames(reg).items <==> exists i | 0 <= i < |reg.keys| :: DisplayAt(reg, i) == d
    ensures d in DisplayNames(reg).items ==>
              exists i | 0 <= i < |reg.keys| :: && DisplayAt(reg, i) == d && DisplayNames(reg).items[d] == reg.keys[i]
                                                && forall j | i < j < |reg.keys| :: DisplayAt(reg, j) != d
  {
    DisplayNamesStep(reg, |reg.keys|);
    NamesMapKeys(reg, |reg.keys|, d);
    if d in DisplayNames(reg).items {
      NamesMapLastWins(reg, |reg.keys|, d);
    }
  }

  /** Looking a display name up via the display-name map and then by code finds a class with that display name. */
  lemma DisplayNameRoundTrip(reg: Registry, d: string)
    requires reg.Valid() && d in DisplayNames(reg).items
    ensures var code := DisplayNames(reg).items[d];
            code in reg.items && reg.items[code].displayName == d
  {
    DisplayNamesLastWins(reg, d);
  }

  /** `_register_built_in_strategies`, in its dict's order. */
  function BuiltIns(): (r: Registry)
    ensures r.Valid()
  {
    var dual := StrategyInfo(DualMAClass, "双均线策略", "使用快慢双均线进行交易");
    var macd := StrategyInfo(MACDClass, "MACD策略", "使用MACD指标进行交易");
    RegisterStep(RegisterStep(Empty(), "DualMA", dual).value, "MACD", macd).value
  }

  /** The two built-in strategies are registered, so `list_strategies` is not empty; `DualMA` resolves to a `BaseStrategy`; an unknown name fails. */
  lemma BuiltInsRegistered()
    ensures BuiltIns().keys == ["DualMA", "MACD"]
    ensures Lookup(BuiltIns(), "DualMA") == Success(DualMAClass) && DualMAClass.derivesFromBase
    ensures Lookup(BuiltIns(), "双均线策略") == Success(DualMAClass)
    ensures Lookup(BuiltIns(), "NonexistentStrategy").Failure?
  {
    var reg := BuiltIns();
    assert reg.items.Keys == {"DualMA", "MACD"};
    assert DisplayAt(reg, 0) == "双均线策略";
    assert DisplayAt(reg, 1) == "MACD策略";
    assert "双均线策略" !in reg.items;
    assert "NonexistentStrategy" !in reg.items;
    assert "NonexistentStrategy"[0] != "双均线策略"[0] && "NonexistentStrategy"[0] != "MACD策略"[0];
  }

  class StrategyFactory {
    var strategies: Registry

    ghost predicate Valid()
      reads this
    {
      strategies.Valid()
    }

    /** First construction: an empty map, then the built-ins. */
    constructor ()
      ensures Valid() && strategies == BuiltIns()
    {
      strategies := Empty();
      new;
      var e1 := RegisterStrategy("DualMA", StrategyInfo(DualMAClass, "双均线策略", "使用快慢双均线进行交易"));
      var e2 := RegisterStrategy("MACD", StrategyInfo(MACDClass, "MACD策略", "使用MACD指标进行交易"));
    }

    /** `get_strategy`: a code lookup, then a search by display name in registration order. */
    method GetStrategy(q: string) returns (r: Result<StrategyClass, LookupError>)
      requires Valid()
      ensures r == Lookup(strategies, q)
    {
      if q in strategies.items {
        return Success(strategies.items[q].cls);
      }
      var i := 0;
      while i < |strategies.keys|
        invariant 0 <= i <= |strategies.keys|
        invariant FindDisplay(strategies, q, 0) == FindDisplay(strategies, q, i)
      {
        var info := strategies.items[strategies.keys[i]];
        if info.displayName == q {
          return Success(info.cls);
        }
        i := i + 1;
      }
      r := Failure(NotFound(q, Available(strategies)));
    }

    /** `register_strategy`; the error is the `TypeError` message. */
    method RegisterStrategy(name: string, info: StrategyInfo) returns (error: Option<string>)
      requires Valid()
      modifies this`strategies
      ensures Valid()
      ensures var r := RegisterStep(old(strategies), name, info);
              if r.Failure? then error == Some(r.error) && strategies == old(strategies)
              else error == None && strategies == r.value
    {
      if !info.cls.derivesFromBase {
        return Some(TypeErrorMessage);
      }
      strategies := strategies.Put(name, info);
      error := None;
    }

    /** `list_strategies`: a copy of the registry. */
    function ListStrategies(): (r: Registry)
      reads this
      ensures r == strategies
    {
      strategies
    }

    function GetDisplayNames(): (r: Dict<string, string>)
      reads this
      requires Valid()
      ensures r == DisplayNames(strategies)
      ensures forall d | d in r.items :: r.items[d] in strategies.items && strategies.items[r.items[d]].displayName == d
    {
      DisplayNames(strategies)
    }
  }
}
