/**
 * The stock-pool registry of stock_pool_manager.py: named pools, each with a
 * description, creation and update stamps, and a dict of member stocks.
 * Every operation reports success as a boolean; a missing pool or symbol is
 * a `False`, never an error.
 */
module Pools {
  import opened Wrappers
  import opened Dicts

  datatype SymbolInfo = SymbolInfo(name: string, industry: string, addedAt: string, addedBy: string)

  datatype Pool = Pool(description: string, createdAt: string, createdBy: string,
                       updatedAt: string, updatedBy: string, symbols: Dict<string, SymbolInfo>)

  type Registry = Dict<string, Pool>

  /** Every pool's symbol dict is well formed. */
  ghost predicate ValidPools(pools: Registry)
  {
    pools.Valid() && forall p | p in pools.items :: pools.items[p].symbols.Valid()
  }

  /** `_initialize_pools`: the CSI 300 and CSI 500 sample pools, two stocks each. */
  function InitialPools(time: string, user: string): (r: Registry)
    ensures ValidPools(r)
    ensures r.keys == ["沪深300", "中证500"]
    ensures r.items.Keys == {"沪深300", "中证500"}
    ensures forall p | p in r.items :: |r.items[p].symbols.keys| == 2
    ensures r.items["沪深300"].symbols.keys == ["600519", "601318"]
    ensures r.items["中证500"].symbols.keys == ["000661", "002475"]
  {
    assert "600519"[2] != "601318"[2] && "000661"[2] != "002475"[2] && "沪深300"[0] != "中证500"[0];
    var csi300 := Pair("600519", SymbolInfo("贵州茅台", "食品饮料", time, user),
                       "601318", SymbolInfo("中国平安", "金融保险", time, user));
    var csi500 := Pair("000661", SymbolInfo("长春高新", "医药生物", time, user),
                       "002475", SymbolInfo("立讯精密", "电子", time, user));
    var r := Pair("沪深300", Pool("沪深300指数成分股", time, user, time, user, csi300),
                  "中证500", Pool("中证500指数成分股", time, user, time, user, csi500));
    assert r.items.Keys == {"沪深300", "中证500"};
    r
  }

  /** `create_pool`: a new, empty pool; an existing name is refused. */
  function CreateStep(pools: Registry, name: string, description: string, time: string, user: string): (r: (bool, Registry))
    requires ValidPools(pools)
    ensures ValidPools(r.1)
    ensures r.0 <==> name !in pools.items
    ensures !r.0 ==> r.1 == pools
    ensures r.0 ==> r.1.items == pools.items[name := Pool(description, time, user, time, user, Empty())]
    ensures r.0 ==> r.1.keys == pools.keys + [name]
  {
    if name in pools.items then (false, pools)
    else (true, pools.Put(name, Pool(description, time, user, time, user, Empty())))
  }

  /** `add_symbol`: insert or overwrite one stock and restamp its pool; an unknown pool is refused. */
  function AddStep(pools: Registry, pool: string, symbol: string, name: string, industry: string,
                     time: string, user: string): (r: (bool, Registry))
    requires ValidPools(pools)
    ensures ValidPools(r.1)
    ensures r.0 <==> pool in pools.items
    ensures !r.0 ==> r.1 == pools
    ensures r.0 ==>
      var old_ := pools.items[pool];
      && r.1.keys == pools.keys
      && r.1.items == pools.items[pool := old_.(symbols := old_.symbols.Put(symbol, SymbolInfo(name, industry, time, user)),
                                                updatedAt := time, updatedBy := user)]
  {
    if pool !in pools.items then (false, pools)
    else
      var p := pools.items[pool];
      var p' := p.(symbols := p.symbols.Put(symbol, SymbolInfo(name, industry, time, user)),
                   updatedAt := time, updatedBy := user);
      (true, pools.Put(pool, p'))
  }

  /** `remove_symbol`: delete one stock and restamp its pool; a missing pool or stock is refused. */
  function RemoveStep(pools: Registry, pool: string, symbol: string, time: string, user: string): (r: (bool, Registry))
    requires ValidPools(pools)
    ensures ValidPools(r.1)
    ensures r.0 <==> pool in pools.items && symbol in pools.items[pool].symbols.items
    ensures !r.0 ==> r.1 == pools
    ensures r.0 ==>
      var old_ := pools.items[pool];
      && r.1.keys == pools.keys
      && r.1.items == pools.items[pool := old_.(symbols := old_.symbols.Remove(symbol),
                                                updatedAt := time, updatedBy := user)]
  {
    if pool !in pools.items || symbol !in pools.items[pool].symbols.items then (false, pools)
    else
      var p := pools.items[pool];
      (true, pools.Put(pool, p.(symbols := p.symbols.Remove(symbol), updatedAt := time, updatedBy := user)))
  }

  /** `delete_pool`: only that pool goes; an unknown pool is refused. */
  function DeleteStep(pools: Registry, pool: string): (r: (bool, Registry))
    requires ValidPools(pools)
    ensures ValidPools(r.1)
    ensures r.0 <==> pool in pools.items
    ensures !r.0 ==> r.1 == pools
    ensures r.0 ==> r.1.items == pools.items - {pool}
  {
    if pool !in pools.items then (false, pools) else (true, pools.Remove(pool))
  }

  /** `get_pool_symbols`: the pool's stocks, or `{}` for an unknown pool. */
  function PoolSymbols(pools: Registry, pool: string): (r: Dict<string, SymbolInfo>)
    ensures pool !in pools.items ==> r.items == map[]
    ensures pool in pools.items ==> r == pools.items[pool].symbols
  {
    if pool !in pools.items then Empty() else pools.items[pool].symbols
  }

  /** What `get_pool_info` returns: a copy of the pool record plus its stock count. */
  datatype PoolInfo = PoolInfo(pool: Pool, symbolCount: nat)

  function PoolInfoOf(pools: Registry, pool: string): (r: Option<PoolInfo>)
    requires ValidPools(pools)
    ensures r.None? <==> pool !in pools.items
    ensures r.Some? ==> r.value.pool == pools.items[pool]
    ensures r.Some? ==> r.value.symbolCount == |pools.items[pool].symbols.items|
  {
    if pool !in pools.items then None
    else
      var p := pools.items[pool];
      CountKeys(p.symbols);
      Some(PoolInfo(p, |p.symbols.keys|))
  }

  // ---------------------------------------------------------------- properties relating operations

  /** Deleting a pool just created restores the registry, order included. */
  lemma CreateThenDelete(pools: Registry, name: string, description: string, time: string, user: string)
    requires ValidPools(pools) && name !in pools.items
    ensures var created := CreateStep(pools, name, description, time, user);
            created.0 && DeleteStep(created.1, name) == (true, pools)
  {
    PutThenRemove(pools, name, Pool(description, time, user, time, user, Empty()));
  }

  /** Removing a stock just added to a pool restores that pool's stocks; only its update stamp moved. */
  lemma AddThenRemove(pools: Registry, pool: string, symbol: string, name: string, industry: string, time: string, user: string)
    requires ValidPools(pools) && pool in pools.items && symbol !in pools.items[pool].symbols.items
    ensures var added := AddStep(pools, pool, symbol, name, industry, time, user).1;
            var removed := RemoveStep(added, pool, symbol, time, user);
            && removed.0
            && removed.1.keys == pools.keys
            && removed.1.items == pools.items[pool := pools.items[pool].(updatedAt := time, updatedBy := user)]
  {
    var p := pools.items[pool];
    var added := AddStep(pools, pool, symbol, name, industry, time, user).1;
    var info := SymbolInfo(name, industry, time, user);
    var mid := p.(symbols := p.symbols.Put(symbol, info), updatedAt := time, updatedBy := user);
    assert added.items == pools.items[pool := mid];
    PutThenRemove(p.symbols, symbol, info);
    assert mid.(symbols := mid.symbols.Remove(symbol), updatedAt := time, updatedBy := user)
           == p.(updatedAt := time, updatedBy := user);
    UpdateTwice(pools.items, pool, mid, p.(updatedAt := time, updatedBy := user));
  }

  /** Adding a stock already in the pool overwrites it: the pool's size does not change. */
  lemma AddExistingOverwrites(pools: Registry, pool: string, symbol: string, name: string, industry: string,
                              time: string, user: string)
    requires ValidPools(pools) && pool in pools.items && symbol in pools.items[pool].symbols.items
    ensures var added := AddStep(pools, pool, symbol, name, industry, time, user).1;
            && added.items[pool].symbols.keys == pools.items[pool].symbols.keys
            && added.items[pool].symbols.items[symbol] == SymbolInfo(name, industry, time, user)
  {
  }

  /** Adding to or removing from one pool leaves every other pool as it was. */
  lemma OtherPoolsUntouched(pools: Registry, pool: string, other: string, symbol: string, name: string, industry: string,
                            time: string, user: string)
    requires ValidPools(pools) && other in pools.items && other != pool
    ensures AddStep(pools, pool, symbol, name, industry, time, user).1.items[other] == pools.items[other]
    ensures RemoveStep(pools, pool, symbol, time, user).1.items[other] == pools.items[other]
  {
  }

  // ---------------------------------------------------------------- the object

  class StockPoolManager {
    /** The frozen `current_time` and `current_user` stamped on every change. */
    const now: string
    const user: string
    var pools: Registry

    ghost predicate Valid()
      reads this
    {
      ValidPools(pools)
    }

    constructor (clock: string, currentUser: string)
      ensures Valid()
      ensures now == clock && user == currentUser
      ensures pools == InitialPools(clock, currentUser)
    {
      now := clock;
      user := currentUser;
      pools := InitialPools(clock, currentUser);
    }

    /** `get_all_pools`. */
    function GetAllPools(): (r: Registry)
      reads this
      ensures r == pools
    {
      pools
    }

    method CreatePool(name: string, description: string) returns (ok: bool)
      requires Valid()
      modifies this`pools
      ensures Valid()
      ensures (ok, pools) == CreateStep(old(pools), name, description, now, user)
    {
      if name in pools.items {
        return false;
      }
      pools := pools.Put(name, Pool(description, now, user, now, user, Empty()));
      ok := true;
    }

    method AddSymbol(pool: string, symbol: string, name: string, industry: string) returns (ok: bool)
      requires Valid()
      modifies this`pools
      ensures Valid()
      ensures (ok, pools) == AddStep(old(pools), pool, symbol, name, industry, now, user)
    {
      if pool !in pools.items {
        return false;
      }
      var p := pools.items[pool];
      p := p.(symbols := p.symbols.Put(symbol, SymbolInfo(name, industry, now, user)));
      p := p.(updatedAt := now);
      p := p.(updatedBy := user);
      pools := pools.Put(pool, p);
      ok := true;
    }

    method RemoveSymbol(pool: string, symbol: string) returns (ok: bool)
      requires Valid()
      modifies this`pools
      ensures Valid()
      ensures (ok, pools) == RemoveStep(old(pools), pool, symbol, now, user)
    {
      if pool !in pools.items {
        return false;
      }
      if symbol !in pools.items[pool].symbols.items {
        return false;
      }
      var p := pools.items[pool];
      p := p.(symbols := p.symbols.Remove(symbol));
      p := p.(updatedAt := now);
      p := p.(updatedBy := user);
      pools := pools.Put(pool, p);
      ok := true;
    }

    method DeletePool(pool: string) returns (ok: bool)
      requires Valid()
      modifies this`pools
      ensures Valid()
      ensures (ok, pools) == DeleteStep(old(pools), pool)
    {
      if pool !in pools.items {
        return false;
      }
      pools := pools.Remove(pool);
      ok := true;
    }

    function GetPoolSymbols(pool: string): (r: Dict<string, SymbolInfo>)
      reads this
      ensures pool !in pools.items ==> r.items == map[]
      ensures pool in pools.items ==> r == pools.items[pool].symbols
    {
      PoolSymbols(pools, pool)
    }

    function GetPoolInfo(pool: string): (r: Option<PoolInfo>)
      reads this
      requires Valid()
      ensures r.None? <==> pool !in pools.items
      ensures r.Some? ==> r.value.pool == pools.items[pool] && r.value.symbolCount == |pools.items[pool].symbols.items|
    {
      PoolInfoOf(pools, pool)
    }
  }
}
