/**
 * The stock-data loader of engine/data_loader.py: a stock-code resolver that
 * produces the address each of three upstream providers expects, and an
 * ordered failover across those providers with an in-memory memo.
 *
 * The providers themselves (network calls and the pandas work inside
 * `_load_from_*`) are one function parameter `fetch`, which returns `None`
 * whenever the provider's loader would.
 */
module Loader {
  import opened Wrappers
  import opened Frames

  // ---------------------------------------------------------------- the code resolver

  /** `exchange_map`: three-digit code prefixes to exchange. */
  const ExchangeMap: map<string, string> :=
    map["600" := "sh", "601" := "sh", "603" := "sh", "605" := "sh",
        "000" := "sz", "001" := "sz", "002" := "sz", "003" := "sz",
        "300" := "sz", "301" := "sz"]

  /** Every known prefix is a Shanghai or a Shenzhen one, and the Shanghai ones are exactly the 60x codes listed. */
  lemma ExchangeTable(p: string)
    requires p in ExchangeMap
    ensures ExchangeMap[p] == "sh" || ExchangeMap[p] == "sz"
    ensures ExchangeMap[p] == "sh" <==> p == "600" || p == "601" || p == "603" || p == "605"
  {
  }

  /**
   * Python's `s.replace(pat, "")`: scans left to right and deletes each
   * leftmost, non-overlapping occurrence of `pat`.
   */
  function ReplaceAll(s: string, pat: string): (r: string)
    requires |pat| > 0
    ensures |r| <= |s|
    ensures (forall i | 0 <= i < |s| :: s[i] != pat[0]) ==> r == s
    decreases |s|
  {
    if |s| < |pat| then s
    else if s[..|pat|] == pat then ReplaceAll(s[|pat|..], pat)
    else [s[0]] + ReplaceAll(s[1..], pat)
  }

  /** The code with every `sh`, then every `sz`, removed. */
  function Clean(symbol: string): (r: string)
    ensures |r| <= |symbol|
    ensures (forall i | 0 <= i < |symbol| :: symbol[i] != 's') ==> r == symbol
  {
    ReplaceAll(ReplaceAll(symbol, "sh"), "sz")
  }

  /** `s[:3]`: Python slicing clamps to the string's length. */
  function Take3(s: string): (r: string)
    ensures |r| == if |s| < 3 then |s| else 3
    ensures r <= s
  {
    if |s| < 3 then s else s[..3]
  }

  /** ASCII upper-casing, as `str.upper()` does on the exchange names. */
  function Upper(s: string): (r: string)
    ensures |r| == |s|
    ensures forall i | 0 <= i < |s| :: r[i] == if 'a' <= s[i] <= 'z' then (s[i] - 'a' + 'A') as char else s[i]
  {
    if s == [] then []
    else [if 'a' <= s[0] <= 'z' then (s[0] - 'a' + 'A') as char else s[0]] + Upper(s[1..])
  }

  /** The three encodings of one stock code: `ex.code`, `code.EX`, `code`. */
  datatype Addresses = Addresses(baostock: string, tushare: string, akshare: string)

  /**
   * `_format_stock_code`: strip the exchange prefixes, look up the first
   * three characters, and build the three addresses; an unknown prefix
   * raises `ValueError`.
   */
  function FormatStockCode(symbol: string): (r: Result<Addresses, string>)
    ensures r.Success? <==> Take3(Clean(symbol)) in ExchangeMap
    ensures r.Success? ==>
      var ex := ExchangeMap[Take3(Clean(symbol))];
      && r.value.akshare == Clean(symbol)
      && r.value.baostock == ex + "." + r.value.akshare
      && r.value.tushare == r.value.akshare + "." + Upper(ex)
    ensures r.Failure? ==> r.error == "Unknown stock code format: " + symbol
  {
    var c := Clean(symbol);
    var prefix := Take3(c);
    if prefix !in ExchangeMap then Failure("Unknown stock code format: " + symbol)
    else
      var ex := ExchangeMap[prefix];
      Success(Addresses(ex + "." + c, c + "." + Upper(ex), c))
  }

  predicate IsDigits(s: string)
  {
    forall i | 0 <= i < |s| :: '0' <= s[i] <= '9'
  }

  /** A plain numeric code is used as is by all three providers, tagged with the table's exchange. */
  lemma FormatNumericCode(c: string)
    requires IsDigits(c) && |c| >= 3 && c[..3] in ExchangeMap
    ensures FormatStockCode(c).Success?
    ensures FormatStockCode(c).value.akshare == c
    ensures FormatStockCode(c).value.baostock == ExchangeMap[c[..3]] + "." + c
  {
    assert Clean(c) == c;
  }

  /**
   * A leading `sh` or `sz` is stripped and then ignored: the exchange always
   * comes from the table, so `sz600519` resolves to Shanghai like `600519`.
   */
  lemma ExchangePrefixIgnored(c: string)
    requires IsDigits(c)
    ensures FormatStockCode("sh" + c).Success? <==> FormatStockCode(c).Success?
    ensures FormatStockCode("sz" + c).Success? <==> FormatStockCode(c).Success?
    ensures FormatStockCode(c).Success? ==>
              FormatStockCode("sh" + c).value == FormatStockCode(c).value == FormatStockCode("sz" + c).value
  {
    assert ReplaceAll(c, "sh") == c;
    assert ReplaceAll(c, "sz") == c;
    var a := "sh" + c;
    assert a[..2] == "sh" && a[2..] == c;
    assert ReplaceAll(a, "sh") == c;
    assert Clean(a) == c;
    var b := "sz" + c;
    assert b[..2] == "sz" && b[2..] == c && b[1..] == "z" + c;
    assert ReplaceAll("z" + c, "sh") == "z" + c;
    assert ReplaceAll(b, "sh") == b;
    assert ReplaceAll(b, "sz") == c;
  }

  /** A code whose stripped form is shorter than three characters is always rejected. */
  lemma ShortCodeRejected(symbol: string)
    requires |Clean(symbol)| < 3
    ensures FormatStockCode(symbol).Failure?
  {
  }

  // ---------------------------------------------------------------- provider failover

  datatype Provider = Baostock | Tushare | Akshare

  /** The order in which the loaders are tried. */
  const Order: seq<Provider> := [Baostock, Tushare, Akshare]

  /**
   * The `if df is None:` chain: given each provider's answer in order, the
   * result and how many providers were asked. The first frame wins and
   * nobody after it is asked.
   */
  function Failover(answers: seq<Option<Frame>>): (r: (Option<Frame>, nat))
    ensures r.1 <= |answers|
    ensures r.0.Some? ==> 0 < r.1 && r.0 == answers[r.1 - 1]
    ensures forall i | 0 <= i < r.1 - 1 :: answers[i].None?
    ensures r.0.None? ==> r.1 == |answers| && forall i | 0 <= i < |answers| :: answers[i].None?
  {
    if answers == [] then (None, 0)
    else if answers[0].Some? then (answers[0], 1)
    else
      var rest := Failover(answers[1..]);
      (rest.0, rest.1 + 1)
  }

  /** Failover returns the first frame in provider order, whichever later providers would have said. */
  lemma {:induction false} FailoverFirstWins(answers: seq<Option<Frame>>, i: nat)
    requires i < |answers| && answers[i].Some?
    requires forall j | 0 <= j < i :: answers[j].None?
    ensures Failover(answers) == (answers[i], i + 1)
  {
    if i > 0 {
      assert answers[0].None?;
      FailoverFirstWins(answers[1..], i - 1);
    }
  }

  /** The three-provider chain in closed form. */
  lemma Failover3(a: Option<Frame>, b: Option<Frame>, c: Option<Frame>)
    ensures Failover([a, b, c]) == if a.Some? then (a, 1) else if b.Some? then (b, 2) else (c, 3)
  {
    assert [c][1..] == [];
    assert Failover([c]) == (c, 1);
    assert [b, c][1..] == [c];
    assert Failover([b, c]) == if b.Some? then (b, 1) else (c, 2);
    assert [a, b, c][1..] == [b, c];
  }

  /** What a provider's loader returns when its dates may be missing: `strftime` on `None` raises, is caught, gives `None`. */
  function Ask(fetch: (Provider, string, string, string) -> Option<Frame>, p: Provider, code: string,
               start: Option<string>, end: Option<string>): (r: Option<Frame>)
    ensures start.None? || end.None? ==> r.None?
    ensures start.Some? && end.Some? ==> r == fetch(p, code, start.value, end.value)
  {
    if start.None? || end.None? then None else fetch(p, code, start.value, end.value)
  }

  /** The three answers `load_stock_data` gets, in order, for resolved addresses. */
  function StockAnswers(fetch: (Provider, string, string, string) -> Option<Frame>, a: Addresses,
                        start: string, end: string): seq<Option<Frame>>
  {
    [fetch(Baostock, a.baostock, start, end), fetch(Tushare, a.tushare, start, end), fetch(Akshare, a.akshare, start, end)]
  }

  /** The three answers `load_index_data` gets: only `sh` is stripped, and akshare gets the raw symbol. */
  function IndexAnswers(fetch: (Provider, string, string, string) -> Option<Frame>, symbol: string,
                        start: Option<string>, end: Option<string>): seq<Option<Frame>>
  {
    [Ask(fetch, Baostock, "sh." + ReplaceAll(symbol, "sh"), start, end),
     Ask(fetch, Tushare, ReplaceAll(symbol, "sh") + ".SH", start, end),
     Ask(fetch, Akshare, symbol, start, end)]
  }

  /** The memo key `symbol_start_end`. */
  function MemoKey(symbol: string, start: string, end: string): string
  {
    symbol + "_" + start + "_" + end
  }

  // ---------------------------------------------------------------- the object

  class DataLoader {
    /** `self.cache`: memoised results by `MemoKey`. */
    var cache: map<string, Frame>

    constructor ()
      ensures cache == map[]
    {
      cache := map[];
    }

    /**
     * `load_stock_data`: a memo hit asks nobody; an unknown code asks nobody
     * and gives `None`; otherwise the providers are asked in order until one
     * answers, and an answer is memoised. `asked` lists the providers called.
     */
    method LoadStockData(symbol: string, start: string, end: string,
                         fetch: (Provider, string, string, string) -> Option<Frame>)
      returns (df: Option<Frame>, asked: seq<Provider>)
      modifies this
      ensures var key := MemoKey(symbol, start, end);
              key in old(cache) ==> df == Some(old(cache)[key]) && asked == [] && cache == old(cache)
      ensures var key := MemoKey(symbol, start, end);
              key !in old(cache) && FormatStockCode(symbol).Failure? ==>
                df == None && asked == [] && cache == old(cache)
      ensures var key := MemoKey(symbol, start, end);
              key !in old(cache) && FormatStockCode(symbol).Success? ==>
                && (df, |asked|) == Failover(StockAnswers(fetch, FormatStockCode(symbol).value, start, end))
                && asked == Order[..|asked|]
                && cache == if df.Some? then old(cache)[key := df.value] else old(cache)
    {
      var key := MemoKey(symbol, start, end);
      if key in cache {
        return Some(cache[key]), [];
      }
      var codes := FormatStockCode(symbol);
      if codes.Failure? {
        return None, [];
      }
      var a := codes.value;
      Failover3(fetch(Baostock, a.baostock, start, end), fetch(Tushare, a.tushare, start, end),
                fetch(Akshare, a.akshare, start, end));
      df := fetch(Baostock, a.baostock, start, end);
      asked := [Baostock];
      if df.None? {
        df := fetch(Tushare, a.tushare, start, end);
        asked := asked + [Tushare];
      }
      if df.None? {
        df := fetch(Akshare, a.akshare, start, end);
        asked := asked + [Akshare];
      }
      if df.Some? {
        cache := cache[key := df.value];
      }
    }

    /**
     * `load_index_data`: the same order of providers with index addresses;
     * the memo is neither read nor written.
     */
    method LoadIndexData(symbol: string, start: Option<string>, end: Option<string>,
                         fetch: (Provider, string, string, string) -> Option<Frame>)
      returns (df: Option<Frame>, asked: seq<Provider>)
      ensures (df, |asked|) == Failover(IndexAnswers(fetch, symbol, start, end))
      ensures asked == Order[..|asked|]
      ensures start.None? || end.None? ==> df.None?
    {
      var stripped := ReplaceAll(symbol, "sh");
      Failover3(Ask(fetch, Baostock, "sh." + stripped, start, end), Ask(fetch, Tushare, stripped + ".SH", start, end),
                Ask(fetch, Akshare, symbol, start, end));
      df := Ask(fetch, Baostock, "sh." + stripped, start, end);
      asked := [Baostock];
      if df.None? {
        df := Ask(fetch, Tushare, stripped + ".SH", start, end);
        asked := asked + [Tushare];
      }
      if df.None? {
        df := Ask(fetch, Akshare, symbol, start, end);
        asked := asked + [Akshare];
      }
    }
  }

  /** Two loads of the same stock and dates: the second is served from the memo and asks nobody. */
  method LoadTwice(loader: DataLoader, symbol: string, start: string, end: string,
                   fetch: (Provider, string, string, string) -> Option<Frame>)
    returns (first: Option<Frame>, second: Option<Frame>, askedAgain: seq<Provider>)
    modifies loader
    ensures first.Some? ==> second == first && askedAgain == []
  {
    var asked;
    first, asked := loader.LoadStockData(symbol, start, end, fetch);
    second, askedAgain := loader.LoadStockData(symbol, start, end, fetch);
  }
}
