/** The dashboard's small helpers (frontend/src/utils.js): route-parameter change
    detection, the password rule, text helpers and the merged coin list of several
    exchanges. */
module FrontUtils {
  import opened Common
  import opened Dict
  import opened Json
  import opened Decimal

  // ---- urlParamChanged ----

  /** `portfolios.findIndex(element => element._id === id)`. */
  function FindIndex(ids: seq<string>, id: string): (r: int)
    ensures -1 <= r < |ids|
    ensures r == -1 <==> id !in ids
    ensures r >= 0 ==> ids[r] == id && forall j :: 0 <= j < r ==> ids[j] != id
  {
    if ids == [] then -1
    else if ids[0] == id then 0
    else
      var rest := FindIndex(ids[1..], id);
      assert forall j :: 1 <= j < |ids| ==> ids[1..][j - 1] == ids[j];
      if rest == -1 then -1 else rest + 1
  }

  /** `urlParamChanged(params, portfolios, selected)`: the position of the portfolio the
      route names, when the route names one, there are portfolios, and none or another one
      is selected; -1 otherwise. `id` is `params.id` (None when absent), `selected` the
      selected portfolio's `_id` (None when nothing is selected). */
  function UrlParamChanged(id: Option<string>, portfolios: seq<string>, selected: Option<string>): (r: int)
    ensures -1 <= r < |portfolios|
    ensures r >= 0 ==> id.Some? && id.value != "" && portfolios[r] == id.value && selected != id
    ensures r >= 0 ==> forall j :: 0 <= j < r ==> portfolios[j] != id.value
    ensures id.Some? && id.value != "" && id.value in portfolios && selected != id ==> r >= 0
  {
    if id.Some? && id.value != "" && |portfolios| > 0 && (selected.None? || id.value != selected.value) then
      FindIndex(portfolios, id.value)
    else -1
  }

  /** Once the named portfolio is selected, the route no longer counts as changed. */
  lemma SelectedIsUnchanged(id: string, portfolios: seq<string>)
    ensures UrlParamChanged(Some(id), portfolios, Some(id)) == -1
  {
  }

  // ---- verifyPlainPassword ----

  /** `\s` of JavaScript regular expressions. */
  predicate IsSpace(c: char) {
    || c == ' ' || c == '\t' || c == '\n' || c == '\r' || c == '\U{000B}' || c == '\U{000C}'
    || c == '\U{00A0}' || c == '\U{1680}' || ('\U{2000}' <= c <= '\U{200A}') || c == '\U{2028}' || c == '\U{2029}'
    || c == '\U{202F}' || c == '\U{205F}' || c == '\U{3000}' || c == '\U{FEFF}'
  }

  predicate IsLower(c: char) { 'a' <= c <= 'z' }

  predicate IsUpper(c: char) { 'A' <= c <= 'Z' }

  /** `[^A-Za-z\s0-9]`. */
  predicate IsSpecial(c: char) {
    !IsLower(c) && !IsUpper(c) && !IsSpace(c) && !IsDigit(c)
  }

  /** The password rule: 6 to 20 characters, none of them white space, with a digit, a
      lower-case letter, an upper-case letter and a special character. */
  predicate StrongPassword(s: string) {
    && 6 <= |s| <= 20
    && (forall i :: 0 <= i < |s| ==> !IsSpace(s[i]))
    && (exists i :: 0 <= i < |s| && IsDigit(s[i]))
    && (exists i :: 0 <= i < |s| && IsLower(s[i]))
    && (exists i :: 0 <= i < |s| && IsUpper(s[i]))
    && (exists i :: 0 <= i < |s| && IsSpecial(s[i]))
  }

  /** The regular expression's test, one pass over the characters. */
  method MatchesRule(s: string) returns (ok: bool)
    ensures ok <==> StrongPassword(s)
  {
    if |s| < 6 || |s| > 20 {
      return false;
    }
    var digit, lower, upper, special := false, false, false, false;
    var i := 0;
    while i < |s|
      invariant 0 <= i <= |s|
      invariant forall j :: 0 <= j < i ==> !IsSpace(s[j])
      invariant digit <==> exists j :: 0 <= j < i && IsDigit(s[j])
      invariant lower <==> exists j :: 0 <= j < i && IsLower(s[j])
      invariant upper <==> exists j :: 0 <= j < i && IsUpper(s[j])
      invariant special <==> exists j :: 0 <= j < i && IsSpecial(s[j])
    {
      var c := s[i];
      if IsSpace(c) {
        return false;
      }
      digit := digit || IsDigit(c);
      lower := lower || IsLower(c);
      upper := upper || IsUpper(c);
      special := special || IsSpecial(c);
      i := i + 1;
    }
    return digit && lower && upper && special;
  }

  /** `verifyPlainPassword(password)`: `null` for anything but a string and for a string
      that breaks the rule; the match (`[""]`, the empty match at the start) otherwise. */
  method VerifyPlainPassword(password: Json) returns (r: Option<seq<string>>)
    ensures r.Some? <==> password.Str? && StrongPassword(password.s)
    ensures r.Some? ==> r.value == [""]
  {
    if !password.Str? {
      return None;
    }
    var ok := MatchesRule(password.s);
    r := if ok then Some([""]) else None;
  }

  // ---- capitalize and listTabText ----

  function UpperChar(c: char): (r: char)
    ensures IsLower(c) ==> IsUpper(r)
    ensures !IsLower(c) ==> r == c
  {
    if IsLower(c) then (c as int - 'a' as int + 'A' as int) as char else c
  }

  /** `capitalize(s)`: the first character upper-cased, the rest unchanged. */
  function Capitalize(s: string): (r: string)
    ensures |r| == |s|
    ensures s != [] ==> r[0] == UpperChar(s[0]) && r[1..] == s[1..]
  {
    if s == [] then [] else [UpperChar(s[0])] + s[1..]
  }

  /** Capitalising twice changes nothing more. */
  lemma CapitalizeIdempotent(s: string)
    ensures Capitalize(Capitalize(s)) == Capitalize(s)
  {
  }

  /** The tabs of the side list. */
  const TabKeys := ["network_topology", "devices", "traffic", "intrusion_detection", "notifications"]

  /** `listTabText(input_text)`: the caption of a known tab, "" for anything else. */
  function ListTabText(key: string): (r: string)
    ensures r != "" <==> key in TabKeys
  {
    if key == "network_topology" then "Network Topology"
    else if key == "devices" then "Devices"
    else if key == "traffic" then "Traffic"
    else if key == "intrusion_detection" then "Intrusion Detection"
    else if key == "notifications" then "Notifications"
    else ""
  }

  /** Distinct tabs get distinct captions. */
  lemma ListTabTextInjective(a: string, b: string)
    requires a in TabKeys && b in TabKeys && a != b
    ensures ListTabText(a) != ListTabText(b)
  {
  }

  // ---- getExchangesCoins ----

  /** A coin as an exchange reports it; `usd` is `price.USD`. */
  datatype Coin = Coin(name: Json, usd: Json, supply: Option<real>, changeUtc: Json, change24h: Json)

  /** One exchange's entry in the list the backend sends. */
  datatype Exchange = Exchange(name: string, coins: Dict<Coin>)

  /** A row of the merged coin table. */
  datatype CoinRow = CoinRow(name: Json, ticker: string, marketCap: Option<int>, price: Json, changeUtc: Json, change24h: Json, iconUrl: string)

  /** Exchanges in priority order: a ticker is taken from the first one that prices it. */
  const ExchangeOrder := ["coinbase", "kraken", "bitstamp", "bittrex"]

  /** Position `i` holds the first exchange called `name`. */
  predicate FirstNamed(data: seq<Exchange>, name: string, i: int) {
    0 <= i < |data| && data[i].name == name && forall j :: 0 <= j < i ==> data[j].name != name
  }

  /** `getExchangeData`: the coins of the first exchange with that name, none otherwise. */
  function ExchangeData(data: seq<Exchange>, name: string): (r: Dict<Coin>)
    ensures (forall i :: 0 <= i < |data| ==> data[i].coins.Valid()) ==> r.Valid()
  {
    if data == [] then Empty()
    else if data[0].name == name then data[0].coins
    else
      assert forall i :: 1 <= i < |data| ==> data[1..][i - 1] == data[i];
      ExchangeData(data[1..], name)
  }

  /** `getExchangeData` returns the coins of the first exchange with the name, and the
      empty object when no exchange has it. */
  lemma {:induction false} ExchangeDataFirst(data: seq<Exchange>, name: string)
    decreases |data|
    ensures (forall i :: 0 <= i < |data| ==> data[i].name != name) ==> ExchangeData(data, name) == Empty()
    ensures forall i :: FirstNamed(data, name, i) ==> ExchangeData(data, name) == data[i].coins
  {
    if data != [] && data[0].name != name {
      var rest := data[1..];
      ExchangeDataFirst(rest, name);
      forall i | FirstNamed(data, name, i)
        ensures ExchangeData(data, name) == data[i].coins
      {
        forall j | 0 <= j < i - 1
          ensures rest[j].name != name
        {
          assert rest[j] == data[j + 1];
        }
        assert rest[i - 1] == data[i];
        assert FirstNamed(rest, name, i - 1);
      }
      if forall i :: 0 <= i < |data| ==> data[i].name != name {
        forall i | 0 <= i < |rest|
          ensures rest[i].name != name
        {
          assert rest[i] == data[i + 1];
        }
      }
    }
  }

  /** `Math.round`: half-way values go up. */
  function Round(x: real): int {
    (x + 0.5).Floor
  }

  /** `Math.round(supply * price)`; None stands for NaN. */
  function Cap(supply: Option<real>, price: Option<real>): Option<int> {
    if supply.Some? && price.Some? then Some(Round(supply.value * price.value)) else None
  }

  /** `Math.round(circulating_supply * price.USD)`: the product coerces the price as
      `Number` does. */
  function MarketCap(c: Coin): Option<int> {
    Cap(c.supply, JsNumber(c.usd))
  }

  /** A row: name, ticker, market cap, prices, changes and the icon address. */
  function MakeRow(ticker: string, c: Coin, backendUrl: string): CoinRow {
    CoinRow(c.name, ticker, MarketCap(c), c.usd, c.changeUtc, c.change24h,
      backendUrl + "/public/coin_icons/" + ticker + ".svg")
  }

  /** A price given as an integer text (`"42"`, `" -7 "`) enters the market cap as that
      number, exactly as a numeric price does, and the cap is defined whenever the supply
      is. */
  lemma MarketCapOfTextPrice(c: Coin, k: int)
    requires c.supply.Some? && c.usd.Str? && JsIntText(c.usd.s) == Some(k)
    ensures MarketCap(c).Some?
    ensures MarketCap(c) == MarketCap(c.(usd := Num(k as real)))
  {
    assert JsNumber(c.usd) == JsNumber(Num(k as real));
  }

  /** Whether an exchange offers a ticker with a (truthy) USD price. */
  predicate Offers(coins: Dict<Coin>, t: string) {
    t in coins.vals && Truthy(coins.vals[t].usd)
  }

  /** The inner loop over one exchange's tickers: a ticker not taken yet and priced there
      gets a row. */
  function TickerRows(coins: Dict<Coin>, ks: seq<string>, seen: set<string>, backendUrl: string): seq<CoinRow>
  {
    if ks == [] then []
    else if ks[0] !in seen && Offers(coins, ks[0]) then
      [MakeRow(ks[0], coins.vals[ks[0]], backendUrl)] + TickerRows(coins, ks[1..], seen + {ks[0]}, backendUrl)
    else
      TickerRows(coins, ks[1..], seen, backendUrl)
  }

  /** No ticker has two rows. */
  predicate DistinctTickers(rows: seq<CoinRow>) {
    forall i, j :: 0 <= i < j < |rows| ==> rows[i].ticker != rows[j].ticker
  }

  /** A row built from a ticker an exchange offers. */
  predicate RowFrom(coins: Dict<Coin>, row: CoinRow, backendUrl: string) {
    Offers(coins, row.ticker) && row == MakeRow(row.ticker, coins.vals[row.ticker], backendUrl)
  }

  /** Each row of one exchange's pass is built from a listed ticker outside `seen` that the
      exchange prices, and no ticker appears twice. */
  lemma {:induction false} TickerRowsSound(coins: Dict<Coin>, ks: seq<string>, seen: set<string>, backendUrl: string)
    decreases |ks|
    ensures forall row :: row in TickerRows(coins, ks, seen, backendUrl) ==> row.ticker in ks && row.ticker !in seen && RowFrom(coins, row, backendUrl)
    ensures DistinctTickers(TickerRows(coins, ks, seen, backendUrl))
  {
    if ks != [] {
      var t := ks[0];
      if t !in seen && Offers(coins, t) {
        var rest := TickerRows(coins, ks[1..], seen + {t}, backendUrl);
        TickerRowsSound(coins, ks[1..], seen + {t}, backendUrl);
        var r := [MakeRow(t, coins.vals[t], backendUrl)] + rest;
        assert r == TickerRows(coins, ks, seen, backendUrl);
        assert forall i :: 1 <= i < |r| ==> r[i] == rest[i - 1];
        assert r[0].ticker == t;
        forall row | row in r
          ensures row.ticker in ks && row.ticker !in seen && RowFrom(coins, row, backendUrl)
        {
          if row != r[0] {
            assert row in rest;
            assert row.ticker in ks[1..];
          }
        }
        forall i, j | 0 <= i < j < |r|
          ensures r[i].ticker != r[j].ticker
        {
          assert r[j] in rest;
          if i > 0 {
            assert r[i] == rest[i - 1] && r[j] == rest[j - 1];
          }
        }
      } else {
        var r := TickerRows(coins, ks[1..], seen, backendUrl);
        TickerRowsSound(coins, ks[1..], seen, backendUrl);
        forall row | row in r
          ensures row.ticker in ks
        {
          assert row.ticker in ks[1..];
        }
      }
    }
  }

  /** Every listed ticker outside `seen` that the exchange prices gets a row. */
  lemma {:induction false} TickerRowsComplete(coins: Dict<Coin>, ks: seq<string>, seen: set<string>, backendUrl: string, t: string)
    decreases |ks|
    requires t in ks && t !in seen && Offers(coins, t)
    ensures exists i :: 0 <= i < |TickerRows(coins, ks, seen, backendUrl)| && TickerRows(coins, ks, seen, backendUrl)[i].ticker == t
  {
    var r := TickerRows(coins, ks, seen, backendUrl);
    if ks[0] !in seen && Offers(coins, ks[0]) {
      var rest := TickerRows(coins, ks[1..], seen + {ks[0]}, backendUrl);
      assert r == [MakeRow(ks[0], coins.vals[ks[0]], backendUrl)] + rest;
      if t == ks[0] {
        assert r[0].ticker == t;
      } else {
        assert t in ks[1..];
        TickerRowsComplete(coins, ks[1..], seen + {ks[0]}, backendUrl, t);
        var i :| 0 <= i < |rest| && rest[i].ticker == t;
        assert r[i + 1].ticker == t;
      }
    } else {
      assert t in ks[1..];
      TickerRowsComplete(coins, ks[1..], seen, backendUrl, t);
    }
  }

  /** The position in `names` of the first exchange that offers a ticker. */
  function FirstOffer(data: seq<Exchange>, names: seq<string>, t: string): (r: Option<nat>)
    ensures r.Some? ==> r.value < |names| && Offers(ExchangeData(data, names[r.value]), t)
    ensures r.Some? ==> forall k :: 0 <= k < r.value ==> !Offers(ExchangeData(data, names[k]), t)
    ensures r.None? <==> forall k :: 0 <= k < |names| ==> !Offers(ExchangeData(data, names[k]), t)
  {
    FirstOfferFrom(data, names, t, 0)
  }

  /** The scan behind `FirstOffer`, from position `i` on. */
  function FirstOfferFrom(data: seq<Exchange>, names: seq<string>, t: string, i: nat): (r: Option<nat>)
    requires i <= |names|
    decreases |names| - i
    ensures r.Some? ==> i <= r.value < |names| && Offers(ExchangeData(data, names[r.value]), t)
    ensures r.Some? ==> forall k :: i <= k < r.value ==> !Offers(ExchangeData(data, names[k]), t)
    ensures r.None? <==> forall k :: i <= k < |names| ==> !Offers(ExchangeData(data, names[k]), t)
  {
    if i == |names| then None
    else if Offers(ExchangeData(data, names[i]), t) then Some(i)
    else FirstOfferFrom(data, names, t, i + 1)
  }

  /** The coin the merged table takes for a ticker: the one of the first exchange that
      offers it. */
  function ChosenCoin(data: seq<Exchange>, names: seq<string>, t: string): Coin
    requires FirstOffer(data, names, t).Some?
  {
    ExchangeData(data, names[FirstOffer(data, names, t).value]).vals[t]
  }

  /** Every exchange's coins form a proper object. */
  ghost predicate WellFormed(data: seq<Exchange>) {
    forall i :: 0 <= i < |data| ==> data[i].coins.Valid()
  }

  /** The outer loop over the exchanges, in priority order; `seen` holds the tickers
      already taken. */
  function ExchangeRows(data: seq<Exchange>, names: seq<string>, seen: set<string>, backendUrl: string): seq<CoinRow>
  {
    if names == [] then []
    else
      var coins := ExchangeData(data, names[0]);
      var here := TickerRows(coins, coins.keys, seen, backendUrl);
      here + ExchangeRows(data, names[1..], seen + Tickers(here), backendUrl)
  }

  function Tickers(rows: seq<CoinRow>): (r: set<string>)
    ensures forall t :: t in r <==> exists i :: 0 <= i < |rows| && rows[i].ticker == t
  {
    set i | 0 <= i < |rows| :: rows[i].ticker
  }

  /** A ticker the first exchange does not offer has its first offer one place later in
      the rest of the list, with the same coin. */
  lemma FirstOfferShift(data: seq<Exchange>, names: seq<string>, t: string)
    requires names != [] && !Offers(ExchangeData(data, names[0]), t)
    ensures FirstOffer(data, names, t).Some? <==> FirstOffer(data, names[1..], t).Some?
    ensures FirstOffer(data, names, t).Some? ==>
      (FirstOffer(data, names, t).value == FirstOffer(data, names[1..], t).value + 1
       && ChosenCoin(data, names, t) == ChosenCoin(data, names[1..], t))
  {
  }

  /** A row built from the coin of the first exchange in `names` that offers its ticker. */
  predicate ChosenRow(data: seq<Exchange>, names: seq<string>, row: CoinRow, backendUrl: string) {
    FirstOffer(data, names, row.ticker).Some? && row == MakeRow(row.ticker, ChosenCoin(data, names, row.ticker), backendUrl)
  }

  /** In a proper object, a ticker the exchange prices and `seen` lacks gets a row in the
      exchange's pass. */
  lemma PassTakes(coins: Dict<Coin>, seen: set<string>, backendUrl: string, t: string)
    requires coins.Valid() && t !in seen && Offers(coins, t)
    ensures t in Tickers(TickerRows(coins, coins.keys, seen, backendUrl))
  {
    TickerRowsComplete(coins, coins.keys, seen, backendUrl, t);
  }

  /** Each row of the merged table comes from the first exchange in `names` that offers
      its ticker, and none has a ticker of `seen`. */
  lemma {:induction false} ExchangeRowsSound(data: seq<Exchange>, names: seq<string>, seen: set<string>, backendUrl: string)
    requires WellFormed(data)
    decreases |names|
    ensures forall row :: row in ExchangeRows(data, names, seen, backendUrl) ==> row.ticker !in seen && ChosenRow(data, names, row, backendUrl)
  {
    if names != [] {
      var coins := ExchangeData(data, names[0]);
      var here := TickerRows(coins, coins.keys, seen, backendUrl);
      var rest := ExchangeRows(data, names[1..], seen + Tickers(here), backendUrl);
      TickerRowsSound(coins, coins.keys, seen, backendUrl);
      ExchangeRowsSound(data, names[1..], seen + Tickers(here), backendUrl);
      forall row: CoinRow | row in here + rest
        ensures row.ticker !in seen && ChosenRow(data, names, row, backendUrl)
      {
        if row in rest {
          if Offers(coins, row.ticker) {
            PassTakes(coins, seen, backendUrl, row.ticker);
          }
          FirstOfferShift(data, names, row.ticker);
        }
      }
    }
  }

  /** Two row lists without a ticker in common, each without repeats, join without
      repeats. */
  lemma DistinctAppend(a: seq<CoinRow>, b: seq<CoinRow>)
    requires DistinctTickers(a) && DistinctTickers(b) && Tickers(a) !! Tickers(b)
    ensures DistinctTickers(a + b)
  {
    var r := a + b;
    forall i, j | 0 <= i < j < |r|
      ensures r[i].ticker != r[j].ticker
    {
      if i < |a| && j >= |a| {
        assert r[i] == a[i] && r[j] == b[j - |a|];
        assert r[i].ticker in Tickers(a) && r[j].ticker in Tickers(b);
      } else if j < |a| {
        assert r[i] == a[i] && r[j] == a[j];
      } else {
        assert r[i] == b[i - |a|] && r[j] == b[j - |a|];
      }
    }
  }

  /** No ticker has two rows in the merged table. */
  lemma {:induction false} ExchangeRowsDistinct(data: seq<Exchange>, names: seq<string>, seen: set<string>, backendUrl: string)
    requires WellFormed(data)
    decreases |names|
    ensures DistinctTickers(ExchangeRows(data, names, seen, backendUrl))
  {
    if names != [] {
      var coins := ExchangeData(data, names[0]);
      var here := TickerRows(coins, coins.keys, seen, backendUrl);
      var rest := ExchangeRows(data, names[1..], seen + Tickers(here), backendUrl);
      assert ExchangeRows(data, names, seen, backendUrl) == here + rest;
      TickerRowsSound(coins, coins.keys, seen, backendUrl);
      ExchangeRowsSound(data, names[1..], seen + Tickers(here), backendUrl);
      ExchangeRowsDistinct(data, names[1..], seen + Tickers(here), backendUrl);
      forall t | t in Tickers(rest)
        ensures t !in Tickers(here)
      {
        var i :| 0 <= i < |rest| && rest[i].ticker == t;
        assert rest[i] in rest;
      }
      DistinctAppend(here, rest);
    }
  }

  lemma TickersAppend(a: seq<CoinRow>, b: seq<CoinRow>)
    ensures Tickers(a + b) == Tickers(a) + Tickers(b)
  {
    assert forall i :: 0 <= i < |a| ==> (a + b)[i] == a[i];
    assert forall i :: 0 <= i < |b| ==> (a + b)[|a| + i] == b[i];
  }

  /** Every ticker outside `seen` that an exchange of `names` prices has a row. */
  lemma {:induction false} ExchangeRowsComplete(data: seq<Exchange>, names: seq<string>, seen: set<string>, backendUrl: string, t: string)
    requires WellFormed(data)
    requires t !in seen && exists k :: 0 <= k < |names| && Offers(ExchangeData(data, names[k]), t)
    decreases |names|
    ensures t in Tickers(ExchangeRows(data, names, seen, backendUrl))
  {
    assert FirstOffer(data, names, t).Some?;
    var coins := ExchangeData(data, names[0]);
    var here := TickerRows(coins, coins.keys, seen, backendUrl);
    var rest := ExchangeRows(data, names[1..], seen + Tickers(here), backendUrl);
    assert ExchangeRows(data, names, seen, backendUrl) == here + rest;
    TickersAppend(here, rest);
    if t !in Tickers(here) {
      if Offers(coins, t) {
        PassTakes(coins, seen, backendUrl, t);
      }
      FirstOfferShift(data, names, t);
      ExchangeRowsComplete(data, names[1..], seen + Tickers(here), backendUrl, t);
    }
  }

  /** `getExchangesCoins(data)`: each ticker that one of the four exchanges prices appears
      exactly once, with the coin of the first exchange in priority order that prices it. */
  function ExchangesCoins(data: seq<Exchange>, backendUrl: string): (r: seq<CoinRow>)
    requires WellFormed(data)
    ensures forall row :: row in r ==> ChosenRow(data, ExchangeOrder, row, backendUrl)
    ensures DistinctTickers(r)
    ensures forall t :: FirstOffer(data, ExchangeOrder, t).Some? <==> t in Tickers(r)
  {
    ExchangeRowsSound(data, ExchangeOrder, {}, backendUrl);
    ExchangeRowsDistinct(data, ExchangeOrder, {}, backendUrl);
    forall t | FirstOffer(data, ExchangeOrder, t).Some?
      ensures t in Tickers(ExchangeRows(data, ExchangeOrder, {}, backendUrl))
    {
      ExchangeRowsComplete(data, ExchangeOrder, {}, backendUrl, t);
    }
    ExchangeRows(data, ExchangeOrder, {}, backendUrl)
  }
}
