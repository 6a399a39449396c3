/**
 * The GMGN client: `getTokens(limit)` fetches the swap ranking and keeps its first
 * `limit` token addresses, `getTrades(token)` fetches a token's top traders and
 * projects each one onto four fields. The browser and the HTTP exchange are an
 * environment of answers; JSON values other than the objects the code walks through
 * are copied verbatim and stay uninterpreted.
 */
module Gmgn {
  import opened Wrappers
  import opened JsStrings

  const RankUrl := "https://gmgn.ai/defi/quotation/v1/rank/sol/swaps/1h?orderby=swaps&direction=desc&filters[]=renounced&filters[]=frozen"

  /** The page `getTrades` opens and then fetches again through `window.location.href`. */
  function TopTradersUrl(tokenAddress: string): string {
    "https://gmgn.ai/defi/quotation/v1/tokens/top_traders/sol/" + tokenAddress + "?orderby=profit&direction=desc"
  }

  /** A JSON value the code only copies: absent (`undefined`) or present, as its source text. */
  datatype Scalar = Undefined | Json(text: string)

  /** An entry of `json.data.rank`. */
  datatype RankItem = RankItem(address: Scalar)

  /** The `native_transfer` object of a trader entry. */
  datatype Transfer = Transfer(fromAddress: Scalar)

  /** An entry of `json.data`; `nativeTransfer` is `None` when the field is `undefined` or `null`. */
  datatype TradeItem = TradeItem(address: Scalar, nativeTransfer: Option<Transfer>, realizedProfit: Scalar, createdAt: Scalar)

  /** The record `getTrades` returns per trader. */
  datatype Trade = Trade(address: Scalar, solAddress: Scalar, profit: Scalar, timestamp: Scalar)

  /**
   * What happens inside the `try` once the browser runs: `newPage` fails, or the
   * navigation, the fetch or the JSON decoding fails, or the list the code maps over
   * arrives.
   */
  datatype Fetch<T> = NoPage(message: string) | Failed(message: string) | Fetched(data: seq<T>)

  datatype Event = Launch | Goto(url: string) | Close

  /** The browser calls a method makes, and how its promise settles: a list, or a rejection message. */
  datatype Call<T> = Call(events: seq<Event>, result: Result<seq<T>, string>)

  function LimitMessage(maxTokens: int): string {
    "Maximum token limit exceeded. Limit is " + IntToString(maxTokens) + "."
  }

  /** Where `s.slice(0, end)` stops: a negative `end` counts back from the length, and neither bound leaves `0..|s|`. */
  function SliceEnd(n: nat, end: int): (k: nat)
    ensures k <= n
  {
    if end < 0 then (if n + end > 0 then n + end else 0)
    else if end < n then end else n
  }

  /** `s.slice(0, end)` for an integer `end`. */
  function Slice<T>(s: seq<T>, end: int): seq<T> {
    s[..SliceEnd(|s|, end)]
  }

  /** `json.data.rank.map((item) => item.address)` */
  function Addresses(items: seq<RankItem>): (r: seq<Scalar>)
    ensures |r| == |items|
    ensures forall i :: 0 <= i < |items| ==> r[i] == items[i].address
  {
    if items == [] then [] else Addresses(items[..|items| - 1]) + [items[|items| - 1].address]
  }

  /**
   * `finally { await browser.close() }`: the value the `try` or `catch` returned, unless
   * the close itself rejects, which replaces it with that rejection.
   */
  function Finally<T>(returned: seq<T>, closeError: Option<string>): Result<seq<T>, string> {
    if closeError.Some? then Failure(closeError.value) else Success(returned)
  }

  /**
   * `getTokens(limit)`. The guard runs before the browser is launched; the launch is
   * awaited outside the `try`, so its failure rejects; every later failure is caught
   * and yields `[]`, and the browser is closed.
   */
  function GetTokens(limit: int, maxTokens: int, launchError: Option<string>, ranking: Fetch<RankItem>, closeError: Option<string>): Call<Scalar> {
    if limit > maxTokens then Call([], Failure(LimitMessage(maxTokens)))
    else if launchError.Some? then Call([Launch], Failure(launchError.value))
    else match ranking
      case NoPage(_) => Call([Launch, Close], Finally([], closeError))
      case Failed(_) => Call([Launch, Goto(RankUrl), Close], Finally([], closeError))
      case Fetched(items) => Call([Launch, Goto(RankUrl), Close], Finally(Slice(Addresses(items), limit), closeError))
  }

  /** One trader record: `{address, solAddress: native_transfer.from_address, profit: realized_profit, timestamp: created_at}`. */
  function Project(item: TradeItem): Trade
    requires item.nativeTransfer.Some?
  {
    Trade(item.address, item.nativeTransfer.value.fromAddress, item.realizedProfit, item.createdAt)
  }

  /**
   * `json.data.map(...)`: the projected records, or `None` when some entry has no
   * `native_transfer`, where reading `from_address` throws a `TypeError`.
   */
  function ProjectAll(items: seq<TradeItem>): Option<seq<Trade>> {
    if items == [] then Some([])
    else match ProjectAll(items[..|items| - 1])
      case None => None
      case Some(prefix) =>
        var last := items[|items| - 1];
        if last.nativeTransfer.None? then None else Some(prefix + [Project(last)])
  }

  /** `getTrades(tokenAddress)`: the launch failure rejects, every later failure yields `[]`. */
  function GetTrades(tokenAddress: string, launchError: Option<string>, traders: Fetch<TradeItem>, closeError: Option<string>): Call<Trade> {
    if launchError.Some? then Call([Launch], Failure(launchError.value))
    else match traders
      case NoPage(_) => Call([Launch, Close], Finally([], closeError))
      case Failed(_) => Call([Launch, Goto(TopTradersUrl(tokenAddress)), Close], Finally([], closeError))
      case Fetched(items) =>
        match ProjectAll(items)
        case None => Call([Launch, Goto(TopTradersUrl(tokenAddress)), Close], Finally([], closeError))
        case Some(trades) => Call([Launch, Goto(TopTradersUrl(tokenAddress)), Close], Finally(trades, closeError))
  }

  // ---------------------------------------------------------------------------
  // getTokens

  /**
   * The guard is strict: a limit above the maximum is refused with the limit message
   * before any browser call, and a limit equal to the maximum gets past it.
   */
  lemma LimitGuard(limit: int, maxTokens: int, launchError: Option<string>, ranking: Fetch<RankItem>, closeError: Option<string>)
    ensures var c := GetTokens(limit, maxTokens, launchError, ranking, closeError);
      (c.events == [] <==> limit > maxTokens)
      && (limit > maxTokens ==> c.result == Failure(LimitMessage(maxTokens)))
      && (limit <= maxTokens ==> c.events[0] == Launch)
  {
  }

  /** The refusal quotes the configured maximum, which can be read back from the message. */
  lemma LimitMessageQuotesMaximum(maxTokens: nat)
    ensures var m := LimitMessage(maxTokens);
      var prefix := "Maximum token limit exceeded. Limit is ";
      && m[..|prefix|] == prefix
      && m[|m| - 1] == '.'
      && DecimalValue(m[|prefix|..|m| - 1]) == maxTokens
  {
    var prefix := "Maximum token limit exceeded. Limit is ";
    var m := LimitMessage(maxTokens);
    assert m[|prefix|..|m| - 1] == NatToString(maxTokens);
    NatToStringRoundTrip(maxTokens);
  }

  /**
   * For a non-negative limit the tokens are the first `min(limit, n)` ranking
   * addresses, in the order of the ranking, once the browser has closed.
   */
  lemma TokensArePrefix(limit: int, maxTokens: int, items: seq<RankItem>)
    requires 0 <= limit <= maxTokens
    ensures var r := GetTokens(limit, maxTokens, None, Fetched(items), None).result;
      && r.Success?
      && |r.value| == (if limit < |items| then limit else |items|)
      && forall i :: 0 <= i < |r.value| ==> r.value[i] == items[i].address
  {
  }

  /** A negative limit is passed to `slice` as is, which drops that many addresses from the end. */
  lemma NegativeLimitDropsTail(limit: int, maxTokens: int, items: seq<RankItem>)
    requires limit < 0 && limit <= maxTokens
    ensures var r := GetTokens(limit, maxTokens, None, Fetched(items), None).result;
      && r.Success?
      && |r.value| == (if |items| + limit > 0 then |items| + limit else 0)
      && forall i :: 0 <= i < |r.value| ==> r.value[i] == items[i].address
  {
  }

  /**
   * Past the guard and the launch, nothing inside the `try` rejects the call: a page,
   * navigation, fetch or decoding failure gives `[]`, and the browser is closed last.
   * Only a rejected close rejects, with its own message.
   */
  lemma TokensFailuresCollapse(limit: int, maxTokens: int, ranking: Fetch<RankItem>, closeError: Option<string>)
    requires limit <= maxTokens
    ensures var c := GetTokens(limit, maxTokens, None, ranking, closeError);
      && (c.result.Success? <==> closeError.None?)
      && (closeError.Some? ==> c.result == Failure(closeError.value))
      && (closeError.None? && !ranking.Fetched? ==> c.result.value == [])
      && c.events[0] == Launch && c.events[|c.events| - 1] == Close
  {
  }

  /** A launch failure is not caught: it rejects with its own message, and no browser is closed. */
  lemma TokensLaunchFailurePropagates(limit: int, maxTokens: int, message: string, ranking: Fetch<RankItem>, closeError: Option<string>)
    requires limit <= maxTokens
    ensures GetTokens(limit, maxTokens, Some(message), ranking, closeError) == Call([Launch], Failure(message))
  {
  }

  /** A rejected close changes no browser call: the same steps happen as when the close succeeds. */
  lemma CloseFailureKeepsSteps(limit: int, maxTokens: int, launchError: Option<string>, ranking: Fetch<RankItem>, message: string)
    ensures GetTokens(limit, maxTokens, launchError, ranking, Some(message)).events ==
      GetTokens(limit, maxTokens, launchError, ranking, None).events
  {
  }

  // ---------------------------------------------------------------------------
  // getTrades

  /** The projection succeeds exactly when every entry has a `native_transfer`. */
  lemma {:induction false} ProjectAllDefined(items: seq<TradeItem>)
    ensures ProjectAll(items).Some? <==> forall i :: 0 <= i < |items| ==> items[i].nativeTransfer.Some?
  {
    if items != [] {
      ProjectAllDefined(items[..|items| - 1]);
      var init := items[..|items| - 1];
      assert forall i :: 0 <= i < |init| ==> init[i] == items[i];
    }
  }

  /** One record per entry, in the same order, each carrying the entry's four fields. */
  lemma {:induction false} ProjectAllOneToOne(items: seq<TradeItem>)
    requires ProjectAll(items).Some?
    ensures var trades := ProjectAll(items).value;
      && |trades| == |items|
      && forall i :: 0 <= i < |items| ==>
        && items[i].nativeTransfer.Some?
        && trades[i] == Trade(items[i].address, items[i].nativeTransfer.value.fromAddress, items[i].realizedProfit, items[i].createdAt)
  {
    if items != [] {
      var init := items[..|items| - 1];
      ProjectAllOneToOne(init);
      assert forall i :: 0 <= i < |init| ==> init[i] == items[i];
    }
  }

  /**
   * When every entry has a `native_transfer`, `getTrades` returns exactly one record
   * per entry, in order, with `address`, `solAddress` from `native_transfer.from_address`,
   * `profit` from `realized_profit` and `timestamp` from `created_at`, once the browser
   * has closed.
   */
  lemma TradesAreProjection(tokenAddress: string, items: seq<TradeItem>)
    requires forall i :: 0 <= i < |items| ==> items[i].nativeTransfer.Some?
    ensures var r := GetTrades(tokenAddress, None, Fetched(items), None).result;
      && r.Success?
      && |r.value| == |items|
      && forall i :: 0 <= i < |items| ==>
        r.value[i] == Trade(items[i].address, items[i].nativeTransfer.value.fromAddress, items[i].realizedProfit, items[i].createdAt)
  {
    ProjectAllDefined(items);
    ProjectAllOneToOne(items);
  }

  /** A single entry without `native_transfer` makes the whole result empty. */
  lemma MissingTransferEmptiesTrades(tokenAddress: string, items: seq<TradeItem>, k: nat)
    requires k < |items| && items[k].nativeTransfer.None?
    ensures GetTrades(tokenAddress, None, Fetched(items), None).result == Success([])
  {
    ProjectAllDefined(items);
  }

  /**
   * Past the launch, nothing inside the `try` rejects `getTrades`: it navigates to the
   * token's top-traders page unless the page cannot be created, yields `[]` on any
   * failure, and closes the browser last. A launch failure rejects with its message,
   * and a rejected close with its own.
   */
  lemma TradesFailuresCollapse(tokenAddress: string, launchError: Option<string>, traders: Fetch<TradeItem>, closeError: Option<string>)
    ensures var c := GetTrades(tokenAddress, launchError, traders, closeError);
      && (launchError.Some? ==> c == Call([Launch], Failure(launchError.value)))
      && (launchError.None? ==>
            && (c.result.Success? <==> closeError.None?)
            && (closeError.Some? ==> c.result == Failure(closeError.value))
            && (closeError.None? && !traders.Fetched? ==> c.result.value == [])
            && c.events[0] == Launch && c.events[|c.events| - 1] == Close
            && (!traders.NoPage? ==> c.events[1] == Goto(TopTradersUrl(tokenAddress))))
  {
    var c := GetTrades(tokenAddress, launchError, traders, closeError);
    if launchError.None? {
      var steps := if traders.NoPage? then [Launch, Close] else [Launch, Goto(TopTradersUrl(tokenAddress)), Close];
      assert c.events == steps;
      var returned := if traders.Fetched? && ProjectAll(traders.data).Some? then ProjectAll(traders.data).value else [];
      assert c.result == Finally(returned, closeError);
    }
  }
}
