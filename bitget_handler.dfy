/** bitget_handler.py: how an order is sized and described before it is posted to the
    exchange. The exchange's REST replies are inputs (what `get_account_balance`'s
    request, the ticker request and the order post returned); the leverage-setting
    requests are not modelled. The handler's fields are set once by its constructor
    and never change, so the handler is a value. */
module Bitget {
  import opened Wrappers
  import opened Json
  import Text
  import Numbers

  /** `BitgetHandler`: credentials and the raw configuration dictionary. */
  datatype Handler = Handler(
    apiKey: string,
    secretKey: string,
    passphrase: string,
    config: seq<(string, Json)>)

  const ContractSuffix := "_UMCBL"

  /** The exchange's name for a USDT-margined perpetual: the symbol with `_UMCBL`
      appended unless it already ends with it. */
  function FormatSymbol(symbol: string): string {
    if Text.EndsWith(symbol, ContractSuffix) then symbol else symbol + ContractSuffix
  }

  /** The formatted symbol always ends with the suffix, and the suffix is appended
      exactly when the symbol lacks it. */
  lemma FormatSymbolAppendsSuffixOnce(symbol: string)
    ensures Text.EndsWith(FormatSymbol(symbol), ContractSuffix)
    ensures FormatSymbol(symbol) == symbol <==> Text.EndsWith(symbol, ContractSuffix)
    ensures !Text.EndsWith(symbol, ContractSuffix) ==> FormatSymbol(symbol) == symbol + ContractSuffix
  {
    var f := symbol + ContractSuffix;
    assert f[|f| - |ContractSuffix|..] == ContractSuffix;
  }

  /** Formatting twice is formatting once. */
  lemma FormatSymbolIdempotent(symbol: string)
    ensures FormatSymbol(FormatSymbol(symbol)) == FormatSymbol(symbol)
  {
    FormatSymbolAppendsSuffixOnce(symbol);
  }

  /** `get_account_balance`: the `available` amount the account request reported, or
      1000 when the request failed or returned no data. */
  function AccountBalance(reply: Option<real>): real {
    reply.GetOr(1000.0)
  }

  /** `get_symbol_price`: the ticker's `last` price, or 45000 when the ticker request
      failed or returned no data. */
  function SymbolPrice(reply: Option<real>): real {
    reply.GetOr(45000.0)
  }

  /** The order-size percentage as `place_order` reads it: 10 when the key is missing;
      a number (a boolean counting as 0 or 1) as it is; anything else through
      `float(...)`, falling back to 10 when that raises. */
  function PercentSetting(v: Option<Json>): real {
    match v
    case None => 10.0
    case Some(JNum(n)) => n
    case Some(JBool(b)) => if b then 1.0 else 0.0
    case Some(JStr(s)) => Numbers.ParseFloat(s).GetOr(10.0)
    case Some(_) => 10.0
  }

  /** The leverage as `place_order` reads it: 5 when the key is missing; a number as it
      is; anything else through `int(float(...))`, falling back to 5 when that raises. */
  function LeverageSetting(v: Option<Json>): real {
    match v
    case None => 5.0
    case Some(JNum(n)) => n
    case Some(JBool(b)) => if b then 1.0 else 0.0
    case Some(JStr(s)) =>
      (match Numbers.ParseFloat(s)
       case Some(f) => Numbers.Trunc(f) as real
       case None => 5.0)
    case Some(_) => 5.0
  }

  /** A percentage written as a decimal string, `w.f` or plain digits, is read as that
      number; one that is not a number falls back to 10, and so do a missing and a null
      one. */
  lemma PercentSettingParsesStrings(whole: string, frac: string, n: nat, junk: string)
    requires Numbers.AllDigits(whole) && Numbers.AllDigits(frac) && (whole != "" || frac != "")
    requires Numbers.ParseFloat(junk).None?
    ensures PercentSetting(Some(JStr(whole + "." + frac))) == Numbers.Decimal(whole, frac)
    ensures PercentSetting(Some(JStr(Numbers.ShowNat(n)))) == n as real
    ensures PercentSetting(Some(JStr(junk))) == 10.0
    ensures PercentSetting(None) == 10.0 && PercentSetting(Some(JNull)) == 10.0
  {
    Numbers.ParseDecimal(false, whole, frac);
    assert "" + whole + "." + frac == whole + "." + frac;
    Numbers.ParseShowNat(n);
  }

  /** A leverage written as a string is truncated toward zero after parsing, so it is
      always a whole number; an unparseable one becomes 5. */
  lemma LeverageSettingTruncatesStrings(s: string)
    ensures Numbers.ParseFloat(s).None? ==> LeverageSetting(Some(JStr(s))) == 5.0
    ensures Numbers.ParseFloat(s).Some? ==>
      var f := Numbers.ParseFloat(s).value;
      var l := LeverageSetting(Some(JStr(s)));
      l.Floor as real == l && (f >= 0.0 ==> 0.0 <= f - l < 1.0) && (f < 0.0 ==> 0.0 <= l - f < 1.0)
  {
  }

  /** The lot rule of a symbol: decimals kept and minimum size. BTC is checked first,
      so a symbol naming both BTC and ETH is sized as BTC. */
  function LotRule(symbol: string): (nat, real) {
    if Text.Contains(symbol, "BTC") then (3, 0.001)
    else if Text.Contains(symbol, "ETH") then (2, 0.01)
    else (2, 0.01)
  }

  /** `max(min_lot, round(size, decimals))`. */
  function LotSize(symbol: string, size: real): real {
    var (decimals, minLot) := LotRule(symbol);
    var rounded := Numbers.Round(size, decimals);
    if minLot >= rounded then minLot else rounded
  }

  /** The lot size never falls below the symbol's minimum, and otherwise is a whole
      number of lot steps within half a step of the raw size. */
  lemma LotSizeRespectsRule(symbol: string, size: real)
    ensures LotSize(symbol, size) >= LotRule(symbol).1
    ensures LotRule(symbol) == (if Text.Contains(symbol, "BTC") then (3, 0.001) else (2, 0.01))
    ensures var (d, m) := LotRule(symbol);
      LotSize(symbol, size) > m ==>
        var p := Numbers.Pow10(d) as real;
        (LotSize(symbol, size) * p).Floor as real == LotSize(symbol, size) * p
        && -0.5 <= LotSize(symbol, size) * p - size * p <= 0.5
  {
    var (d, m) := LotRule(symbol);
    var p := Numbers.Pow10(d) as real;
    Numbers.RoundIsNearestStep(size, d);
    Numbers.WholeStepNearby(Numbers.Round(size, d) * p, Numbers.RoundSteps(size, d), size * p);
  }

  /** The balance `place_order` sizes from: non-positive balances become 1000. */
  function SizingBalance(reported: real): real {
    if reported <= 0.0 then 1000.0 else reported
  }

  /** The price `place_order` divides by: non-positive prices become 45000. */
  function SizingPrice(reported: real): real {
    if reported <= 0.0 then 45000.0 else reported
  }

  /** Sizing never works from a non-positive balance nor divides by a non-positive price. */
  lemma SizingInputsArePositive(balance: real, price: real)
    ensures SizingBalance(balance) > 0.0 && SizingPrice(price) > 0.0
    ensures balance > 0.0 ==> SizingBalance(balance) == balance
    ensures price > 0.0 ==> SizingPrice(price) == price
  {
  }

  /** The values placed in the order-parameter dictionary. */
  datatype Param = Str(s: string) | Amount(x: real)

  const OrderSides := ["open_long", "open_short", "close_long", "close_short"]

  /** `place_order`, with the exchange's replies as inputs: the account balance reply,
      the ticker reply and the reply of the order post (`None` when the post raised).
      Returns the order parameters it posts, the leverage it would push to both sides
      of the symbol, and the post's reply, which is also `None` when it raised. */
  method PlaceOrder(h: Handler, symbol: string, side: string, orderType: string,
                    balanceReply: Option<real>, tickerReply: Option<real>, postReply: Option<Json>)
    returns (params: map<string, Param>, leverage: real, response: Option<Json>)
    ensures params.Keys >= {"symbol", "marginCoin", "size", "orderType"}
    ensures params["symbol"] == Str(FormatSymbol(symbol)) && params["marginCoin"] == Str("USDT")
    ensures var amount := SizingBalance(AccountBalance(balanceReply))
                          * (PercentSetting(Get(h.config, "order_size_percentage")) / 100.0);
            params["size"] == Amount(LotSize(symbol, amount / SizingPrice(SymbolPrice(tickerReply))))
    ensures ("side" in params <==> side in OrderSides) && ("side" in params ==> params["side"] == Str(side))
    ensures params["orderType"] == Str("market") <==> Text.Lower(orderType) == "market"
    ensures params["orderType"] == Str("market") || params["orderType"] == Str("limit")
    ensures "price" in params <==> Text.Lower(orderType) != "market"
    ensures "price" in params ==> params["price"] == Amount(SizingPrice(SymbolPrice(tickerReply)))
    ensures leverage == LeverageSetting(Get(h.config, "leverage"))
    ensures response == postReply
  {
    var formattedSymbol := if !Text.EndsWith(symbol, ContractSuffix) then symbol + ContractSuffix else symbol;

    var balance := AccountBalance(balanceReply);
    if balance <= 0.0 {
      balance := 1000.0;
    }

    var orderSizePercentage := PercentSetting(Get(h.config, "order_size_percentage"));
    var orderAmount := balance * (orderSizePercentage / 100.0);

    var currentPrice := SymbolPrice(tickerReply);
    if currentPrice <= 0.0 {
      currentPrice := 45000.0;
    }

    var size := orderAmount / currentPrice;
    assert currentPrice == SizingPrice(SymbolPrice(tickerReply));
    assert size == SizingBalance(AccountBalance(balanceReply))
                   * (PercentSetting(Get(h.config, "order_size_percentage")) / 100.0) / currentPrice;
    size := ApplyLotRule(symbol, size);

    leverage := LeverageSetting(Get(h.config, "leverage"));

    params := OrderParams(formattedSymbol, size, side, orderType, currentPrice);

    response := postReply;
  }

  /** The parameter dictionary `place_order` posts: the side only when it is one of the
      four known sides, and a limit price only for an order type other than `market`. */
  method OrderParams(formattedSymbol: string, size: real, side: string, orderType: string, currentPrice: real)
    returns (params: map<string, Param>)
    ensures params.Keys >= {"symbol", "marginCoin", "size", "orderType"}
    ensures params["symbol"] == Str(formattedSymbol) && params["marginCoin"] == Str("USDT")
    ensures params["size"] == Amount(size)
    ensures ("side" in params <==> side in OrderSides) && ("side" in params ==> params["side"] == Str(side))
    ensures params["orderType"] == Str("market") <==> Text.Lower(orderType) == "market"
    ensures params["orderType"] == Str("market") || params["orderType"] == Str("limit")
    ensures "price" in params <==> Text.Lower(orderType) != "market"
    ensures "price" in params ==> params["price"] == Amount(currentPrice)
  {
    params := map["symbol" := Str(formattedSymbol), "marginCoin" := Str("USDT"), "size" := Amount(size)];
    if side == "open_long" {
      params := params["side" := Str("open_long")];
    } else if side == "open_short" {
      params := params["side" := Str("open_short")];
    } else if side == "close_long" {
      params := params["side" := Str("close_long")];
    } else if side == "close_short" {
      params := params["side" := Str("close_short")];
    }

    if Text.Lower(orderType) == "market" {
      params := params["orderType" := Str("market")];
    } else {
      params := params["orderType" := Str("limit")];
      params := params["price" := Amount(currentPrice)];
    }
  }

  /** The lot step of `place_order`: the size rounded to the symbol's decimals, and
      raised to the symbol's minimum lot when it falls to or below it. */
  method ApplyLotRule(symbol: string, size: real) returns (lot: real)
    ensures lot == LotSize(symbol, size)
  {
    if Text.Contains(symbol, "BTC") {
      var rounded := Numbers.Round(size, 3);
      lot := if 0.001 >= rounded then 0.001 else rounded;
    } else if Text.Contains(symbol, "ETH") {
      var rounded := Numbers.Round(size, 2);
      lot := if 0.01 >= rounded then 0.01 else rounded;
    } else {
      var rounded := Numbers.Round(size, 2);
      lot := if 0.01 >= rounded then 0.01 else rounded;
    }
  }

  /** `get_open_positions`: the reply's `data` member when the reply is a non-empty
      object that has one, and an empty list when the request raised, the reply is
      empty or has no `data`, or looking it up raises. */
  function OpenPositions(reply: Option<Json>): (r: Json)
    ensures reply.None? ==> r == JArr([])
    ensures r == JArr([]) || (reply.Some? && reply.value.JObj? && Get(reply.value.fields, "data") == Some(r))
    ensures reply.Some? && reply.value.JObj? && Get(reply.value.fields, "data").Some?
            ==> r == Get(reply.value.fields, "data").value
  {
    match reply
    case None => JArr([])
    case Some(response) =>
      if !Truthy(response) then JArr([])
      else
        match PyIn("data", response)
        case Some(true) =>
          if response.JObj? then Get(response.fields, "data").value else JArr([])
        case _ => JArr([])
  }
}
