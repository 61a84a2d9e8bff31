/** The records of models.py: the trading configuration snapshot, one ledger position,
    and the profit-and-loss of a closed position. Constructors there fill every field
    that the keyword arguments leave out with a default; here the keyword arguments are
    a record of optional values. Numeric ledger fields, which the ledger file stores as
    decimal strings, are held as the numbers they parse to. */
module Models {
  import opened Wrappers
  import opened Json

  /** One ledger entry (a `Position`). */
  datatype Position = Position(
    id: string,
    symbol: string,
    direction: string,
    size: real,
    entryPrice: real,
    exitPrice: real,
    openTime: string,
    closeTime: string,
    closed: bool)

  /** The keyword arguments a `Position` may be built from; `None` is a missing key. */
  datatype PositionArgs = PositionArgs(
    id: Option<string>,
    symbol: Option<string>,
    direction: Option<string>,
    size: Option<real>,
    entryPrice: Option<real>,
    exitPrice: Option<real>,
    openTime: Option<string>,
    closeTime: Option<string>,
    closed: Option<bool>)

  /** `Position(**kwargs)`: each missing field takes its default (empty strings,
      `'0'` for the numbers, not closed). */
  function PositionFrom(a: PositionArgs): Position {
    Position(
      a.id.GetOr(""), a.symbol.GetOr(""), a.direction.GetOr(""),
      a.size.GetOr(0.0), a.entryPrice.GetOr(0.0), a.exitPrice.GetOr(0.0),
      a.openTime.GetOr(""), a.closeTime.GetOr(""), a.closed.GetOr(false))
  }

  const NoPositionArgs := PositionArgs(None, None, None, None, None, None, None, None, None)

  /** A position built from no arguments at all is the all-defaults open position. */
  lemma PositionDefaults()
    ensures PositionFrom(NoPositionArgs) == Position("", "", "", 0.0, 0.0, 0.0, "", "", false)
  {
  }

  /** A field that is given is kept as given, whatever the others are. */
  lemma PositionKeepsGivenFields(a: PositionArgs)
    ensures a.id.Some? ==> PositionFrom(a).id == a.id.value
    ensures a.symbol.Some? ==> PositionFrom(a).symbol == a.symbol.value
    ensures a.direction.Some? ==> PositionFrom(a).direction == a.direction.value
    ensures a.size.Some? ==> PositionFrom(a).size == a.size.value
    ensures a.entryPrice.Some? ==> PositionFrom(a).entryPrice == a.entryPrice.value
    ensures a.exitPrice.Some? ==> PositionFrom(a).exitPrice == a.exitPrice.value
    ensures a.openTime.Some? ==> PositionFrom(a).openTime == a.openTime.value
    ensures a.closeTime.Some? ==> PositionFrom(a).closeTime == a.closeTime.value
    ensures a.closed.Some? ==> PositionFrom(a).closed == a.closed.value
  {
  }

  /** The configuration snapshot (`Config`). `leverage` and `order_size_percentage`
      stay raw JSON values: the exchange handler reads them from the raw dictionary
      and parses them leniently itself. */
  datatype Config = Config(
    telegramChatId: string,
    leverage: Json,
    orderSizePercentage: Json,
    maxDailyTrades: int,
    maxOpenPositions: int,
    enableTrading: bool,
    enableTpSl: bool,
    enableWebhookCloseSignals: bool,
    atrPeriod: int,
    atrTpMultiplier: real,
    atrSlMultiplier: real)

  datatype ConfigArgs = ConfigArgs(
    telegramChatId: Option<string>,
    leverage: Option<Json>,
    orderSizePercentage: Option<Json>,
    maxDailyTrades: Option<int>,
    maxOpenPositions: Option<int>,
    enableTrading: Option<bool>,
    enableTpSl: Option<bool>,
    enableWebhookCloseSignals: Option<bool>,
    atrPeriod: Option<int>,
    atrTpMultiplier: Option<real>,
    atrSlMultiplier: Option<real>)

  /** `Config(**kwargs)` with the defaults of models.py. */
  function ConfigFrom(a: ConfigArgs): Config {
    Config(
      a.telegramChatId.GetOr(""),
      a.leverage.GetOr(JNum(5.0)),
      a.orderSizePercentage.GetOr(JNum(10.0)),
      a.maxDailyTrades.GetOr(10),
      a.maxOpenPositions.GetOr(10),
      a.enableTrading.GetOr(true),
      a.enableTpSl.GetOr(false),
      a.enableWebhookCloseSignals.GetOr(false),
      a.atrPeriod.GetOr(14),
      a.atrTpMultiplier.GetOr(2.5),
      a.atrSlMultiplier.GetOr(3.0))
  }

  const NoConfigArgs := ConfigArgs(None, None, None, None, None, None, None, None, None, None, None)

  /** The configuration file app.py writes on first start (five risk keys). */
  const InitialConfigArgs := NoConfigArgs.(
    telegramChatId := Some(""), leverage := Some(JNum(5.0)),
    orderSizePercentage := Some(JNum(10.0)), maxDailyTrades := Some(10),
    maxOpenPositions := Some(3), enableTrading := Some(true))

  /** Every key missing: trading on, ten trades a day, ten open positions, ATR over 14
      candles with multipliers 2.5 (take profit) and 3.0 (stop loss), TP/SL off. */
  lemma ConfigDefaults()
    ensures var c := ConfigFrom(NoConfigArgs);
      && c.enableTrading && c.maxDailyTrades == 10 && c.maxOpenPositions == 10
      && c.atrPeriod == 14 && c.atrTpMultiplier == 2.5 && c.atrSlMultiplier == 3.0
      && !c.enableTpSl && !c.enableWebhookCloseSignals
      && c.leverage == JNum(5.0) && c.orderSizePercentage == JNum(10.0)
  {
  }

  /** The first-start file caps open positions at 3, not at the class default of 10;
      the keys it omits still take the class defaults. */
  lemma InitialConfigDiffersFromDefaults()
    ensures ConfigFrom(InitialConfigArgs).maxOpenPositions == 3
    ensures ConfigFrom(NoConfigArgs).maxOpenPositions == 10
    ensures ConfigFrom(InitialConfigArgs).atrPeriod == ConfigFrom(NoConfigArgs).atrPeriod
  {
  }

  /** `Position.calculate_pnl`: zero while open; for a closed position the price move
      times the size, signed by direction, where every direction other than `long`
      counts as short. */
  function CalculatePnl(p: Position): real {
    if !p.closed then 0.0
    else if p.direction == "long" then (p.exitPrice - p.entryPrice) * p.size
    else (p.entryPrice - p.exitPrice) * p.size
  }

  lemma PnlOfOpenPositionIsZero(p: Position)
    requires !p.closed
    ensures CalculatePnl(p) == 0.0
  {
  }

  /** A closed long earns the price rise times the size; a short earns the fall. */
  lemma PnlIsSignedPriceMove(p: Position)
    requires p.closed
    ensures p.direction == "long" ==> CalculatePnl(p) == (p.exitPrice - p.entryPrice) * p.size
    ensures p.direction != "long" ==> CalculatePnl(p) == (p.entryPrice - p.exitPrice) * p.size
  {
  }

  /** Same entry, exit and size: the long and the short results are opposite, and any
      direction other than `long` is priced as `short`. */
  lemma PnlLongMirrorsShort(p: Position, other: string)
    requires other != "long"
    ensures CalculatePnl(p.(direction := "long")) == -CalculatePnl(p.(direction := "short"))
    ensures CalculatePnl(p.(direction := other)) == CalculatePnl(p.(direction := "short"))
  {
  }
}
