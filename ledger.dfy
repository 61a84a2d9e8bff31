/** app.py's position ledger: `process_signal` (admission gates, opening, closing every
    matching entry), the dashboard's `close_position` and the `position_history` page.
    The ledger file is a value passed in and returned; the exchange answers each
    `place_order` call with an `OrderReply` taken, in call order, from a list given as
    input; the clock is a pair of parameters (today's date and the current timestamp). */
module Ledger {
  import opened Wrappers
  import opened Models
  import Text
  import Numbers
  import Bitget

  /** What `place_order` gave back, as far as the ledger reads it: nothing usable, or
      the reply's `data` with its order id, size, price and average price, together
      with what the ticker request would answer if the price has to be looked up. */
  datatype OrderReply =
    | NoReply
    | Placed(orderId: string, size: real, price: real, averagePrice: real, ticker: Option<real>)

  /** `order_result and order_result.get('data', {}).get('orderId')`: an order id that
      is present and not empty. */
  predicate HasOrderId(r: OrderReply) {
    r.Placed? && r.orderId != ""
  }

  /** The reply to the `k`-th `place_order` call; calls beyond the list get nothing. */
  function ReplyAt(replies: seq<OrderReply>, k: nat): OrderReply {
    if k < |replies| then replies[k] else NoReply
  }

  /** The price recorded for a fill: the reply's price when positive; otherwise the
      current ticker price (45000 when the ticker fails) when that is positive;
      otherwise the reply's average price. */
  function FillPrice(r: OrderReply): (price: real)
    requires r.Placed?
    ensures r.price > 0.0 ==> price == r.price
    ensures r.price <= 0.0 ==>
      price == (if Bitget.SymbolPrice(r.ticker) > 0.0 then Bitget.SymbolPrice(r.ticker) else r.averagePrice)
    ensures r.price <= 0.0 && r.ticker.None? ==> price == 45000.0
  {
    var price := if r.price <= 0.0 then Bitget.SymbolPrice(r.ticker) else r.price;
    if price > 0.0 then price else r.averagePrice
  }

  /** `sum(1 for pos in positions if pos.get('open_time', '').startswith(today))`:
      entries opened today, closed ones included. */
  function TodayTrades(ps: seq<Position>, today: string): nat {
    if ps == [] then 0
    else (if Text.StartsWith(ps[0].openTime, today) then 1 else 0) + TodayTrades(ps[1..], today)
  }

  /** The entries not marked closed. */
  function OpenCount(ps: seq<Position>): nat {
    if ps == [] then 0 else (if ps[0].closed then 0 else 1) + OpenCount(ps[1..])
  }

  /** An entry a close signal for `(symbol, direction)` applies to. */
  predicate Matches(p: Position, symbol: string, direction: string) {
    p.symbol == symbol && p.direction == direction && !p.closed
  }

  function MatchCount(ps: seq<Position>, symbol: string, direction: string): nat {
    if ps == [] then 0
    else (if Matches(ps[0], symbol, direction) then 1 else 0) + MatchCount(ps[1..], symbol, direction)
  }

  /** The entry an accepted open order appends. */
  function NewEntry(r: OrderReply, symbol: string, direction: string, now: string): Position
    requires r.Placed?
  {
    Position(r.orderId, symbol, direction, r.size, FillPrice(r), 0.0, now, "", false)
  }

  /** An entry after its close order went through: closed, stamped, with the fill price
      as its exit price; everything else kept. */
  function CloseEntry(p: Position, r: OrderReply, now: string): (q: Position)
    requires r.Placed?
    ensures q.closed && q.closeTime == now && q.exitPrice == FillPrice(r)
    ensures q.(closed := p.closed, closeTime := p.closeTime, exitPrice := p.exitPrice) == p
  {
    p.(closed := true, closeTime := now, exitPrice := FillPrice(r))
  }

  /** One entry of a close pass: a matching entry whose close order went through is
      closed, every other entry stays as it is. */
  function SettleOne(p: Position, symbol: string, direction: string, r: OrderReply, now: string): Position {
    if Matches(p, symbol, direction) && HasOrderId(r) then CloseEntry(p, r, now) else p
  }

  /** The ledger after a close pass over its first entries: the `k`-th matching entry is
      settled with the reply to the `k`-th close order. */
  function SettlePrefix(ps: seq<Position>, symbol: string, direction: string,
                        replies: seq<OrderReply>, now: string): (settled: seq<Position>)
    ensures |settled| == |ps|
  {
    if ps == [] then []
    else
      var init := ps[..|ps| - 1];
      SettlePrefix(init, symbol, direction, replies, now)
        + [SettleOne(ps[|ps| - 1], symbol, direction, ReplyAt(replies, MatchCount(init, symbol, direction)), now)]
  }

  /** How a `process_signal` call ended. */
  datatype Outcome =
    | HandlerMissing
    | DailyLimitReached
    | OpenLimitReached
    | Opened(id: string)
    | OpenFailed
    | NothingToClose
    | CloseAttempted(orders: nat)
    | UnknownAction

  lemma MatchCountSnoc(ps: seq<Position>, p: Position, symbol: string, direction: string)
    ensures MatchCount(ps + [p], symbol, direction)
            == MatchCount(ps, symbol, direction) + (if Matches(p, symbol, direction) then 1 else 0)
  {
    if ps != [] {
      assert (ps + [p])[1..] == ps[1..] + [p];
      MatchCountSnoc(ps[1..], p, symbol, direction);
    }
  }

  lemma OpenCountSnoc(ps: seq<Position>, p: Position)
    ensures OpenCount(ps + [p]) == OpenCount(ps) + (if p.closed then 0 else 1)
  {
    if ps != [] {
      assert (ps + [p])[1..] == ps[1..] + [p];
      OpenCountSnoc(ps[1..], p);
    }
  }

  lemma TodayTradesSnoc(ps: seq<Position>, p: Position, today: string)
    ensures TodayTrades(ps + [p], today) == TodayTrades(ps, today) + (if Text.StartsWith(p.openTime, today) then 1 else 0)
  {
    if ps != [] {
      assert (ps + [p])[1..] == ps[1..] + [p];
      TodayTradesSnoc(ps[1..], p, today);
    }
  }

  /** `process_signal(symbol, direction, action)`. `handlerReady` says whether exchange
      credentials were configured; `cfg` is the configuration file's content; `replies`
      answers the `place_order` calls in order. Returns the new ledger, how the call
      ended, and the `side` of every order placed. */
  method ProcessSignal(ledger: seq<Position>, symbol: string, direction: string, action: string,
                       handlerReady: bool, cfg: Config, today: string, now: string,
                       replies: seq<OrderReply>)
    returns (newLedger: seq<Position>, outcome: Outcome, sides: seq<string>)
    ensures !handlerReady ==> newLedger == ledger && outcome == HandlerMissing && sides == []
    ensures handlerReady && action == "open" && TodayTrades(ledger, today) >= cfg.maxDailyTrades
            ==> newLedger == ledger && outcome == DailyLimitReached && sides == []
    ensures handlerReady && action == "open" && TodayTrades(ledger, today) < cfg.maxDailyTrades
            && OpenCount(ledger) >= cfg.maxOpenPositions
            ==> newLedger == ledger && outcome == OpenLimitReached && sides == []
    ensures handlerReady && action == "open" && TodayTrades(ledger, today) < cfg.maxDailyTrades
            && OpenCount(ledger) < cfg.maxOpenPositions
            ==> sides == ["open_" + direction]
                && (HasOrderId(ReplyAt(replies, 0)) ==>
                      newLedger == ledger + [NewEntry(ReplyAt(replies, 0), symbol, direction, now)]
                      && outcome == Opened(ReplyAt(replies, 0).orderId))
                && (!HasOrderId(ReplyAt(replies, 0)) ==> newLedger == ledger && outcome == OpenFailed)
    ensures handlerReady && action == "close" && MatchCount(ledger, symbol, direction) == 0
            ==> newLedger == ledger && outcome == NothingToClose && sides == []
    ensures handlerReady && action == "close" && MatchCount(ledger, symbol, direction) > 0
            ==> newLedger == SettlePrefix(ledger, symbol, direction, replies, now)
                && outcome == CloseAttempted(MatchCount(ledger, symbol, direction))
                && sides == seq(MatchCount(ledger, symbol, direction), _ => "close_" + direction)
    ensures handlerReady && action != "open" && action != "close"
            ==> newLedger == ledger && outcome == UnknownAction && sides == []
    // The two gates keep their limits: a ledger within them stays within them.
    ensures OpenCount(ledger) <= cfg.maxOpenPositions ==> OpenCount(newLedger) <= cfg.maxOpenPositions
    ensures TodayTrades(ledger, today) <= cfg.maxDailyTrades ==> TodayTrades(newLedger, today) <= cfg.maxDailyTrades
  {
    newLedger, sides := ledger, [];
    if !handlerReady {
      return newLedger, HandlerMissing, sides;
    }

    var todayTrades := TodayTrades(ledger, today);
    if action == "open" && todayTrades >= cfg.maxDailyTrades {
      return newLedger, DailyLimitReached, sides;
    }

    var openPositions := OpenCount(ledger);
    if action == "open" && openPositions >= cfg.maxOpenPositions {
      return newLedger, OpenLimitReached, sides;
    }

    if action == "open" {
      sides := ["open_" + direction];
      var orderResult := ReplyAt(replies, 0);
      if HasOrderId(orderResult) {
        var entry := NewEntry(orderResult, symbol, direction, now);
        OpenCountSnoc(ledger, entry);
        TodayTradesSnoc(ledger, entry, today);
        newLedger := newLedger + [entry];
        outcome := Opened(orderResult.orderId);
      } else {
        outcome := OpenFailed;
      }
    } else if action == "close" {
      var matching := MatchCount(ledger, symbol, direction);
      if matching == 0 {
        return newLedger, NothingToClose, sides;
      }
      newLedger, sides := CloseMatching(ledger, symbol, direction, replies, now);
      SettlePrefixKeepsCounts(ledger, symbol, direction, replies, now, today);
      outcome := CloseAttempted(matching);
    } else {
      outcome := UnknownAction;
    }
  }

  /** The close branch of `process_signal`: every entry that matches the signal, in
      ledger order, gets a close order, and is closed when that order went through. */
  method CloseMatching(ledger: seq<Position>, symbol: string, direction: string,
                       replies: seq<OrderReply>, now: string)
    returns (newLedger: seq<Position>, sides: seq<string>)
    ensures newLedger == SettlePrefix(ledger, symbol, direction, replies, now)
    ensures sides == seq(MatchCount(ledger, symbol, direction), _ => "close_" + direction)
  {
    newLedger, sides := ledger, [];
    var i, k := 0, 0;
    while i < |ledger|
      invariant 0 <= i <= |ledger|
      invariant k == MatchCount(ledger[..i], symbol, direction)
      invariant newLedger == SettlePrefix(ledger[..i], symbol, direction, replies, now) + ledger[i..]
      invariant sides == seq(k, _ => "close_" + direction)
    {
      var position := ledger[i];
      CloseStep(ledger, i, symbol, direction, replies, now);
      if Matches(position, symbol, direction) {
        var orderResult := ReplyAt(replies, k);
        sides := sides + ["close_" + direction];
        if HasOrderId(orderResult) {
          newLedger := newLedger[i := CloseEntry(position, orderResult, now)];
        }
        k := k + 1;
      }
      i := i + 1;
    }
    assert ledger[..i] == ledger;
  }

  /** One step of a close pass over `ledger`: settling entry `i` turns the ledger whose
      first `i` entries are settled into the one whose first `i + 1` are. */
  lemma CloseStep(ledger: seq<Position>, i: nat, symbol: string, direction: string,
                  replies: seq<OrderReply>, now: string)
    requires i < |ledger|
    ensures var done := SettlePrefix(ledger[..i], symbol, direction, replies, now);
      var one := SettleOne(ledger[i], symbol, direction, ReplyAt(replies, MatchCount(ledger[..i], symbol, direction)), now);
      var next := SettlePrefix(ledger[..i + 1], symbol, direction, replies, now) + ledger[i + 1..];
      (done + ledger[i..])[i := one] == next && (one == ledger[i] ==> done + ledger[i..] == next)
    ensures MatchCount(ledger[..i + 1], symbol, direction)
      == MatchCount(ledger[..i], symbol, direction) + (if Matches(ledger[i], symbol, direction) then 1 else 0)
  {
    assert ledger[..i + 1] == ledger[..i] + [ledger[i]];
    assert ledger[i..] == [ledger[i]] + ledger[i + 1..];
    MatchCountSnoc(ledger[..i], ledger[i], symbol, direction);
    SettlePrefixStep(ledger, i, symbol, direction, replies, now);
  }

  /** A close pass keeps every entry's identity and opening data, and it only ever
      closes: the day's trade count is unchanged and the open count cannot grow. */
  lemma {:induction false} SettlePrefixKeepsCounts(ps: seq<Position>, symbol: string, direction: string,
                                                   replies: seq<OrderReply>, now: string, today: string)
    ensures var settled := SettlePrefix(ps, symbol, direction, replies, now);
      TodayTrades(settled, today) == TodayTrades(ps, today) && OpenCount(settled) <= OpenCount(ps)
    decreases |ps|
  {
    if ps != [] {
      var init, last := ps[..|ps| - 1], ps[|ps| - 1];
      SettlePrefixKeepsCounts(init, symbol, direction, replies, now, today);
      var settledInit := SettlePrefix(init, symbol, direction, replies, now);
      var one := SettleOne(last, symbol, direction, ReplyAt(replies, MatchCount(init, symbol, direction)), now);
      assert ps == init + [last];
      TodayTradesSnoc(init, last, today);
      TodayTradesSnoc(settledInit, one, today);
      OpenCountSnoc(init, last);
      OpenCountSnoc(settledInit, one);
    }
  }

  lemma SettlePrefixStep(ledger: seq<Position>, i: nat, symbol: string, direction: string,
                         replies: seq<OrderReply>, now: string)
    requires i < |ledger|
    ensures SettlePrefix(ledger[..i + 1], symbol, direction, replies, now)
      == SettlePrefix(ledger[..i], symbol, direction, replies, now)
         + [SettleOne(ledger[i], symbol, direction, ReplyAt(replies, MatchCount(ledger[..i], symbol, direction)), now)]
  {
    assert ledger[..i + 1][..i] == ledger[..i];
  }

  /** Entry `i` after a close pass: settled with the reply to the close order numbered
      by how many matching entries precede it. */
  lemma {:induction false} SettlePrefixAt(ps: seq<Position>, symbol: string, direction: string,
                                          replies: seq<OrderReply>, now: string, i: nat)
    requires i < |ps|
    ensures SettlePrefix(ps, symbol, direction, replies, now)[i]
      == SettleOne(ps[i], symbol, direction, ReplyAt(replies, MatchCount(ps[..i], symbol, direction)), now)
    decreases |ps|
  {
    var init := ps[..|ps| - 1];
    if i < |ps| - 1 {
      SettlePrefixAt(init, symbol, direction, replies, now, i);
      assert init[..i] == ps[..i];
    } else {
      assert init == ps[..i];
    }
  }

  /** What a close signal does to each entry: entries that do not match it (closed ones
      included) are left exactly as they were, a matching entry is closed at `now` with
      the fill price when its order went through, and no entry is removed or added. */
  lemma CloseSignalEffect(ps: seq<Position>, symbol: string, direction: string,
                          replies: seq<OrderReply>, now: string, i: nat)
    requires i < |ps|
    ensures |SettlePrefix(ps, symbol, direction, replies, now)| == |ps|
    ensures var q := SettlePrefix(ps, symbol, direction, replies, now)[i];
      var r := ReplyAt(replies, MatchCount(ps[..i], symbol, direction));
      && (!Matches(ps[i], symbol, direction) ==> q == ps[i])
      && (ps[i].closed ==> q == ps[i])
      && (Matches(ps[i], symbol, direction) && HasOrderId(r) ==>
            q.closed && q.closeTime == now && q.exitPrice == FillPrice(r)
            && q.id == ps[i].id && q.entryPrice == ps[i].entryPrice && q.openTime == ps[i].openTime)
      && (Matches(ps[i], symbol, direction) && !HasOrderId(r) ==> q == ps[i])
  {
    SettlePrefixAt(ps, symbol, direction, replies, now, i);
  }

  /** How a dashboard close ended. */
  datatype ManualOutcome = MissingInformation | NoHandler | ManuallyClosed | CloseFailed

  /** The index of the first entry carrying `id`, if any. */
  function FirstIndexWithId(ps: seq<Position>, id: string): (r: Option<nat>)
    ensures r.Some? ==> r.value < |ps| && ps[r.value].id == id && forall j :: 0 <= j < r.value ==> ps[j].id != id
    ensures r.None? ==> forall j :: 0 <= j < |ps| ==> ps[j].id != id
  {
    if ps == [] then None
    else if ps[0].id == id then Some(0)
    else
      match FirstIndexWithId(ps[1..], id)
      case Some(k) => Some(k + 1)
      case None => None
  }

  /** A form field is given when it is present and not empty. */
  predicate Given(field: Option<string>) {
    field.Some? && field.value != ""
  }

  /** `close_position()`, the dashboard's close button. `reply` answers the close order;
      the order is placed before the entry is looked up, so it is placed even when no
      entry has the id. Returns the new ledger, how the request ended and the side of
      the order placed, if one was. */
  method ClosePosition(ledger: seq<Position>, positionId: Option<string>, symbol: Option<string>,
                       direction: Option<string>, handlerReady: bool, reply: OrderReply, now: string)
    returns (newLedger: seq<Position>, outcome: ManualOutcome, side: Option<string>)
    ensures !(Given(positionId) && Given(symbol) && Given(direction))
            ==> newLedger == ledger && outcome == MissingInformation && side.None?
    ensures Given(positionId) && Given(symbol) && Given(direction) && !handlerReady
            ==> newLedger == ledger && outcome == NoHandler && side.None?
    ensures Given(positionId) && Given(symbol) && Given(direction) && handlerReady
            ==> side == Some("close_" + direction.value)
                && var found := FirstIndexWithId(ledger, positionId.value);
                   (found.Some? && HasOrderId(reply) ==>
                      newLedger == ledger[found.value := CloseEntry(ledger[found.value], reply, now)]
                      && outcome == ManuallyClosed)
                   && (found.None? || !HasOrderId(reply) ==> newLedger == ledger && outcome == CloseFailed)
  {
    newLedger := ledger;
    if !(Given(positionId) && Given(symbol) && Given(direction)) {
      return newLedger, MissingInformation, None;
    }
    if !handlerReady {
      return newLedger, NoHandler, None;
    }
    side := Some("close_" + direction.value);
    var orderResult := reply;

    var position: Option<nat> := None;
    var i := 0;
    while i < |ledger|
      invariant 0 <= i <= |ledger|
      invariant position.None?
      invariant forall j :: 0 <= j < i ==> ledger[j].id != positionId.value
    {
      if ledger[i].id == positionId.value {
        position := Some(i);
        break;
      }
      i := i + 1;
    }
    assert position == FirstIndexWithId(ledger, positionId.value);

    if position.Some? && HasOrderId(orderResult) {
      newLedger := newLedger[position.value := CloseEntry(ledger[position.value], orderResult, now)];
      outcome := ManuallyClosed;
    } else {
      outcome := CloseFailed;
    }
  }

  /** The dashboard does not look at whether the entry is still open: an entry closed
      earlier is closed again, its close time and exit price overwritten, and it is
      found by id alone whatever symbol and direction the form names. */
  lemma ManualCloseRecloses(ledger: seq<Position>, i: nat, reply: OrderReply, now: string)
    requires i < |ledger| && ledger[i].closed && HasOrderId(reply)
    requires forall j :: 0 <= j < i ==> ledger[j].id != ledger[i].id
    ensures FirstIndexWithId(ledger, ledger[i].id) == Some(i)
    ensures var q := CloseEntry(ledger[i], reply, now);
      q.closeTime == now && q.exitPrice == FillPrice(reply) && q.id == ledger[i].id
  {
  }

  /** `[pos for pos in positions_data if pos.get('closed', False)]`. */
  function ClosedEntries(ps: seq<Position>): (closed: seq<Position>)
    ensures forall p :: p in closed <==> p in ps && p.closed
    ensures |closed| + OpenCount(ps) == |ps|
  {
    if ps == [] then []
    else if ps[0].closed then [ps[0]] + ClosedEntries(ps[1..])
    else ClosedEntries(ps[1..])
  }

  /** The filter keeps every closed entry as many times as it occurs, and no open one. */
  lemma {:induction false} ClosedEntriesMultiplicity(ps: seq<Position>)
    ensures forall p :: multiset(ClosedEntries(ps))[p] == if p.closed then multiset(ps)[p] else 0
  {
    if ps != [] {
      ClosedEntriesMultiplicity(ps[1..]);
      assert ps == [ps[0]] + ps[1..];
    }
  }

  /** Most recent close first: `close_time` strings never increase along the list. */
  predicate NewestFirst(ps: seq<Position>) {
    forall i :: 0 <= i < |ps| - 1 ==> Text.LexLessEq(ps[i + 1].closeTime, ps[i].closeTime)
  }

  /** Places `p` in front of the first entry that closed no later than it did. */
  function InsertByCloseTime(p: Position, ps: seq<Position>): (r: seq<Position>)
    ensures |r| == |ps| + 1
  {
    if ps == [] then [p]
    else if Text.LexLessEq(ps[0].closeTime, p.closeTime) then [p] + ps
    else [ps[0]] + InsertByCloseTime(p, ps[1..])
  }

  /** `list.sort(key=close_time, reverse=True)` as an insertion sort. */
  function SortByCloseTime(ps: seq<Position>): (r: seq<Position>)
    ensures |r| == |ps|
  {
    if ps == [] then [] else InsertByCloseTime(ps[0], SortByCloseTime(ps[1..]))
  }

  lemma {:induction false} InsertByCloseTimeSorted(p: Position, ps: seq<Position>)
    requires NewestFirst(ps)
    ensures NewestFirst(InsertByCloseTime(p, ps))
    ensures |ps| > 0 ==> InsertByCloseTime(p, ps)[0] == p || InsertByCloseTime(p, ps)[0] == ps[0]
    decreases |ps|
  {
    if ps != [] && !Text.LexLessEq(ps[0].closeTime, p.closeTime) {
      var rest := InsertByCloseTime(p, ps[1..]);
      assert NewestFirst(ps[1..]);
      InsertByCloseTimeSorted(p, ps[1..]);
      Text.LexTotal(ps[0].closeTime, p.closeTime);
      if |ps| > 1 {
        assert Text.LexLessEq(ps[1].closeTime, ps[0].closeTime);
      }
      ConsNewestFirst(ps[0], rest);
    } else if ps != [] {
      ConsNewestFirst(p, ps);
    }
  }

  /** Insertion adds `p` and keeps every other entry. */
  lemma {:induction false} InsertByCloseTimePermutes(p: Position, ps: seq<Position>)
    ensures multiset(InsertByCloseTime(p, ps)) == multiset(ps) + multiset{p}
    decreases |ps|
  {
    if ps != [] && !Text.LexLessEq(ps[0].closeTime, p.closeTime) {
      InsertByCloseTimePermutes(p, ps[1..]);
      assert ps == [ps[0]] + ps[1..];
    }
  }

  lemma ConsNewestFirst(x: Position, r: seq<Position>)
    requires NewestFirst(r)
    requires r != [] ==> Text.LexLessEq(r[0].closeTime, x.closeTime)
    ensures NewestFirst([x] + r)
  {
    var xr := [x] + r;
    forall i | 0 <= i < |xr| - 1
      ensures Text.LexLessEq(xr[i + 1].closeTime, xr[i].closeTime)
    {
      if i > 0 {
        assert xr[i] == r[i - 1] && xr[i + 1] == r[i];
      }
    }
  }

  /** The history order is newest first and holds exactly the entries it was given. */
  lemma {:induction false} SortByCloseTimeSorted(ps: seq<Position>)
    ensures NewestFirst(SortByCloseTime(ps))
    ensures multiset(SortByCloseTime(ps)) == multiset(ps)
    decreases |ps|
  {
    if ps != [] {
      SortByCloseTimeSorted(ps[1..]);
      InsertByCloseTimeSorted(ps[0], SortByCloseTime(ps[1..]));
      InsertByCloseTimePermutes(ps[0], SortByCloseTime(ps[1..]));
      assert ps == [ps[0]] + ps[1..];
    }
  }

  /** The sum of `calculate_pnl` over a list of entries. */
  function SumPnl(ps: seq<Position>): real {
    if ps == [] then 0.0 else CalculatePnl(ps[0]) + SumPnl(ps[1..])
  }

  lemma {:induction false} SumPnlSnoc(ps: seq<Position>, p: Position)
    ensures SumPnl(ps + [p]) == SumPnl(ps) + CalculatePnl(p)
    decreases |ps|
  {
    if ps != [] {
      assert (ps + [p])[1..] == ps[1..] + [p];
      SumPnlSnoc(ps[1..], p);
    }
  }

  lemma {:induction false} SumPnlInsert(p: Position, ps: seq<Position>)
    ensures SumPnl(InsertByCloseTime(p, ps)) == CalculatePnl(p) + SumPnl(ps)
    decreases |ps|
  {
    if ps != [] && !Text.LexLessEq(ps[0].closeTime, p.closeTime) {
      SumPnlInsert(p, ps[1..]);
    } else if ps != [] {
      assert ([p] + ps)[1..] == ps;
    }
  }

  /** Sorting and dropping the open entries leave the ledger's total PnL as it is: open
      entries count zero and the order of a sum does not matter. */
  lemma {:induction false} HistoryTotalIsLedgerTotal(ps: seq<Position>)
    ensures SumPnl(SortByCloseTime(ClosedEntries(ps))) == SumPnl(ps)
  {
    ClosedSum(ps);
    SortSum(ClosedEntries(ps));
  }

  lemma {:induction false} ClosedSum(ps: seq<Position>)
    ensures SumPnl(ClosedEntries(ps)) == SumPnl(ps)
    decreases |ps|
  {
    if ps != [] {
      ClosedSum(ps[1..]);
      if ps[0].closed {
        assert ([ps[0]] + ClosedEntries(ps[1..]))[1..] == ClosedEntries(ps[1..]);
      } else {
        PnlOfOpenPositionIsZero(ps[0]);
      }
    }
  }

  lemma {:induction false} SortSum(ps: seq<Position>)
    ensures SumPnl(SortByCloseTime(ps)) == SumPnl(ps)
    decreases |ps|
  {
    if ps != [] {
      SortSum(ps[1..]);
      SumPnlInsert(ps[0], SortByCloseTime(ps[1..]));
    }
  }

  /** One row of the history page: the entry and its PnL rounded to cents. */
  datatype HistoryRow = HistoryRow(position: Position, pnl: real)

  function RowsFor(ps: seq<Position>): (rows: seq<HistoryRow>)
    ensures |rows| == |ps|
  {
    seq(|ps|, k requires 0 <= k < |ps| => HistoryRow(ps[k], Numbers.Round(CalculatePnl(ps[k]), 2)))
  }

  /** `position_history()`: the closed entries, most recently closed first, each with its
      PnL rounded to two decimals, and the unrounded PnLs' sum rounded to two decimals. */
  method PositionHistory(ledger: seq<Position>) returns (rows: seq<HistoryRow>, totalPnl: real)
    ensures rows == RowsFor(SortByCloseTime(ClosedEntries(ledger)))
    ensures forall i :: 0 <= i < |rows| ==> rows[i].position.closed
    ensures totalPnl == Numbers.Round(SumPnl(ledger), 2)
  {
    var ordered := SortByCloseTime(ClosedEntries(ledger));
    HistoryEntriesClosed(ledger);
    ghost var expected := RowsFor(ordered);

    var total := 0.0;
    rows := [];
    for i := 0 to |ordered|
      invariant rows == expected[..i]
      invariant total == SumPnl(ordered[..i])
    {
      var pos := ordered[i];
      var pnl: real;
      if pos.direction == "long" {
        pnl := (pos.exitPrice - pos.entryPrice) * pos.size;
      } else {
        pnl := (pos.entryPrice - pos.exitPrice) * pos.size;
      }
      PnlIsSignedPriceMove(pos);
      rows := rows + [HistoryRow(pos, Numbers.Round(pnl, 2))];
      assert expected[..i + 1] == expected[..i] + [expected[i]];
      assert ordered[..i + 1] == ordered[..i] + [pos];
      SumPnlSnoc(ordered[..i], pos);
      total := total + pnl;
    }
    assert ordered[..|ordered|] == ordered;
    assert expected[..|ordered|] == expected;
    HistoryTotalIsLedgerTotal(ledger);
    totalPnl := Numbers.Round(total, 2);
  }

  /** Every entry on the history page is closed. */
  lemma HistoryEntriesClosed(ledger: seq<Position>)
    ensures forall i :: 0 <= i < |SortByCloseTime(ClosedEntries(ledger))| ==>
      SortByCloseTime(ClosedEntries(ledger))[i].closed
  {
    var closedPositions := ClosedEntries(ledger);
    var ordered := SortByCloseTime(closedPositions);
    SortByCloseTimeSorted(closedPositions);
    forall i | 0 <= i < |ordered|
      ensures ordered[i].closed
    {
      assert ordered[i] in multiset(ordered);
      assert ordered[i] in closedPositions;
    }
  }
}
