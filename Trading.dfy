/**
 * The trading service's order placement (`POST /orders`) and the portfolio
 * ledger it maintains: teams with a reference share price, one portfolio per
 * user with a cash balance, holdings keyed by (portfolio, team) with a
 * weighted-average purchase price, orders, and the append-only list of
 * transactions.
 *
 * The handler is modelled twice: `Place` is the whole request as a function
 * from the ledger before to the response and the ledger after, and
 * `TradingService.PlaceOrder` performs the same request step by step on a
 * mutable store, taking a snapshot at BEGIN and restoring it on ROLLBACK.
 * Money, prices and share counts are exact reals; times are milliseconds.
 */
module Trading {
  import opened Wrappers

  type Id = string

  datatype OrderType = Market | Limit
  datatype Action = Buy | Sell
  datatype OrderStatus = Pending | Executed

  datatype Team = Team(currentSharePrice: real, tradingStatus: string)
  datatype Portfolio = Portfolio(portfolioId: Id, cashBalance: real)
  datatype Holding = Holding(holdingId: Id, shares: real, averagePurchasePrice: real, currentValue: real)
  datatype Order = Order(
    userId: Id, teamId: Id, orderType: OrderType, action: Action, shares: real, price: real,
    status: OrderStatus, placedAt: int, executedAt: Option<int>, expiresAt: Option<int>)
  datatype Transaction = Transaction(
    transactionId: Id, orderId: Id, userId: Id, teamId: Id, action: Action,
    shares: real, pricePerShare: real, totalAmount: real, feeAmount: real, executedAt: int)

  /** The tables the handler reads and writes; portfolios are keyed by user, holdings by (portfolio, team). */
  datatype Ledger = Ledger(
    teams: map<Id, Team>,
    portfolios: map<Id, Portfolio>,
    holdings: map<(Id, Id), Holding>,
    orders: map<Id, Order>,
    transactions: seq<Transaction>)

  /** The request body; an empty string or None stands for a missing field. */
  datatype OrderRequest = OrderRequest(teamId: string, orderType: string, action: string, shares: Option<real>, price: Option<real>)

  /** How a validated order is priced: at the team's current price, or at the caller's limit. */
  datatype Pricing = AtMarket | AtLimit(price: real)

  /** A request that passed validation. */
  datatype ValidOrder = ValidOrder(teamId: Id, pricing: Pricing, action: Action, shares: real)

  /** The ids `uuidv4` supplies for the order, its transaction and a new holding. */
  datatype FreshIds = FreshIds(orderId: Id, transactionId: Id, holdingId: Id)

  datatype Response =
    | Created(orderId: Id, status: OrderStatus, estimatedTotal: real, message: string)
    | Rejected(httpStatus: int, code: string, message: string)
  {
    function HttpStatus(): int
    {
      if Created? then 201 else httpStatus
    }
  }

  const Unauthorized := Rejected(401, "UNAUTHORIZED", "User ID is required")
  const TeamNotFound := Rejected(404, "TEAM_NOT_FOUND", "Team not found")
  const TradingRestricted := Rejected(403, "TRADING_RESTRICTED", "Trading is currently restricted for this team")
  const PortfolioNotFound := Rejected(404, "PORTFOLIO_NOT_FOUND", "Portfolio not found")
  const InsufficientShares := Rejected(403, "INSUFFICIENT_SHARES", "Not enough shares to complete this sale")
  const InsufficientFunds := Rejected(403, "INSUFFICIENT_FUNDS", "Not enough funds to complete this purchase")
  const InternalError := Rejected(500, "INTERNAL_SERVER_ERROR", "An error occurred while fetching trading data")
  const MarketMessage := "Market order executed successfully"
  const LimitMessage := "Limit order placed successfully"

  function InvalidInput(message: string): Response
  {
    Rejected(400, "INVALID_INPUT", message)
  }

  function TypeOf(pricing: Pricing): OrderType
  {
    if pricing.AtMarket? then Market else Limit
  }

  // ---------------------------------------------------------------------------
  // Validation
  // ---------------------------------------------------------------------------

  /** The request shape the validator admits. */
  predicate WellFormed(req: OrderRequest)
    ensures WellFormed(req) ==> TruthyNumber(req.shares) && req.shares.value > 0.0
    ensures WellFormed(req) && req.orderType == "limit" ==> req.price.Some? && req.price.value != 0.0
  {
    && req.teamId != ""
    && req.orderType in {"market", "limit"}
    && req.action in {"buy", "sell"}
    && req.shares.Some? && req.shares.value > 0.0
    && (req.orderType == "limit" ==> TruthyNumber(req.price))
  }

  /**
   * The five input checks, in order; each failure is a 400 INVALID_INPUT with
   * its own message. A zero share count fails the missing-fields check, and a
   * limit price is refused only when absent or zero.
   */
  function Validate(req: OrderRequest): (r: Result<ValidOrder, Response>)
    ensures r.Success? <==> WellFormed(req)
    ensures r.Failure? ==> r.error.Rejected? && r.error.httpStatus == 400 && r.error.code == "INVALID_INPUT"
    ensures r.Success? ==> && r.value.teamId == req.teamId && r.value.shares == req.shares.value
                           && (r.value.pricing.AtMarket? <==> req.orderType == "market")
                           && (r.value.pricing.AtLimit? ==> Some(r.value.pricing.price) == req.price)
                           && (r.value.action == Buy <==> req.action == "buy")
    ensures req.teamId == "" || req.orderType == "" || req.action == "" || !TruthyNumber(req.shares)
            ==> r == Failure(InvalidInput("Missing required fields"))
  {
    if req.teamId == "" || req.orderType == "" || req.action == "" || !TruthyNumber(req.shares) then
      Failure(InvalidInput("Missing required fields"))
    else if req.orderType != "market" && req.orderType != "limit" then
      Failure(InvalidInput("Invalid order type"))
    else if req.action != "buy" && req.action != "sell" then
      Failure(InvalidInput("Invalid action"))
    else if req.shares.value <= 0.0 then
      Failure(InvalidInput("Shares must be greater than 0"))
    else if req.orderType == "limit" && !TruthyNumber(req.price) then
      Failure(InvalidInput("Price is required for limit orders"))
    else
      Success(ValidOrder(
        req.teamId,
        if req.orderType == "market" then AtMarket else AtLimit(req.price.value),
        if req.action == "buy" then Buy else Sell,
        req.shares.value))
  }

  // ---------------------------------------------------------------------------
  // Ledger arithmetic
  // ---------------------------------------------------------------------------

  /**
   * The average purchase price after buying `shares` at `price` into a
   * holding of `oldShares` bought at `oldAvg` on average.
   */
  function MergedAverage(oldShares: real, oldAvg: real, shares: real, price: real): (r: real)
    requires oldShares >= 0.0 && shares > 0.0
    ensures r * (oldShares + shares) == oldAvg * oldShares + price * shares
    ensures (oldAvg <= r <= price) || (price <= r <= oldAvg)
    ensures oldShares == 0.0 ==> r == price
  {
    MergedAverageBounds(oldShares, oldAvg, shares, price);
    (oldAvg * oldShares + price * shares) / (oldShares + shares)
  }

  lemma MergedAverageBounds(oldShares: real, oldAvg: real, shares: real, price: real)
    requires oldShares >= 0.0 && shares > 0.0
    ensures var r := (oldAvg * oldShares + price * shares) / (oldShares + shares);
            (oldAvg <= r <= price) || (price <= r <= oldAvg)
  {
    var n := oldShares + shares;
    var total := oldAvg * oldShares + price * shares;
    var r := total / n;
    assert r * n == total;
    var lo, hi := if oldAvg <= price then oldAvg else price, if oldAvg <= price then price else oldAvg;
    assert lo * oldShares <= oldAvg * oldShares <= hi * oldShares;
    assert lo * shares <= price * shares <= hi * shares;
    assert lo * n <= total <= hi * n;
    assert (r - lo) * n >= 0.0 && (hi - r) * n >= 0.0;
  }

  /** The reference price after a trade: up 0.1% after a buy, down 0.1% after a sell. */
  function NudgedPrice(price: real, action: Action): (r: real)
    ensures price >= 0.0 ==> r >= 0.0
    ensures price > 0.0 ==> (action == Buy <==> r > price)
    ensures r == price * (if action == Buy then 1001.0 / 1000.0 else 999.0 / 1000.0)
  {
    var priceChange := if action == Buy then 0.001 else -0.001;
    price * (1.0 + priceChange)
  }

  /** The holding after buying `shares` at `price`: merged into the existing one, or created. */
  function Bought(existing: Option<Holding>, holdingId: Id, shares: real, price: real): (h: Holding)
    requires existing.Some? ==> existing.value.shares >= 0.0
    requires shares > 0.0
    ensures existing.Some? ==> h.holdingId == existing.value.holdingId && h.shares == existing.value.shares + shares
    ensures existing.None? ==> h == Holding(holdingId, shares, price, price * shares)
    ensures h.currentValue == h.shares * price
  {
    match existing
    case Some(held) =>
      var totalShares := held.shares + shares;
      held.(shares := totalShares,
            averagePurchasePrice := MergedAverage(held.shares, held.averagePurchasePrice, shares, price),
            currentValue := totalShares * price)
    case None => Holding(holdingId, shares, price, price * shares)
  }

  /** The holdings after selling `shares` at `price` from the holding at `key`: shrunk, or deleted when none remain. */
  function Sold(holdings: map<(Id, Id), Holding>, key: (Id, Id), shares: real, price: real): (r: map<(Id, Id), Holding>)
    requires key in holdings
    ensures r.Keys <= holdings.Keys
    ensures forall k :: k in holdings && k != key ==> k in r && r[k] == holdings[k]
    ensures key in r <==> holdings[key].shares - shares > 0.0
    ensures key in r ==> r[key] == holdings[key].(shares := holdings[key].shares - shares,
                                                 currentValue := (holdings[key].shares - shares) * price)
  {
    var h := holdings[key];
    var remainingShares := h.shares - shares;
    if remainingShares > 0.0 then holdings[key := h.(shares := remainingShares, currentValue := remainingShares * price)]
    else holdings - {key}
  }

  predicate TransactionIdUsed(transactions: seq<Transaction>, id: Id)
  {
    exists i :: 0 <= i < |transactions| && transactions[i].transactionId == id
  }

  predicate HoldingIdUsed(holdings: map<(Id, Id), Holding>, id: Id)
  {
    exists k :: k in holdings && holdings[k].holdingId == id
  }

  /** No stored holding has a negative share count (the handler keeps them positive). */
  predicate SharesNonNegative(s: Ledger)
  {
    forall k :: k in s.holdings ==> s.holdings[k].shares >= 0.0
  }

  // ---------------------------------------------------------------------------
  // The handler as a function of the ledger
  // ---------------------------------------------------------------------------

  /**
   * `POST /orders` by `userId`: the response, and the ledger after COMMIT
   * (or the unchanged ledger after ROLLBACK).
   */
  function Place(s: Ledger, userId: Id, req: OrderRequest, ids: FreshIds, now: int): (r: (Response, Ledger))
    requires SharesNonNegative(s)
    ensures r.0.HttpStatus() in {201, 400, 401, 403, 404, 500}
    ensures !r.0.Created? ==> r.1 == s
    ensures r.0.Created? ==> && r.0.orderId == ids.orderId && ids.orderId !in s.orders
                             && r.1.orders.Keys == s.orders.Keys + {ids.orderId}
  {
    if userId == "" then (Unauthorized, s)
    else match Validate(req)
      case Failure(rejection) => (rejection, s)
      case Success(o) =>
        match Precheck(s, userId, o)
        case Some(rejection) => (rejection, s)
        case None => Commit(s, userId, o, ids, now)
  }

  /** The holding key of the user's portfolio for a team. */
  function KeyOf(s: Ledger, userId: Id, teamId: Id): (Id, Id)
    requires userId in s.portfolios
  {
    (s.portfolios[userId].portfolioId, teamId)
  }

  /** The checks made after BEGIN and before anything is written, in order: the first that fails. */
  function Precheck(s: Ledger, userId: Id, o: ValidOrder): (r: Option<Response>)
    ensures r.None? ==> o.teamId in s.teams && userId in s.portfolios
    ensures r.Some? ==> r.value.Rejected? && r.value.httpStatus in {403, 404}
  {
    if o.teamId !in s.teams then Some(TeamNotFound)
    else if s.teams[o.teamId].tradingStatus != "active" then Some(TradingRestricted)
    else if userId !in s.portfolios then Some(PortfolioNotFound)
    else
      var key := KeyOf(s, userId, o.teamId);
      if o.action == Sell && (key !in s.holdings || s.holdings[key].shares < o.shares) then Some(InsufficientShares)
      else if o.action == Buy && o.pricing == AtMarket
              && s.portfolios[userId].cashBalance < s.teams[o.teamId].currentSharePrice * o.shares then
        Some(InsufficientFunds)
      else None
  }

  /** The order's price: the team's current price for a market order, the caller's for a limit order. */
  function OrderPrice(s: Ledger, o: ValidOrder): real
    requires o.teamId in s.teams
  {
    if o.pricing == AtMarket then s.teams[o.teamId].currentSharePrice else o.pricing.price
  }

  /** The row inserted into `orders`, always pending. */
  function NewOrder(s: Ledger, userId: Id, o: ValidOrder, now: int): Order
    requires o.teamId in s.teams
  {
    Order(userId, o.teamId, TypeOf(o.pricing), o.action, o.shares, OrderPrice(s, o), Pending, now, None,
          if o.pricing == AtMarket then None else Some(now + DayMs))
  }

  /** The writes of an admitted request; a taken id makes its INSERT fail and the request roll back. */
  function Commit(s: Ledger, userId: Id, o: ValidOrder, ids: FreshIds, now: int): (r: (Response, Ledger))
    requires o.shares > 0.0 && SharesNonNegative(s) && Precheck(s, userId, o).None?
    ensures r.0 == InternalError || r.0.Created?
    ensures r.0 == InternalError ==> r.1 == s
    ensures r.0.Created? ==> && r.0.orderId == ids.orderId && ids.orderId !in s.orders
                             && r.1.orders.Keys == s.orders.Keys + {ids.orderId}
  {
    var key := KeyOf(s, userId, o.teamId);
    if ids.orderId in s.orders then (InternalError, s)
    else
      var response := Created(ids.orderId, Pending, OrderPrice(s, o) * o.shares,
                              if o.pricing == AtMarket then MarketMessage else LimitMessage);
      if o.pricing != AtMarket then
        (response, s.(orders := s.orders[ids.orderId := NewOrder(s, userId, o, now)]))
      else if TransactionIdUsed(s.transactions, ids.transactionId) then (InternalError, s)
      else if o.action == Buy && key !in s.holdings && HoldingIdUsed(s.holdings, ids.holdingId) then (InternalError, s)
      else (response, MarketExecuted(s, userId, o, ids, now))
  }

  /** The ledger after a market order executes. */
  function MarketExecuted(s: Ledger, userId: Id, o: ValidOrder, ids: FreshIds, now: int): (r: Ledger)
    requires o.shares > 0.0 && SharesNonNegative(s) && Precheck(s, userId, o).None?
    ensures r.teams.Keys == s.teams.Keys && r.portfolios.Keys == s.portfolios.Keys
    ensures r.orders.Keys == s.orders.Keys + {ids.orderId} && r.orders[ids.orderId].status == Executed
    ensures |r.transactions| == |s.transactions| + 1 && r.transactions[..|s.transactions|] == s.transactions
  {
    var team := s.teams[o.teamId];
    var portfolio := s.portfolios[userId];
    var key := KeyOf(s, userId, o.teamId);
    var price := OrderPrice(s, o);
    var total := price * o.shares;
    Ledger(
      s.teams[o.teamId := team.(currentSharePrice := NudgedPrice(team.currentSharePrice, o.action))],
      s.portfolios[userId := portfolio.(cashBalance :=
        if o.action == Buy then portfolio.cashBalance - total else portfolio.cashBalance + total)],
      if o.action == Sell then Sold(s.holdings, key, o.shares, price)
      else s.holdings[key := Bought(if key in s.holdings then Some(s.holdings[key]) else None, ids.holdingId, o.shares, price)],
      s.orders[ids.orderId := NewOrder(s, userId, o, now).(status := Executed, executedAt := Some(now))],
      s.transactions + [Transaction(ids.transactionId, ids.orderId, userId, o.teamId, o.action, o.shares, price, total, 0.0, now)])
  }

  /** `MarketExecuted` field by field, in the shape the market-order writes produce them. */
  lemma MarketExecutedFields(s: Ledger, userId: Id, o: ValidOrder, ids: FreshIds, now: int)
    requires o.shares > 0.0 && SharesNonNegative(s) && Precheck(s, userId, o).None? && o.pricing == AtMarket
    ensures MarketExecuted(s, userId, o, ids, now).transactions
              == s.transactions + [Transaction(ids.transactionId, ids.orderId, userId, o.teamId, o.action, o.shares,
                                               s.teams[o.teamId].currentSharePrice,
                                               s.teams[o.teamId].currentSharePrice * o.shares, 0.0, now)]
    ensures var s' := MarketExecuted(s, userId, o, ids, now);
            var placed := s.orders[ids.orderId := NewOrder(s, userId, o, now)];
            s'.orders == placed[ids.orderId := placed[ids.orderId].(status := Executed, executedAt := Some(now))]
    ensures MarketExecuted(s, userId, o, ids, now).portfolios
              == s.portfolios[userId := s.portfolios[userId].(cashBalance :=
                   if o.action == Buy then s.portfolios[userId].cashBalance - s.teams[o.teamId].currentSharePrice * o.shares
                   else s.portfolios[userId].cashBalance + s.teams[o.teamId].currentSharePrice * o.shares)]
    ensures var s' := MarketExecuted(s, userId, o, ids, now);
            s'.teams == s.teams[o.teamId := s.teams[o.teamId].(currentSharePrice :=
              NudgedPrice(s.teams[o.teamId].currentSharePrice, o.action))]
  {
    var s' := MarketExecuted(s, userId, o, ids, now);
    var p := s.teams[o.teamId].currentSharePrice;
    assert OrderPrice(s, o) == p;
    assert OrderPrice(s, o) * o.shares == p * o.shares;
    var entry := Transaction(ids.transactionId, ids.orderId, userId, o.teamId, o.action, o.shares,
                             s.teams[o.teamId].currentSharePrice,
                             s.teams[o.teamId].currentSharePrice * o.shares, 0.0, now);
    assert s'.transactions[|s.transactions|] == entry;
    assert s'.transactions == s.transactions + [entry];
    var cash := if o.action == Buy then s.portfolios[userId].cashBalance - p * o.shares
                else s.portfolios[userId].cashBalance + p * o.shares;
    assert s'.portfolios[userId].cashBalance == cash;
    assert s'.portfolios[userId] == s.portfolios[userId].(cashBalance := cash);
  }

  // ---------------------------------------------------------------------------
  // Ledger invariant
  // ---------------------------------------------------------------------------

  /** A stored order: market orders are stored executed, limit orders pending with a 24-hour expiry. */
  predicate OrderWellFormed(o: Order)
  {
    && o.shares > 0.0
    && (o.orderType == Limit ==> o.status == Pending && o.executedAt == None && o.expiresAt == Some(o.placedAt + DayMs))
    && (o.orderType == Market ==> o.status == Executed && o.executedAt == Some(o.placedAt) && o.expiresAt == None)
  }

  /** A ledger entry: priced consistently, fee-free, and matching the executed order it records. */
  predicate Recorded(orders: map<Id, Order>, t: Transaction)
  {
    && t.totalAmount == t.shares * t.pricePerShare
    && t.feeAmount == 0.0
    && t.orderId in orders
    && var o := orders[t.orderId];
       o.status == Executed && o.userId == t.userId && o.teamId == t.teamId && o.action == t.action
       && o.shares == t.shares && o.price == t.pricePerShare && o.executedAt == Some(t.executedAt)
  }

  /** Prices and cash balances are never negative; each user's portfolio has its own id. */
  ghost predicate BalancesValid(s: Ledger)
  {
    && (forall t :: t in s.teams ==> s.teams[t].currentSharePrice >= 0.0)
    && (forall u :: u in s.portfolios ==> s.portfolios[u].cashBalance >= 0.0)
    && (forall u, v :: u in s.portfolios && v in s.portfolios && u != v ==>
          s.portfolios[u].portfolioId != s.portfolios[v].portfolioId)
  }

  /** Every stored holding has shares, and a non-negative average cost. */
  ghost predicate HoldingsValid(holdings: map<(Id, Id), Holding>)
  {
    forall k :: k in holdings ==> holdings[k].shares > 0.0 && holdings[k].averagePurchasePrice >= 0.0
  }

  /**
   * The transaction list and the orders agree: every entry records an
   * executed order, no two entries share an id or an order, and every
   * executed order has its entry.
   */
  ghost predicate EntriesValid(orders: map<Id, Order>, transactions: seq<Transaction>)
  {
    && (forall id :: id in orders ==> OrderWellFormed(orders[id]))
    && (forall i :: 0 <= i < |transactions| ==> Recorded(orders, transactions[i]))
    && (forall i, j :: 0 <= i < j < |transactions| ==>
          transactions[i].transactionId != transactions[j].transactionId
          && transactions[i].orderId != transactions[j].orderId)
    && (forall id :: id in orders && orders[id].status == Executed ==>
          exists i :: 0 <= i < |transactions| && transactions[i].orderId == id)
  }

  /** The facts every committed ledger satisfies. */
  ghost predicate LedgerInvariant(s: Ledger)
  {
    BalancesValid(s) && HoldingsValid(s.holdings) && EntriesValid(s.orders, s.transactions)
  }

  // ---------------------------------------------------------------------------
  // The handler on a mutable store
  // ---------------------------------------------------------------------------

  /** The service's tables, updated in place by each request. */
  class TradingService {
    var teams: map<Id, Team>
    var portfolios: map<Id, Portfolio>
    var holdings: map<(Id, Id), Holding>
    var orders: map<Id, Order>
    var transactions: seq<Transaction>

    function State(): Ledger
      reads this
    {
      Ledger(teams, portfolios, holdings, orders, transactions)
    }

    ghost predicate Valid()
      reads this
    {
      LedgerInvariant(State())
    }

    constructor (initial: Ledger)
      requires LedgerInvariant(initial)
      ensures Valid() && State() == initial
    {
      teams, portfolios, holdings := initial.teams, initial.portfolios, initial.holdings;
      orders, transactions := initial.orders, initial.transactions;
    }

    /** ROLLBACK: every table goes back to the snapshot taken at BEGIN. */
    method Rollback(begin: Ledger)
      modifies this
      ensures State() == begin
    {
      teams, portfolios, holdings := begin.teams, begin.portfolios, begin.holdings;
      orders, transactions := begin.orders, begin.transactions;
    }

    /**
     * `POST /orders`: check the caller and the body, then, between BEGIN and
     * COMMIT, run the checks that read the tables and the writes.
     */
    method PlaceOrder(userId: Id, req: OrderRequest, ids: FreshIds, now: int) returns (res: Response)
      requires Valid()
      modifies this
      ensures Valid()
      ensures (res, State()) == Place(old(State()), userId, req, ids, now)
    {
      PlacePreservesInvariant(State(), userId, req, ids, now);
      if userId == "" {
        return Unauthorized;
      }
      var validation := Validate(req);
      if validation.Failure? {
        return validation.error;
      }
      var o := validation.value;
      var begin := State();
      var rejection := CheckOrder(userId, o);
      if rejection.Some? {
        Rollback(begin);
        return rejection.value;
      }
      res := CommitOrder(userId, o, ids, now);
    }

    /** The reads after BEGIN: team, trading status, portfolio, shares held for a sale, funds for a market buy. */
    method CheckOrder(userId: Id, o: ValidOrder) returns (rejection: Option<Response>)
      ensures rejection == Precheck(State(), userId, o)
    {
      if o.teamId !in teams {
        return Some(TeamNotFound);
      }
      var team := teams[o.teamId];
      if team.tradingStatus != "active" {
        return Some(TradingRestricted);
      }
      if userId !in portfolios {
        return Some(PortfolioNotFound);
      }
      var portfolio := portfolios[userId];
      if o.action == Sell {
        var key := (portfolio.portfolioId, o.teamId);
        if key !in holdings || holdings[key].shares < o.shares {
          return Some(InsufficientShares);
        }
      }
      if o.action == Buy && o.pricing == AtMarket {
        var estimatedTotal := team.currentSharePrice * o.shares;
        if portfolio.cashBalance < estimatedTotal {
          return Some(InsufficientFunds);
        }
      }
      return None;
    }

    /** The writes of an admitted order, up to COMMIT; a failed INSERT rolls everything back. */
    method CommitOrder(userId: Id, o: ValidOrder, ids: FreshIds, now: int) returns (res: Response)
      requires o.shares > 0.0 && SharesNonNegative(State()) && Precheck(State(), userId, o).None?
      modifies this
      ensures (res, State()) == Commit(old(State()), userId, o, ids, now)
    {
      var begin := State();
      var orderPrice := if o.pricing == AtMarket then teams[o.teamId].currentSharePrice else o.pricing.price;
      var expiresAt := if o.pricing == AtMarket then None else Some(now + DayMs);
      if ids.orderId in orders {
        Rollback(begin);
        return InternalError;
      }
      orders := orders[ids.orderId := Order(userId, o.teamId, TypeOf(o.pricing), o.action, o.shares, orderPrice,
                                            Pending, now, None, expiresAt)];
      assert orders == begin.orders[ids.orderId := NewOrder(begin, userId, o, now)];
      if o.pricing == AtMarket {
        var executed := ExecuteMarketOrder(userId, o, ids, now, begin);
        if !executed {
          Rollback(begin);
          return InternalError;
        }
      }
      assert orderPrice == OrderPrice(begin, o);
      assert orderPrice * o.shares == OrderPrice(begin, o) * o.shares;
      res := Created(ids.orderId, Pending, orderPrice * o.shares,
                     if o.pricing == AtMarket then MarketMessage else LimitMessage);
      assert res == Commit(begin, userId, o, ids, now).0;
    }

    /** The market-order writes: transaction, order status, cash, holding, team price. */
    method ExecuteMarketOrder(userId: Id, o: ValidOrder, ids: FreshIds, now: int, ghost begin: Ledger)
      returns (executed: bool)
      requires o.shares > 0.0 && SharesNonNegative(begin) && Precheck(begin, userId, o).None? && o.pricing == AtMarket
      requires State() == begin.(orders := begin.orders[ids.orderId := NewOrder(begin, userId, o, now)])
      modifies this
      ensures executed <==> !TransactionIdUsed(begin.transactions, ids.transactionId)
                            && !(o.action == Buy && KeyOf(begin, userId, o.teamId) !in begin.holdings
                                 && HoldingIdUsed(begin.holdings, ids.holdingId))
      ensures executed ==> State() == MarketExecuted(begin, userId, o, ids, now)
    {
      var orderPrice := teams[o.teamId].currentSharePrice;
      var key := (portfolios[userId].portfolioId, o.teamId);
      assert key == KeyOf(begin, userId, o.teamId) && orderPrice == OrderPrice(begin, o);
      if TransactionIdUsed(transactions, ids.transactionId) {
        return false;
      }
      RecordExecution(userId, o, ids, now, orderPrice);
      executed := UpdateHolding(key, o.action, o.shares, orderPrice, ids.holdingId);
      if !executed {
        return;
      }
      NudgeTeamPrice(o.teamId, o.action);
      MarketExecutedFields(begin, userId, o, ids, now);
      ghost var expected := MarketExecuted(begin, userId, o, ids, now);
      assert orderPrice * o.shares == begin.teams[o.teamId].currentSharePrice * o.shares;
      assert transactions[|begin.transactions|] == expected.transactions[|begin.transactions|];
      assert transactions == expected.transactions;
      assert portfolios[userId] == expected.portfolios[userId];
      assert portfolios == expected.portfolios;
      assert orders == expected.orders;
      assert teams == expected.teams;
      assert holdings == expected.holdings;
    }

    /** The transaction row, the order's executed status and the cash movement of a market order at `price`. */
    method RecordExecution(userId: Id, o: ValidOrder, ids: FreshIds, now: int, price: real)
      requires ids.orderId in orders && userId in portfolios
      modifies this`transactions, this`orders, this`portfolios
      ensures transactions == old(transactions) + [Transaction(ids.transactionId, ids.orderId, userId, o.teamId, o.action,
                                                               o.shares, price, price * o.shares, 0.0, now)]
      ensures orders == old(orders)[ids.orderId := old(orders)[ids.orderId].(status := Executed, executedAt := Some(now))]
      ensures portfolios == old(portfolios)[userId := old(portfolios)[userId].(cashBalance :=
                if o.action == Buy then old(portfolios)[userId].cashBalance - price * o.shares
                else old(portfolios)[userId].cashBalance + price * o.shares)]
    {
      var totalAmount := price * o.shares;
      transactions := transactions + [Transaction(ids.transactionId, ids.orderId, userId, o.teamId, o.action,
                                                  o.shares, price, totalAmount, 0.0, now)];
      orders := orders[ids.orderId := orders[ids.orderId].(status := Executed, executedAt := Some(now))];
      var portfolio := portfolios[userId];
      var newBalance := if o.action == Buy then portfolio.cashBalance - totalAmount
                        else portfolio.cashBalance + totalAmount;
      portfolios := portfolios[userId := portfolio.(cashBalance := newBalance)];
    }

    /** The team's price moves 0.1% in the order's direction. */
    method NudgeTeamPrice(teamId: Id, action: Action)
      requires teamId in teams
      modifies this`teams
      ensures teams == old(teams)[teamId := old(teams)[teamId].(currentSharePrice :=
                NudgedPrice(old(teams)[teamId].currentSharePrice, action))]
    {
      var team := teams[teamId];
      var priceChange := if action == Buy then 0.001 else -0.001;
      teams := teams[teamId := team.(currentSharePrice := team.currentSharePrice * (1.0 + priceChange))];
    }

    /** Merge into, create, shrink or delete the holding at `key`; false when a new holding's id is taken. */
    method UpdateHolding(key: (Id, Id), action: Action, shares: real, price: real, holdingId: Id) returns (ok: bool)
      requires shares > 0.0 && (key in holdings ==> holdings[key].shares >= 0.0)
      requires action == Sell ==> key in holdings
      modifies this`holdings
      ensures ok <==> !(action == Buy && key !in old(holdings) && HoldingIdUsed(old(holdings), holdingId))
      ensures ok && action == Sell ==> holdings == Sold(old(holdings), key, shares, price)
      ensures ok && action == Buy ==>
                holdings == old(holdings)[key := Bought(if key in old(holdings) then Some(old(holdings)[key]) else None,
                                                        holdingId, shares, price)]
    {
      if action == Buy {
        if key in holdings {
          var holding := holdings[key];
          var totalShares := holding.shares + shares;
          var newAvgPrice := MergedAverage(holding.shares, holding.averagePurchasePrice, shares, price);
          holdings := holdings[key := holding.(shares := totalShares, averagePurchasePrice := newAvgPrice,
                                               currentValue := totalShares * price)];
          assert old(holdings)[key] == holding;
          ghost var b := Bought(Some(holding), holdingId, shares, price);
          assert b.shares == totalShares;
          assert b.averagePurchasePrice == newAvgPrice;
          assert b == holding.(shares := totalShares, averagePurchasePrice := newAvgPrice, currentValue := totalShares * price);
          assert holdings == old(holdings)[key := Bought(Some(holding), holdingId, shares, price)];
        } else {
          if HoldingIdUsed(holdings, holdingId) {
            return false;
          }
          holdings := holdings[key := Holding(holdingId, shares, price, price * shares)];
          assert holdings == old(holdings)[key := Bought(None, holdingId, shares, price)];
        }
      } else {
        var holding := holdings[key];
        assert holdings == old(holdings);
        var remainingShares := holding.shares - shares;
        if remainingShares > 0.0 {
          var shrunk := holding.(shares := remainingShares, currentValue := remainingShares * price);
          ghost var expected := Sold(old(holdings), key, shares, price);
          assert expected[key] == shrunk && expected.Keys == old(holdings).Keys;
          holdings := holdings[key := shrunk];
          assert holdings == expected;
        } else {
          holdings := holdings - {key};
          assert holdings == Sold(old(holdings), key, shares, price);
        }
      }
      return true;
    }
  }

  // ---------------------------------------------------------------------------
  // Properties of the handler
  // ---------------------------------------------------------------------------

  /** A request that is rejected, for whatever reason, leaves every table as it was. */
  lemma RejectionChangesNothing(s: Ledger, userId: Id, req: OrderRequest, ids: FreshIds, now: int)
    requires SharesNonNegative(s)
    ensures Place(s, userId, req, ids, now).0.Rejected? ==> Place(s, userId, req, ids, now).1 == s
  {
  }

  /** Committing a request keeps the ledger invariant. */
  lemma PlacePreservesInvariant(s: Ledger, userId: Id, req: OrderRequest, ids: FreshIds, now: int)
    requires LedgerInvariant(s)
    ensures LedgerInvariant(Place(s, userId, req, ids, now).1)
  {
    if userId != "" && Validate(req).Success? {
      var o := Validate(req).value;
      if Precheck(s, userId, o).None? {
        CommitPreservesInvariant(s, userId, o, ids, now);
      }
    }
  }

  lemma CommitPreservesInvariant(s: Ledger, userId: Id, o: ValidOrder, ids: FreshIds, now: int)
    requires LedgerInvariant(s) && o.shares > 0.0 && Precheck(s, userId, o).None?
    ensures LedgerInvariant(Commit(s, userId, o, ids, now).1)
  {
    var key := KeyOf(s, userId, o.teamId);
    if ids.orderId !in s.orders {
      if o.pricing != AtMarket {
        LimitInsertPreservesInvariant(s, userId, o, ids, now);
      } else if !TransactionIdUsed(s.transactions, ids.transactionId)
             && !(o.action == Buy && key !in s.holdings && HoldingIdUsed(s.holdings, ids.holdingId)) {
        MarketPreservesInvariant(s, userId, o, ids, now);
      }
    }
  }

  lemma LimitInsertPreservesInvariant(s: Ledger, userId: Id, o: ValidOrder, ids: FreshIds, now: int)
    requires LedgerInvariant(s) && o.shares > 0.0 && Precheck(s, userId, o).None?
    requires ids.orderId !in s.orders && o.pricing != AtMarket
    ensures LedgerInvariant(s.(orders := s.orders[ids.orderId := NewOrder(s, userId, o, now)]))
  {
    AddPendingOrder(s.orders, s.transactions, ids.orderId, NewOrder(s, userId, o, now));
  }

  /** Inserting a new pending order keeps the orders and the entries in agreement. */
  lemma AddPendingOrder(orders: map<Id, Order>, transactions: seq<Transaction>, id: Id, order: Order)
    requires EntriesValid(orders, transactions)
    requires id !in orders && OrderWellFormed(order) && order.status == Pending
    ensures EntriesValid(orders[id := order], transactions)
  {
    var orders' := orders[id := order];
    forall i | 0 <= i < |transactions| ensures Recorded(orders', transactions[i]) {
      assert Recorded(orders, transactions[i]);
    }
    forall k | k in orders' && orders'[k].status == Executed
      ensures exists i :: 0 <= i < |transactions| && transactions[i].orderId == k
    {
      assert k in orders;
    }
  }

  /** Inserting an executed order together with its entry keeps them in agreement. */
  lemma AddExecutedOrder(orders: map<Id, Order>, transactions: seq<Transaction>, id: Id, order: Order, t: Transaction)
    requires EntriesValid(orders, transactions)
    requires id !in orders && OrderWellFormed(order) && order.status == Executed
    requires !TransactionIdUsed(transactions, t.transactionId) && t.orderId == id && Recorded(orders[id := order], t)
    ensures EntriesValid(orders[id := order], transactions + [t])
  {
    var orders', transactions' := orders[id := order], transactions + [t];
    forall i | 0 <= i < |transactions'| ensures Recorded(orders', transactions'[i]) {
      if i < |transactions| {
        assert Recorded(orders, transactions[i]);
      }
    }
    forall i, j | 0 <= i < j < |transactions'|
      ensures transactions'[i].transactionId != transactions'[j].transactionId
      ensures transactions'[i].orderId != transactions'[j].orderId
    {
      if j == |transactions| {
        assert Recorded(orders, transactions[i]);
      }
    }
    forall k | k in orders' && orders'[k].status == Executed
      ensures exists i :: 0 <= i < |transactions'| && transactions'[i].orderId == k
    {
      if k == id {
        assert transactions'[|transactions|].orderId == k;
      } else {
        var i :| 0 <= i < |transactions| && transactions[i].orderId == k;
        assert transactions'[i].orderId == k;
      }
    }
  }

  lemma MarketPreservesInvariant(s: Ledger, userId: Id, o: ValidOrder, ids: FreshIds, now: int)
    requires LedgerInvariant(s) && o.shares > 0.0 && Precheck(s, userId, o).None?
    requires ids.orderId !in s.orders && o.pricing == AtMarket
    requires !TransactionIdUsed(s.transactions, ids.transactionId)
    requires !(o.action == Buy && KeyOf(s, userId, o.teamId) !in s.holdings && HoldingIdUsed(s.holdings, ids.holdingId))
    ensures LedgerInvariant(MarketExecuted(s, userId, o, ids, now))
  {
    MarketKeepsBalances(s, userId, o, ids, now);
    MarketKeepsHoldings(s, userId, o, ids, now);
    MarketKeepsEntries(s, userId, o, ids, now);
  }

  /** A market order leaves prices and cash non-negative and portfolio ids distinct. */
  lemma MarketKeepsBalances(s: Ledger, userId: Id, o: ValidOrder, ids: FreshIds, now: int)
    requires BalancesValid(s) && SharesNonNegative(s) && o.shares > 0.0 && Precheck(s, userId, o).None? && o.pricing == AtMarket
    ensures BalancesValid(MarketExecuted(s, userId, o, ids, now))
  {
    var s' := MarketExecuted(s, userId, o, ids, now);
    MarketExecutedFields(s, userId, o, ids, now);
    assert s.teams[o.teamId].currentSharePrice * o.shares >= 0.0;
    assert s'.portfolios[userId].cashBalance >= 0.0;
    assert forall u :: u in s'.portfolios ==> s'.portfolios[u].portfolioId == s.portfolios[u].portfolioId;
  }

  /** A market order leaves every holding with shares and a non-negative average cost. */
  lemma MarketKeepsHoldings(s: Ledger, userId: Id, o: ValidOrder, ids: FreshIds, now: int)
    requires BalancesValid(s) && HoldingsValid(s.holdings) && o.shares > 0.0 && Precheck(s, userId, o).None?
    requires o.pricing == AtMarket
    ensures SharesNonNegative(s) && HoldingsValid(MarketExecuted(s, userId, o, ids, now).holdings)
  {
    var holdings' := MarketExecuted(s, userId, o, ids, now).holdings;
    var key := KeyOf(s, userId, o.teamId);
    var price := OrderPrice(s, o);
    assert price >= 0.0;
    forall k | k in holdings' ensures holdings'[k].shares > 0.0 && holdings'[k].averagePurchasePrice >= 0.0 {
      if k == key && o.action == Buy && key in s.holdings {
        var h := s.holdings[key];
        var avg := MergedAverage(h.shares, h.averagePurchasePrice, o.shares, price);
        assert holdings'[k].averagePurchasePrice == avg;
      }
    }
  }

  /** A market order stores its order as executed together with exactly one new entry. */
  lemma MarketKeepsEntries(s: Ledger, userId: Id, o: ValidOrder, ids: FreshIds, now: int)
    requires EntriesValid(s.orders, s.transactions) && SharesNonNegative(s) && o.shares > 0.0
    requires Precheck(s, userId, o).None? && ids.orderId !in s.orders && o.pricing == AtMarket
    requires !TransactionIdUsed(s.transactions, ids.transactionId)
    ensures EntriesValid(MarketExecuted(s, userId, o, ids, now).orders, MarketExecuted(s, userId, o, ids, now).transactions)
  {
    var s' := MarketExecuted(s, userId, o, ids, now);
    var order := NewOrder(s, userId, o, now).(status := Executed, executedAt := Some(now));
    AddExecutedOrder(s.orders, s.transactions, ids.orderId, order, s'.transactions[|s.transactions|]);
  }

  // ---------------------------------------------------------------------------
  // What a request does
  // ---------------------------------------------------------------------------

  /** Shares held at `key`, zero when there is no holding. */
  function HeldShares(holdings: map<(Id, Id), Holding>, key: (Id, Id)): real
  {
    if key in holdings then holdings[key].shares else 0.0
  }

  /** What the shares held at `key` cost: average purchase price times shares, zero when there is no holding. */
  function CostBasis(holdings: map<(Id, Id), Holding>, key: (Id, Id)): real
  {
    if key in holdings then holdings[key].averagePurchasePrice * holdings[key].shares else 0.0
  }

  /** The caller, body, team, trading-status and portfolio checks pass, so the shares and funds checks are reached. */
  predicate ReachesBalanceChecks(s: Ledger, userId: Id, req: OrderRequest)
  {
    && userId != "" && WellFormed(req)
    && req.teamId in s.teams && s.teams[req.teamId].tradingStatus == "active"
    && userId in s.portfolios
  }

  /** Every check before the first write passes: caller, body, team, trading status, portfolio, shares, funds. */
  predicate ChecksPass(s: Ledger, userId: Id, req: OrderRequest)
  {
    && ReachesBalanceChecks(s, userId, req)
    && (req.action == "sell" ==> HeldShares(s.holdings, KeyOf(s, userId, req.teamId)) >= req.shares.value
                                 && KeyOf(s, userId, req.teamId) in s.holdings)
    && (req.action == "buy" && req.orderType == "market" ==>
          s.portfolios[userId].cashBalance >= s.teams[req.teamId].currentSharePrice * req.shares.value)
  }

  /**
   * Each rejection has exactly one cause, tried in the handler's order: the
   * shares check applies to sales only and the funds check to market
   * purchases only, so a limit purchase is never refused for want of cash.
   */
  lemma RejectionCauses(s: Ledger, userId: Id, req: OrderRequest, ids: FreshIds, now: int)
    requires SharesNonNegative(s)
    ensures var r := Place(s, userId, req, ids, now).0;
            && (r == Unauthorized <==> userId == "")
            && (r.HttpStatus() == 400 <==> userId != "" && !WellFormed(req))
            && (r == TeamNotFound <==> userId != "" && WellFormed(req) && req.teamId !in s.teams)
            && (r == TradingRestricted <==> userId != "" && WellFormed(req) && req.teamId in s.teams
                                             && s.teams[req.teamId].tradingStatus != "active")
            && (r == PortfolioNotFound <==> userId != "" && WellFormed(req) && req.teamId in s.teams
                                             && s.teams[req.teamId].tradingStatus == "active" && userId !in s.portfolios)
            && (r == InsufficientShares <==>
                  ReachesBalanceChecks(s, userId, req) && req.action == "sell"
                  && (KeyOf(s, userId, req.teamId) !in s.holdings
                      || s.holdings[KeyOf(s, userId, req.teamId)].shares < req.shares.value))
            && (r == InsufficientFunds <==>
                  ReachesBalanceChecks(s, userId, req) && req.action == "buy" && req.orderType == "market"
                  && s.portfolios[userId].cashBalance < s.teams[req.teamId].currentSharePrice * req.shares.value)
            && (r.Created? || r == InternalError <==> ChecksPass(s, userId, req))
  {
    if userId != "" && WellFormed(req) {
      var o := Validate(req).value;
      if Precheck(s, userId, o).None? {
        assert Commit(s, userId, o, ids, now).0.Created? || Commit(s, userId, o, ids, now).0 == InternalError;
      }
    }
  }

  /**
   * An admitted request fails with a 500 and no change exactly when one of
   * the ids it inserts is already taken: the order id, or for a market order
   * the transaction id, or for a market purchase opening a holding the
   * holding id.
   */
  lemma InternalErrorOnlyOnTakenId(s: Ledger, userId: Id, req: OrderRequest, ids: FreshIds, now: int)
    requires SharesNonNegative(s) && ChecksPass(s, userId, req)
    ensures var (r, s') := Place(s, userId, req, ids, now);
            && (r == InternalError <==>
                  || ids.orderId in s.orders
                  || (req.orderType == "market"
                      && (|| TransactionIdUsed(s.transactions, ids.transactionId)
                          || (req.action == "buy" && KeyOf(s, userId, req.teamId) !in s.holdings
                              && HoldingIdUsed(s.holdings, ids.holdingId)))))
            && (r == InternalError ==> s' == s)
  {
    RejectionCauses(s, userId, req, ids, now);
  }

  /**
   * A successful response is 201 and always reports the order as pending,
   * even for a market order that has already executed; its estimated total is
   * the order price times the shares.
   */
  lemma CreatedResponse(s: Ledger, userId: Id, req: OrderRequest, ids: FreshIds, now: int)
    requires SharesNonNegative(s) && Place(s, userId, req, ids, now).0.Created?
    ensures ChecksPass(s, userId, req)
    ensures var r := Place(s, userId, req, ids, now).0;
            var price := if req.orderType == "market" then s.teams[req.teamId].currentSharePrice else req.price.value;
            && r.HttpStatus() == 201
            && r == Created(ids.orderId, Pending, price * req.shares.value,
                            if req.orderType == "market" then MarketMessage else LimitMessage)
  {
    RejectionCauses(s, userId, req, ids, now);
  }

  /**
   * A limit order only inserts a pending order at the caller's price expiring
   * 24 hours later: no cash, holding, price or transaction changes, and no
   * funds check, so a limit purchase is accepted whatever the balance.
   */
  lemma LimitOrderEffect(s: Ledger, userId: Id, req: OrderRequest, ids: FreshIds, now: int)
    requires SharesNonNegative(s) && ChecksPass(s, userId, req) && req.orderType == "limit"
    requires ids.orderId !in s.orders
    ensures var (r, s') := Place(s, userId, req, ids, now);
            && r.Created?
            && s' == s.(orders := s.orders[ids.orderId :=
                 Order(userId, req.teamId, Limit, if req.action == "buy" then Buy else Sell, req.shares.value,
                       req.price.value, Pending, now, None, Some(now + DayMs))])
  {
  }

  /**
   * Nothing deduplicates orders: the same limit order sent again, with a new
   * order id, is accepted again and stored as a second order beside the first.
   */
  lemma RepeatedLimitOrderNotDeduplicated(s: Ledger, userId: Id, req: OrderRequest, ids: FreshIds, ids2: FreshIds, now: int, later: int)
    requires SharesNonNegative(s) && req.orderType == "limit" && Place(s, userId, req, ids, now).0.Created?
    requires ids2.orderId != ids.orderId && ids2.orderId !in s.orders
    ensures SharesNonNegative(Place(s, userId, req, ids, now).1)
    ensures var (r2, s2) := Place(Place(s, userId, req, ids, now).1, userId, req, ids2, later);
            && r2.Created? && r2.orderId == ids2.orderId
            && s2.orders.Keys == s.orders.Keys + {ids.orderId, ids2.orderId}
            && s2.orders[ids.orderId].placedAt == now && s2.orders[ids2.orderId].placedAt == later
  {
    CreatedResponse(s, userId, req, ids, now);
    InternalErrorOnlyOnTakenId(s, userId, req, ids, now);
    LimitOrderEffect(s, userId, req, ids, now);
    var s1 := Place(s, userId, req, ids, now).1;
    assert ChecksPass(s1, userId, req);
    LimitOrderEffect(s1, userId, req, ids2, later);
  }

  /**
   * Market orders are not deduplicated either: when the same market order is
   * sent again and accepted, both are stored as executed, each with its own
   * transaction entry.
   */
  lemma RepeatedMarketOrderNotDeduplicated(s: Ledger, userId: Id, req: OrderRequest, ids: FreshIds, ids2: FreshIds, now: int, later: int)
    requires LedgerInvariant(s) && req.orderType == "market" && Place(s, userId, req, ids, now).0.Created?
    ensures LedgerInvariant(Place(s, userId, req, ids, now).1)
    ensures var (r2, s2) := Place(Place(s, userId, req, ids, now).1, userId, req, ids2, later);
            r2.Created? ==>
              && ids2.orderId != ids.orderId
              && s2.orders.Keys == s.orders.Keys + {ids.orderId, ids2.orderId}
              && s2.orders[ids.orderId].status == Executed && s2.orders[ids.orderId].executedAt == Some(now)
              && s2.orders[ids2.orderId].status == Executed && s2.orders[ids2.orderId].executedAt == Some(later)
              && |s2.transactions| == |s.transactions| + 2
  {
    PlacePreservesInvariant(s, userId, req, ids, now);
    MarketOrderRecorded(s, userId, req, ids, now);
    var s1 := Place(s, userId, req, ids, now).1;
    if Place(s1, userId, req, ids2, later).0.Created? {
      MarketOrderRecorded(s1, userId, req, ids2, later);
    }
  }

  /**
   * A market purchase at the team's price p of n shares: the cash falls by
   * p * n and stays non-negative, the holding grows by n (or is opened) and
   * its cost basis rises by exactly p * n, so cash plus cost basis is
   * unchanged; the team's price rises 0.1%; nothing else is touched.
   */
  lemma MarketBuyEffect(s: Ledger, userId: Id, req: OrderRequest, ids: FreshIds, now: int)
    requires SharesNonNegative(s) && req.orderType == "market" && req.action == "buy"
    requires Place(s, userId, req, ids, now).0.Created?
    ensures ChecksPass(s, userId, req)
    ensures var s', p, n := Place(s, userId, req, ids, now).1, s.teams[req.teamId].currentSharePrice, req.shares.value;
            && s'.portfolios.Keys == s.portfolios.Keys
            && s'.portfolios[userId].cashBalance == s.portfolios[userId].cashBalance - p * n
            && (s.portfolios[userId].cashBalance >= 0.0 ==> s'.portfolios[userId].cashBalance >= 0.0)
            && (forall u :: u in s.portfolios && u != userId ==> s'.portfolios[u] == s.portfolios[u])
    ensures var s', p, n := Place(s, userId, req, ids, now).1, s.teams[req.teamId].currentSharePrice, req.shares.value;
            var key := KeyOf(s, userId, req.teamId);
            && key in s'.holdings
            && s'.holdings[key].shares == HeldShares(s.holdings, key) + n
            && CostBasis(s'.holdings, key) == CostBasis(s.holdings, key) + p * n
            && s'.portfolios[userId].cashBalance + CostBasis(s'.holdings, key)
               == s.portfolios[userId].cashBalance + CostBasis(s.holdings, key)
            && s'.holdings[key].currentValue == s'.holdings[key].shares * p
            && (forall k :: k != key ==> (k in s'.holdings <==> k in s.holdings))
            && (forall k :: k in s.holdings && k != key ==> s'.holdings[k] == s.holdings[k])
    ensures var s', p := Place(s, userId, req, ids, now).1, s.teams[req.teamId].currentSharePrice;
            && s'.teams.Keys == s.teams.Keys
            && s'.teams[req.teamId].currentSharePrice == p * (1001.0 / 1000.0)
            && (forall t :: t in s.teams && t != req.teamId ==> s'.teams[t] == s.teams[t])
  {
    CreatedMarketOrder(s, userId, req, ids, now);
    MarketBuyExecuted(s, userId, Validate(req).value, ids, now, Place(s, userId, req, ids, now).1,
                      KeyOf(s, userId, req.teamId), s.teams[req.teamId].currentSharePrice, req.shares.value);
  }

  /** The market purchase on the ledger, stated for the validated order. */
  lemma MarketBuyExecuted(s: Ledger, userId: Id, o: ValidOrder, ids: FreshIds, now: int,
                           s': Ledger, key: (Id, Id), p: real, n: real)
    requires SharesNonNegative(s) && o.shares > 0.0 && Precheck(s, userId, o).None?
    requires o.pricing == AtMarket && o.action == Buy
    requires s' == MarketExecuted(s, userId, o, ids, now) && key == KeyOf(s, userId, o.teamId)
    requires p == s.teams[o.teamId].currentSharePrice && n == o.shares
    ensures s'.portfolios.Keys == s.portfolios.Keys
    ensures s'.portfolios[userId].cashBalance == s.portfolios[userId].cashBalance - p * n
    ensures s.portfolios[userId].cashBalance >= 0.0 ==> s'.portfolios[userId].cashBalance >= 0.0
    ensures forall u :: u in s.portfolios && u != userId ==> s'.portfolios[u] == s.portfolios[u]
    ensures key in s'.holdings
    ensures s'.holdings[key].shares == HeldShares(s.holdings, key) + n
    ensures CostBasis(s'.holdings, key) == CostBasis(s.holdings, key) + p * n
    ensures s'.holdings[key].currentValue == s'.holdings[key].shares * p
    ensures forall k :: k != key ==> (k in s'.holdings <==> k in s.holdings)
    ensures forall k :: k in s.holdings && k != key ==> s'.holdings[k] == s.holdings[k]
    ensures s'.teams.Keys == s.teams.Keys
    ensures s'.teams[o.teamId].currentSharePrice == p * (1001.0 / 1000.0)
    ensures forall t :: t in s.teams && t != o.teamId ==> s'.teams[t] == s.teams[t]
  {
    MarketExecutedFields(s, userId, o, ids, now);
    assert OrderPrice(s, o) == p;
    var h' := s'.holdings[key];
    if key in s.holdings {
      var h := s.holdings[key];
      assert h'.averagePurchasePrice == MergedAverage(h.shares, h.averagePurchasePrice, n, p);
      assert h'.averagePurchasePrice * h'.shares == h.averagePurchasePrice * h.shares + p * n;
    } else {
      assert h' == Holding(ids.holdingId, n, p, p * n);
    }
  }

  /** A market order that was created went through `MarketExecuted` with its validated order. */
  lemma CreatedMarketOrder(s: Ledger, userId: Id, req: OrderRequest, ids: FreshIds, now: int)
    requires SharesNonNegative(s) && req.orderType == "market"
    requires Place(s, userId, req, ids, now).0.Created?
    ensures ChecksPass(s, userId, req) && userId != "" && Validate(req).Success?
    ensures var o := Validate(req).value;
            && o.shares > 0.0 && o.teamId == req.teamId && o.shares == req.shares.value && o.pricing == AtMarket
            && (o.action == Buy <==> req.action == "buy")
            && Precheck(s, userId, o).None?
            && !TransactionIdUsed(s.transactions, ids.transactionId)
            && Place(s, userId, req, ids, now).1 == MarketExecuted(s, userId, o, ids, now)
  {
    var o := Validate(req).value;
    assert Precheck(s, userId, o).None?;
  }

  /**
   * A market sale of n shares at the team's price p: the cash rises by
   * p * n, the holding shrinks by exactly n at an unchanged average price and
   * disappears when nothing remains; the team's price falls 0.1%; nothing
   * else is touched.
   */
  lemma MarketSellEffect(s: Ledger, userId: Id, req: OrderRequest, ids: FreshIds, now: int)
    requires SharesNonNegative(s) && req.orderType == "market" && req.action == "sell"
    requires Place(s, userId, req, ids, now).0.Created?
    ensures ChecksPass(s, userId, req)
    ensures var s' := Place(s, userId, req, ids, now).1;
            var p, n := s.teams[req.teamId].currentSharePrice, req.shares.value;
            var key := KeyOf(s, userId, req.teamId);
            var held := s.holdings[key];
            && s'.portfolios.Keys == s.portfolios.Keys
            && s'.portfolios[userId].cashBalance == s.portfolios[userId].cashBalance + p * n
            && n <= held.shares
            && (key in s'.holdings <==> held.shares - n > 0.0)
            && (key in s'.holdings ==>
                  && s'.holdings[key].shares == held.shares - n
                  && s'.holdings[key].averagePurchasePrice == held.averagePurchasePrice
                  && s'.holdings[key].holdingId == held.holdingId
                  && s'.holdings[key].currentValue == s'.holdings[key].shares * p)
            && s'.teams.Keys == s.teams.Keys
            && s'.teams[req.teamId].currentSharePrice == p * (999.0 / 1000.0)
            && (forall u :: u in s.portfolios && u != userId ==> s'.portfolios[u] == s.portfolios[u])
            && (forall k :: k != key ==> (k in s'.holdings <==> k in s.holdings))
            && (forall k :: k in s.holdings && k != key ==> s'.holdings[k] == s.holdings[k])
            && (forall t :: t in s.teams && t != req.teamId ==> s'.teams[t] == s.teams[t])
  {
    RejectionCauses(s, userId, req, ids, now);
    var o := Validate(req).value;
    assert Place(s, userId, req, ids, now).1 == MarketExecuted(s, userId, o, ids, now);
    assert OrderPrice(s, o) == s.teams[req.teamId].currentSharePrice;
  }

  /**
   * A market order is recorded as an executed order and one fee-free
   * transaction at the team's price, appended after every earlier one.
   */
  lemma MarketOrderRecorded(s: Ledger, userId: Id, req: OrderRequest, ids: FreshIds, now: int)
    requires SharesNonNegative(s) && req.orderType == "market"
    requires Place(s, userId, req, ids, now).0.Created?
    ensures ChecksPass(s, userId, req)
    ensures !TransactionIdUsed(s.transactions, ids.transactionId)
    ensures var p, action := s.teams[req.teamId].currentSharePrice, if req.action == "buy" then Buy else Sell;
            Place(s, userId, req, ids, now).1.orders
              == s.orders[ids.orderId := Order(userId, req.teamId, Market, action, req.shares.value, p, Executed, now, Some(now), None)]
    ensures Place(s, userId, req, ids, now).1.transactions
              == s.transactions + [Transaction(ids.transactionId, ids.orderId, userId, req.teamId,
                                               if req.action == "buy" then Buy else Sell, req.shares.value,
                                               s.teams[req.teamId].currentSharePrice,
                                               s.teams[req.teamId].currentSharePrice * req.shares.value, 0.0, now)]
  {
    RejectionCauses(s, userId, req, ids, now);
    var o := Validate(req).value;
    assert Place(s, userId, req, ids, now).1 == MarketExecuted(s, userId, o, ids, now);
    assert OrderPrice(s, o) == s.teams[req.teamId].currentSharePrice;
    assert OrderPrice(s, o) * o.shares == s.teams[req.teamId].currentSharePrice * req.shares.value;
    assert o.action == if req.action == "buy" then Buy else Sell;
    var s' := MarketExecuted(s, userId, o, ids, now);
    var entry := Transaction(ids.transactionId, ids.orderId, userId, req.teamId,
                             if req.action == "buy" then Buy else Sell, req.shares.value,
                             s.teams[req.teamId].currentSharePrice,
                             s.teams[req.teamId].currentSharePrice * req.shares.value, 0.0, now);
    assert s'.transactions[|s.transactions|] == entry;
    assert s'.transactions == s.transactions + [entry];
  }

  /**
   * Buying 50 shares at 10 with 1000 in cash and then selling 20: the cash
   * goes to 500 and then to 700.2, the holding to 50 and then 30 shares at an
   * average of 10, and the price to 10.01 and then 9.99999.
   */
  lemma WorkedExample()
    ensures var s0 := Ledger(map["t" := Team(10.0, "active")], map["u" := Portfolio("p", 1000.0)], map[], map[], []);
            var buy := OrderRequest("t", "market", "buy", Some(50.0), None);
            var sell := OrderRequest("t", "market", "sell", Some(20.0), None);
            var (r1, s1) := Place(s0, "u", buy, FreshIds("o1", "x1", "h1"), 0);
            && r1 == Created("o1", Pending, 500.0, MarketMessage)
            && s1.portfolios["u"].cashBalance == 500.0
            && s1.holdings[("p", "t")] == Holding("h1", 50.0, 10.0, 500.0)
            && s1.teams["t"].currentSharePrice == 10.01
            && SharesNonNegative(s1)
            && var (r2, s2) := Place(s1, "u", sell, FreshIds("o2", "x2", "h2"), 1);
               && r2 == Created("o2", Pending, 200.2, MarketMessage)
               && s2.portfolios["u"].cashBalance == 700.2
               && s2.holdings[("p", "t")] == Holding("h1", 30.0, 10.0, 300.3)
               && s2.teams["t"].currentSharePrice == 9.99999
               && |s2.transactions| == 2
  {
    var s0 := Ledger(map["t" := Team(10.0, "active")], map["u" := Portfolio("p", 1000.0)], map[], map[], []);
    var buy := OrderRequest("t", "market", "buy", Some(50.0), None);
    var s1 := Place(s0, "u", buy, FreshIds("o1", "x1", "h1"), 0).1;
    assert !HoldingIdUsed(s0.holdings, "h1");
    assert s1.holdings == map[("p", "t") := Holding("h1", 50.0, 10.0, 500.0)];
  }

  /**
   * The portfolio summary's daily change: the amount and the percentage
   * against yesterday's value, both zero when there is no positive value for
   * yesterday.
   */
  function DailyChange(totalValue: real, yesterdayValue: Option<real>): (r: (real, real))
    ensures var y := if yesterdayValue.Some? then yesterdayValue.value else 0.0;
            && (y > 0.0 ==> r.0 == totalValue - y)
            && (y <= 0.0 ==> r == (0.0, 0.0))
  {
    var yesterday := if yesterdayValue.Some? then yesterdayValue.value else 0.0;
    var amount := if yesterday > 0.0 then totalValue - yesterday else 0.0;
    var percentage := if yesterday > 0.0 then (amount / yesterday) * 100.0 else 0.0;
    (amount, percentage)
  }

  /**
   * The percentage is the amount relative to yesterday: applying it to
   * yesterday's value gives back today's, and its sign is the direction of
   * the change.
   */
  lemma DailyChangePercentage(totalValue: real, yesterday: real)
    requires yesterday > 0.0
    ensures var r := DailyChange(totalValue, Some(yesterday));
            && yesterday + yesterday * r.1 / 100.0 == totalValue
            && (r.1 > 0.0 <==> totalValue > yesterday)
            && (r.1 < 0.0 <==> totalValue < yesterday)
  {
    var r := DailyChange(totalValue, Some(yesterday));
    var amount := totalValue - yesterday;
    assert r.1 == (amount / yesterday) * 100.0;
    assert yesterday * (amount / yesterday) == amount;
  }
}
