/** The portfolio ledger: trades, transaction costs, and the object that opens and closes positions. */
module Portfolio {
  import opened MarketTypes
  import opened Multiples
  import opened Ranking

  type Date = int

  // ------------------------------------------------------------ transaction costs

  datatype TransactionCostConfig = TransactionCostConfig(
    buyCommissionPct: real, sellCommissionPct: real, sellTaxPct: real, buySlippagePct: real, sellSlippagePct: real)
  {
    predicate Valid() {
      buyCommissionPct >= 0.0 && sellCommissionPct >= 0.0 && sellTaxPct >= 0.0 && buySlippagePct >= 0.0
        && sellSlippagePct >= 0.0
    }
    /** Sell prices stay positive. */
    predicate Sellable() { Valid() && sellSlippagePct < 100.0 }

    /** Selling never costs more than it brings. */
    predicate Profitable() { Sellable() && sellCommissionPct + sellTaxPct <= 100.0 }
  }

  function BuyPrice(price: real, config: TransactionCostConfig): real { price * (1.0 + config.buySlippagePct / 100.0) }

  function SellPrice(price: real, config: TransactionCostConfig): real {
    price * (1.0 - config.sellSlippagePct / 100.0)
  }

  function Gross(price: real, quantity: nat): real { Times(quantity, price) }

  function Percentage(value: real, pct: real): real { value * pct / 100.0 }

  /** What a purchase takes from the cash. */
  function PurchaseCost(price: real, quantity: nat, config: TransactionCostConfig): real {
    var gross := Gross(BuyPrice(price, config), quantity);
    gross + Percentage(gross, config.buyCommissionPct)
  }

  /** What a sale adds to the cash. */
  function Proceeds(price: real, quantity: nat, config: TransactionCostConfig): real {
    var gross := Gross(SellPrice(price, config), quantity);
    gross - (Percentage(gross, config.sellCommissionPct) + Percentage(gross, config.sellTaxPct))
  }

  lemma {:induction false} BuyPricePositive(price: real, config: TransactionCostConfig)
    requires price > 0.0 && config.Valid()
    ensures BuyPrice(price, config) >= price
  {
    assert price * (1.0 + config.buySlippagePct / 100.0) == price + price * (config.buySlippagePct / 100.0);
    assert price * (config.buySlippagePct / 100.0) >= 0.0;
  }

  lemma {:induction false} SellPricePositive(price: real, config: TransactionCostConfig)
    requires price > 0.0 && config.Valid()
    ensures SellPrice(price, config) > 0.0 <==> config.Sellable()
  {
    var kept := 1.0 - config.sellSlippagePct / 100.0;
    if kept > 0.0 { assert price * kept > 0.0; } else { assert price * -kept >= 0.0; }
  }

  lemma {:induction false} GrossPositive(price: real, quantity: nat)
    requires price > 0.0 && quantity > 0
    ensures Gross(price, quantity) > 0.0
  {
    TimesPositive(quantity, price);
  }

  /** Commission and tax together take at most the whole value, so a sale never costs cash. */
  lemma {:induction false} ProceedsNotNegative(price: real, quantity: nat, config: TransactionCostConfig)
    requires price > 0.0 && quantity > 0 && config.Profitable()
    ensures Proceeds(price, quantity, config) >= 0.0
  {
    var gross, pct := Gross(SellPrice(price, config), quantity), config.sellCommissionPct + config.sellTaxPct;
    SellPricePositive(price, config);
    GrossPositive(SellPrice(price, config), quantity);
    assert gross * (100.0 - pct) >= 0.0;
    assert gross * pct == gross * config.sellCommissionPct + gross * config.sellTaxPct;
  }

  // ----------------------------------------------------------------------- trades

  datatype ExitReason = TakeProfit | StopLoss | TimeExit | SignalExit | Manual

  datatype Exit = Exit(date: Date, price: real, reason: ExitReason)

  /** A trade: what it was opened with never changes; closing sets the exit and its costs. */
  class Trade {
    const symbol: Symbol
    const entryDate: Date
    const entryPrice: real
    const quantity: nat
    const buyCommission: real
    /** The value the ranking method reads. */
    const quality: Value
    var exit: Option<Exit>
    var sellCommission: real
    var sellTax: real

    constructor (symbol: Symbol, entryDate: Date, entryPrice: real, quantity: nat, buyCommission: real, quality: Value)
      ensures this.symbol == symbol && this.entryDate == entryDate && this.entryPrice == entryPrice
      ensures this.quantity == quantity && this.buyCommission == buyCommission && this.quality == quality
      ensures exit == None && sellCommission == 0.0 && sellTax == 0.0
    {
      this.symbol, this.entryDate, this.entryPrice, this.quantity := symbol, entryDate, entryPrice, quantity;
      this.buyCommission, this.quality := buyCommission, quality;
      exit, sellCommission, sellTax := None, 0.0, 0.0;
    }

    method Close(date: Date, price: real, reason: ExitReason)
      modifies this`exit
      ensures exit == Some(Exit(date, price, reason))
    {
      exit := Some(Exit(date, price, reason));
    }

    function Cost(): real { Gross(entryPrice, quantity) }

    function GrossPnl(): real
      reads this
    {
      if exit.None? then 0.0 else Times(quantity, exit.value.price - entryPrice)
    }

    function TransactionCost(): real
      reads this
    {
      buyCommission + sellCommission + sellTax
    }

    function NetPnl(): real
      reads this
    {
      GrossPnl() - TransactionCost()
    }
  }

  /** What the open positions tied up: their cost and buy commission. */
  function Invested(trades: seq<Trade>): real {
    if trades == [] then 0.0 else Invested(trades[1..]) + trades[0].Cost() + trades[0].buyCommission
  }

  /** Net profit of the closed positions. */
  function Realized(trades: seq<Trade>): real
    reads trades
  {
    if trades == [] then 0.0 else Realized(trades[..|trades| - 1]) + trades[|trades| - 1].NetPnl()
  }

  ghost function Total(xs: seq<real>): real { if xs == [] then 0.0 else Total(xs[..|xs| - 1]) + xs[|xs| - 1] }

  lemma {:induction false} TotalAdds(xs: seq<real>, x: real)
    ensures Total(xs + [x]) == Total(xs) + x
  {
    assert (xs + [x])[..|xs|] == xs;
  }

  /** No two trades are in the same symbol. */
  ghost predicate OneEach(trades: seq<Trade>) {
    trades != [] ==>
      var k := |trades| - 1;
      (forall t | t in trades[..k] :: t.symbol != trades[k].symbol) && OneEach(trades[..k])
  }

  lemma {:induction false} OneEachMeans(trades: seq<Trade>)
    ensures OneEach(trades) <==> forall i, j | 0 <= i < j < |trades| :: trades[i].symbol != trades[j].symbol
  {
    if trades != [] {
      var k := |trades| - 1;
      OneEachMeans(trades[..k]);
      assert forall i | 0 <= i < k :: trades[i] == trades[..k][i];
    }
  }

  lemma {:induction false} OneEachTrade(trades: seq<Trade>, t: Trade, u: Trade)
    requires OneEach(trades) && t in trades && u in trades && t.symbol == u.symbol
    ensures t == u
  {
    OneEachMeans(trades);
    var i :| 0 <= i < |trades| && trades[i] == t;
    var j :| 0 <= j < |trades| && trades[j] == u;
  }

  lemma {:induction false} OneEachAppend(trades: seq<Trade>, t: Trade)
    requires OneEach(trades) && forall u | u in trades :: u.symbol != t.symbol
    ensures OneEach(trades + [t])
  {
    assert (trades + [t])[..|trades|] == trades;
  }

  /** Each closed trade's net profit is the amount booked for it. */
  ghost predicate Booked(trades: seq<Trade>, profits: seq<real>)
    reads trades
  {
    && |profits| == |trades|
    && (trades != [] ==>
          var k := |trades| - 1;
          trades[k].exit.Some? && trades[k].NetPnl() == profits[k] && Booked(trades[..k], profits[..k]))
  }

  lemma {:induction false} BookedAppend(trades: seq<Trade>, profits: seq<real>, t: Trade)
    requires Booked(trades, profits) && t.exit.Some?
    ensures Booked(trades + [t], profits + [t.NetPnl()])
  {
    assert (trades + [t])[..|trades|] == trades && (profits + [t.NetPnl()])[..|profits|] == profits;
  }

  lemma {:induction false} RealizedIs(trades: seq<Trade>, profits: seq<real>)
    requires Booked(trades, profits)
    ensures Realized(trades) == Total(profits)
  {
    if trades != [] { RealizedIs(trades[..|trades| - 1], profits[..|profits| - 1]); }
  }

  /** The market value of open positions at the given prices; entry prices where none is given. */
  function MarketValue(trades: seq<Trade>, prices: map<Symbol, real>): real {
    if trades == [] then 0.0
    else MarketValue(trades[1..], prices) + Gross(if trades[0].symbol in prices then prices[trades[0].symbol]
      else trades[0].entryPrice, trades[0].quantity)
  }

  function Exposure(trades: seq<Trade>): real {
    if trades == [] then 0.0 else Exposure(trades[1..]) + trades[0].Cost()
  }

  lemma {:induction false} InvestedAppend(trades: seq<Trade>, t: Trade)
    ensures Invested(trades + [t]) == Invested(trades) + t.Cost() + t.buyCommission
  {
    if trades == [] {
      assert [t][1..] == [];
    } else {
      assert (trades + [t])[1..] == trades[1..] + [t];
      InvestedAppend(trades[1..], t);
    }
  }

  lemma {:induction false} InvestedRemove(trades: seq<Trade>, i: nat)
    requires i < |trades|
    ensures Invested(trades[..i] + trades[i + 1..]) == Invested(trades) - trades[i].Cost() - trades[i].buyCommission
  {
    if i == 0 {
      assert trades[..0] + trades[1..] == trades[1..];
    } else {
      var rest := trades[..i] + trades[i + 1..];
      assert rest[1..] == trades[1..][..i - 1] + trades[1..][i..];
      InvestedRemove(trades[1..], i - 1);
    }
  }

  // -------------------------------------------------------------------- portfolio

  datatype PortfolioError =
    | InvalidSymbol | InvalidPrice | InvalidQuantity | DuplicatePosition | InsufficientCash | PositionNotFound
    | UnsellablePrice

  class Ledger {
    const initialCash: real
    const config: TransactionCostConfig
    var cash: real
    var openPositions: seq<Trade>
    var closedPositions: seq<Trade>
    /** The net profit each closed position booked. */
    ghost var profits: seq<real>

    ghost function Open(): set<Trade>
      reads this
    {
      set t | t in openPositions
    }

    ghost predicate Valid()
      reads this, openPositions, closedPositions
    {
      && config.Valid() && initialCash > 0.0
      && OneEach(openPositions)
      && (forall t | t in openPositions :: t !in closedPositions)
      && (forall t | t in openPositions ::
        t.exit.None? && t.sellCommission == 0.0 && t.sellTax == 0.0 && t.quantity > 0 && t.entryPrice > 0.0)
      && Booked(closedPositions, profits)
      && Balanced()
    }

    /** Conservation: cash plus what open positions tied up is the initial cash plus booked profit. */
    ghost predicate Balanced()
      reads this
    {
      cash + Invested(openPositions) == initialCash + Total(profits)
    }

    constructor (initialCash: real, config: TransactionCostConfig)
      requires initialCash > 0.0 && config.Valid()
      ensures Valid() && openPositions == [] && closedPositions == [] && cash == initialCash
      ensures this.initialCash == initialCash && this.config == config
    {
      this.initialCash, this.config := initialCash, config;
      cash, openPositions, closedPositions, profits := initialCash, [], [], [];
    }

    function Equity(prices: map<Symbol, real>): real
      reads this
    {
      cash + MarketValue(openPositions, prices)
    }

    /** `get_open_position`. */
    method GetOpenPosition(symbol: Symbol) returns (i: Option<nat>)
      ensures i.Some? ==> i.value < |openPositions| && openPositions[i.value].symbol == symbol
      ensures i.None? ==> forall t | t in openPositions :: t.symbol != symbol
    {
      for k := 0 to |openPositions|
        invariant forall j | 0 <= j < k :: openPositions[j].symbol != symbol
      {
        if openPositions[k].symbol == symbol { return Some(k); }
      }
      return None;
    }

    /** `open_position`: refused without any change, or one new position paid for in full. */
    method OpenPosition(symbol: Symbol, date: Date, price: real, quantity: int, quality: Value)
        returns (r: Result<Trade, PortfolioError>)
      requires Valid()
      modifies this
      ensures Valid()
      ensures r == Err(InvalidSymbol) <==> symbol == ""
      ensures r == Err(InvalidPrice) <==> symbol != "" && price <= 0.0
      ensures r == Err(InvalidQuantity) <==> symbol != "" && price > 0.0 && quantity <= 0
      ensures symbol != "" && price > 0.0 && quantity > 0 ==>
        && (r == Err(DuplicatePosition) <==> exists t :: t in old(openPositions) && t.symbol == symbol)
        && (r == Err(InsufficientCash) <==>
              (forall t | t in old(openPositions) :: t.symbol != symbol)
                && PurchaseCost(price, quantity, config) > old(cash))
      ensures r.Err? ==> !r.error.PositionNotFound? && !r.error.UnsellablePrice?
      ensures r.Err? ==>
        openPositions == old(openPositions) && closedPositions == old(closedPositions) && cash == old(cash)
      ensures r.Ok? ==>
        && fresh(r.value) && openPositions == old(openPositions) + [r.value] && closedPositions == old(closedPositions)
        && r.value.symbol == symbol && r.value.entryDate == date && r.value.quantity == quantity
        && r.value.entryPrice == BuyPrice(price, config) && r.value.quality == quality
        && r.value.Cost() + r.value.buyCommission == PurchaseCost(price, quantity, config)
        && 0.0 <= cash == old(cash) - PurchaseCost(price, quantity, config)
    {
      if symbol == "" { return Err(InvalidSymbol); }
      if price <= 0.0 { return Err(InvalidPrice); }
      if quantity <= 0 { return Err(InvalidQuantity); }
      var existing := GetOpenPosition(symbol);
      if existing.Some? {
        assert openPositions[existing.value] in openPositions;
        return Err(DuplicatePosition);
      }
      var effective := BuyPrice(price, config);
      BuyPricePositive(price, config);
      var gross := Gross(effective, quantity);
      var commission := Percentage(gross, config.buyCommissionPct);
      var cost := gross + commission;
      if cost > cash { return Err(InsufficientCash); }
      var trade := new Trade(symbol, date, effective, quantity, commission, quality);
      InvestedAppend(openPositions, trade);
      OneEachAppend(openPositions, trade);
      cash := cash - cost;
      openPositions := openPositions + [trade];
      return Ok(trade);
    }

    /** `close_position`: the open trade of the symbol is closed at the slipped price. A slippage that
        leaves no positive price fails only after the trade took its exit, so the trade then stays among
        the open positions although it is closed, and the ledger is no longer valid. */
    method ClosePosition(symbol: Symbol, date: Date, price: real, reason: ExitReason)
        returns (r: Result<Trade, PortfolioError>)
      requires Valid()
      modifies this, Open()
      ensures r == Err(InvalidPrice) <==> price <= 0.0
      ensures r == Err(PositionNotFound) <==> price > 0.0 && forall t | t in old(openPositions) :: t.symbol != symbol
      ensures r == Err(UnsellablePrice) <==>
        price > 0.0 && !config.Sellable() && exists t :: t in old(openPositions) && t.symbol == symbol
      ensures r.Err? ==> r.error.InvalidPrice? || r.error.PositionNotFound? || r.error.UnsellablePrice?
      ensures r.Err? ==>
        openPositions == old(openPositions) && closedPositions == old(closedPositions) && cash == old(cash)
      ensures Valid() <==> r != Err(UnsellablePrice)
      ensures r.Ok? ==>
        && r.value in old(openPositions) && r.value.symbol == symbol
        && closedPositions == old(closedPositions) + [r.value]
        && openPositions == Without(old(openPositions), r.value)
        && r.value.exit == Some(Exit(date, SellPrice(price, config), reason))
        && cash == old(cash) + Proceeds(price, r.value.quantity, config)
        && (config.Profitable() ==> cash >= old(cash))
      ensures forall t | t in old(openPositions) && (if r.Ok? then t != r.value else r.error.UnsellablePrice? ==>
        t.symbol != symbol) :: unchanged(t)
    {
      if price <= 0.0 { return Err(InvalidPrice); }
      var found := GetOpenPosition(symbol);
      if found.None? { return Err(PositionNotFound); }
      assert openPositions[found.value] in openPositions;
      var trade, sold := CloseAt(found.value, date, price, reason);
      if !sold {
        assert trade in openPositions && trade.exit.Some?;
        forall t | t in old(openPositions) && t.symbol != symbol ensures unchanged(t) { assert t != trade; }
        return Err(UnsellablePrice);
      }
      if config.Profitable() { ProceedsNotNegative(price, trade.quantity, config); }
      return Ok(trade);
    }

    method CloseAt(i: nat, date: Date, price: real, reason: ExitReason) returns (trade: Trade, sold: bool)
      requires Valid() && i < |openPositions| && price > 0.0
      modifies this, Open()
      ensures trade == old(openPositions)[i] && (sold <==> config.Sellable())
      ensures trade.exit == Some(Exit(date, SellPrice(price, config), reason))
      ensures !sold ==>
        openPositions == old(openPositions) && closedPositions == old(closedPositions) && cash == old(cash)
      ensures sold ==>
        && Valid() && closedPositions == old(closedPositions) + [trade]
        && openPositions == Without(old(openPositions), trade)
        && cash == old(cash) + Proceeds(price, trade.quantity, config)
      ensures forall t | t in old(openPositions) && t != trade :: unchanged(t)
    {
      hide OneEach, Without, Invested, Proceeds, SellPrice;
      trade := openPositions[i];
      assert trade in openPositions;
      var rest := openPositions[..i] + openPositions[i + 1..];
      InvestedRemove(openPositions, i);
      WithoutMembers(openPositions, trade);
      WithoutOneEach(openPositions, trade);
      RemovedAt(openPositions, i);
      var net := Sell(trade, date, price, reason);
      if net.None? { return trade, false; }
      assert Booked(closedPositions, profits);
      TotalAdds(profits, trade.NetPnl());
      BookedAppend(closedPositions, profits, trade);
      cash := cash + net.value;
      openPositions := rest;
      closedPositions, profits := closedPositions + [trade], profits + [trade.NetPnl()];
      return trade, true;
    }

    /** The exit and its costs on the trade itself; the proceeds after costs, if there is a price to
        charge them on. The booked profit is what the sale brings less what the purchase took. */
    method Sell(trade: Trade, date: Date, price: real, reason: ExitReason) returns (net: Option<real>)
      requires config.Valid() && price > 0.0 && trade.quantity > 0
      modifies trade
      ensures trade.exit == Some(Exit(date, SellPrice(price, config), reason))
      ensures net.Some? <==> config.Sellable()
      ensures net.Some? ==>
        net.value == Proceeds(price, trade.quantity, config)
          && trade.NetPnl() == net.value - trade.Cost() - trade.buyCommission
    {
      var effective := SellPrice(price, config);
      SellPricePositive(price, config);
      trade.Close(date, effective, reason);
      if effective <= 0.0 { return None; }
      var gross := Gross(effective, trade.quantity);
      trade.sellCommission := Percentage(gross, config.sellCommissionPct);
      trade.sellTax := Percentage(gross, config.sellTaxPct);
      TimesLess(trade.quantity, effective, trade.entryPrice);
      return Some(gross - (trade.sellCommission + trade.sellTax));
    }
  }

  /** The trades in order, less one of them. */
  function Without(trades: seq<Trade>, t: Trade): seq<Trade> {
    if trades == [] then []
    else
      var k := |trades| - 1;
      Without(trades[..k], t) + if trades[k] == t then [] else [trades[k]]
  }

  lemma {:induction false} WithoutMembers(trades: seq<Trade>, t: Trade)
    ensures forall u | u in Without(trades, t) :: u in trades && u != t
    ensures forall u | u in trades :: u == t || u in Without(trades, t)
  {
    if trades != [] {
      WithoutMembers(trades[..|trades| - 1], t);
      assert trades == trades[..|trades| - 1] + [trades[|trades| - 1]];
    }
  }

  lemma {:induction false} WithoutAbsent(trades: seq<Trade>, t: Trade)
    requires t !in trades
    ensures Without(trades, t) == trades
  {
    if trades != [] { WithoutAbsent(trades[..|trades| - 1], t); }
  }

  lemma {:induction false} WithoutOneEach(trades: seq<Trade>, t: Trade)
    requires OneEach(trades)
    ensures OneEach(Without(trades, t))
  {
    hide OneEach;
    if trades == [] {
      OneEachMeans(trades);
    } else {
      var k := |trades| - 1;
      OneEachLast(trades);
      WithoutOneEach(trades[..k], t);
      WithoutMembers(trades[..k], t);
      if trades[k] != t { OneEachAppend(Without(trades[..k], t), trades[k]); }
      assert trades[k] == t ==> Without(trades, t) == Without(trades[..k], t);
    }
  }

  /** With one trade per symbol, dropping a position is dropping its trade. */
  lemma {:induction false} RemovedAt(trades: seq<Trade>, i: nat)
    requires i < |trades| && OneEach(trades)
    ensures trades[..i] + trades[i + 1..] == Without(trades, trades[i])
  {
    hide OneEach;
    var k := |trades| - 1;
    if i == k {
      assert trades[k] !in trades[..k] by { OneEachLast(trades); }
      WithoutAbsent(trades[..k], trades[k]);
    } else {
      OneEachLast(trades);
      RemovedAt(trades[..k], i);
      assert trades[..k][i + 1..] + [trades[k]] == trades[i + 1..];
    }
  }

  lemma {:induction false} OneEachLast(trades: seq<Trade>)
    requires OneEach(trades) && trades != []
    ensures OneEach(trades[..|trades| - 1]) && trades[|trades| - 1] !in trades[..|trades| - 1]
    ensures forall t | t in trades[..|trades| - 1] :: t.symbol != trades[|trades| - 1].symbol
  {
  }

  lemma {:induction false} WithoutOne(trades: seq<Trade>, t: Trade)
    requires OneEach(trades) && t in trades
    ensures |Without(trades, t)| == |trades| - 1
  {
    var i :| 0 <= i < |trades| && trades[i] == t;
    RemovedAt(trades, i);
  }

  /** With every position closed, final cash is the initial cash plus the realized net profit. */
  lemma {:induction false} ClosedLedger(ledger: Ledger)
    requires ledger.Valid() && ledger.openPositions == []
    ensures ledger.cash == ledger.initialCash + Realized(ledger.closedPositions)
    ensures forall prices :: ledger.Equity(prices) == ledger.cash
  {
    RealizedIs(ledger.closedPositions, ledger.profits);
  }

  /** Conservation in every valid state: cash plus the cost and commission of the open trades is the
      initial cash plus the net profit of the closed ones. */
  lemma {:induction false} Conservation(ledger: Ledger)
    requires ledger.Valid()
    ensures ledger.cash + Invested(ledger.openPositions) == ledger.initialCash + Realized(ledger.closedPositions)
  {
    RealizedIs(ledger.closedPositions, ledger.profits);
  }

  /** The cash estimate of the simulator misses exactly the cross term of slippage and commission. */
  lemma {:induction false} EstimateMissesCrossTerm(price: real, quantity: nat, config: TransactionCostConfig)
    ensures var value := Gross(price, quantity);
      PurchaseCost(price, quantity, config)
        == value * (1.0 + (config.buyCommissionPct + config.buySlippagePct) / 100.0)
           + value * config.buySlippagePct * config.buyCommissionPct / 10000.0
  {
    TimesIs(quantity, price);
    TimesIs(quantity, BuyPrice(price, config));
    var q, s, c := quantity as real, config.buySlippagePct, config.buyCommissionPct;
    var value := price * q;
    assert price * (1.0 + s / 100.0) * q == value * (1.0 + s / 100.0);
    var gross := value * (1.0 + s / 100.0);
    assert gross == value + value * s / 100.0;
    assert gross * c == value * c + value * s * c / 100.0;
    assert value * (1.0 + (c + s) / 100.0) == value + value * c / 100.0 + value * s / 100.0;
  }
}
