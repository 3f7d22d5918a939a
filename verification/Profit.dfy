/**
 * The two profit views. The all-period view values the stock that left each product; a monthly view
 * adds up the gains of the ranking rows of that month. A permanent delete must move neither.
 */
module Profit {
  import opened Options
  import opened Sums
  import opened Books
  import opened Ledger

  datatype Profit = Unknown | Known(net: real, margin: real)

  function Margin(net: real, revenue: real): real {
    if revenue > 0.0 then net / revenue * 100.0 else 0.0
  }

  // ----- All periods -----

  function StockTerm(b: Books, p: nat): real {
    if HasProduct(b, p)
    then Amount(b.products[p].value.purchasePrice,
                b.products[p].value.initialQuantity - b.products[p].value.remainingQuantity)
    else 0.0
  }

  function StockCost(b: Books): real {
    Sum(|b.products|, (p: nat) => StockTerm(b, p))
  }

  function GoneTerm(b: Books, m: Measure, p: nat): real {
    if HasProduct(b, p) then 0.0 else Total(b, OfProduct(p), AllTime, m)
  }

  /** Accumulated over the sales whose product is gone, grouped by product. */
  function GoneTotal(b: Books, m: Measure): real {
    Sum(|b.products|, (p: nat) => GoneTerm(b, m, p))
  }

  function AdjustmentTerm(b: Books, j: nat): real {
    if j < |b.adjustments| then Amount(b.adjustments[j].unitCost, b.adjustments[j].units) else 0.0
  }

  function AdjustmentCost(b: Books): real {
    Sum(|b.adjustments|, (j: nat) => AdjustmentTerm(b, j))
  }

  function CostOfSales(b: Books): real {
    StockCost(b) + GoneTotal(b, FrozenCost) + AdjustmentCost(b)
  }

  function AllPeriodsProfit(b: Books): Profit {
    if GoneTotal(b, UnknownCostUnits) != 0.0 then Unknown
    else
      var revenue := Total(b, Everything, AllTime, Revenue);
      Known(revenue - CostOfSales(b), Margin(revenue - CostOfSales(b), revenue))
  }

  // ----- Ranking rows -----

  predicate HasRow(b: Books, period: Period, p: nat) {
    exists i: nat | i < |b.sales| :: Selected(b, OfProduct(p), period, i)
  }

  /** Order of two strings, character by character, a proper prefix first. */
  predicate StringLess(a: string, c: string) {
    if |c| == 0 then false
    else if |a| == 0 then true
    else if a[0] != c[0] then a[0] < c[0]
    else StringLess(a[1..], c[1..])
  }

  function LargerName(x: Option<string>, y: Option<string>): Option<string> {
    if x.None? then y else if y.None? then x
    else if StringLess(x.value, y.value) then y else x
  }

  /** The largest frozen name among the first n sales of the group; absent names do not count. */
  function LastKnownName(b: Books, period: Period, p: nat, n: nat): Option<string> {
    if n == 0 then None
    else if Selected(b, OfProduct(p), period, n - 1)
    then LargerName(LastKnownName(b, period, p, n - 1), b.sales[n - 1].value.lastKnownName)
    else LastKnownName(b, period, p, n - 1)
  }

  function LaterRecorded(x: Option<(int, string)>, at: int, name: string): (int, string) {
    if x.Some? && (at < x.value.0 || (at == x.value.0 && StringLess(name, x.value.1)))
    then x.value else (at, name)
  }

  /** The name recorded by the most recently created sale of the group that recorded one. */
  function LatestRecorded(b: Books, period: Period, p: nat, n: nat): Option<(int, string)> {
    if n == 0 then None
    else
      var before := LatestRecorded(b, period, p, n - 1);
      if Selected(b, OfProduct(p), period, n - 1) && b.sales[n - 1].value.recordedName.Some?
      then Some(LaterRecorded(before, b.sales[n - 1].value.createdAt, b.sales[n - 1].value.recordedName.value))
      else before
  }

  function RowName(b: Books, period: Period, p: nat): Option<string> {
    if HasProduct(b, p) then Some(b.products[p].value.name)
    else
      var frozen := LastKnownName(b, period, p, |b.sales|);
      if frozen.Some? then frozen
      else
        var recorded := LatestRecorded(b, period, p, |b.sales|);
        if recorded.Some? then Some(recorded.value.1) else None
  }

  /** An unknown cost makes the gain unknown, never computed with a cost of zero. */
  function Gain(b: Books, period: Period, p: nat): Option<real> {
    var revenue := Total(b, OfProduct(p), period, Revenue);
    if HasProduct(b, p)
    then Some(revenue - Amount(b.products[p].value.purchasePrice, Total(b, OfProduct(p), period, Units)))
    else if Total(b, OfProduct(p), period, UnknownCostUnits) > 0.0 then None
    else Some(revenue - Total(b, OfProduct(p), period, FrozenCost))
  }

  datatype Row = Row(
    name: Option<string>, deleted: bool, remaining: Option<real>,
    units: real, revenue: real, transactions: real, gain: Option<real>)

  function RankingRow(b: Books, period: Period, p: nat): Option<Row> {
    if !HasRow(b, period, p) then None
    else Some(Row(
      RowName(b, period, p), !HasProduct(b, p),
      if HasProduct(b, p) then Some(b.products[p].value.remainingQuantity) else None,
      Total(b, OfProduct(p), period, Units),
      Total(b, OfProduct(p), period, Revenue),
      Total(b, OfProduct(p), period, Transactions),
      Gain(b, period, p)))
  }

  predicate UnknownRow(b: Books, period: Period, p: nat) {
    HasRow(b, period, p) && Gain(b, period, p).None?
  }

  function GainTerm(b: Books, period: Period, p: nat): real {
    var row := RankingRow(b, period, p);
    if row.Some? && row.value.gain.Some? then row.value.gain.value else 0.0
  }

  function RowGains(b: Books, period: Period): real {
    Sum(|b.products|, (p: nat) => GainTerm(b, period, p))
  }

  /** The monthly view: unknown as soon as one row of the month is. */
  function PeriodProfit(b: Books, period: Period): Profit {
    if exists p: nat | p < |b.products| :: UnknownRow(b, period, p) then Unknown
    else Known(RowGains(b, period), Margin(RowGains(b, period), Total(b, Everything, period, Revenue)))
  }

  // ----- Unknown costs -----

  /** A sale without a known cost, of a product that is gone. */
  ghost predicate LostCost(b: Books, period: Period, p: nat, i: nat) {
    Selected(b, OfProduct(p), period, i) && !HasProduct(b, p) && b.sales[i].value.lastKnownUnitCost.None?
  }

  lemma UnknownUnitsMeanLostCost(b: Books, period: Period, p: nat)
    requires WellFormed(b) && !HasProduct(b, p)
    ensures Total(b, OfProduct(p), period, UnknownCostUnits) >= 0.0
    ensures Total(b, OfProduct(p), period, UnknownCostUnits) > 0.0 <==> exists i: nat :: LostCost(b, period, p, i)
  {
    PositiveTotal(b, OfProduct(p), period, UnknownCostUnits);
    if i: nat :| LostCost(b, period, p, i) {
      assert Term(b, OfProduct(p), period, UnknownCostUnits, i) > 0.0;
    }
    if i: nat :| i < |b.sales| && Term(b, OfProduct(p), period, UnknownCostUnits, i) > 0.0 {
      assert LostCost(b, period, p, i);
    }
  }

  lemma AllPeriodsUnknown(b: Books)
    requires WellFormed(b)
    ensures AllPeriodsProfit(b).Unknown? <==>
            exists p: nat, i: nat :: p < |b.products| && LostCost(b, AllTime, p, i)
  {
    var f := (p: nat) => GoneTerm(b, UnknownCostUnits, p);
    forall p: nat | p < |b.products|
      ensures f(p) >= 0.0
      ensures f(p) > 0.0 <==> exists i: nat :: LostCost(b, AllTime, p, i)
    {
      if !HasProduct(b, p) { UnknownUnitsMeanLostCost(b, AllTime, p); }
    }
    SumVanishes(|b.products|, f);
    if AllPeriodsProfit(b).Unknown? {
      var p: nat :| p < |b.products| && f(p) != 0.0;
      var i: nat :| LostCost(b, AllTime, p, i);
    }
    if p: nat, i: nat :| p < |b.products| && LostCost(b, AllTime, p, i) {
      assert f(p) > 0.0;
    }
  }

  lemma RowUnknown(b: Books, period: Period, p: nat)
    requires WellFormed(b)
    ensures UnknownRow(b, period, p) <==> exists i: nat :: LostCost(b, period, p, i)
  {
    if !HasProduct(b, p) { UnknownUnitsMeanLostCost(b, period, p); }
    if i: nat :| LostCost(b, period, p, i) {
      assert i < |b.sales|;
    }
  }

  /** The all-period profit is unknown exactly when some month's is. */
  lemma UnknownTogether(b: Books, starts: seq<int>)
    requires WellFormed(b) && Calendar(starts) && Covered(b, starts)
    ensures AllPeriodsProfit(b).Unknown? <==>
            exists k: nat :: k < Months(starts) && PeriodProfit(b, Month(starts, k)).Unknown?
  {
    AllPeriodsUnknown(b);
    if AllPeriodsProfit(b).Unknown? {
      var p: nat, i: nat :| p < |b.products| && LostCost(b, AllTime, p, i);
      var k := MonthOf(starts, EffectiveDate(b.sales[i].value));
      ExactlyOneMonth(b.sales[i].value, starts, k);
      assert LostCost(b, Month(starts, k), p, i);
      RowUnknown(b, Month(starts, k), p);
      assert UnknownRow(b, Month(starts, k), p);
      assert PeriodProfit(b, Month(starts, k)).Unknown?;
    }
    if k: nat :| k < Months(starts) && PeriodProfit(b, Month(starts, k)).Unknown? {
      var p: nat :| p < |b.products| && UnknownRow(b, Month(starts, k), p);
      RowUnknown(b, Month(starts, k), p);
      var i: nat :| LostCost(b, Month(starts, k), p, i);
      assert LostCost(b, AllTime, p, i);
    }
  }

  // ----- The two views agree -----

  /** A known gain is the revenue of the row less the book cost of its sales; no row, no gain. */
  lemma GainIsRevenueLessBookCost(b: Books, period: Period, p: nat)
    requires !UnknownRow(b, period, p)
    ensures GainTerm(b, period, p)
         == Total(b, OfProduct(p), period, Revenue) - Total(b, OfProduct(p), period, BookCost)
  {
    var n := |b.sales|;
    if !HasRow(b, period, p) {
      SumZero(n, (i: nat) => Term(b, OfProduct(p), period, Revenue, i));
      SumZero(n, (i: nat) => Term(b, OfProduct(p), period, BookCost, i));
    } else if HasProduct(b, p) {
      SumScale(n, b.products[p].value.purchasePrice,
        (i: nat) => Term(b, OfProduct(p), period, Units, i),
        (i: nat) => Term(b, OfProduct(p), period, BookCost, i));
    } else {
      SumEq(n, (i: nat) => Term(b, OfProduct(p), period, FrozenCost, i),
        (i: nat) => Term(b, OfProduct(p), period, BookCost, i));
    }
  }

  /** Rows added up: the revenue of the period less the book cost of its sales. */
  lemma RowGainsTotal(b: Books, period: Period)
    requires WellFormed(b) && PeriodProfit(b, period).Known?
    ensures RowGains(b, period) == Total(b, Everything, period, Revenue) - Total(b, Everything, period, BookCost)
  {
    forall p: nat | p < |b.products|
      ensures Total(b, OfProduct(p), period, Revenue)
           == GainTerm(b, period, p) + Total(b, OfProduct(p), period, BookCost)
    {
      GainIsRevenueLessBookCost(b, period, p);
    }
    SumAdd(|b.products|,
      (p: nat) => GainTerm(b, period, p),
      (p: nat) => Total(b, OfProduct(p), period, BookCost),
      (p: nat) => Total(b, OfProduct(p), period, Revenue));
    GroupByProduct(b, period, Revenue);
    GroupByProduct(b, period, BookCost);
  }

  function MonthGain(b: Books, starts: seq<int>, k: nat): real {
    RowGains(b, Month(starts, k))
  }

  function MonthlyGains(b: Books, starts: seq<int>): real {
    Sum(Months(starts), (k: nat) => MonthGain(b, starts, k))
  }

  function DriftTerm(b: Books, p: nat): real {
    if HasProduct(b, p) then Amount(b.products[p].value.purchasePrice, Drift(b, p)) else 0.0
  }

  /** The cost of the stock that left without a sale, at current prices. */
  function DriftCost(b: Books): real {
    Sum(|b.products|, (p: nat) => DriftTerm(b, p))
  }

  /** Stock cost and frozen cost together: the book cost of all sales, plus the drift. */
  lemma CostSplits(b: Books)
    requires WellFormed(b)
    ensures StockCost(b) + GoneTotal(b, FrozenCost) == Total(b, Everything, AllTime, BookCost) + DriftCost(b)
  {
    var n := |b.products|;
    var book := (p: nat) => Total(b, OfProduct(p), AllTime, BookCost);
    var drift := (p: nat) => DriftTerm(b, p);
    var stock := (p: nat) => StockTerm(b, p);
    var gone := (p: nat) => GoneTerm(b, FrozenCost, p);
    var both := (p: nat) => StockTerm(b, p) + GoneTerm(b, FrozenCost, p);
    forall p: nat | p < n ensures both(p) == book(p) + drift(p) {
      if HasProduct(b, p) {
        var price := b.products[p].value.purchasePrice;
        SumScale(|b.sales|, price,
          (i: nat) => Term(b, OfProduct(p), AllTime, Units, i),
          (i: nat) => Term(b, OfProduct(p), AllTime, BookCost, i));
        AmountAdd(price, Sold(b, p), Drift(b, p));
      } else {
        SumEq(|b.sales|, (i: nat) => Term(b, OfProduct(p), AllTime, FrozenCost, i),
          (i: nat) => Term(b, OfProduct(p), AllTime, BookCost, i));
      }
    }
    SumAdd(n, stock, gone, both);
    SumAdd(n, book, drift, both);
    GroupByProduct(b, AllTime, BookCost);
  }

  /**
   * The stock-based view against the sale-based one, for any books and any calendar that covers the
   * sales: unknown together; when known, they differ by the drift and the frozen adjustments only.
   */
  lemma TwoViews(b: Books, starts: seq<int>)
    requires WellFormed(b) && Calendar(starts) && Covered(b, starts)
    ensures AllPeriodsProfit(b).Unknown? <==>
            exists k: nat :: k < Months(starts) && PeriodProfit(b, Month(starts, k)).Unknown?
    ensures AllPeriodsProfit(b).Known? ==>
            AllPeriodsProfit(b).net == MonthlyGains(b, starts) - DriftCost(b) - AdjustmentCost(b)
  {
    UnknownTogether(b, starts);
    if AllPeriodsProfit(b).Known? {
      var n := Months(starts);
      forall k: nat | k < n
        ensures Total(b, Everything, Month(starts, k), Revenue)
             == MonthGain(b, starts, k) + Total(b, Everything, Month(starts, k), BookCost)
      {
        assert PeriodProfit(b, Month(starts, k)).Known?;
        RowGainsTotal(b, Month(starts, k));
      }
      SumAdd(n, (k: nat) => MonthGain(b, starts, k),
        (k: nat) => Total(b, Everything, Month(starts, k), BookCost),
        (k: nat) => Total(b, Everything, Month(starts, k), Revenue));
      SplitByMonth(b, starts, Everything, Revenue);
      SplitByMonth(b, starts, Everything, BookCost);
      CostSplits(b);
    }
  }

  lemma BalancedHasNoDrift(b: Books)
    requires Balanced(b)
    ensures DriftCost(b) == 0.0
  {
    SumZero(|b.products|, (p: nat) => DriftTerm(b, p));
  }

  lemma EmptyIsSound()
    ensures Sound(EMPTY_BOOKS) && CostsKnown(EMPTY_BOOKS)
  {}

  /**
   * Every run from empty books: no profit is ever unknown, and the profit computed from the stock is
   * the sum of the monthly gains computed from the sales.
   */
  lemma RunKeepsViewsEqual(actions: seq<Action>, starts: seq<int>)
    requires Calendar(starts) && Covered(Run(EMPTY_BOOKS, actions), starts)
    ensures AllPeriodsProfit(Run(EMPTY_BOOKS, actions)).Known?
    ensures forall k: nat :: k < Months(starts) ==> PeriodProfit(Run(EMPTY_BOOKS, actions), Month(starts, k)).Known?
    ensures AllPeriodsProfit(Run(EMPTY_BOOKS, actions)).net == MonthlyGains(Run(EMPTY_BOOKS, actions), starts)
    ensures Run(EMPTY_BOOKS, actions).adjustments == []
  {
    var b := Run(EMPTY_BOOKS, actions);
    EmptyIsSound();
    StockConservation(EMPTY_BOOKS, actions);
    AllPeriodsUnknown(b);
    TwoViews(b, starts);
    BalancedHasNoDrift(b);
  }

  // ----- What the rows say -----

  /** The rows of a period hold all its units, all its revenue and all its sales, each in one row. */
  lemma RowsAddUp(b: Books, period: Period)
    requires WellFormed(b)
    ensures Sum(|b.products|, (p: nat) => RowFigure(b, period, p, Units)) == Total(b, Everything, period, Units)
    ensures Sum(|b.products|, (p: nat) => RowFigure(b, period, p, Revenue)) == Total(b, Everything, period, Revenue)
    ensures Sum(|b.products|, (p: nat) => RowFigure(b, period, p, Transactions)) == Chosen(b, period, |b.sales|) as real
  {
    RowFiguresAddUp(b, period, Units);
    RowFiguresAddUp(b, period, Revenue);
    RowFiguresAddUp(b, period, Transactions);
    ChosenIsTotal(b, period, |b.sales|);
  }

  function RowFigure(b: Books, period: Period, p: nat, m: Measure): real {
    var row := RankingRow(b, period, p);
    if row.None? then 0.0
    else match m
         case Units => row.value.units
         case Revenue => row.value.revenue
         case Transactions => row.value.transactions
         case _ => 0.0
  }

  /** The date the sale says it happened, or else that of its creation, is in the period. */
  predicate DatedIn(s: Sale, period: Period) {
    match period
    case AllTime => true
    case Between(start, end) =>
      var date := if s.occurredAt.Some? then s.occurredAt.value else s.createdAt;
      start <= date && date < end
  }

  /** The number of sales of the period, among the first n. */
  function Chosen(b: Books, period: Period, n: nat): nat {
    if n == 0 then 0
    else Chosen(b, period, n - 1)
         + if n - 1 < |b.sales| && b.sales[n - 1].Some? && DatedIn(b.sales[n - 1].value, period) then 1 else 0
  }

  lemma {:induction false} ChosenIsTotal(b: Books, period: Period, n: nat)
    ensures Sum(n, (i: nat) => Term(b, Everything, period, Transactions, i)) == Chosen(b, period, n) as real
  {
    if n > 0 { ChosenIsTotal(b, period, n - 1); }
  }

  lemma RowFiguresAddUp(b: Books, period: Period, m: Measure)
    requires WellFormed(b) && m in {Units, Revenue, Transactions}
    ensures Sum(|b.products|, (p: nat) => RowFigure(b, period, p, m)) == Total(b, Everything, period, m)
  {
    forall p: nat | p < |b.products| ensures RowFigure(b, period, p, m) == Total(b, OfProduct(p), period, m) {
      if !HasRow(b, period, p) { SumZero(|b.sales|, (i: nat) => Term(b, OfProduct(p), period, m, i)); }
      hide RowName, Gain, Term;
    }
    SumEq(|b.products|, (p: nat) => RowFigure(b, period, p, m), (p: nat) => Total(b, OfProduct(p), period, m));
    GroupByProduct(b, period, m);
  }

  /**
   * One row: there is one exactly when the period has a sale of the product; it is marked deleted, and
   * has no stock, exactly when the product is gone; its gain is unknown exactly when the product is gone
   * and one of these sales has lost its cost, and otherwise is its revenue less the cost of each sale.
   */
  lemma RowMeaning(b: Books, period: Period, p: nat)
    requires WellFormed(b)
    ensures RankingRow(b, period, p).Some? <==>
            exists i: nat :: i < |b.sales| && b.sales[i].Some? && b.sales[i].value.productId == p && DatedIn(b.sales[i].value, period)
    ensures RankingRow(b, period, p).Some? ==>
              var row := RankingRow(b, period, p).value;
              && row.deleted == !HasProduct(b, p)
              && row.remaining == (if HasProduct(b, p) then Some(b.products[p].value.remainingQuantity) else None)
              && row.units == Total(b, OfProduct(p), period, Units)
              && row.revenue == Total(b, OfProduct(p), period, Revenue)
              && row.transactions == Total(b, OfProduct(p), period, Transactions)
              && (row.gain.None? <==> exists i: nat :: LostCost(b, period, p, i))
              && (row.gain.Some? ==> row.gain.value == row.revenue - Total(b, OfProduct(p), period, BookCost))
  {
    assert forall i: nat :: Selected(b, OfProduct(p), period, i) <==>
      i < |b.sales| && b.sales[i].Some? && b.sales[i].value.productId == p && DatedIn(b.sales[i].value, period);
    if HasRow(b, period, p) {
      RowUnknown(b, period, p);
      if Gain(b, period, p).Some? { GainIsRevenueLessBookCost(b, period, p); }
    }
    hide RowName, Gain, Term;
  }

  /** The margin is the net share of the revenue, in per cent, and nothing without a revenue. */
  lemma MarginMeaning(net: real, revenue: real)
    ensures revenue > 0.0 ==> Margin(net, revenue) * revenue == net * 100.0
    ensures revenue <= 0.0 ==> Margin(net, revenue) == 0.0
  {
    if revenue > 0.0 {
      var share := net / revenue;
      assert share * revenue == net;
    }
  }

  /** Both views give the margin of their own net profit over the revenue of their period. */
  lemma MarginsOfTheViews(b: Books, period: Period)
    ensures var profit := AllPeriodsProfit(b); var revenue := Total(b, Everything, AllTime, Revenue);
            profit.Known? ==>
              && profit.net == revenue - StockCost(b) - GoneTotal(b, FrozenCost) - AdjustmentCost(b)
              && (if revenue > 0.0 then profit.margin * revenue == profit.net * 100.0 else profit.margin == 0.0)
    ensures var profit := PeriodProfit(b, period); var revenue := Total(b, Everything, period, Revenue);
            profit.Known? ==>
              if revenue > 0.0 then profit.margin * revenue == profit.net * 100.0 else profit.margin == 0.0
  {
    if AllPeriodsProfit(b).Known? { MarginMeaning(AllPeriodsProfit(b).net, Total(b, Everything, AllTime, Revenue)); }
    if PeriodProfit(b, period).Known? { MarginMeaning(PeriodProfit(b, period).net, Total(b, Everything, period, Revenue)); }
    hide Margin, StockCost, GoneTotal, AdjustmentCost, Total;
  }

  // ----- The name of a row -----

  lemma {:induction false} StringLessTransitive(a: string, c: string, d: string)
    requires StringLess(a, c) && StringLess(c, d)
    ensures StringLess(a, d)
  {
    if |a| > 0 && a[0] == c[0] == d[0] { StringLessTransitive(a[1..], c[1..], d[1..]); }
  }

  lemma {:induction false} StringLessTotal(a: string, c: string)
    ensures StringLess(a, c) || StringLess(c, a) || a == c
    ensures !StringLess(a, a)
  {
    if |a| > 0 && |c| > 0 && a[0] == c[0] {
      StringLessTotal(a[1..], c[1..]);
      assert a == [a[0]] + a[1..] && c == [c[0]] + c[1..];
    }
    if |a| > 0 { StringLessTotal(a[1..], a[1..]); }
  }

  /** Dictionary order: equal up to some place, where the first ends or has the smaller character. */
  ghost predicate FirstDifference(a: string, c: string, k: nat) {
    k < |c| && k <= |a| && a[..k] == c[..k] && (k < |a| ==> a[k] < c[k])
  }

  lemma {:induction false} StringLessMeaning(a: string, c: string)
    ensures StringLess(a, c) <==> exists k: nat :: FirstDifference(a, c, k)
  {
    if |c| > 0 && (|a| == 0 || a[0] < c[0]) {
      assert FirstDifference(a, c, 0);
    } else if |c| > 0 && a[0] == c[0] {
      StringLessMeaning(a[1..], c[1..]);
      if k: nat :| FirstDifference(a, c, k) {
        assert a[1..][..k - 1] == a[..k][1..] && c[1..][..k - 1] == c[..k][1..];
        assert FirstDifference(a[1..], c[1..], k - 1);
      }
      if k: nat :| FirstDifference(a[1..], c[1..], k) {
        assert a[..k + 1] == [a[0]] + a[1..][..k] && c[..k + 1] == [c[0]] + c[1..][..k];
        assert FirstDifference(a, c, k + 1);
      }
    } else if |c| > 0 {
      forall k: nat ensures !FirstDifference(a, c, k) {
        if k > 0 && k <= |a| && k < |c| { assert a[..k][0] != c[..k][0]; }
      }
    }
  }

  /** This sale of the group carries this frozen name. */
  ghost predicate FrozenAs(b: Books, period: Period, p: nat, i: nat, name: string) {
    Selected(b, OfProduct(p), period, i) && b.sales[i].value.lastKnownName == Some(name)
  }

  /** This sale of the group was created at this instant and recorded this name. */
  ghost predicate RecordedAs(b: Books, period: Period, p: nat, i: nat, at: int, name: string) {
    Selected(b, OfProduct(p), period, i) && b.sales[i].value.createdAt == at && b.sales[i].value.recordedName == Some(name)
  }

  /** No other frozen name of the group comes after this one. */
  ghost predicate LargestFrozen(b: Books, period: Period, p: nat, n: nat, name: string) {
    && (exists i: nat :: i < n && FrozenAs(b, period, p, i, name))
    && forall i: nat, other: string :: i < n && FrozenAs(b, period, p, i, other) ==> !StringLess(name, other)
  }

  /** No sale of the group that recorded a name is later; at the same instant no name comes after. */
  ghost predicate Latest(b: Books, period: Period, p: nat, n: nat, at: int, name: string) {
    && (exists i: nat :: i < n && RecordedAs(b, period, p, i, at, name))
    && forall i: nat, when: int, other: string :: i < n && RecordedAs(b, period, p, i, when, other) ==>
         when < at || (when == at && !StringLess(name, other))
  }

  lemma {:induction false} LastKnownIsLargest(b: Books, period: Period, p: nat, n: nat)
    ensures var r := LastKnownName(b, period, p, n);
            && (r.None? ==> forall i: nat, name: string :: i < n ==> !FrozenAs(b, period, p, i, name))
            && (r.Some? ==> LargestFrozen(b, period, p, n, r.value))
  {
    if n > 0 {
      LastKnownIsLargest(b, period, p, n - 1);
      var x, r := LastKnownName(b, period, p, n - 1), LastKnownName(b, period, p, n);
      hide StringLess, Selected;
      if Selected(b, OfProduct(p), period, n - 1) && b.sales[n - 1].value.lastKnownName.Some? {
        var y := b.sales[n - 1].value.lastKnownName.value;
        assert FrozenAs(b, period, p, n - 1, y);
        StringLessTotal(y, y);
        if x.Some? && StringLess(x.value, y) {
          forall i: nat, other: string | i < n - 1 && FrozenAs(b, period, p, i, other) ensures !StringLess(y, other) {
            if StringLess(y, other) { StringLessTransitive(x.value, y, other); }
          }
        }
      }
    }
  }

  lemma {:induction false} LatestRecordedIsLatest(b: Books, period: Period, p: nat, n: nat)
    ensures var r := LatestRecorded(b, period, p, n);
            && (r.None? ==> forall i: nat, at: int, name: string :: i < n ==> !RecordedAs(b, period, p, i, at, name))
            && (r.Some? ==> Latest(b, period, p, n, r.value.0, r.value.1))
  {
    if n > 0 {
      LatestRecordedIsLatest(b, period, p, n - 1);
      var x := LatestRecorded(b, period, p, n - 1);
      hide StringLess, Selected;
      if Selected(b, OfProduct(p), period, n - 1) && b.sales[n - 1].value.recordedName.Some? {
        var at, y := b.sales[n - 1].value.createdAt, b.sales[n - 1].value.recordedName.value;
        assert RecordedAs(b, period, p, n - 1, at, y);
        StringLessTotal(y, y);
        if x.Some? {
          StringLessTotal(x.value.1, y);
          if x.value.0 == at && StringLess(y, x.value.1) { AsymmetricNames(y, x.value.1); }
          forall i: nat, other: string | i < n - 1 && x.value.0 == at && RecordedAs(b, period, p, i, at, other)
            ensures StringLess(x.value.1, y) ==> !StringLess(y, other)
          {
            if StringLess(x.value.1, y) && StringLess(y, other) { StringLessTransitive(x.value.1, y, other); }
          }
        }
      }
    }
  }

  lemma AsymmetricNames(a: string, c: string)
    requires StringLess(a, c)
    ensures !StringLess(c, a)
  {
    if StringLess(c, a) {
      StringLessTransitive(a, c, a);
      StringLessTotal(a, a);
    }
  }

  /**
   * A row is named after its product while that exists; then by the largest name its sales froze; else
   * by the name the most recently created of its sales recorded; and not at all when none did.
   */
  lemma RowNameMeaning(b: Books, period: Period, p: nat)
    requires RankingRow(b, period, p).Some?
    ensures var name := RankingRow(b, period, p).value.name; var n := |b.sales|;
            if HasProduct(b, p) then name == Some(b.products[p].value.name)
            else if exists i: nat, frozen: string :: i < n && FrozenAs(b, period, p, i, frozen)
            then name.Some? && LargestFrozen(b, period, p, n, name.value)
            else if exists i: nat, at: int, recorded: string :: i < n && RecordedAs(b, period, p, i, at, recorded)
            then name.Some? && exists at: int :: Latest(b, period, p, n, at, name.value)
            else name.None?
  {
    LastKnownIsLargest(b, period, p, |b.sales|);
    LatestRecordedIsLatest(b, period, p, |b.sales|);
    hide FrozenAs, RecordedAs, StringLess, Selected, LastKnownName, LatestRecorded;
  }

  // ----- Permanent delete -----

  lemma PurgeKeepsTerms(b: Books, p: nat, scope: Scope, period: Period, m: Measure)
    requires HasProduct(b, p) && FrozenOnlyIfGone(b)
    requires m in {Units, Revenue, Transactions, BookCost}
    ensures Total(Purged(b, p).books, scope, period, m) == Total(b, scope, period, m)
  {
    var c := Purged(b, p).books;
    forall i: nat | i < |b.sales| ensures Term(b, scope, period, m, i) == Term(c, scope, period, m, i) {
      if IsSale(b, i) {
        assert b.sales[i].value.productId != p ==>
          HasProduct(c, b.sales[i].value.productId) == HasProduct(b, b.sales[i].value.productId);
      }
    }
    TotalEq(b, c, scope, period, m);
  }

  lemma PurgeKeepsOtherGone(b: Books, p: nat, q: nat, period: Period, m: Measure)
    requires HasProduct(b, p) && q != p
    requires m in {FrozenCost, UnknownCostUnits}
    ensures Total(Purged(b, p).books, OfProduct(q), period, m) == Total(b, OfProduct(q), period, m)
  {
    TotalEq(b, Purged(b, p).books, OfProduct(q), period, m);
  }

  /** The sales of the purged product carry its purchase price from now on. */
  lemma PurgeFreezesCost(b: Books, p: nat, period: Period)
    requires HasProduct(b, p) && FrozenOnlyIfGone(b)
    ensures Total(Purged(b, p).books, OfProduct(p), period, UnknownCostUnits) == 0.0
    ensures Total(Purged(b, p).books, OfProduct(p), period, FrozenCost)
         == Amount(b.products[p].value.purchasePrice, Total(b, OfProduct(p), period, Units))
  {
    hide Amount;
    var c := Purged(b, p).books;
    var n := |b.sales|;
    var price := b.products[p].value.purchasePrice;
    var unknown := (i: nat) => Term(c, OfProduct(p), period, UnknownCostUnits, i);
    var units := (i: nat) => Term(b, OfProduct(p), period, Units, i);
    var frozen := (i: nat) => Term(c, OfProduct(p), period, FrozenCost, i);
    forall i: nat | i < n ensures unknown(i) == 0.0 && frozen(i) == Amount(price, units(i)) {
      PurgeFreezesTerm(b, p, period, i);
    }
    SumZero(n, unknown);
    SumScale(n, price, units, frozen);
  }

  lemma PurgeFreezesTerm(b: Books, p: nat, period: Period, i: nat)
    requires HasProduct(b, p) && FrozenOnlyIfGone(b) && i < |b.sales|
    ensures Term(Purged(b, p).books, OfProduct(p), period, UnknownCostUnits, i) == 0.0
    ensures Term(Purged(b, p).books, OfProduct(p), period, FrozenCost, i)
         == Amount(b.products[p].value.purchasePrice, Term(b, OfProduct(p), period, Units, i))
  {
    if Selected(b, OfProduct(p), period, i) {
      assert b.sales[i].value.lastKnownSource.None?;
    }
  }

  lemma AppendAdjustment(b: Books, c: Books)
    requires |c.adjustments| == |b.adjustments| + 1 && c.adjustments[..|b.adjustments|] == b.adjustments
    ensures AdjustmentCost(c) == AdjustmentCost(b) + AdjustmentTerm(c, |b.adjustments|)
  {
    forall j: nat | j < |b.adjustments| ensures AdjustmentTerm(b, j) == AdjustmentTerm(c, j) {
      assert c.adjustments[..|b.adjustments|][j] == b.adjustments[j];
    }
    SumEq(|b.adjustments|, (j: nat) => AdjustmentTerm(b, j), (j: nat) => AdjustmentTerm(c, j));
  }

  lemma PurgeMovesStock(b: Books, p: nat)
    requires HasProduct(b, p)
    ensures StockCost(Purged(b, p).books) == StockCost(b) - StockTerm(b, p)
  {
    hide Amount;
    var c := Purged(b, p).books;
    SumPoint(|b.products|, p, (q: nat) => StockTerm(b, q), (q: nat) => StockTerm(c, q));
  }

  lemma PurgeMovesGone(b: Books, p: nat, m: Measure)
    requires HasProduct(b, p) && m in {FrozenCost, UnknownCostUnits}
    ensures GoneTotal(Purged(b, p).books, m)
         == GoneTotal(b, m) + Total(Purged(b, p).books, OfProduct(p), AllTime, m)
  {
    hide Amount;
    var c := Purged(b, p).books;
    forall q: nat | q < |b.products| && q != p ensures GoneTerm(c, m, q) == GoneTerm(b, m, q) {
      PurgeKeepsOtherGone(b, p, q, AllTime, m);
    }
    SumPoint(|b.products|, p, (q: nat) => GoneTerm(b, m, q), (q: nat) => GoneTerm(c, m, q));
  }

  /** The cost carried by the stock moves to the sales and to the frozen drift, to the cent. */
  lemma PurgeMovesCost(b: Books, p: nat)
    requires HasProduct(b, p) && FrozenOnlyIfGone(b)
    ensures CostOfSales(Purged(b, p).books) == CostOfSales(b)
    ensures GoneTotal(Purged(b, p).books, UnknownCostUnits) == GoneTotal(b, UnknownCostUnits)
  {
    hide Amount;
    PurgeMovesStock(b, p);
    PurgeMovesGone(b, p, FrozenCost);
    PurgeMovesGone(b, p, UnknownCostUnits);
    PurgeFreezesCost(b, p, AllTime);
    PurgeFreezesDrift(b, p);
    AmountAdd(b.products[p].value.purchasePrice, Sold(b, p), Drift(b, p));
  }

  lemma PurgeFreezesDrift(b: Books, p: nat)
    requires HasProduct(b, p)
    ensures AdjustmentCost(Purged(b, p).books)
         == AdjustmentCost(b) + Amount(b.products[p].value.purchasePrice, Drift(b, p))
  {
    var c := Purged(b, p).books;
    if Drift(b, p) == 0.0 {
      SumEq(|b.adjustments|, (j: nat) => AdjustmentTerm(b, j), (j: nat) => AdjustmentTerm(c, j));
    } else {
      AppendAdjustment(b, c);
    }
  }

  /**
   * A permanent delete leaves the all-period view exactly as it was (profit, margin, unknown or not),
   * even for a product whose stock and sales had drifted apart.
   */
  lemma PurgeKeepsAllPeriodsProfit(b: Books, p: nat)
    requires HasProduct(b, p) && FrozenOnlyIfGone(b)
    ensures AllPeriodsProfit(Purged(b, p).books) == AllPeriodsProfit(b)
  {
    PurgeMovesCost(b, p);
    PurgeKeepsTerms(b, p, Everything, AllTime, Revenue);
  }

  lemma {:induction false} FrozenNameOfPurged(b: Books, p: nat, period: Period, n: nat)
    requires HasProduct(b, p) && FrozenOnlyIfGone(b) && n <= |b.sales|
    ensures (exists i: nat :: i < n && Selected(b, OfProduct(p), period, i)) ==>
            LastKnownName(Purged(b, p).books, period, p, n) == Some(b.products[p].value.name)
    ensures !(exists i: nat :: i < n && Selected(b, OfProduct(p), period, i)) ==>
            LastKnownName(Purged(b, p).books, period, p, n) == None
  {
    if n > 0 {
      FrozenNameOfPurged(b, p, period, n - 1);
      var c := Purged(b, p).books;
      assert Selected(c, OfProduct(p), period, n - 1) == Selected(b, OfProduct(p), period, n - 1);
      if Selected(b, OfProduct(p), period, n - 1) {
        assert b.sales[n - 1].value.lastKnownSource.None?;
        StringLessTotal(b.products[p].value.name, b.products[p].value.name);
        hide StringLess;
      }
    }
  }

  lemma {:induction false} NamesOfOthers(b: Books, p: nat, q: nat, period: Period, n: nat)
    requires HasProduct(b, p) && p != q && n <= |b.sales|
    ensures LastKnownName(Purged(b, p).books, period, q, n) == LastKnownName(b, period, q, n)
    ensures LatestRecorded(Purged(b, p).books, period, q, n) == LatestRecorded(b, period, q, n)
  {
    hide StringLess;
    if n > 0 {
      NamesOfOthers(b, p, q, period, n - 1);
      assert Selected(Purged(b, p).books, OfProduct(q), period, n - 1) == Selected(b, OfProduct(q), period, n - 1);
    }
  }

  lemma PurgeKeepsGain(b: Books, p: nat, q: nat, period: Period)
    requires HasProduct(b, p) && FrozenOnlyIfGone(b)
    ensures Gain(Purged(b, p).books, period, q) == Gain(b, period, q)
  {
    var c := Purged(b, p).books;
    PurgeKeepsTerms(b, p, OfProduct(q), period, Units);
    PurgeKeepsTerms(b, p, OfProduct(q), period, Revenue);
    if q == p {
      PurgeFreezesCost(b, p, period);
    } else if HasProduct(b, q) {
      assert HasProduct(c, q) && c.products[q].value.purchasePrice == b.products[q].value.purchasePrice;
    } else {
      PurgeKeepsOtherGone(b, p, q, period, FrozenCost);
      PurgeKeepsOtherGone(b, p, q, period, UnknownCostUnits);
    }
  }

  lemma PurgeKeepsName(b: Books, p: nat, q: nat, period: Period)
    requires HasProduct(b, p) && FrozenOnlyIfGone(b) && HasRow(b, period, q)
    ensures RowName(Purged(b, p).books, period, q) == RowName(b, period, q)
  {
    if q == p {
      FrozenNameOfPurged(b, p, period, |b.sales|);
    } else {
      NamesOfOthers(b, p, q, period, |b.sales|);
    }
  }

  /**
   * For every period filter and every product, a permanent delete keeps the ranking row: same name,
   * units, revenue, number of sales and gain; only the deleted mark and the stock of p's row change.
   */
  lemma PurgeKeepsRows(b: Books, p: nat, q: nat, period: Period)
    requires HasProduct(b, p) && FrozenOnlyIfGone(b)
    ensures var before := RankingRow(b, period, q); var after := RankingRow(Purged(b, p).books, period, q);
            && before.Some? == after.Some?
            && (before.Some? && q != p ==> after == before)
            && (before.Some? && q == p ==> after.value == before.value.(deleted := true, remaining := None))
  {
    var c := Purged(b, p).books;
    forall i: nat | i < |b.sales|
      ensures Selected(c, OfProduct(q), period, i) == Selected(b, OfProduct(q), period, i)
    {}
    assert HasRow(c, period, q) == HasRow(b, period, q);
    PurgeKeepsTerms(b, p, OfProduct(q), period, Units);
    PurgeKeepsTerms(b, p, OfProduct(q), period, Revenue);
    PurgeKeepsTerms(b, p, OfProduct(q), period, Transactions);
    PurgeKeepsGain(b, p, q, period);
    if HasRow(b, period, q) { PurgeKeepsName(b, p, q, period); }
  }

  /** The purge rests on the mark: with a sale already marked at another cost, the profit moves. */
  lemma PurgeNeedsTheMark()
    ensures exists b: Books, p: nat :: WellFormed(b) && HasProduct(b, p) && !FrozenOnlyIfGone(b)
              && AllPeriodsProfit(Purged(b, p).books) != AllPeriodsProfit(b)
  {
    var product := Product("soap", 2.0, 5.0, 1.0, 0.0, false);
    var sale := Sale(0, Some("soap"), 1.0, 5.0, 0, Some(0), 0, Some("soap"), Some(3.0), Some(Audit));
    var b := Books([Some(product)], [Some(sale)], []);
    var c := Purged(b, 0).books;
    assert IsSale(b, 0) && HasProduct(b, 0);
    SumOneHot(1, 0, (i: nat) => Term(b, OfProduct(0), AllTime, Units, i));
    SumOneHot(1, 0, (i: nat) => Term(b, Everything, AllTime, Revenue, i));
    SumOneHot(1, 0, (i: nat) => Term(c, Everything, AllTime, Revenue, i));
    SumOneHot(1, 0, (i: nat) => Term(c, OfProduct(0), AllTime, FrozenCost, i));
    SumOneHot(1, 0, (p: nat) => StockTerm(b, p));
    SumOneHot(1, 0, (p: nat) => StockTerm(c, p));
    SumOneHot(1, 0, (p: nat) => GoneTerm(b, FrozenCost, p));
    SumOneHot(1, 0, (p: nat) => GoneTerm(c, FrozenCost, p));
    SumZero(0, (j: nat) => AdjustmentTerm(b, j));
    SumZero(0, (j: nat) => AdjustmentTerm(c, j));
    assert CostOfSales(b) == 2.0;
    assert CostOfSales(c) == 3.0;
  }

  // ----- What the other writes do to the all-period view -----

  /** A new purchase price revalues the units that already left the stock; added stock does not. */
  lemma UpdateRevaluesSoldUnits(b: Books, p: nat, change: ProductChange)
    requires HasProduct(b, p)
    ensures var c := ProductUpdated(b, p, change).books; var old_ := b.products[p].value; var new_ := c.products[p].value;
            && CostOfSales(c) == CostOfSales(b)
                 + Amount(new_.purchasePrice - old_.purchasePrice, old_.initialQuantity - old_.remainingQuantity)
            && (AllPeriodsProfit(b).Known? <==> AllPeriodsProfit(c).Known?)
            && (change.purchasePrice.None? ==> AllPeriodsProfit(c) == AllPeriodsProfit(b))
  {
    var c := ProductUpdated(b, p, change).books;
    ProductWriteCost(b, c, p);
  }

  /** Rewriting one product document moves the cost of sales by that product's stock term only. */
  lemma ProductWriteCost(b: Books, c: Books, p: nat)
    requires c.sales == b.sales && c.adjustments == b.adjustments && |c.products| == |b.products|
    requires HasProduct(b, p) && HasProduct(c, p)
    requires forall q: nat :: q < |b.products| && q != p ==> c.products[q] == b.products[q]
    ensures CostOfSales(c) == CostOfSales(b) + StockTerm(c, p) - StockTerm(b, p)
    ensures GoneTotal(c, UnknownCostUnits) == GoneTotal(b, UnknownCostUnits)
    ensures Total(c, Everything, AllTime, Revenue) == Total(b, Everything, AllTime, Revenue)
  {
    var n := |b.products|;
    forall q: nat | q < n
      ensures GoneTerm(c, FrozenCost, q) == GoneTerm(b, FrozenCost, q)
      ensures GoneTerm(c, UnknownCostUnits, q) == GoneTerm(b, UnknownCostUnits, q)
    {
      TotalEq(b, c, OfProduct(q), AllTime, FrozenCost);
      TotalEq(b, c, OfProduct(q), AllTime, UnknownCostUnits);
    }
    SumEq(n, (q: nat) => GoneTerm(b, FrozenCost, q), (q: nat) => GoneTerm(c, FrozenCost, q));
    SumEq(n, (q: nat) => GoneTerm(b, UnknownCostUnits, q), (q: nat) => GoneTerm(c, UnknownCostUnits, q));
    SumPoint(n, p, (q: nat) => StockTerm(b, q), (q: nat) => StockTerm(c, q));
    SumEq(|b.adjustments|, (j: nat) => AdjustmentTerm(b, j), (j: nat) => AdjustmentTerm(c, j));
    TotalEq(b, c, Everything, AllTime, Revenue);
  }

  /**
   * A sale brings its revenue, dated when it happened, and the cost of its units at the product's
   * purchase price.
   */
  lemma SellMovesProfit(b: Books, input: SaleInput)
    requires WellFormed(b) && SaleCreated(b, input).Done?
    ensures var c := SaleCreated(b, input).books; var price := b.products[input.productId].value.purchasePrice;
            && Total(c, Everything, AllTime, Revenue)
                 == Total(b, Everything, AllTime, Revenue) + Amount(input.salePrice, input.quantity)
            && CostOfSales(c) == CostOfSales(b) + Amount(price, input.quantity)
            && (AllPeriodsProfit(c).Known? <==> AllPeriodsProfit(b).Known?)
            && EffectiveDate(c.sales[|b.sales|].value) == input.occurredAt
  {
    hide Amount;
    var c := SaleCreated(b, input).books;
    var p := input.productId;
    var n := |b.products|;
    TotalAppend(b, c, Everything, AllTime, Revenue);
    forall q: nat | q < n
      ensures GoneTerm(c, FrozenCost, q) == GoneTerm(b, FrozenCost, q)
      ensures GoneTerm(c, UnknownCostUnits, q) == GoneTerm(b, UnknownCostUnits, q)
    {
      if !HasProduct(b, q) {
        TotalAppend(b, c, OfProduct(q), AllTime, FrozenCost);
        TotalAppend(b, c, OfProduct(q), AllTime, UnknownCostUnits);
      }
    }
    SumEq(n, (q: nat) => GoneTerm(b, FrozenCost, q), (q: nat) => GoneTerm(c, FrozenCost, q));
    SumEq(n, (q: nat) => GoneTerm(b, UnknownCostUnits, q), (q: nat) => GoneTerm(c, UnknownCostUnits, q));
    SumPoint(n, p, (q: nat) => StockTerm(b, q), (q: nat) => StockTerm(c, q));
    SumEq(|b.adjustments|, (j: nat) => AdjustmentTerm(b, j), (j: nat) => AdjustmentTerm(c, j));
    var product := b.products[p].value;
    AmountAdd(product.purchasePrice, product.initialQuantity - product.remainingQuantity, input.quantity);
  }

  /** Moving a product to the trash or back changes no profit figure. */
  lemma TrashKeepsProfit(b: Books, p: nat, trashed: bool)
    requires HasProduct(b, p)
    ensures AllPeriodsProfit(TrashSet(b, p, trashed).books) == AllPeriodsProfit(b)
  {
    ProductWriteCost(b, TrashSet(b, p, trashed).books, p);
  }
}
