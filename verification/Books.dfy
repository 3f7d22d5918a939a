/**
 * The three collections the profit figures are computed from, and the `$group` totals over sales.
 * Documents are addressed by position: a position is a fresh identifier, a deleted document leaves
 * `None` behind, and no identifier is ever used twice. One organisation's documents only.
 */
module Books {
  import opened Options
  import opened Sums

  datatype Product = Product(
    name: string, purchasePrice: real, salePrice: real,
    initialQuantity: real, remainingQuantity: real, trashed: bool)

  datatype Source = Purge | Audit

  datatype Sale = Sale(
    productId: nat, recordedName: Option<string>, quantity: real, salePrice: real, sellerId: nat,
    occurredAt: Option<int>, createdAt: int,
    lastKnownName: Option<string>, lastKnownUnitCost: Option<real>, lastKnownSource: Option<Source>)

  /** The drift of a purged product, frozen when it was purged. */
  datatype Adjustment = Adjustment(productId: nat, unitCost: real, units: real)

  datatype Books = Books(
    products: seq<Option<Product>>, sales: seq<Option<Sale>>, adjustments: seq<Adjustment>)

  predicate HasProduct(b: Books, p: nat) {
    p < |b.products| && b.products[p].Some?
  }

  predicate IsSale(b: Books, i: nat) {
    i < |b.sales| && b.sales[i].Some?
  }

  /** Every sale names a product that exists or existed, and sells something. */
  ghost predicate WellFormed(b: Books) {
    forall i: nat :: IsSale(b, i) ==>
      b.sales[i].value.productId < |b.products| && b.sales[i].value.quantity > 0.0
  }

  // ----- Period filters -----

  datatype Period = AllTime | Between(start: int, end: int)

  function EffectiveDate(s: Sale): int {
    if s.occurredAt.Some? then s.occurredAt.value else s.createdAt
  }

  /** The two-branch filter of the range queries. */
  predicate Matches(s: Sale, period: Period) {
    match period
    case AllTime => true
    case Between(start, end) =>
      || (s.occurredAt.Some? && start <= s.occurredAt.value < end)
      || (s.occurredAt.None? && start <= s.createdAt < end)
  }

  // ----- Accumulators -----

  datatype Measure = Units | Revenue | Transactions | FrozenCost | UnknownCostUnits | BookCost

  datatype Scope = Everything | OfProduct(id: nat)

  /** An absent cost is counted as zero here, and reported apart by `UnknownCostUnits`. */
  function Frozen(s: Sale): real {
    Amount(if s.lastKnownUnitCost.Some? then s.lastKnownUnitCost.value else 0.0, s.quantity)
  }

  /** What one sale brings to an accumulator. `BookCost` values it as the gain of its row does. */
  function Weigh(b: Books, s: Sale, m: Measure): real {
    match m
    case Units => s.quantity
    case Revenue => Amount(s.salePrice, s.quantity)
    case Transactions => 1.0
    case FrozenCost => Frozen(s)
    case UnknownCostUnits => if s.lastKnownUnitCost.Some? then 0.0 else s.quantity
    case BookCost =>
      if HasProduct(b, s.productId) then Amount(b.products[s.productId].value.purchasePrice, s.quantity)
      else Frozen(s)
  }

  predicate Selected(b: Books, scope: Scope, period: Period, i: nat) {
    IsSale(b, i) && Matches(b.sales[i].value, period)
    && (scope.OfProduct? ==> b.sales[i].value.productId == scope.id)
  }

  function Term(b: Books, scope: Scope, period: Period, m: Measure, i: nat): real {
    if Selected(b, scope, period, i) then Weigh(b, b.sales[i].value, m) else 0.0
  }

  function Total(b: Books, scope: Scope, period: Period, m: Measure): real {
    Sum(|b.sales|, (i: nat) => Term(b, scope, period, m, i))
  }

  /** Units sold of a product according to its sales. */
  function Sold(b: Books, p: nat): real {
    Total(b, OfProduct(p), AllTime, Units)
  }

  lemma TotalEq(b: Books, c: Books, scope: Scope, period: Period, m: Measure)
    requires |b.sales| == |c.sales|
    requires forall i: nat :: i < |b.sales| ==> Term(b, scope, period, m, i) == Term(c, scope, period, m, i)
    ensures Total(b, scope, period, m) == Total(c, scope, period, m)
  {
    SumEq(|b.sales|, (i: nat) => Term(b, scope, period, m, i), (i: nat) => Term(c, scope, period, m, i));
  }

  /** A total that moves at one sale only moves by that sale's change. */
  lemma TotalPoint(b: Books, c: Books, scope: Scope, period: Period, m: Measure, k: nat)
    requires |b.sales| == |c.sales| && k < |b.sales|
    requires forall i: nat :: i < |b.sales| && i != k ==> Term(b, scope, period, m, i) == Term(c, scope, period, m, i)
    ensures Total(c, scope, period, m)
         == Total(b, scope, period, m) + Term(c, scope, period, m, k) - Term(b, scope, period, m, k)
  {
    SumPoint(|b.sales|, k, (i: nat) => Term(b, scope, period, m, i), (i: nat) => Term(c, scope, period, m, i));
  }

  lemma TotalAppend(b: Books, c: Books, scope: Scope, period: Period, m: Measure)
    requires |c.sales| == |b.sales| + 1
    requires forall i: nat :: i < |b.sales| ==> Term(b, scope, period, m, i) == Term(c, scope, period, m, i)
    ensures Total(c, scope, period, m) == Total(b, scope, period, m) + Term(c, scope, period, m, |b.sales|)
  {
    SumEq(|b.sales|, (i: nat) => Term(b, scope, period, m, i), (i: nat) => Term(c, scope, period, m, i));
  }

  // ----- Grouping by product and by month -----

  function ProductTotals(b: Books, period: Period, m: Measure): real {
    Sum(|b.products|, (p: nat) => Total(b, OfProduct(p), period, m))
  }

  /** Grouping the sales by product loses none and counts none twice. */
  lemma GroupByProduct(b: Books, period: Period, m: Measure)
    requires WellFormed(b)
    ensures ProductTotals(b, period, m) == Total(b, Everything, period, m)
  {
    var classOf := (i: nat) => if IsSale(b, i) then b.sales[i].value.productId else 0;
    if |b.products| == 0 {
      forall i: nat | i < |b.sales| ensures Term(b, Everything, period, m, i) == 0.0 {}
      SumZero(|b.sales|, (i: nat) => Term(b, Everything, period, m, i));
    } else {
      var part := (p: nat, i: nat) => Term(b, OfProduct(p), period, m, i);
      forall p: nat | p < |b.products|
        ensures Total(b, OfProduct(p), period, m) == Sum(|b.sales|, (i: nat) => part(p, i))
      {
        SumEq(|b.sales|, (i: nat) => Term(b, OfProduct(p), period, m, i), (i: nat) => part(p, i));
      }
      SumPartition(|b.sales|, |b.products|, classOf,
        (i: nat) => Term(b, Everything, period, m, i), part,
        (p: nat) => Total(b, OfProduct(p), period, m));
    }
  }

  /** `starts[k]` is the first instant of month k; the last entry closes the last month. */
  ghost predicate Calendar(starts: seq<int>) {
    |starts| >= 2 && forall j, k :: 0 <= j < k < |starts| ==> starts[j] < starts[k]
  }

  function Months(starts: seq<int>): nat {
    if |starts| == 0 then 0 else |starts| - 1
  }

  function Month(starts: seq<int>, k: nat): Period {
    if k + 1 < |starts| then Between(starts[k], starts[k + 1]) else AllTime
  }

  ghost predicate Covered(b: Books, starts: seq<int>)
    requires Calendar(starts)
  {
    forall i: nat :: IsSale(b, i) ==>
      starts[0] <= EffectiveDate(b.sales[i].value) < starts[|starts| - 1]
  }

  function MonthOf(starts: seq<int>, date: int): (k: nat)
    requires |starts| >= 2 && starts[0] <= date < starts[|starts| - 1]
    ensures k + 1 < |starts| && starts[k] <= date < starts[k + 1]
    decreases |starts|
  {
    if date >= starts[|starts| - 2] then |starts| - 2 else MonthOf(starts[..|starts| - 1], date)
  }

  /** A sale is in exactly one month of the calendar: the one of its effective date. */
  lemma ExactlyOneMonth(s: Sale, starts: seq<int>, k: nat)
    requires Calendar(starts) && k < Months(starts)
    requires starts[0] <= EffectiveDate(s) < starts[|starts| - 1]
    ensures Matches(s, Month(starts, k)) <==> k == MonthOf(starts, EffectiveDate(s))
  {
    hide MonthOf;
    var j := MonthOf(starts, EffectiveDate(s));
    if k < j { assert starts[k + 1] <= starts[j]; }
    if j < k { assert starts[j + 1] <= starts[k]; }
  }

  function MonthTotals(b: Books, starts: seq<int>, scope: Scope, m: Measure): real {
    Sum(Months(starts), (k: nat) => Total(b, scope, Month(starts, k), m))
  }

  lemma TermInOneMonth(b: Books, starts: seq<int>, scope: Scope, m: Measure, k: nat, i: nat)
    requires Calendar(starts) && Covered(b, starts) && k < Months(starts) && i < |b.sales|
    ensures Term(b, scope, Month(starts, k), m, i)
         == if (if IsSale(b, i) && starts[0] <= EffectiveDate(b.sales[i].value) < starts[|starts| - 1]
                then MonthOf(starts, EffectiveDate(b.sales[i].value)) else 0) == k
            then Term(b, scope, AllTime, m, i) else 0.0
  {
    if IsSale(b, i) { ExactlyOneMonth(b.sales[i].value, starts, k); }
    hide MonthOf;
  }

  /** The monthly filters cut the sales without gap or overlap. */
  lemma SplitByMonth(b: Books, starts: seq<int>, scope: Scope, m: Measure)
    requires Calendar(starts) && Covered(b, starts)
    ensures MonthTotals(b, starts, scope, m) == Total(b, scope, AllTime, m)
  {
    var classOf := (i: nat) =>
      if IsSale(b, i) && starts[0] <= EffectiveDate(b.sales[i].value) < starts[|starts| - 1]
      then MonthOf(starts, EffectiveDate(b.sales[i].value)) else 0;
    var part := (k: nat, i: nat) => Term(b, scope, Month(starts, k), m, i);
    forall k: nat, i: nat | k < Months(starts) && i < |b.sales|
      ensures part(k, i) == if classOf(i) == k then Term(b, scope, AllTime, m, i) else 0.0
    {
      TermInOneMonth(b, starts, scope, m, k, i);
    }
    hide Term, MonthOf;
    forall k: nat | k < Months(starts)
      ensures Total(b, scope, Month(starts, k), m) == Sum(|b.sales|, (i: nat) => part(k, i))
    {
      SumEq(|b.sales|, (i: nat) => Term(b, scope, Month(starts, k), m, i), (i: nat) => part(k, i));
    }
    SumPartition(|b.sales|, Months(starts), classOf,
      (i: nat) => Term(b, scope, AllTime, m, i), part,
      (k: nat) => Total(b, scope, Month(starts, k), m));
  }

  /** An accumulator of non-negative contributions is positive exactly when one contribution is. */
  lemma PositiveTotal(b: Books, scope: Scope, period: Period, m: Measure)
    requires forall i: nat :: i < |b.sales| ==> Term(b, scope, period, m, i) >= 0.0
    ensures Total(b, scope, period, m) >= 0.0
    ensures Total(b, scope, period, m) > 0.0 <==>
            exists i: nat :: i < |b.sales| && Term(b, scope, period, m, i) > 0.0
  {
    var f := (i: nat) => Term(b, scope, period, m, i);
    SumNonNegative(|b.sales|, f);
    SumVanishes(|b.sales|, f);
    if Total(b, scope, period, m) > 0.0 {
      var i: nat :| i < |b.sales| && f(i) != 0.0;
      assert Term(b, scope, period, m, i) > 0.0;
    }
    if i: nat :| i < |b.sales| && Term(b, scope, period, m, i) > 0.0 {
      assert f(i) > 0.0;
    }
  }
}
