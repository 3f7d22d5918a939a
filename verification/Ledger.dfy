/**
 * Every write to products, sales and frozen adjustments: the product service, the sale transactions
 * that pair a stock change with its sale, and the history recovery. A transaction is one step.
 */
module Ledger {
  import opened Options
  import opened Sums
  import opened Books

  datatype Error = ProductNotFound | InsufficientStock(available: real) | SaleNotFound

  datatype Outcome = Done(books: Books) | Refused(error: Error)

  // ----- Products -----

  function ProductCreated(b: Books, name: string, purchasePrice: real, salePrice: real, quantity: real): Books {
    b.(products := b.products + [Some(Product(name, purchasePrice, salePrice, quantity, quantity, false))])
  }

  /** The fields a product form may set, and the stock it adds. */
  datatype ProductChange = ProductChange(
    name: Option<string>, purchasePrice: Option<real>, salePrice: Option<real>, addedStock: real)

  function Changed(product: Product, change: ProductChange): Product {
    product.(
      name := if change.name.Some? then change.name.value else product.name,
      purchasePrice := if change.purchasePrice.Some? then change.purchasePrice.value else product.purchasePrice,
      salePrice := if change.salePrice.Some? then change.salePrice.value else product.salePrice,
      initialQuantity := product.initialQuantity + change.addedStock,
      remainingQuantity := product.remainingQuantity + change.addedStock)
  }

  function ProductUpdated(b: Books, p: nat, change: ProductChange): Outcome {
    if HasProduct(b, p)
    then Done(b.(products := b.products[p := Some(Changed(b.products[p].value, change))]))
    else Refused(ProductNotFound)
  }

  function TrashSet(b: Books, p: nat, trashed: bool): Outcome {
    if HasProduct(b, p)
    then Done(b.(products := b.products[p := Some(b.products[p].value.(trashed := trashed))]))
    else Refused(ProductNotFound)
  }

  /** The sale keeps what the analytics used so far; a sale already marked is never rewritten. */
  function Preserved(s: Sale, p: nat, product: Product): Sale {
    if s.productId == p && s.lastKnownSource.None?
    then s.(lastKnownName := Some(product.name),
            lastKnownUnitCost := Some(product.purchasePrice),
            lastKnownSource := Some(Purge))
    else s
  }

  function HistoryPreserved(sales: seq<Option<Sale>>, p: nat, product: Product): (r: seq<Option<Sale>>)
    ensures |r| == |sales|
  {
    seq(|sales|, i requires 0 <= i < |sales| =>
      if sales[i].Some? then Some(Preserved(sales[i].value, p, product)) else None)
  }

  /** How far the stock of a product has moved away from its sales. */
  function Drift(b: Books, p: nat): real
    requires HasProduct(b, p)
  {
    b.products[p].value.initialQuantity - b.products[p].value.remainingQuantity - Sold(b, p)
  }

  function Purged(b: Books, p: nat): Outcome {
    if HasProduct(b, p) then
      var product := b.products[p].value;
      Done(Books(
        b.products[p := None],
        HistoryPreserved(b.sales, p, product),
        if Drift(b, p) == 0.0 then b.adjustments
        else b.adjustments + [Adjustment(p, product.purchasePrice, Drift(b, p))]))
    else Refused(ProductNotFound)
  }

  // ----- Stock and sales -----

  predicate OnSale(b: Books, p: nat) {
    HasProduct(b, p) && !b.products[p].value.trashed
  }

  function StockMoved(b: Books, p: nat, delta: real): Books
    requires HasProduct(b, p)
  {
    var product := b.products[p].value;
    b.(products := b.products[p := Some(product.(remainingQuantity := product.remainingQuantity + delta))])
  }

  /** Conditional decrement: an active product with enough stock, else 404 or 400. */
  function StockDecremented(b: Books, p: nat, quantity: real): Outcome {
    if !OnSale(b, p) then Refused(ProductNotFound)
    else if b.products[p].value.remainingQuantity < quantity
    then Refused(InsufficientStock(b.products[p].value.remainingQuantity))
    else Done(StockMoved(b, p, -quantity))
  }

  /** Adjustment of a correction or cancellation; a purged product has no stock to adjust. */
  function StockAdjusted(b: Books, p: nat, delta: real): Outcome {
    if !HasProduct(b, p) then Done(b)
    else if b.products[p].value.remainingQuantity + delta < 0.0
    then Refused(InsufficientStock(b.products[p].value.remainingQuantity))
    else Done(StockMoved(b, p, delta))
  }

  datatype SaleInput = SaleInput(productId: nat, quantity: real, salePrice: real, sellerId: nat, occurredAt: int, createdAt: int)

  function NewSale(input: SaleInput, productName: string): Sale {
    Sale(input.productId, Some(productName), input.quantity, input.salePrice, input.sellerId,
         Some(input.occurredAt), input.createdAt, None, None, None)
  }

  function SaleCreated(b: Books, input: SaleInput): Outcome {
    match StockDecremented(b, input.productId, input.quantity)
    case Refused(e) => Refused(e)
    case Done(c) =>
      if HasProduct(c, input.productId)
      then Done(c.(sales := c.sales + [Some(NewSale(input, c.products[input.productId].value.name))]))
      else Refused(ProductNotFound)
  }

  function SaleCorrected(b: Books, i: nat, quantity: Option<real>, salePrice: Option<real>): Outcome {
    if !IsSale(b, i) then Refused(SaleNotFound) else
      var s := b.sales[i].value;
      var q := if quantity.Some? then quantity.value else s.quantity;
      var price := if salePrice.Some? then salePrice.value else s.salePrice;
      var stock := if q == s.quantity then Done(b) else StockAdjusted(b, s.productId, s.quantity - q);
      if stock.Refused? then stock
      else Done(stock.books.(sales := b.sales[i := Some(s.(quantity := q, salePrice := price))]))
  }

  function SaleCancelled(b: Books, i: nat): Outcome {
    if !IsSale(b, i) then Refused(SaleNotFound) else
      var s := b.sales[i].value;
      var stock := StockAdjusted(b, s.productId, s.quantity);
      if stock.Refused? then stock else Done(stock.books.(sales := b.sales[i := None]))
  }

  /** History recovered from the audit log for the unmarked sales of a product that is gone. */
  function AuditHistoryWritten(b: Books, p: nat, name: Option<string>, cost: Option<real>): Books {
    if HasProduct(b, p) || (name.None? && cost.None?) then b else
      b.(sales := seq(|b.sales|, i requires 0 <= i < |b.sales| =>
        if b.sales[i].Some? && b.sales[i].value.productId == p && b.sales[i].value.lastKnownSource.None?
        then
          var s := b.sales[i].value;
          Some(s.(lastKnownName := if name.Some? then name else s.lastKnownName,
                  lastKnownUnitCost := if cost.Some? then cost else s.lastKnownUnitCost,
                  lastKnownSource := Some(Audit)))
        else b.sales[i]))
  }

  // ----- Runs -----

  datatype Action =
    | Create(name: string, purchasePrice: real, salePrice: real, quantity: real)
    | Update(id: nat, change: ProductChange)
    | Trash(id: nat)
    | Restore(id: nat)
    | PermanentDelete(id: nat)
    | Sell(input: SaleInput)
    | Correct(saleId: nat, newQuantity: Option<real>, newPrice: Option<real>)
    | Cancel(saleId: nat)
    | Recover(id: nat, knownName: Option<string>, knownCost: Option<real>)

  /** What request validation lets through; a sale is of whole units, a correction need not be. */
  predicate Accepted(a: Action) {
    match a
    case Create(_, purchasePrice, salePrice, quantity) =>
      purchasePrice >= 0.0 && salePrice >= 0.0 && quantity >= 1.0
    case Update(_, change) => change.addedStock >= 0.0
    case Sell(input) => input.quantity >= 1.0 && input.quantity == input.quantity.Floor as real && input.salePrice >= 0.0
    case Correct(_, q, price) => (q.Some? ==> q.value >= 1.0) && (price.Some? ==> price.value >= 0.0)
    case _ => true
  }

  function Attempt(b: Books, a: Action): Outcome {
    match a
    case Create(name, purchasePrice, salePrice, quantity) =>
      Done(ProductCreated(b, name, purchasePrice, salePrice, quantity))
    case Update(p, change) => ProductUpdated(b, p, change)
    case Trash(p) => TrashSet(b, p, true)
    case Restore(p) => TrashSet(b, p, false)
    case PermanentDelete(p) => Purged(b, p)
    case Sell(input) => SaleCreated(b, input)
    case Correct(i, q, price) => SaleCorrected(b, i, q, price)
    case Cancel(i) => SaleCancelled(b, i)
    case Recover(p, name, cost) => Done(AuditHistoryWritten(b, p, name, cost))
  }

  /** A refused request leaves the books as they were. */
  function Step(b: Books, a: Action): Books {
    if Accepted(a) && Attempt(b, a).Done? then Attempt(b, a).books else b
  }

  function Run(b: Books, actions: seq<Action>): Books {
    if |actions| == 0 then b else Step(Run(b, actions[..|actions| - 1]), actions[|actions| - 1])
  }

  const EMPTY_BOOKS := Books([], [], [])

  // ----- What every run keeps -----

  ghost predicate FrozenOnlyIfGone(b: Books) {
    forall i: nat :: IsSale(b, i) && b.sales[i].value.lastKnownSource.Some? ==>
      !HasProduct(b, b.sales[i].value.productId)
  }

  /** Stock and sales tell the same story: what left the stock is what was sold. */
  ghost predicate Balanced(b: Books) {
    forall p: nat :: HasProduct(b, p) ==>
      && 0.0 <= b.products[p].value.remainingQuantity
      && b.products[p].value.initialQuantity - b.products[p].value.remainingQuantity == Sold(b, p)
  }

  /** No sale of a product that is gone has lost its cost. */
  ghost predicate CostsKnown(b: Books) {
    forall i: nat :: IsSale(b, i) && !HasProduct(b, b.sales[i].value.productId) ==>
      b.sales[i].value.lastKnownUnitCost.Some?
  }

  ghost predicate Sound(b: Books) {
    WellFormed(b) && FrozenOnlyIfGone(b) && Balanced(b)
  }

  /** Units sold of a product are read off the quantities of its sales only. */
  lemma SoldFromQuantities(b: Books, c: Books, p: nat)
    requires |b.sales| == |c.sales|
    requires forall i: nat :: i < |b.sales| ==>
      && IsSale(b, i) == IsSale(c, i)
      && (IsSale(b, i) ==>
            && b.sales[i].value.productId == c.sales[i].value.productId
            && b.sales[i].value.quantity == c.sales[i].value.quantity)
    ensures Sold(b, p) == Sold(c, p)
  {
    TotalEq(b, c, OfProduct(p), AllTime, Units);
  }

  lemma SoldIsNonNegative(b: Books, p: nat)
    requires WellFormed(b)
    ensures Sold(b, p) >= 0.0
  {
    PositiveTotal(b, OfProduct(p), AllTime, Units);
  }

  lemma CreateKeepsSound(b: Books, name: string, purchasePrice: real, salePrice: real, quantity: real)
    requires Sound(b) && quantity >= 0.0
    ensures Sound(ProductCreated(b, name, purchasePrice, salePrice, quantity))
  {
    var c := ProductCreated(b, name, purchasePrice, salePrice, quantity);
    forall p: nat | HasProduct(c, p)
      ensures 0.0 <= c.products[p].value.remainingQuantity
      ensures c.products[p].value.initialQuantity - c.products[p].value.remainingQuantity == Sold(c, p)
    {
      SoldFromQuantities(b, c, p);
      if p == |b.products| {
        SumZero(|b.sales|, (i: nat) => Term(b, OfProduct(p), AllTime, Units, i));
      } else {
        assert HasProduct(b, p);
      }
    }
  }

  /** A write to products that neither creates, deletes nor moves net stock. */
  lemma ProductWriteKeepsSound(b: Books, c: Books)
    requires Sound(b) && c.sales == b.sales && |c.products| == |b.products|
    requires forall p: nat :: HasProduct(c, p) == HasProduct(b, p)
    requires forall p: nat :: HasProduct(b, p) && HasProduct(c, p) ==>
      && 0.0 <= c.products[p].value.remainingQuantity
      && c.products[p].value.initialQuantity - c.products[p].value.remainingQuantity
           == b.products[p].value.initialQuantity - b.products[p].value.remainingQuantity
    ensures Sound(c)
  {
    forall p: nat | HasProduct(c, p)
      ensures c.products[p].value.initialQuantity - c.products[p].value.remainingQuantity == Sold(c, p)
    {
      assert HasProduct(b, p);
      SoldFromQuantities(b, c, p);
    }
    forall i: nat | IsSale(c, i)
      ensures c.sales[i].value.productId < |c.products| && c.sales[i].value.quantity > 0.0
      ensures c.sales[i].value.lastKnownSource.Some? ==> !HasProduct(c, c.sales[i].value.productId)
    {
      assert IsSale(b, i);
    }
  }

  lemma PurgeKeepsSound(b: Books, p: nat)
    requires Sound(b) && HasProduct(b, p)
    ensures Sound(Purged(b, p).books)
    ensures Purged(b, p).books.adjustments == b.adjustments
  {
    var c := Purged(b, p).books;
    forall q: nat | HasProduct(c, q)
      ensures 0.0 <= c.products[q].value.remainingQuantity
      ensures c.products[q].value.initialQuantity - c.products[q].value.remainingQuantity == Sold(c, q)
    {
      assert HasProduct(b, q);
      SoldFromQuantities(b, c, q);
    }
    forall i: nat | IsSale(c, i)
      ensures c.sales[i].value.productId < |c.products| && c.sales[i].value.quantity > 0.0
      ensures c.sales[i].value.lastKnownSource.Some? ==> !HasProduct(c, c.sales[i].value.productId)
    {
      assert IsSale(b, i);
    }
  }

  lemma SellKeepsSound(b: Books, input: SaleInput)
    requires Sound(b) && input.quantity >= 1.0 && SaleCreated(b, input).Done?
    ensures Sound(SaleCreated(b, input).books)
  {
    var c := SaleCreated(b, input).books;
    forall p: nat | HasProduct(c, p)
      ensures 0.0 <= c.products[p].value.remainingQuantity
      ensures c.products[p].value.initialQuantity - c.products[p].value.remainingQuantity == Sold(c, p)
    {
      assert HasProduct(b, p);
      TotalAppend(b, c, OfProduct(p), AllTime, Units);
    }
    forall i: nat | IsSale(c, i)
      ensures c.sales[i].value.productId < |c.products| && c.sales[i].value.quantity > 0.0
      ensures c.sales[i].value.lastKnownSource.Some? ==> !HasProduct(c, c.sales[i].value.productId)
    {
      if i < |b.sales| { assert IsSale(b, i); }
    }
  }

  lemma CorrectKeepsSound(b: Books, i: nat, quantity: Option<real>, salePrice: Option<real>)
    requires Sound(b) && (quantity.Some? ==> quantity.value >= 1.0)
    requires SaleCorrected(b, i, quantity, salePrice).Done?
    ensures Sound(SaleCorrected(b, i, quantity, salePrice).books)
  {
    var c := SaleCorrected(b, i, quantity, salePrice).books;
    OneSaleRewritten(b, c, i);
  }

  lemma CancelKeepsSound(b: Books, i: nat)
    requires Sound(b) && SaleCancelled(b, i).Done?
    ensures Sound(SaleCancelled(b, i).books)
  {
    OneSaleRewritten(b, SaleCancelled(b, i).books, i);
  }

  function QuantityAt(b: Books, i: nat): real {
    if IsSale(b, i) then b.sales[i].value.quantity else 0.0
  }

  /** One sale is rewritten or deleted, and its product's stock moves by the difference. */
  lemma OneSaleRewritten(b: Books, c: Books, i: nat)
    requires Sound(b) && IsSale(b, i)
    requires |c.sales| == |b.sales| && |c.products| == |b.products|
    requires forall j: nat :: j < |b.sales| && j != i ==> c.sales[j] == b.sales[j]
    requires IsSale(c, i) ==>
      && c.sales[i].value.productId == b.sales[i].value.productId
      && c.sales[i].value.lastKnownSource == b.sales[i].value.lastKnownSource
      && c.sales[i].value.quantity > 0.0
    requires forall p: nat :: HasProduct(c, p) == HasProduct(b, p)
    requires forall p: nat :: HasProduct(b, p) && HasProduct(c, p) ==>
      && 0.0 <= c.products[p].value.remainingQuantity
      && c.products[p].value.initialQuantity == b.products[p].value.initialQuantity
      && c.products[p].value.remainingQuantity == b.products[p].value.remainingQuantity
           + if p == b.sales[i].value.productId then QuantityAt(b, i) - QuantityAt(c, i) else 0.0
    ensures Sound(c)
  {
    forall p: nat | HasProduct(c, p)
      ensures c.products[p].value.initialQuantity - c.products[p].value.remainingQuantity == Sold(c, p)
    {
      assert HasProduct(b, p);
      TotalPoint(b, c, OfProduct(p), AllTime, Units, i);
    }
    forall j: nat | IsSale(c, j)
      ensures c.sales[j].value.productId < |c.products| && c.sales[j].value.quantity > 0.0
      ensures c.sales[j].value.lastKnownSource.Some? ==> !HasProduct(c, c.sales[j].value.productId)
    {
      assert IsSale(b, j);
    }
  }

  lemma RecoverKeepsSound(b: Books, p: nat, name: Option<string>, cost: Option<real>)
    requires Sound(b)
    ensures Sound(AuditHistoryWritten(b, p, name, cost))
  {
    var c := AuditHistoryWritten(b, p, name, cost);
    forall q: nat | HasProduct(c, q)
      ensures 0.0 <= c.products[q].value.remainingQuantity
      ensures c.products[q].value.initialQuantity - c.products[q].value.remainingQuantity == Sold(c, q)
    {
      assert HasProduct(b, q);
      SoldFromQuantities(b, c, q);
    }
    forall i: nat | IsSale(c, i)
      ensures c.sales[i].value.productId < |c.products| && c.sales[i].value.quantity > 0.0
      ensures c.sales[i].value.lastKnownSource.Some? ==> !HasProduct(c, c.sales[i].value.productId)
    {
      assert IsSale(b, i);
    }
  }

  /** One request, whatever it is: the books stay sound, and a purge freezes no adjustment. */
  lemma StepKeepsSound(b: Books, a: Action)
    requires Sound(b)
    ensures Sound(Step(b, a))
    ensures Step(b, a).adjustments == b.adjustments
  {
    if Accepted(a) && Attempt(b, a).Done? {
      match a
      case Create(name, purchasePrice, salePrice, quantity) =>
        CreateKeepsSound(b, name, purchasePrice, salePrice, quantity);
      case Update(p, change) =>
        ProductWriteKeepsSound(b, Step(b, a));
      case Trash(p) => ProductWriteKeepsSound(b, Step(b, a));
      case Restore(p) => ProductWriteKeepsSound(b, Step(b, a));
      case PermanentDelete(p) => PurgeKeepsSound(b, p);
      case Sell(input) => SellKeepsSound(b, input);
      case Correct(i, q, price) => CorrectKeepsSound(b, i, q, price);
      case Cancel(i) => CancelKeepsSound(b, i);
      case Recover(p, name, cost) => RecoverKeepsSound(b, p, name, cost);
    }
  }

  lemma StepKeepsCostsKnown(b: Books, a: Action)
    requires Sound(b) && CostsKnown(b)
    ensures CostsKnown(Step(b, a))
  {
    var c := Step(b, a);
    forall i: nat | IsSale(c, i) && !HasProduct(c, c.sales[i].value.productId)
      ensures c.sales[i].value.lastKnownUnitCost.Some?
    {
      if i < |b.sales| {
        assert IsSale(b, i);
        if HasProduct(b, b.sales[i].value.productId) {
          assert b.sales[i].value.lastKnownSource.None?;
        }
      }
    }
  }

  /**
   * Conservation over every run: each existing product keeps a non-negative stock, the stock that
   * left it is exactly what its sales sold, and no purge ever had a drift to freeze.
   */
  lemma {:induction false} StockConservation(b: Books, actions: seq<Action>)
    requires Sound(b)
    ensures Sound(Run(b, actions))
    ensures Run(b, actions).adjustments == b.adjustments
    ensures CostsKnown(b) ==> CostsKnown(Run(b, actions))
  {
    if |actions| > 0 {
      var before := Run(b, actions[..|actions| - 1]);
      StockConservation(b, actions[..|actions| - 1]);
      StepKeepsSound(before, actions[|actions| - 1]);
      if CostsKnown(b) { StepKeepsCostsKnown(before, actions[|actions| - 1]); }
    }
  }

  /** The remaining stock of a run never exceeds what was ever put in stock. */
  lemma StockWithinBounds(b: Books, actions: seq<Action>, p: nat)
    requires Sound(b) && HasProduct(Run(b, actions), p)
    ensures 0.0 <= Run(b, actions).products[p].value.remainingQuantity
                <= Run(b, actions).products[p].value.initialQuantity
  {
    StockConservation(b, actions);
    SoldIsNonNegative(Run(b, actions), p);
  }

  // ----- What one request undoes -----

  /** Cancelling a sale gives back the books of before it, but for the identifier it used. */
  lemma CancelUndoesSell(b: Books, input: SaleInput)
    requires SaleCreated(b, input).Done? && b.products[input.productId].value.remainingQuantity >= 0.0
    ensures SaleCancelled(SaleCreated(b, input).books, |b.sales|) == Done(b.(sales := b.sales + [None]))
  {
    var c := SaleCreated(b, input).books;
    var d := SaleCancelled(c, |b.sales|).books;
    assert c.products[input.productId].value.remainingQuantity + input.quantity
        == b.products[input.productId].value.remainingQuantity;
    assert d.products == b.products;
    assert d.sales == b.sales + [None];
  }

  /** A correction can be corrected back: stock, quantity and price return exactly. */
  lemma CorrectionUndone(b: Books, i: nat, quantity: real, salePrice: real)
    requires IsSale(b, i) && SaleCorrected(b, i, Some(quantity), Some(salePrice)).Done?
    requires HasProduct(b, b.sales[i].value.productId) ==>
             b.products[b.sales[i].value.productId].value.remainingQuantity >= 0.0
    ensures SaleCorrected(SaleCorrected(b, i, Some(quantity), Some(salePrice)).books, i,
              Some(b.sales[i].value.quantity), Some(b.sales[i].value.salePrice)) == Done(b)
  {
    var s := b.sales[i].value;
    var c := SaleCorrected(b, i, Some(quantity), Some(salePrice)).books;
    if quantity != s.quantity && HasProduct(b, s.productId) {
      assert c.products[s.productId].value.remainingQuantity + (quantity - s.quantity)
          == b.products[s.productId].value.remainingQuantity;
    }
    var d := SaleCorrected(c, i, Some(s.quantity), Some(s.salePrice)).books;
    assert d.products == b.products;
    assert d.sales == b.sales;
  }

  // ----- What each request does, told on the documents -----

  /** Nothing but the stock of p moves, by `delta`. */
  ghost predicate OnlyStockMoves(b: Books, c: Books, p: nat, delta: real) {
    && |c.products| == |b.products| && c.adjustments == b.adjustments
    && forall q: nat :: q < |b.products| ==>
         if q == p && b.products[q].Some?
         then c.products[q] == Some(b.products[q].value.(remainingQuantity := b.products[q].value.remainingQuantity + delta))
         else c.products[q] == b.products[q]
  }

  /** The stock of p, if p still exists, can give what a quantity given and different needs on top. */
  ghost predicate StockAllows(b: Books, p: nat, held: real, newQuantity: Option<real>) {
    p < |b.products| && b.products[p].Some? && newQuantity.Some? && newQuantity.value != held ==>
      newQuantity.value <= b.products[p].value.remainingQuantity + held
  }

  /** A valid request takes effect unless it is refused; an invalid one, or a refusal, changes nothing. */
  lemma ValidRequestsTakeEffect(b: Books, a: Action)
    ensures match a
            case Create(_, cost, price, quantity) =>
              Step(b, a) == if cost >= 0.0 && price >= 0.0 && quantity >= 1.0 then Attempt(b, a).books else b
            case Sell(input) =>
              Step(b, a) == if input.quantity >= 1.0 && input.quantity == input.quantity.Floor as real
                               && input.salePrice >= 0.0 && Attempt(b, a).Done? then Attempt(b, a).books else b
            case Update(_, change) =>
              Step(b, a) == if change.addedStock >= 0.0 && Attempt(b, a).Done? then Attempt(b, a).books else b
            case Correct(_, q, price) =>
              Step(b, a) == if (q.Some? ==> q.value >= 1.0) && (price.Some? ==> price.value >= 0.0) && Attempt(b, a).Done?
                            then Attempt(b, a).books else b
            case _ => Step(b, a) == if Attempt(b, a).Done? then Attempt(b, a).books else b
  {}

  /**
   * A sale takes its units out of the stock of a product that is there, not in the trash, and has
   * enough of them; otherwise it is refused with the reason and changes nothing.
   */
  lemma SellEffect(b: Books, input: SaleInput)
    ensures var p := input.productId; var attempt := Attempt(b, Sell(input));
            && (attempt == Refused(ProductNotFound) <==>
                  p >= |b.products| || b.products[p].None? || b.products[p].value.trashed)
            && (attempt.Refused? && attempt != Refused(ProductNotFound) <==>
                  p < |b.products| && b.products[p].Some? && !b.products[p].value.trashed
                  && b.products[p].value.remainingQuantity < input.quantity)
            && (attempt.Refused? && attempt != Refused(ProductNotFound) ==>
                  attempt == Refused(InsufficientStock(b.products[p].value.remainingQuantity)))
            && (attempt.Refused? ==> Step(b, Sell(input)) == b)
    ensures Attempt(b, Sell(input)).Done? ==>
              var c := Attempt(b, Sell(input)).books; var n := |b.sales|;
              && OnlyStockMoves(b, c, input.productId, -input.quantity)
              && |c.sales| == n + 1 && c.sales[..n] == b.sales && IsSale(c, n)
              && c.sales[n].value.productId == input.productId
              && c.sales[n].value.recordedName == Some(b.products[input.productId].value.name)
              && c.sales[n].value.quantity == input.quantity && c.sales[n].value.salePrice == input.salePrice
              && c.sales[n].value.sellerId == input.sellerId && c.sales[n].value.occurredAt == Some(input.occurredAt)
              && c.sales[n].value.createdAt == input.createdAt && c.sales[n].value.lastKnownSource.None?
              && Sold(c, input.productId) == Sold(b, input.productId) + input.quantity
              && Total(c, Everything, AllTime, Revenue)
                   == Total(b, Everything, AllTime, Revenue) + input.salePrice * input.quantity
  {
    if Attempt(b, Sell(input)).Done? {
      var c := Attempt(b, Sell(input)).books;
      TotalAppend(b, c, OfProduct(input.productId), AllTime, Units);
      TotalAppend(b, c, Everything, AllTime, Revenue);
    }
  }

  /**
   * A correction sets quantity and price where they are given, and gives or takes the difference in the
   * stock of a product that still exists. It is refused exactly without its sale, or without the stock.
   */
  lemma CorrectionEffect(b: Books, i: nat, newQuantity: Option<real>, newPrice: Option<real>)
    ensures Attempt(b, Correct(i, newQuantity, newPrice)).Refused? <==>
            || !IsSale(b, i)
            || !(var s := b.sales[i].value; StockAllows(b, s.productId, s.quantity, newQuantity))
    ensures Attempt(b, Correct(i, newQuantity, newPrice)).Refused? ==>
              Attempt(b, Correct(i, newQuantity, newPrice)).error ==
                if !IsSale(b, i) then SaleNotFound
                else InsufficientStock(b.products[b.sales[i].value.productId].value.remainingQuantity)
    ensures Attempt(b, Correct(i, newQuantity, newPrice)).Done? ==>
              var c := Attempt(b, Correct(i, newQuantity, newPrice)).books; var s := b.sales[i].value;
              var q := if newQuantity.Some? then newQuantity.value else s.quantity;
              var price := if newPrice.Some? then newPrice.value else s.salePrice;
              && OnlyStockMoves(b, c, s.productId, s.quantity - q)
              && |c.sales| == |b.sales| && c.sales[i] == Some(s.(quantity := q, salePrice := price))
              && (forall j :: 0 <= j < |b.sales| && j != i ==> c.sales[j] == b.sales[j])
              && Sold(c, s.productId) == Sold(b, s.productId) + q - s.quantity
              && Total(c, Everything, AllTime, Revenue)
                   == Total(b, Everything, AllTime, Revenue) + price * q - s.salePrice * s.quantity
  {
    if Attempt(b, Correct(i, newQuantity, newPrice)).Done? {
      var c := Attempt(b, Correct(i, newQuantity, newPrice)).books;
      TotalPoint(b, c, OfProduct(b.sales[i].value.productId), AllTime, Units, i);
      TotalPoint(b, c, Everything, AllTime, Revenue, i);
    }
  }

  /** A cancellation deletes its sale and gives its units back; only a stock below them could refuse it. */
  lemma CancelEffect(b: Books, i: nat)
    ensures Attempt(b, Cancel(i)).Refused? <==>
            !IsSale(b, i) || (HasProduct(b, b.sales[i].value.productId)
                              && b.products[b.sales[i].value.productId].value.remainingQuantity + b.sales[i].value.quantity < 0.0)
    ensures !IsSale(b, i) ==> Attempt(b, Cancel(i)) == Refused(SaleNotFound)
    ensures Attempt(b, Cancel(i)).Done? ==>
              var c := Attempt(b, Cancel(i)).books; var s := b.sales[i].value;
              && OnlyStockMoves(b, c, s.productId, s.quantity)
              && |c.sales| == |b.sales| && c.sales[i] == None
              && (forall j :: 0 <= j < |b.sales| && j != i ==> c.sales[j] == b.sales[j])
              && Sold(c, s.productId) == Sold(b, s.productId) - s.quantity
              && Total(c, Everything, AllTime, Revenue)
                   == Total(b, Everything, AllTime, Revenue) - s.salePrice * s.quantity
  {
    if Attempt(b, Cancel(i)).Done? {
      var c := Attempt(b, Cancel(i)).books;
      TotalPoint(b, c, OfProduct(b.sales[i].value.productId), AllTime, Units, i);
      TotalPoint(b, c, Everything, AllTime, Revenue, i);
    }
  }

  /** Creation, form, trash and restore: which fields change, and to what. */
  lemma ProductEffects(b: Books, p: nat, change: ProductChange, name: string, purchasePrice: real, salePrice: real, quantity: real)
    ensures var c := Attempt(b, Create(name, purchasePrice, salePrice, quantity)).books; var n := |b.products|;
            && c.sales == b.sales && c.adjustments == b.adjustments && |c.products| == n + 1 && c.products[..n] == b.products
            && HasProduct(c, n) && !c.products[n].value.trashed
            && c.products[n].value.name == name && c.products[n].value.purchasePrice == purchasePrice
            && c.products[n].value.salePrice == salePrice
            && c.products[n].value.initialQuantity == quantity == c.products[n].value.remainingQuantity
    ensures Attempt(b, Update(p, change)).Done? <==> HasProduct(b, p)
    ensures HasProduct(b, p) ==>
              var c := Attempt(b, Update(p, change)).books; var old_ := b.products[p].value;
              && c.sales == b.sales && c.adjustments == b.adjustments && |c.products| == |b.products|
              && (forall q :: 0 <= q < |b.products| && q != p ==> c.products[q] == b.products[q])
              && HasProduct(c, p) && c.products[p].value.trashed == old_.trashed
              && c.products[p].value.name == (if change.name.Some? then change.name.value else old_.name)
              && c.products[p].value.purchasePrice
                   == (if change.purchasePrice.Some? then change.purchasePrice.value else old_.purchasePrice)
              && c.products[p].value.salePrice == (if change.salePrice.Some? then change.salePrice.value else old_.salePrice)
              && c.products[p].value.initialQuantity == old_.initialQuantity + change.addedStock
              && c.products[p].value.remainingQuantity == old_.remainingQuantity + change.addedStock
    ensures HasProduct(b, p) ==>
              && Attempt(b, Trash(p)) == Done(b.(products := b.products[p := Some(b.products[p].value.(trashed := true))]))
              && Attempt(b, Restore(p)) == Done(b.(products := b.products[p := Some(b.products[p].value.(trashed := false))]))
    ensures !HasProduct(b, p) ==>
              Attempt(b, Update(p, change)) == Attempt(b, Trash(p)) == Attempt(b, Restore(p)) == Refused(ProductNotFound)
  {}

  /**
   * A purge deletes the product, freezes its name and cost on its sales that carry no mark, and records
   * an adjustment exactly when its stock and its sales disagree, for the difference.
   */
  lemma PurgeEffect(b: Books, p: nat)
    ensures !HasProduct(b, p) ==> Attempt(b, PermanentDelete(p)) == Refused(ProductNotFound)
    ensures HasProduct(b, p) ==>
              var c := Attempt(b, PermanentDelete(p)).books; var product := b.products[p].value;
              var drift := product.initialQuantity - product.remainingQuantity - Sold(b, p);
              && !HasProduct(c, p) && |c.products| == |b.products| && |c.sales| == |b.sales|
              && (forall q :: 0 <= q < |b.products| && q != p ==> c.products[q] == b.products[q])
              && (forall i :: 0 <= i < |b.sales| ==>
                    if b.sales[i].Some? && b.sales[i].value.productId == p && b.sales[i].value.lastKnownSource.None?
                    then c.sales[i] == Some(b.sales[i].value.(lastKnownName := Some(product.name),
                                                              lastKnownUnitCost := Some(product.purchasePrice),
                                                              lastKnownSource := Some(Purge)))
                    else c.sales[i] == b.sales[i])
              && (drift == 0.0 ==> c.adjustments == b.adjustments)
              && (drift != 0.0 ==> c.adjustments == b.adjustments + [Adjustment(p, product.purchasePrice, drift)])
  {}

  /**
   * A recovery writes what it found, marked as such, on the unmarked sales of a product that is gone;
   * with nothing found, or a product that exists, it writes nothing.
   */
  lemma RecoverEffect(b: Books, p: nat, name: Option<string>, cost: Option<real>)
    ensures var c := Step(b, Recover(p, name, cost));
            && c.products == b.products && c.adjustments == b.adjustments && |c.sales| == |b.sales|
            && (forall i :: 0 <= i < |b.sales| ==>
                  var found := (name.Some? || cost.Some?) && !HasProduct(b, p) && b.sales[i].Some?
                               && b.sales[i].value.productId == p && b.sales[i].value.lastKnownSource.None?;
                  if found
                  then var s := b.sales[i].value;
                       c.sales[i] == Some(s.(lastKnownName := if name.Some? then name else s.lastKnownName,
                                             lastKnownUnitCost := if cost.Some? then cost else s.lastKnownUnitCost,
                                             lastKnownSource := Some(Audit)))
                  else c.sales[i] == b.sales[i])
  {}

  // ----- The services -----

  class Store {
    var products: seq<Option<Product>>
    var sales: seq<Option<Sale>>
    var adjustments: seq<Adjustment>

    ghost function Contents(): Books
      reads this
    {
      Books(products, sales, adjustments)
    }

    constructor ()
      ensures Contents() == EMPTY_BOOKS
    {
      products, sales, adjustments := [], [], [];
    }

    method CreateProduct(name: string, purchasePrice: real, salePrice: real, quantity: real) returns (id: nat)
      modifies this
      ensures id == old(|products|)
      ensures Contents() == ProductCreated(old(Contents()), name, purchasePrice, salePrice, quantity)
    {
      id := |products|;
      products := products + [Some(Product(name, purchasePrice, salePrice, quantity, quantity, false))];
    }

    method UpdateProduct(id: nat, change: ProductChange) returns (error: Option<Error>)
      modifies this`products
      ensures var outcome := ProductUpdated(old(Contents()), id, change);
              && Contents() == (if outcome.Done? then outcome.books else old(Contents()))
              && error == (if outcome.Done? then None else Some(outcome.error))
    {
      if id >= |products| || products[id].None? { return Some(ProductNotFound); }
      var product := products[id].value;
      if change.name.Some? { product := product.(name := change.name.value); }
      if change.purchasePrice.Some? { product := product.(purchasePrice := change.purchasePrice.value); }
      if change.salePrice.Some? { product := product.(salePrice := change.salePrice.value); }
      product := product.(initialQuantity := product.initialQuantity + change.addedStock,
                          remainingQuantity := product.remainingQuantity + change.addedStock);
      products := products[id := Some(product)];
      error := None;
    }

    method SetTrashed(id: nat, trashed: bool) returns (error: Option<Error>)
      modifies this`products
      ensures var outcome := TrashSet(old(Contents()), id, trashed);
              && Contents() == (if outcome.Done? then outcome.books else old(Contents()))
              && error == (if outcome.Done? then None else Some(outcome.error))
    {
      if id >= |products| || products[id].None? { return Some(ProductNotFound); }
      products := products[id := Some(products[id].value.(trashed := trashed))];
      error := None;
    }

    method DecrementStock(id: nat, quantity: real) returns (error: Option<Error>)
      modifies this`products
      ensures var outcome := StockDecremented(old(Contents()), id, quantity);
              && Contents() == (if outcome.Done? then outcome.books else old(Contents()))
              && error == (if outcome.Done? then None else Some(outcome.error))
    {
      if id >= |products| || products[id].None? || products[id].value.trashed {
        return Some(ProductNotFound);
      }
      var product := products[id].value;
      if product.remainingQuantity < quantity {
        return Some(InsufficientStock(product.remainingQuantity));
      }
      products := products[id := Some(product.(remainingQuantity := product.remainingQuantity - quantity))];
      error := None;
    }

    method AdjustStock(id: nat, delta: real) returns (error: Option<Error>)
      modifies this`products
      ensures var outcome := StockAdjusted(old(Contents()), id, delta);
              && Contents() == (if outcome.Done? then outcome.books else old(Contents()))
              && error == (if outcome.Done? then None else Some(outcome.error))
    {
      if id >= |products| || products[id].None? { return None; }
      var product := products[id].value;
      if product.remainingQuantity + delta < 0.0 {
        return Some(InsufficientStock(product.remainingQuantity));
      }
      product := product.(remainingQuantity := product.remainingQuantity + delta);
      products := products[id := Some(product)];
      error := None;
    }

    method CreateSale(input: SaleInput) returns (error: Option<Error>)
      modifies this`products, this`sales
      ensures var outcome := SaleCreated(old(Contents()), input);
              && Contents() == (if outcome.Done? then outcome.books else old(Contents()))
              && error == (if outcome.Done? then None else Some(outcome.error))
    {
      error := DecrementStock(input.productId, input.quantity);
      if error.Some? { return; }
      sales := sales + [Some(NewSale(input, products[input.productId].value.name))];
    }

    /** `scope` restricts to one seller's own sales; another's sale is then as good as absent. */
    method UpdateSale(id: nat, quantity: Option<real>, salePrice: Option<real>, scope: Option<nat>)
      returns (error: Option<Error>)
      modifies this`products, this`sales
      ensures var before := old(Contents());
              var visible := IsSale(before, id) && (scope.Some? ==> scope.value == before.sales[id].value.sellerId);
              var outcome := if visible then SaleCorrected(before, id, quantity, salePrice) else Refused(SaleNotFound);
              && Contents() == (if outcome.Done? then outcome.books else before)
              && error == (if outcome.Done? then None else Some(outcome.error))
    {
      if id >= |sales| || sales[id].None? || (scope.Some? && sales[id].value.sellerId != scope.value) {
        return Some(SaleNotFound);
      }
      var sale := sales[id].value;
      if quantity.Some? && quantity.value != sale.quantity {
        error := AdjustStock(sale.productId, sale.quantity - quantity.value);
        if error.Some? { return; }
        sale := sale.(quantity := quantity.value);
      }
      if salePrice.Some? && salePrice.value != sale.salePrice {
        sale := sale.(salePrice := salePrice.value);
      }
      sales := sales[id := Some(sale)];
      error := None;
    }

    method RemoveSale(id: nat, scope: Option<nat>) returns (error: Option<Error>)
      modifies this`products, this`sales
      ensures var before := old(Contents());
              var visible := IsSale(before, id) && (scope.Some? ==> scope.value == before.sales[id].value.sellerId);
              var outcome := if visible then SaleCancelled(before, id) else Refused(SaleNotFound);
              && Contents() == (if outcome.Done? then outcome.books else before)
              && error == (if outcome.Done? then None else Some(outcome.error))
    {
      if id >= |sales| || sales[id].None? || (scope.Some? && sales[id].value.sellerId != scope.value) {
        return Some(SaleNotFound);
      }
      var sale := sales[id].value;
      error := AdjustStock(sale.productId, sale.quantity);
      if error.Some? { return; }
      sales := sales[id := None];
    }

    method PermanentDelete(id: nat) returns (error: Option<Error>)
      modifies this
      ensures var outcome := Purged(old(Contents()), id);
              && Contents() == (if outcome.Done? then outcome.books else old(Contents()))
              && error == (if outcome.Done? then None else Some(outcome.error))
    {
      if id >= |products| || products[id].None? { return Some(ProductNotFound); }
      var target := products[id].value;
      var units := target.initialQuantity - target.remainingQuantity - Sold(Books(products, sales, adjustments), id);
      products := products[id := None];
      sales := HistoryPreserved(sales, id, target);
      if units != 0.0 {
        adjustments := adjustments + [Adjustment(id, target.purchasePrice, units)];
      }
      error := None;
    }
  }
}
