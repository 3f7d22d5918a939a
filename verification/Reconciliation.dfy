/**
 * The monthly report is written only if its list of sales agrees with the totals and the rankings of
 * the analysis, computed apart. What the check then guarantees about the lines of the report.
 */
module Reconciliation {

  import opened Options
  import Sums

  datatype Sale = Sale(product: nat, seller: nat, quantity: real, price: real)

  datatype Totals = Totals(quantity: real, revenue: real, count: nat)

  datatype Row = Row(id: nat, totals: Totals)

  datatype Grouping = Everything | ByProduct | BySeller

  const NOTHING: Totals := Totals(0.0, 0.0, 0)

  function Plus(a: Totals, b: Totals): Totals {
    Totals(a.quantity + b.quantity, a.revenue + b.revenue, a.count + b.count)
  }

  function Alone(sale: Sale): Totals {
    Totals(sale.quantity, sale.quantity * sale.price, 1)
  }

  function Key(kind: Grouping, sale: Sale): nat {
    match kind
    case Everything => 0
    case ByProduct => sale.product
    case BySeller => sale.seller
  }

  /** The sales of one key, added up. */
  function Of(sales: seq<Sale>, kind: Grouping, k: nat): Totals {
    if |sales| == 0 then NOTHING
    else
      var front := Of(sales[..|sales| - 1], kind, k);
      var last := sales[|sales| - 1];
      if Key(kind, last) == k then Plus(front, Alone(last)) else front
  }

  lemma OfOneMore(sales: seq<Sale>, kind: Grouping)
    requires |sales| > 0
    ensures var front := sales[..|sales| - 1]; var last := sales[|sales| - 1];
            forall k :: Of(sales, kind, k) == if Key(kind, last) == k then Plus(Of(front, kind, k), Alone(last)) else Of(front, kind, k)
  {
    hide Alone, Plus, Key;
  }

  function Keys(sales: seq<Sale>, kind: Grouping): set<nat> {
    set i | 0 <= i < |sales| :: Key(kind, sales[i])
  }

  ghost predicate Tallied(totals: map<nat, Totals>, sales: seq<Sale>, kind: Grouping) {
    && totals.Keys == Keys(sales, kind)
    && forall k :: Of(sales, kind, k) == if k in totals then totals[k] else NOTHING
  }

  lemma TalliedNone(kind: Grouping)
    ensures Tallied(map[], [], kind)
  {}

  lemma TalliedOneMore(totals: map<nat, Totals>, sales: seq<Sale>, kind: Grouping, n: nat)
    requires n < |sales| && Tallied(totals, sales[..n], kind)
    ensures var k := Key(kind, sales[n]); var t := if k in totals then totals[k] else NOTHING;
            Tallied(totals[k := Plus(t, Alone(sales[n]))], sales[..n + 1], kind)
  {
    assert sales[..n + 1][..n] == sales[..n];
    assert Keys(sales[..n + 1], kind) == Keys(sales[..n], kind) + {Key(kind, sales[n])} by {
      hide Of;
      assert forall i :: 0 <= i < n ==> sales[..n][i] == sales[..n + 1][i];
    }
    OfOneMore(sales[..n + 1], kind);
    hide Of, Alone, Plus, Keys, Key;
  }

  /** `totalsBy`: a map filled in one pass. */
  method TotalsBy(sales: seq<Sale>, kind: Grouping) returns (totals: map<nat, Totals>)
    ensures totals.Keys == Keys(sales, kind)
    ensures forall k :: k in totals ==> totals[k] == Of(sales, kind, k)
  {
    hide Of, Alone, Keys;
    totals := map[];
    TalliedNone(kind);
    assert sales[..0] == [];
    for n := 0 to |sales|
      invariant Tallied(totals, sales[..n], kind)
    {
      hide Tallied;
      var k := Key(kind, sales[n]);
      var t := if k in totals then totals[k] else NOTHING;
      TalliedOneMore(totals, sales, kind, n);
      totals := totals[k := Plus(t, Alone(sales[n]))];
    }
    assert sales[..|sales|] == sales;
  }

  // ----- The check -----

  function Abs(x: real): real {
    if x < 0.0 then -x else x
  }

  function Larger(x: real, y: real): real {
    if x < y then y else x
  }

  /** Equal up to a relative error of one millionth. */
  predicate SameAmount(a: real, b: real) {
    Abs(a - b) <= 0.000001 * Larger(1.0, Larger(Abs(a), Abs(b)))
  }

  predicate SameTotals(a: Totals, b: Totals) {
    a.count == b.count && a.quantity == b.quantity && SameAmount(a.revenue, b.revenue)
  }

  ghost predicate RowsAgree(sales: seq<Sale>, kind: Grouping, rows: seq<Row>) {
    forall i :: 0 <= i < |rows| ==>
      rows[i].id in Keys(sales, kind) && SameTotals(Of(sales, kind, rows[i].id), rows[i].totals)
  }

  ghost predicate Consistent(sales: seq<Sale>, overview: Totals, ranking: seq<Row>, sellers: seq<Row>) {
    && SameTotals(Of(sales, Everything, 0), overview)
    && |Keys(sales, ByProduct)| == |ranking|
    && RowsAgree(sales, ByProduct, ranking)
    && RowsAgree(sales, BySeller, sellers)
  }

  method RowsMatch(totals: map<nat, Totals>, rows: seq<Row>) returns (ok: bool)
    ensures ok <==> forall i :: 0 <= i < |rows| ==> rows[i].id in totals && SameTotals(totals[rows[i].id], rows[i].totals)
  {
    for n := 0 to |rows|
      invariant forall i :: 0 <= i < n ==> rows[i].id in totals && SameTotals(totals[rows[i].id], rows[i].totals)
    {
      if rows[n].id !in totals || !SameTotals(totals[rows[n].id], rows[n].totals) {
        return false;
      }
    }
    ok := true;
  }

  method IsConsistent(sales: seq<Sale>, overview: Totals, ranking: seq<Row>, sellers: seq<Row>) returns (ok: bool)
    ensures ok <==> Consistent(sales, overview, ranking, sellers)
  {
    hide SameTotals;
    var all := TotalsBy(sales, Everything);
    NoSaleNoTotal(sales);
    var total := if 0 in all then all[0] else NOTHING;
    if !SameTotals(total, overview) {
      return false;
    }
    var byProduct := TotalsBy(sales, ByProduct);
    if |byProduct| != |ranking| {
      assert |byProduct| == |byProduct.Keys|;
      return false;
    }
    assert |byProduct| == |byProduct.Keys|;
    ok := RowsMatch(byProduct, ranking);
    if !ok {
      return;
    }
    var bySeller := TotalsBy(sales, BySeller);
    ok := RowsMatch(bySeller, sellers);
  }

  lemma NoSaleNoTotal(sales: seq<Sale>)
    ensures 0 !in Keys(sales, Everything) ==> Of(sales, Everything, 0) == NOTHING
  {
    if |sales| > 0 { assert Key(Everything, sales[0]) in Keys(sales, Everything); }
  }

  // ----- What the check demands, told on the list of sales -----

  /** The sale counts in the row: any in the summary, else those of its product or of its seller. */
  predicate Counts(sale: Sale, kind: Grouping, id: nat) {
    match kind
    case Everything => true
    case ByProduct => sale.product == id
    case BySeller => sale.seller == id
  }

  function UnitsAt(sales: seq<Sale>, kind: Grouping, id: nat, i: nat): real {
    if i < |sales| && Counts(sales[i], kind, id) then sales[i].quantity else 0.0
  }

  function RevenueAt(sales: seq<Sale>, kind: Grouping, id: nat, i: nat): real {
    if i < |sales| && Counts(sales[i], kind, id) then sales[i].price * sales[i].quantity else 0.0
  }

  function OneAt(sales: seq<Sale>, kind: Grouping, id: nat, i: nat): real {
    if i < |sales| && Counts(sales[i], kind, id) then 1.0 else 0.0
  }

  function Units(sales: seq<Sale>, kind: Grouping, id: nat): real {
    Sums.Sum(|sales|, (i: nat) => UnitsAt(sales, kind, id, i))
  }

  function Revenue(sales: seq<Sale>, kind: Grouping, id: nat): real {
    Sums.Sum(|sales|, (i: nat) => RevenueAt(sales, kind, id, i))
  }

  function Number(sales: seq<Sale>, kind: Grouping, id: nat): real {
    Sums.Sum(|sales|, (i: nat) => OneAt(sales, kind, id, i))
  }

  /** The totals of a key are the sums over its sales: units, price times quantity, one each. */
  lemma {:induction false} OfIsSum(sales: seq<Sale>, kind: Grouping, id: nat)
    requires kind == Everything ==> id == 0
    ensures var t := Of(sales, kind, id);
            t.quantity == Units(sales, kind, id) && t.revenue == Revenue(sales, kind, id) && t.count as real == Number(sales, kind, id)
  {
    if |sales| > 0 {
      var n := |sales| - 1;
      var front := sales[..n];
      OfIsSum(front, kind, id);
      hide Of, UnitsAt, RevenueAt, OneAt;
      SumsOneMore(sales, kind, id);
      OfLast(sales, kind, id);
    }
  }

  lemma OfLast(sales: seq<Sale>, kind: Grouping, id: nat)
    requires |sales| > 0 && (kind == Everything ==> id == 0)
    ensures var t := Of(sales, kind, id); var n := |sales| - 1; var before := Of(sales[..n], kind, id);
            && t.quantity == before.quantity + UnitsAt(sales, kind, id, n)
            && t.revenue == before.revenue + RevenueAt(sales, kind, id, n)
            && t.count as real == before.count as real + OneAt(sales, kind, id, n)
  {}

  lemma SumsOneMore(sales: seq<Sale>, kind: Grouping, id: nat)
    requires |sales| > 0
    ensures var n := |sales| - 1; var front := sales[..n];
            && Units(sales, kind, id) == Units(front, kind, id) + UnitsAt(sales, kind, id, n)
            && Revenue(sales, kind, id) == Revenue(front, kind, id) + RevenueAt(sales, kind, id, n)
            && Number(sales, kind, id) == Number(front, kind, id) + OneAt(sales, kind, id, n)
  {
    var n := |sales| - 1;
    var front := sales[..n];
    Sums.SumEq(n, (i: nat) => UnitsAt(front, kind, id, i), (i: nat) => UnitsAt(sales, kind, id, i));
    Sums.SumEq(n, (i: nat) => RevenueAt(front, kind, id, i), (i: nat) => RevenueAt(sales, kind, id, i));
    Sums.SumEq(n, (i: nat) => OneAt(front, kind, id, i), (i: nat) => OneAt(sales, kind, id, i));
  }

  /** The row tells the sales of its key: exactly, but for a millionth of the revenue (or of one unit of it). */
  ghost predicate Tells(sales: seq<Sale>, kind: Grouping, id: nat, t: Totals) {
    var revenue := Revenue(sales, kind, id);
    && t.quantity == Units(sales, kind, id) && t.count as real == Number(sales, kind, id)
    && exists bound: real :: OneOf(bound, 1.0, revenue, t.revenue)
         && -bound <= 1_000_000.0 * (revenue - t.revenue) && 1_000_000.0 * (revenue - t.revenue) <= bound
  }

  /** One, or the size of either amount. */
  ghost predicate OneOf(bound: real, one: real, a: real, b: real) {
    bound == one || (bound >= 0.0 && (bound == a || bound == -a || bound == b || bound == -b))
  }

  lemma SameTotalsTell(sales: seq<Sale>, kind: Grouping, id: nat, t: Totals)
    requires kind == Everything ==> id == 0
    ensures SameTotals(Of(sales, kind, id), t) <==> Tells(sales, kind, id, t)
  {
    OfIsSum(sales, kind, id);
    hide Of, Revenue, Units, Number;
    var revenue := Revenue(sales, kind, id);
    var bound := Larger(1.0, Larger(Abs(revenue), Abs(t.revenue)));
    assert OneOf(bound, 1.0, revenue, t.revenue);
    if SameTotals(Of(sales, kind, id), t) {
      assert -bound <= 1_000_000.0 * (revenue - t.revenue) && 1_000_000.0 * (revenue - t.revenue) <= bound;
    }
  }

  /** The row has a sale, and tells its sales. */
  ghost predicate RowTells(sales: seq<Sale>, kind: Grouping, row: Row) {
    (exists i :: 0 <= i < |sales| && Counts(sales[i], kind, row.id)) && Tells(sales, kind, row.id, row.totals)
  }

  /**
   * A report is accepted exactly when the summary tells all the sales, the ranking has as many rows as
   * products were sold, and every row of the ranking and of the sellers has a sale and tells its sales.
   */
  lemma AcceptedExactly(sales: seq<Sale>, overview: Totals, ranking: seq<Row>, sellers: seq<Row>)
    ensures Consistent(sales, overview, ranking, sellers) <==>
            && Tells(sales, Everything, 0, overview)
            && |ranking| == |set i | 0 <= i < |sales| :: sales[i].product|
            && (forall i :: 0 <= i < |ranking| ==> RowTells(sales, ByProduct, ranking[i]))
            && (forall i :: 0 <= i < |sellers| ==> RowTells(sales, BySeller, sellers[i]))
  {
    SameTotalsTell(sales, Everything, 0, overview);
    assert Keys(sales, ByProduct) == set i | 0 <= i < |sales| :: sales[i].product;
    RowsTell(sales, ByProduct, ranking);
    RowsTell(sales, BySeller, sellers);
    hide Keys, RowsAgree, RowTells, Tells, SameTotals, Of;
  }

  lemma RowsTell(sales: seq<Sale>, kind: Grouping, rows: seq<Row>)
    requires kind != Everything
    ensures RowsAgree(sales, kind, rows) <==> forall i :: 0 <= i < |rows| ==> RowTells(sales, kind, rows[i])
  {
    forall i | 0 <= i < |rows|
      ensures RowTells(sales, kind, rows[i]) <==> rows[i].id in Keys(sales, kind) && SameTotals(Of(sales, kind, rows[i].id), rows[i].totals)
    {
      SameTotalsTell(sales, kind, rows[i].id, rows[i].totals);
      hide Tells, SameTotals, Of;
    }
    hide RowTells, SameTotals, Of, Keys;
  }

  // ----- The lines -----

  function Sum(rows: seq<Row>): Totals {
    if |rows| == 0 then NOTHING else Plus(Sum(rows[..|rows| - 1]), rows[|rows| - 1].totals)
  }

  /** The sales whose seller is not ranked: one line of their own. */
  function Orphaned(sales: seq<Sale>, sellers: seq<Row>): seq<Sale> {
    if |sales| == 0 then []
    else
      var last := sales[|sales| - 1];
      Orphaned(sales[..|sales| - 1], sellers) + if Ranked(sellers, last.seller) then [] else [last]
  }

  predicate Ranked(rows: seq<Row>, id: nat) {
    exists i :: 0 <= i < |rows| && rows[i].id == id
  }

  /** `sellerLines`: the ranking, then the orphans if there are any. */
  method SellerLines(sales: seq<Sale>, sellers: seq<Row>) returns (lines: seq<Totals>)
    ensures var orphans := Orphaned(sales, sellers);
            lines == seq(|sellers|, (i: nat) requires i < |sellers| => sellers[i].totals)
                     + if |orphans| > 0 then [Of(orphans, Everything, 0)] else []
  {
    lines := seq(|sellers|, (i: nat) requires i < |sellers| => sellers[i].totals);
    var orphan: seq<Sale> := [];
    for n := 0 to |sales|
      invariant orphan == Orphaned(sales[..n], sellers)
    {
      assert sales[..n + 1][..n] == sales[..n];
      if !Ranked(sellers, sales[n].seller) {
        orphan := orphan + [sales[n]];
      }
    }
    assert sales[..|sales|] == sales;
    if |orphan| > 0 {
      var line := NOTHING;
      for n := 0 to |orphan|
        invariant line == Of(orphan[..n], Everything, 0)
      {
        assert orphan[..n + 1][..n] == orphan[..n];
        line := Plus(line, Alone(orphan[n]));
      }
      assert orphan[..|orphan|] == orphan;
      lines := lines + [line];
    }
  }

  ghost predicate DistinctIds(rows: seq<Row>) {
    forall i, j :: 0 <= i < j < |rows| ==> rows[i].id != rows[j].id
  }

  /** What the rows should hold: the true totals of their keys. */
  function Expected(sales: seq<Sale>, kind: Grouping, rows: seq<Row>): Totals {
    if |rows| == 0 then NOTHING
    else Plus(Expected(sales, kind, rows[..|rows| - 1]), Of(sales, kind, rows[|rows| - 1].id))
  }

  lemma {:induction false} RowsHoldExpected(sales: seq<Sale>, kind: Grouping, rows: seq<Row>)
    requires RowsAgree(sales, kind, rows)
    ensures Sum(rows).count == Expected(sales, kind, rows).count && Sum(rows).quantity == Expected(sales, kind, rows).quantity
  {
    if |rows| > 0 {
      hide SameAmount;
      RowsHoldExpected(sales, kind, rows[..|rows| - 1]);
      assert SameTotals(Of(sales, kind, rows[|rows| - 1].id), rows[|rows| - 1].totals);
    }
  }

  /** One more sale is in at most one row. */
  lemma {:induction false} ExpectedOneMore(sales: seq<Sale>, kind: Grouping, rows: seq<Row>)
    requires |sales| > 0 && DistinctIds(rows)
    ensures var last := sales[|sales| - 1]; var front := sales[..|sales| - 1];
            Expected(sales, kind, rows)
              == if Ranked(rows, Key(kind, last)) then Plus(Expected(front, kind, rows), Alone(last)) else Expected(front, kind, rows)
  {
    if |rows| > 0 {
      var before, row := rows[..|rows| - 1], rows[|rows| - 1];
      var k := Key(kind, sales[|sales| - 1]);
      ExpectedOneMore(sales, kind, before);
      OfOneMore(sales, kind);
      RankedOneMore(rows, k);
      hide Of, Alone, Key;
      assert row.id == k ==> !Ranked(before, k);
    }
  }

  lemma RankedOneMore(rows: seq<Row>, k: nat)
    requires |rows| > 0
    ensures Ranked(rows, k) <==> Ranked(rows[..|rows| - 1], k) || rows[|rows| - 1].id == k
  {
    var before := rows[..|rows| - 1];
    if Ranked(before, k) {
      var i :| 0 <= i < |before| && before[i].id == k;
      assert rows[i].id == k;
    }
    if Ranked(rows, k) && rows[|rows| - 1].id != k {
      var i :| 0 <= i < |rows| && rows[i].id == k;
      assert before[i].id == k;
    }
  }

  lemma PlusMoves(a: Totals, b: Totals, x: Totals)
    ensures Plus(Plus(a, x), b) == Plus(Plus(a, b), x) == Plus(a, Plus(b, x))
  {}

  /** Rows with distinct ids and the sales outside them share out all the sales. */
  lemma {:induction false} RowsAndRest(sales: seq<Sale>, rows: seq<Row>)
    requires DistinctIds(rows)
    ensures Plus(Expected(sales, BySeller, rows), Of(Orphaned(sales, rows), Everything, 0)) == Of(sales, Everything, 0)
  {
    if |sales| == 0 {
      NothingExpected(BySeller, rows);
      assert sales == [];
    } else {
      var front := sales[..|sales| - 1];
      OfOneMore(sales, Everything);
      hide Ranked, Orphaned, Expected, Of, Alone, Plus;
      RowsAndRest(front, rows);
      ExpectedOneMore(sales, BySeller, rows);
      OrphanOneMore(sales, rows);
      PlusMoves(Expected(front, BySeller, rows), Of(Orphaned(front, rows), Everything, 0), Alone(sales[|sales| - 1]));
    }
  }

  lemma OrphanOneMore(sales: seq<Sale>, rows: seq<Row>)
    requires |sales| > 0
    ensures var front := Of(Orphaned(sales[..|sales| - 1], rows), Everything, 0); var last := sales[|sales| - 1];
            Of(Orphaned(sales, rows), Everything, 0) == if Ranked(rows, last.seller) then front else Plus(front, Alone(last))
  {
    var before := Orphaned(sales[..|sales| - 1], rows);
    hide Ranked, Alone, Plus;
    assert (before + [sales[|sales| - 1]])[..|before|] == before;
    assert before + [] == before;
  }

  /** Rows with distinct ids that leave no sale out hold all the sales. */
  lemma {:induction false} RowsHoldAll(sales: seq<Sale>, kind: Grouping, rows: seq<Row>)
    requires DistinctIds(rows) && forall i :: 0 <= i < |sales| ==> Ranked(rows, Key(kind, sales[i]))
    ensures Expected(sales, kind, rows) == Of(sales, Everything, 0)
  {
    if |sales| == 0 {
      NothingExpected(kind, rows);
      assert sales == [];
    } else {
      OfOneMore(sales, Everything);
      hide Ranked, Expected, Of, Alone;
      RowsHoldAll(sales[..|sales| - 1], kind, rows);
      ExpectedOneMore(sales, kind, rows);
    }
  }

  lemma {:induction false} NothingExpected(kind: Grouping, rows: seq<Row>)
    ensures Expected([], kind, rows) == NOTHING
  {
    if |rows| > 0 { NothingExpected(kind, rows[..|rows| - 1]); }
  }

  // ----- Distinct rows cover all keys -----

  function Ids(rows: seq<Row>): set<nat> {
    if |rows| == 0 then {} else Ids(rows[..|rows| - 1]) + {rows[|rows| - 1].id}
  }

  lemma {:induction false} DistinctIdsCount(rows: seq<Row>)
    ensures forall k :: k in Ids(rows) <==> Ranked(rows, k)
    ensures DistinctIds(rows) ==> |Ids(rows)| == |rows|
  {
    if |rows| > 0 {
      var before, row := rows[..|rows| - 1], rows[|rows| - 1];
      DistinctIdsCount(before);
      forall k ensures Ranked(rows, k) <==> Ranked(before, k) || row.id == k { RankedOneMore(rows, k); }
    }
  }

  lemma FullSubset(part: set<nat>, all: set<nat>)
    requires part <= all && |part| == |all|
    ensures part == all
  {
    assert all == part + (all - part);
    assert |all - part| == 0;
  }

  lemma RankingCovers(sales: seq<Sale>, ranking: seq<Row>)
    requires DistinctIds(ranking) && RowsAgree(sales, ByProduct, ranking) && |Keys(sales, ByProduct)| == |ranking|
    ensures forall i :: 0 <= i < |sales| ==> Ranked(ranking, sales[i].product)
  {
    DistinctIdsCount(ranking);
    assert Ids(ranking) <= Keys(sales, ByProduct);
    FullSubset(Ids(ranking), Keys(sales, ByProduct));
    forall i | 0 <= i < |sales| ensures Ranked(ranking, sales[i].product) {
      assert Key(ByProduct, sales[i]) in Keys(sales, ByProduct);
    }
  }

  // ----- Main results -----

  /** The product lines add up to the summary, in units and in number of sales. */
  lemma ProductLinesAddUp(sales: seq<Sale>, overview: Totals, ranking: seq<Row>, sellers: seq<Row>)
    requires Consistent(sales, overview, ranking, sellers) && DistinctIds(ranking)
    ensures Sum(ranking).quantity == overview.quantity && Sum(ranking).count == overview.count
  {
    hide SameAmount, Keys;
    RankingCovers(sales, ranking);
    RowsHoldAll(sales, ByProduct, ranking);
    RowsHoldExpected(sales, ByProduct, ranking);
  }

  /** So do the seller lines with the line of the sales whose seller is unknown. */
  lemma SellerLinesAddUp(sales: seq<Sale>, overview: Totals, ranking: seq<Row>, sellers: seq<Row>)
    requires Consistent(sales, overview, ranking, sellers) && DistinctIds(sellers)
    ensures var rest := Of(Orphaned(sales, sellers), Everything, 0);
            Sum(sellers).quantity + rest.quantity == overview.quantity && Sum(sellers).count + rest.count == overview.count
  {
    hide SameAmount, Keys;
    RowsAndRest(sales, sellers);
    RowsHoldExpected(sales, BySeller, sellers);
  }

  /** Each sale is in exactly one product line, and in one seller line or among the orphans. */
  lemma {:induction false} EverySaleInOneLine(sales: seq<Sale>, overview: Totals, ranking: seq<Row>, sellers: seq<Row>, n: nat)
    requires Consistent(sales, overview, ranking, sellers) && DistinctIds(ranking) && DistinctIds(sellers)
    requires n < |sales|
    ensures exists i :: 0 <= i < |ranking| && ranking[i].id == sales[n].product
                     && forall j :: 0 <= j < |ranking| && ranking[j].id == sales[n].product ==> j == i
    ensures sales[n] in Orphaned(sales, sellers) <==> !Ranked(sellers, sales[n].seller)
    ensures forall i, j :: 0 <= i < |sellers| && 0 <= j < |sellers| && sellers[i].id == sales[n].seller == sellers[j].id ==> i == j
  {
    RankingCovers(sales, ranking);
    var i :| 0 <= i < |ranking| && ranking[i].id == sales[n].product;
    OrphansAre(sales, sellers, sales[n]);
  }

  lemma {:induction false} OrphansAre(sales: seq<Sale>, sellers: seq<Row>, sale: Sale)
    ensures sale in Orphaned(sales, sellers) <==> sale in sales && !Ranked(sellers, sale.seller)
  {
    if |sales| > 0 {
      OrphansAre(sales[..|sales| - 1], sellers, sale);
      assert sales == sales[..|sales| - 1] + [sales[|sales| - 1]];
    }
  }

  /** With a repeated id the check can pass on lines that do not add up. */
  lemma RepeatedIdIsNotSeen() returns (sales: seq<Sale>, overview: Totals, ranking: seq<Row>)
    ensures Consistent(sales, overview, ranking, []) && Sum(ranking).quantity != overview.quantity
  {
    var a, b := Sale(1, 9, 1.0, 1.0), Sale(2, 9, 5.0, 1.0);
    var row := Row(1, Totals(1.0, 1.0, 1));
    sales, overview, ranking := [a, b], Totals(6.0, 6.0, 2), [row, row];
    assert Alone(a) == row.totals && Alone(b) == Totals(5.0, 5.0, 1);
    hide Alone;
    assert Keys(sales, ByProduct) == {1, 2} by {
      assert Key(ByProduct, sales[0]) == 1 && Key(ByProduct, sales[1]) == 2;
    }
    hide Keys;
    assert sales[..1] == [a] && [a][..0] == [];
    assert Of(sales, ByProduct, 1) == row.totals by {
      assert Of([], ByProduct, 1) == NOTHING;
      OfOneMore([a], ByProduct);
      OfOneMore(sales, ByProduct);
      hide Of;
    }
    assert Of(sales, Everything, 0) == overview by {
      assert Of([], Everything, 0) == NOTHING;
      OfOneMore([a], Everything);
      OfOneMore(sales, Everything);
      hide Of;
    }
    hide Of;
    assert Sum(ranking) == Totals(2.0, 2.0, 2) by {
      assert Sum([]) == NOTHING && ranking[..1] == [row] && [row][..0] == [];
      assert Sum(ranking[..1]) == row.totals;
    }
    hide Sum;
  }
}
