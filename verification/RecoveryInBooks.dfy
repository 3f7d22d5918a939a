/** The backfill of lost history and the recovery of the stock ledger are one write, seen twice. */
module RecoveryInBooks {

  import opened Options
  import opened Books
  import Ledger
  import HistoryRecovery

  function ProductOf(organization: nat, p: nat): HistoryRecovery.Product {
    HistoryRecovery.Product(organization, p)
  }

  /** A sale as the backfill sees it; what it knows of its product counts once its source is set. */
  function DocOf(organization: nat, sale: Sale): HistoryRecovery.SaleDoc {
    HistoryRecovery.SaleDoc(
      ProductOf(organization, sale.productId), sale.createdAt, sale.recordedName,
      if sale.lastKnownSource.None? then None
      else Some(HistoryRecovery.LastKnown(sale.lastKnownName, sale.lastKnownUnitCost)))
  }

  /** Name and cost are only ever written together with their source. */
  ghost predicate BlankUntilMarked(b: Books) {
    forall i: nat :: IsSale(b, i) && b.sales[i].value.lastKnownSource.None? ==>
      b.sales[i].value.lastKnownName.None? && b.sales[i].value.lastKnownUnitCost.None?
  }

  /** The ledger's recovery of one product after the other, each with what its traces confirm. */
  function RecoveredUpTo(b: Books, audits: seq<HistoryRecovery.AuditRow>, docs: seq<HistoryRecovery.SaleDoc>,
                         organization: nat, n: nat): Books {
    if n == 0 then b
    else
      var known := HistoryRecovery.KnownOf(audits, docs, ProductOf(organization, n - 1));
      Ledger.AuditHistoryWritten(RecoveredUpTo(b, audits, docs, organization, n - 1), n - 1, known.name, known.unitCost)
  }

  lemma OneProduct(b: Books, p: nat, known: HistoryRecovery.LastKnown, organization: nat, i: nat)
    requires BlankUntilMarked(b) && IsSale(b, i)
    ensures var c := Ledger.AuditHistoryWritten(b, p, known.name, known.unitCost); var sale := b.sales[i].value;
            && c.products == b.products && |c.sales| == |b.sales| && IsSale(c, i) && BlankUntilMarked(c)
            && c.sales[i].value.productId == sale.productId
            && (if sale.productId == p && !HasProduct(b, p) && sale.lastKnownSource.None? && HistoryRecovery.Recoverable(known)
                then DocOf(organization, c.sales[i].value) == HistoryRecovery.Filled(DocOf(organization, sale), known)
                else c.sales[i] == b.sales[i])
  {}

  lemma SeenByBackfill(b: Books, audits: seq<HistoryRecovery.AuditRow>, docs: seq<HistoryRecovery.SaleDoc>,
                       products: set<HistoryRecovery.Product>, organization: nat, sale: Sale)
    requires forall p: nat :: ProductOf(organization, p) in products <==> HasProduct(b, p)
    ensures var known := HistoryRecovery.KnownOf(audits, docs, ProductOf(organization, sale.productId));
            HistoryRecovery.Recovered(audits, docs, products, Some(organization), DocOf(organization, sale))
              == if !HasProduct(b, sale.productId) && sale.lastKnownSource.None? && HistoryRecovery.Recoverable(known)
                 then HistoryRecovery.Filled(DocOf(organization, sale), known) else DocOf(organization, sale)
  {
    hide HistoryRecovery.KnownOf, HistoryRecovery.Recoverable;
    assert ProductOf(organization, sale.productId) in products <==> HasProduct(b, sale.productId);
  }

  /**
   * Sale by sale, recovering every product in the ledger leaves what the backfill leaves: the same
   * sales are filled, with the same name and cost, and no other is touched.
   */
  lemma {:induction false} LedgerRecoversWhatBackfillFills(
      b: Books, audits: seq<HistoryRecovery.AuditRow>, docs: seq<HistoryRecovery.SaleDoc>,
      products: set<HistoryRecovery.Product>, organization: nat, n: nat, i: nat)
    requires BlankUntilMarked(b) && IsSale(b, i)
    requires forall p: nat :: ProductOf(organization, p) in products <==> HasProduct(b, p)
    ensures var c := RecoveredUpTo(b, audits, docs, organization, n); var doc := DocOf(organization, b.sales[i].value);
            && c.products == b.products && |c.sales| == |b.sales| && IsSale(c, i) && BlankUntilMarked(c)
            && c.sales[i].value.productId == b.sales[i].value.productId
            && (b.sales[i].value.productId >= n ==> c.sales[i] == b.sales[i])
            && (b.sales[i].value.productId < n ==>
                  DocOf(organization, c.sales[i].value)
                    == HistoryRecovery.Recovered(audits, docs, products, Some(organization), doc))
  {
    hide HistoryRecovery.KnownOf, HistoryRecovery.Recoverable, HistoryRecovery.Recovered, HistoryRecovery.Filled;
    hide Ledger.AuditHistoryWritten, BlankUntilMarked, DocOf;
    if n > 0 {
      LedgerRecoversWhatBackfillFills(b, audits, docs, products, organization, n - 1, i);
      var before := RecoveredUpTo(b, audits, docs, organization, n - 1);
      OneProduct(before, n - 1, HistoryRecovery.KnownOf(audits, docs, ProductOf(organization, n - 1)), organization, i);
      SeenByBackfill(b, audits, docs, products, organization, b.sales[i].value);
    }
  }
}
