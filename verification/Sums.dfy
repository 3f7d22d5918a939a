/** Finite sums of reals over an index range: the arithmetic behind every `$sum` of the analytics. */
module Sums {

  /** f(0) + ... + f(n-1) */
  function Sum(n: nat, f: nat -> real): real {
    if n == 0 then 0.0 else Sum(n - 1, f) + f(n - 1)
  }

  lemma {:induction false} SumEq(n: nat, f: nat -> real, g: nat -> real)
    requires forall i: nat :: i < n ==> f(i) == g(i)
    ensures Sum(n, f) == Sum(n, g)
  {
    if n > 0 { SumEq(n - 1, f, g); }
  }

  lemma {:induction false} SumZero(n: nat, f: nat -> real)
    requires forall i: nat :: i < n ==> f(i) == 0.0
    ensures Sum(n, f) == 0.0
  {
    if n > 0 { SumZero(n - 1, f); }
  }

  lemma {:induction false} SumAdd(n: nat, f: nat -> real, g: nat -> real, h: nat -> real)
    requires forall i: nat :: i < n ==> h(i) == f(i) + g(i)
    ensures Sum(n, h) == Sum(n, f) + Sum(n, g)
  {
    if n > 0 { SumAdd(n - 1, f, g, h); }
  }

  /** A unit price times a quantity. */
  function Amount(unitPrice: real, quantity: real): real {
    unitPrice * quantity
  }

  lemma AmountAdd(c: real, a: real, b: real)
    ensures Amount(c, a + b) == Amount(c, a) + Amount(c, b)
  {}

  lemma AmountZero(c: real)
    ensures Amount(c, 0.0) == 0.0
  {}

  lemma {:induction false} SumScale(n: nat, c: real, f: nat -> real, h: nat -> real)
    requires forall i: nat :: i < n ==> h(i) == Amount(c, f(i))
    ensures Sum(n, h) == Amount(c, Sum(n, f))
  {
    hide Amount;
    if n == 0 {
      AmountZero(c);
    } else {
      SumScale(n - 1, c, f, h);
      AmountAdd(c, Sum(n - 1, f), f(n - 1));
    }
  }

  /** Two families that differ at one index have sums that differ by that one difference. */
  lemma {:induction false} SumPoint(n: nat, k: nat, f: nat -> real, g: nat -> real)
    requires k < n
    requires forall i: nat :: i < n && i != k ==> f(i) == g(i)
    ensures Sum(n, g) == Sum(n, f) + g(k) - f(k)
  {
    if k == n - 1 { SumEq(n - 1, f, g); } else { SumPoint(n - 1, k, f, g); }
  }

  /** A family that is zero away from k sums to its value at k. */
  lemma {:induction false} SumOneHot(n: nat, k: nat, f: nat -> real)
    requires k < n
    requires forall i: nat :: i < n && i != k ==> f(i) == 0.0
    ensures Sum(n, f) == f(k)
  {
    if k == n - 1 { SumZero(n - 1, f); } else { SumOneHot(n - 1, k, f); }
  }

  /**
   * Grouping: when every item falls in exactly one of the `classes` groups, the sum of the group
   * totals is the sum over all items. `part(k, i)` is what item i brings to group k.
   */
  lemma {:induction false} SumPartition(
      n: nat, classes: nat, classOf: nat -> nat,
      item: nat -> real, part: (nat, nat) -> real, total: nat -> real)
    requires forall i: nat :: i < n ==> classOf(i) < classes
    requires forall k: nat, i: nat :: k < classes && i < n ==> part(k, i) == if classOf(i) == k then item(i) else 0.0
    requires forall k: nat :: k < classes ==> total(k) == Sum(n, (i: nat) => part(k, i))
    ensures Sum(classes, total) == Sum(n, item)
  {
    if n == 0 {
      forall k: nat | k < classes ensures total(k) == 0.0 {}
      SumZero(classes, total);
    } else {
      var before := (k: nat) => Sum(n - 1, (i: nat) => part(k, i));
      var last := (k: nat) => part(k, n - 1);
      SumPartition(n - 1, classes, classOf, item, part, before);
      forall k: nat | k < classes ensures total(k) == before(k) + last(k) {
        SumEq(n - 1, (i: nat) => part(k, i), (i: nat) => part(k, i));
      }
      SumAdd(classes, before, last, total);
      SumOneHot(classes, classOf(n - 1), last);
    }
  }

  lemma {:induction false} SumNonNegative(n: nat, f: nat -> real)
    requires forall i: nat :: i < n ==> f(i) >= 0.0
    ensures Sum(n, f) >= 0.0
    ensures forall i: nat :: i < n ==> f(i) <= Sum(n, f)
  {
    if n > 0 { SumNonNegative(n - 1, f); }
  }

  /** A sum of non-negative terms vanishes exactly when every term does. */
  lemma SumVanishes(n: nat, f: nat -> real)
    requires forall i: nat :: i < n ==> f(i) >= 0.0
    ensures Sum(n, f) == 0.0 <==> forall i: nat :: i < n ==> f(i) == 0.0
  {
    SumNonNegative(n, f);
    if forall i: nat :: i < n ==> f(i) == 0.0 { SumZero(n, f); }
  }
}
