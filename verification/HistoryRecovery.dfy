/**
 * Recovery of the name and the cost of products that were deleted before sales kept them: a fold over
 * dated traces, and the backfill that writes what the fold confirms.
 */
module HistoryRecovery {

  import opened Options

  // ----- What a trace says -----

  /** A value of unknown type in an audit record. */
  datatype Json = Undefined | Text(text: string) | Finite(number: real) | NotFinite | Record(to: Json) | Other

  datatype AuditAction = Created | Deleted | Changed

  datatype Trace = Sale(productName: string) | Audit(action: AuditAction, name: Json, purchasePrice: Json)

  /** What `trim` removes: the white space and the line ends of Unicode. */
  predicate IsSpace(c: char) {
    var code := c as int;
    9 <= code <= 13 || code == 32 || code == 0xA0 || code == 0x1680 || 0x2000 <= code <= 0x200A
    || code == 0x2028 || code == 0x2029 || code == 0x202F || code == 0x205F || code == 0x3000 || code == 0xFEFF
  }

  function TrimEnd(s: string): string {
    if |s| > 0 && IsSpace(s[|s| - 1]) then TrimEnd(s[..|s| - 1]) else s
  }

  function TrimStart(s: string): string {
    if |s| > 0 && IsSpace(s[0]) then TrimStart(s[1..]) else s
  }

  function Trim(s: string): string {
    TrimEnd(TrimStart(s))
  }

  function Trimmed(value: Json): Json {
    if value.Text? then Text(Trim(value.text)) else value
  }

  function ValidName(value: Json): Option<string> {
    if value.Text? && |Trim(value.text)| > 0 then Some(value.text) else None
  }

  function ValidCost(value: Json): Option<real> {
    if value.Finite? && value.number >= 0.0 then Some(value.number) else None
  }

  function ToValue(value: Json): Json {
    if value.Record? then value.to else Undefined
  }

  /** A value that was stored for certain, one that may have been, or nothing usable. */
  datatype Said<T> = Confirms(value: T) | Attempts(value: T) | Silent

  function Confirmed<T>(value: Option<T>): Said<T> {
    if value.Some? then Confirms(value.value) else Silent
  }

  function Attempted<T>(value: Option<T>): Said<T> {
    if value.Some? then Attempts(value.value) else Silent
  }

  function OnlyText(value: Json): Json {
    if value.Text? then Text(Trim(value.text)) else Undefined
  }

  function NameSaid(trace: Trace): Said<string> {
    match trace
    case Sale(productName) => Confirmed(ValidName(Text(Trim(productName))))
    case Audit(Created, name, _) => Confirmed(ValidName(OnlyText(name)))
    case Audit(Deleted, name, _) => Confirmed(ValidName(OnlyText(name)))
    case Audit(Changed, name, _) => Attempted(ValidName(Trimmed(ToValue(name))))
  }

  function CostSaid(trace: Trace): Said<real> {
    match trace
    case Sale(_) => Silent
    case Audit(Created, _, price) => Confirmed(ValidCost(price))
    case Audit(Deleted, _, _) => Silent
    case Audit(Changed, _, price) => Attempted(ValidCost(ToValue(price)))
  }

  function Names(traces: seq<Trace>): seq<Said<string>> {
    seq(|traces|, (i: nat) requires i < |traces| => NameSaid(traces[i]))
  }

  function Costs(traces: seq<Trace>): seq<Said<real>> {
    seq(|traces|, (i: nat) requires i < |traces| => CostSaid(traces[i]))
  }

  // ----- The rule, without the fold -----

  /** The last confirmed value, unless a different one was attempted after it. */
  ghost predicate Recovers<T(!new)>(said: seq<Said<T>>, v: T) {
    exists i :: 0 <= i < |said| && LastConfirmed(said, i) && said[i].value == v
             && forall j :: i < j < |said| && said[j].Attempts? ==> said[j].value == v
  }

  ghost predicate LastConfirmed<T(!new)>(said: seq<Said<T>>, i: nat)
    requires i < |said|
  {
    said[i].Confirms? && forall j :: i < j < |said| ==> !said[j].Confirms?
  }

  // ----- The fold -----

  datatype Field<T> = Field(value: Option<T>, uncertain: bool)

  function Heard<T(==)>(f: Field<T>, said: Said<T>): Field<T> {
    match said
    case Confirms(v) => Field(Some(v), false)
    case Attempts(v) => if f.value != Some(v) then f.(uncertain := true) else f
    case Silent => f
  }

  function Fold<T(==)>(said: seq<Said<T>>): Field<T> {
    if |said| == 0 then Field(None, false) else Heard(Fold(said[..|said| - 1]), said[|said| - 1])
  }

  function Result<T>(f: Field<T>): Option<T> {
    if f.uncertain then None else f.value
  }

  lemma {:induction false} FoldValue<T(!new)>(said: seq<Said<T>>)
    ensures Fold(said).value.None? ==> forall i :: 0 <= i < |said| ==> !said[i].Confirms?
    ensures Fold(said).value.Some? ==> exists i :: 0 <= i < |said| && LastConfirmed(said, i) && said[i].value == Fold(said).value.value
  {
    if |said| > 0 {
      var front, n := said[..|said| - 1], |said| - 1;
      FoldValue(front);
      if said[n].Confirms? {
        assert LastConfirmed(said, n);
      } else if Fold(front).value.Some? {
        var i :| 0 <= i < |front| && LastConfirmed(front, i) && front[i].value == Fold(front).value.value;
        assert LastConfirmed(said, i);
      }
    }
  }

  /** Doubt means: after the last confirmed value something else was attempted. */
  lemma {:induction false} FoldDoubt<T(!new)>(said: seq<Said<T>>, i: nat)
    requires i < |said| && LastConfirmed(said, i)
    ensures Fold(said).value == Some(said[i].value)
    ensures Fold(said).uncertain <==> exists j :: i < j < |said| && said[j].Attempts? && said[j].value != said[i].value
  {
    var n := |said| - 1;
    if i < n {
      var front := said[..n];
      assert LastConfirmed(front, i);
      FoldDoubt(front, i);
      if Fold(front).uncertain {
        var j :| i < j < n && front[j].Attempts? && front[j].value != front[i].value;
        assert said[j].Attempts? && said[j].value != said[i].value;
      }
      if j :| i < j < |said| && said[j].Attempts? && said[j].value != said[i].value {
        assert j < n ==> front[j].Attempts? && front[j].value != front[i].value;
      }
    }
  }

  lemma OneLastConfirmed<T(!new)>(said: seq<Said<T>>, i: nat, j: nat)
    requires i < |said| && j < |said| && LastConfirmed(said, i) && LastConfirmed(said, j)
    ensures i == j
  {}

  /** For any list of traces the fold returns a value exactly when the rule recovers it. */
  lemma FoldRecovers<T(!new)>(said: seq<Said<T>>, v: T)
    ensures Result(Fold(said)) == Some(v) <==> Recovers(said, v)
  {
    FoldValue(said);
    if Fold(said).value.Some? {
      var i :| 0 <= i < |said| && LastConfirmed(said, i) && said[i].value == Fold(said).value.value;
      FoldDoubt(said, i);
      hide Fold;
      if Recovers(said, v) {
        var k :| 0 <= k < |said| && LastConfirmed(said, k) && said[k].value == v
                 && forall j :: k < j < |said| && said[j].Attempts? ==> said[j].value == v;
        OneLastConfirmed(said, i, k);
      }
    }
  }

  // ----- The fold as the code runs it -----

  class ConfirmedField<T(==)> {
    var value: Option<T>
    var uncertain: bool

    constructor ()
      ensures Contents() == Field(None, false)
    {
      value, uncertain := None, false;
    }

    ghost function Contents(): Field<T>
      reads this
    {
      Field(value, uncertain)
    }

    method Confirm(candidate: Option<T>)
      modifies this
      ensures Contents() == Heard(old(Contents()), Confirmed(candidate))
    {
      if candidate.None? {
        return;
      }
      value := candidate;
      uncertain := false;
    }

    method Attempt(candidate: Option<T>)
      modifies this
      ensures Contents() == Heard(old(Contents()), Attempted(candidate))
    {
      if candidate.Some? && candidate != value {
        uncertain := true;
      }
    }
  }

  datatype LastKnown = LastKnown(name: Option<string>, unitCost: Option<real>)

  function Known(traces: seq<Trace>): LastKnown {
    LastKnown(Result(Fold(Names(traces))), Result(Fold(Costs(traces))))
  }

  lemma OneTraceMore(traces: seq<Trace>, n: nat)
    requires n < |traces|
    ensures Fold(Names(traces[..n + 1])) == Heard(Fold(Names(traces[..n])), NameSaid(traces[n]))
    ensures Fold(Costs(traces[..n + 1])) == Heard(Fold(Costs(traces[..n])), CostSaid(traces[n]))
  {
    assert Names(traces[..n + 1])[..n] == Names(traces[..n]);
    assert Costs(traces[..n + 1])[..n] == Costs(traces[..n]);
  }

  method ConfirmedLastKnown(traces: seq<Trace>) returns (known: LastKnown)
    ensures known == Known(traces)
  {
    var name := new ConfirmedField<string>();
    var cost := new ConfirmedField<real>();
    for n := 0 to |traces|
      invariant name != (cost as object)
      invariant fresh(name) && fresh(cost)
      invariant name.Contents() == Fold(Names(traces[..n]))
      invariant cost.Contents() == Fold(Costs(traces[..n]))
    {
      OneTraceMore(traces, n);
      hide Fold;
      match traces[n]
      case Sale(productName) => name.Confirm(ValidName(Text(Trim(productName))));
      case Audit(Created, saidName, price) =>
        name.Confirm(ValidName(OnlyText(saidName)));
        cost.Confirm(ValidCost(price));
      case Audit(Deleted, saidName, _) => name.Confirm(ValidName(OnlyText(saidName)));
      case Audit(Changed, saidName, price) =>
        name.Attempt(ValidName(Trimmed(ToValue(saidName))));
        cost.Attempt(ValidCost(ToValue(price)));
    }
    assert traces[..|traces|] == traces;
    known := LastKnown(if name.uncertain then None else name.value, if cost.uncertain then None else cost.value);
  }

  // ----- What each kind of trace is worth -----

  /** Tab to carriage return, space, no-break space, and the wider ones up to the byte order mark. */
  const WHITE: set<int> := {9, 10, 11, 12, 13, 32, 160, 5760, 8192, 8193, 8194, 8195, 8196, 8197, 8198, 8199, 8200, 8201,
                            8202, 8232, 8233, 8239, 8287, 12288, 65279}

  /** `v` is what is left of `s` without the white space around it, and something is left. */
  ghost predicate Stripped(s: string, v: string) {
    exists i: nat, j: nat :: StrippedAt(s, v, i, j)
  }

  ghost predicate StrippedAt(s: string, v: string, i: nat, j: nat) {
    && i < j <= |s| && v == s[i..j] && s[i] as int !in WHITE && s[j - 1] as int !in WHITE
    && (forall k :: 0 <= k < i ==> s[k] as int in WHITE)
    && (forall k :: j <= k < |s| ==> s[k] as int in WHITE)
  }

  lemma {:induction false} TrimEndStrips(s: string) returns (j: nat)
    ensures j <= |s| && TrimEnd(s) == s[..j] && (j > 0 ==> s[j - 1] as int !in WHITE)
    ensures forall k :: j <= k < |s| ==> s[k] as int in WHITE
  {
    if |s| > 0 && IsSpace(s[|s| - 1]) {
      j := TrimEndStrips(s[..|s| - 1]);
      assert forall k :: 0 <= k < |s| - 1 ==> s[..|s| - 1][k] == s[k];
    } else {
      j := |s|;
    }
  }

  lemma {:induction false} TrimStartStrips(s: string) returns (i: nat)
    ensures i <= |s| && TrimStart(s) == s[i..] && (i < |s| ==> s[i] as int !in WHITE)
    ensures forall k :: 0 <= k < i ==> s[k] as int in WHITE
  {
    if |s| > 0 && IsSpace(s[0]) {
      i := TrimStartStrips(s[1..]);
      assert s[1..][i..] == s[i + 1..];
      assert forall k :: 0 < k < |s| ==> s[1..][k - 1] == s[k];
      i := i + 1;
    } else {
      i := 0;
    }
  }

  /** Trimming strips exactly the white space on both sides. */
  lemma TrimIsStripped(s: string, v: string)
    ensures |v| > 0 && v == Trim(s) <==> Stripped(s, v)
  {
    var i := TrimStartStrips(s);
    var t := TrimStart(s);
    var j := TrimEndStrips(t);
    assert Trim(s) == t[..j] == s[i..i + j];
    assert forall k :: 0 <= k < |t| ==> t[k] == s[i + k];
    hide TrimEnd, TrimStart, Trim;
    if j > 0 {
      assert t[j - 1] == s[i + j - 1];
      assert s[i] as int !in WHITE;
      forall k | i + j <= k < |s| ensures s[k] as int in WHITE { assert s[k] == t[k - i]; }
      assert StrippedAt(s, Trim(s), i, i + j);
    }
    if Stripped(s, v) {
      var a: nat, b: nat :| StrippedAt(s, v, a, b);
      OneStripping(s, a, b, i, i + j);
    }
  }

  lemma OneStripping(s: string, a: nat, b: nat, i: nat, j: nat)
    requires a < b <= |s| && s[a] as int !in WHITE && s[b - 1] as int !in WHITE
    requires forall k :: 0 <= k < a ==> s[k] as int in WHITE
    requires forall k :: b <= k < |s| ==> s[k] as int in WHITE
    requires i <= j <= |s| && (i < |s| ==> s[i] as int !in WHITE) && (i < j ==> s[j - 1] as int !in WHITE)
    requires forall k :: 0 <= k < i ==> s[k] as int in WHITE
    requires forall k :: j <= k < |s| ==> s[k] as int in WHITE
    ensures a == i && b == j
  {
  }

  /** A recorded sale, a creation and a deletion tell a name for certain, when it is a text that says something. */
  ghost predicate TellsName(trace: Trace, v: string) {
    match trace
    case Sale(productName) => Stripped(productName, v)
    case Audit(Created, name, _) => name.Text? && Stripped(name.text, v)
    case Audit(Deleted, name, _) => name.Text? && Stripped(name.text, v)
    case Audit(Changed, _, _) => false
  }

  /** A change tells the name it set out to write, which may not have been stored. */
  ghost predicate ProposesName(trace: Trace, v: string) {
    trace.Audit? && trace.action == Changed && trace.name.Record? && trace.name.to.Text? && Stripped(trace.name.to.text, v)
  }

  /** A creation tells the cost for certain, when it is a number and not negative. */
  ghost predicate TellsCost(trace: Trace, v: real) {
    trace.Audit? && trace.action == Created && trace.purchasePrice == Finite(v) && v >= 0.0
  }

  ghost predicate ProposesCost(trace: Trace, v: real) {
    trace.Audit? && trace.action == Changed && trace.purchasePrice == Record(Finite(v)) && v >= 0.0
  }

  lemma NameSaidMeans(trace: Trace, v: string)
    ensures NameSaid(trace) == Confirms(v) <==> TellsName(trace, v)
    ensures NameSaid(trace) == Attempts(v) <==> ProposesName(trace, v)
  {
    var text := match trace
                case Sale(productName) => productName
                case Audit(Changed, name, _) => if name.Record? && name.to.Text? then name.to.text else ""
                case Audit(_, name, _) => if name.Text? then name.text else "";
    TrimIsStripped(text, v);
    TrimTwice(text);
    TrimTwice("");
    NothingStripped(v);
    hide Trim, Stripped;
  }

  lemma NothingStripped(v: string)
    ensures !Stripped("", v)
  {}

  lemma TrimTwice(s: string)
    ensures Trim(Trim(s)) == Trim(s)
  {
    var t := Trim(s);
    if |t| > 0 {
      TrimIsStripped(s, t);
      var i: nat, j: nat :| StrippedAt(s, t, i, j);
      assert t[0] == s[i] && t[|t| - 1] == s[j - 1];
      assert StrippedAt(t, t, 0, |t|);
      TrimIsStripped(t, t);
    }
  }

  lemma CostSaidMeans(trace: Trace, v: real)
    ensures CostSaid(trace) == Confirms(v) <==> TellsCost(trace, v)
    ensures CostSaid(trace) == Attempts(v) <==> ProposesCost(trace, v)
  {}

  ghost predicate Told<T(!new)>(said: seq<Said<T>>, i: int, v: T) {
    && 0 <= i < |said| && said[i] == Confirms(v)
    && forall j, x :: i < j < |said| ==> said[j] != Confirms(x) && (said[j] == Attempts(x) ==> x == v)
  }

  lemma RecoversWhatIsTold<T(!new)>(said: seq<Said<T>>, v: T)
    ensures Recovers(said, v) <==> exists i :: Told(said, i, v)
  {
    if Recovers(said, v) {
      var i :| 0 <= i < |said| && LastConfirmed(said, i) && said[i].value == v
               && forall j :: i < j < |said| && said[j].Attempts? ==> said[j].value == v;
      assert Told(said, i, v);
    }
    if i :| Told(said, i, v) {
      forall j | i < j < |said| ensures !said[j].Confirms? && (said[j].Attempts? ==> said[j].value == v) {
        assert said[j] != Confirms(match said[j] case Confirms(x) => x case Attempts(x) => x case Silent => v);
        assert said[j].Attempts? ==> said[j] == Attempts(said[j].value);
      }
      assert LastConfirmed(said, i);
    }
  }

  /** Trace i tells this name, no later trace tells one, and none proposes another. */
  ghost predicate LastTold(traces: seq<Trace>, i: int, v: string) {
    && 0 <= i < |traces| && TellsName(traces[i], v)
    && forall j, x :: i < j < |traces| ==> !TellsName(traces[j], x) && (ProposesName(traces[j], x) ==> x == v)
  }

  ghost predicate LastCosted(traces: seq<Trace>, i: int, v: real) {
    && 0 <= i < |traces| && TellsCost(traces[i], v)
    && forall j, x :: i < j < |traces| ==> !TellsCost(traces[j], x) && (ProposesCost(traces[j], x) ==> x == v)
  }

  lemma ToldName(traces: seq<Trace>, i: int, v: string)
    ensures Told(Names(traces), i, v) <==> LastTold(traces, i, v)
  {
    hide NameSaid, TellsName, ProposesName;
    var said := Names(traces);
    if 0 <= i < |traces| { NameSaidMeans(traces[i], v); }
    if Told(said, i, v) {
      forall j, x | i < j < |traces| ensures !TellsName(traces[j], x) && (ProposesName(traces[j], x) ==> x == v) {
        NameSaidMeans(traces[j], x);
        assert said[j] != Confirms(x) && (said[j] == Attempts(x) ==> x == v);
      }
    }
    if LastTold(traces, i, v) {
      forall j, x | i < j < |said| ensures said[j] != Confirms(x) && (said[j] == Attempts(x) ==> x == v) {
        NameSaidMeans(traces[j], x);
        assert !TellsName(traces[j], x);
      }
    }
  }

  lemma ToldCost(traces: seq<Trace>, i: int, v: real)
    ensures Told(Costs(traces), i, v) <==> LastCosted(traces, i, v)
  {
    forall j, x | 0 <= j < |traces|
      ensures Costs(traces)[j] == Confirms(x) <==> TellsCost(traces[j], x)
      ensures Costs(traces)[j] == Attempts(x) <==> ProposesCost(traces[j], x)
    {
      CostSaidMeans(traces[j], x);
    }
    hide CostSaid, TellsCost, ProposesCost;
  }

  /**
   * The name recovered from any traces: the last one told for certain, unless a later change proposed
   * another.
   */
  lemma NameKnownExactly(traces: seq<Trace>, v: string)
    ensures Known(traces).name == Some(v) <==> exists i :: LastTold(traces, i, v)
  {
    FoldRecovers(Names(traces), v);
    RecoversWhatIsTold(Names(traces), v);
    forall i ensures Told(Names(traces), i, v) <==> LastTold(traces, i, v) { ToldName(traces, i, v); }
    hide Fold, Told, LastTold, Recovers, Names;
  }

  /** And the cost, from creations and changes of the price alone. */
  lemma CostKnownExactly(traces: seq<Trace>, v: real)
    ensures Known(traces).unitCost == Some(v) <==> exists i :: LastCosted(traces, i, v)
  {
    FoldRecovers(Costs(traces), v);
    RecoversWhatIsTold(Costs(traces), v);
    forall i ensures Told(Costs(traces), i, v) <==> LastCosted(traces, i, v) { ToldCost(traces, i, v); }
    hide Fold, Told, LastCosted, Recovers, Costs;
  }

  // ----- The backfill -----

  datatype Product = Product(organization: nat, id: nat)

  datatype SaleDoc = SaleDoc(product: Product, createdAt: int, productName: Option<string>, lastKnown: Option<LastKnown>)

  datatype AuditRow = AuditRow(product: Product, createdAt: int, trace: Trace)

  /** At one instant the names sales recorded come before audit records: doubt comes last. */
  datatype Dated = Dated(at: int, rank: nat, trace: Trace)

  predicate Before(a: Dated, b: Dated) {
    a.at < b.at || (a.at == b.at && a.rank <= b.rank)
  }

  function Placed(sorted: seq<Dated>, d: Dated): seq<Dated> {
    if |sorted| > 0 && !Before(sorted[|sorted| - 1], d)
    then Placed(sorted[..|sorted| - 1], d) + [sorted[|sorted| - 1]]
    else sorted + [d]
  }

  function FromAudits(audits: seq<AuditRow>, p: Product): seq<Dated> {
    if |audits| == 0 then []
    else
      var last := audits[|audits| - 1];
      if last.product == p then Placed(FromAudits(audits[..|audits| - 1], p), Dated(last.createdAt, 1, last.trace))
      else FromAudits(audits[..|audits| - 1], p)
  }

  function WithSales(dated: seq<Dated>, sales: seq<SaleDoc>, p: Product): seq<Dated> {
    if |sales| == 0 then dated
    else
      var last := sales[|sales| - 1];
      var before := WithSales(dated, sales[..|sales| - 1], p);
      if last.product == p && last.productName.Some?
      then Placed(before, Dated(last.createdAt, 0, Sale(last.productName.value)))
      else before
  }

  function TracesOf(audits: seq<AuditRow>, sales: seq<SaleDoc>, p: Product): seq<Trace> {
    var dated := WithSales(FromAudits(audits, p), sales, p);
    seq(|dated|, (i: nat) requires i < |dated| => dated[i].trace)
  }

  function KnownOf(audits: seq<AuditRow>, sales: seq<SaleDoc>, p: Product): LastKnown {
    Known(TracesOf(audits, sales, p))
  }

  predicate Recoverable(known: LastKnown) {
    known.name.Some? || known.unitCost.Some?
  }

  /** A sale without history whose product is gone from its own organisation. */
  predicate Orphan(sale: SaleDoc, products: set<Product>, scope: Option<nat>) {
    sale.lastKnown.None? && sale.product !in products && (scope.None? || scope == Some(sale.product.organization))
  }

  function Filled(sale: SaleDoc, known: LastKnown): SaleDoc {
    sale.(lastKnown := Some(known))
  }

  /** What an applied backfill leaves in place of one sale. */
  function Recovered(audits: seq<AuditRow>, sales: seq<SaleDoc>, products: set<Product>, scope: Option<nat>, sale: SaleDoc): SaleDoc {
    var known := KnownOf(audits, sales, sale.product);
    if Orphan(sale, products, scope) && Recoverable(known) then Filled(sale, known) else sale
  }

  function Backfilled(audits: seq<AuditRow>, sales: seq<SaleDoc>, products: set<Product>, scope: Option<nat>): seq<SaleDoc> {
    seq(|sales|, (i: nat) requires i < |sales| => Recovered(audits, sales, products, scope, sales[i]))
  }

  // ----- The order of the traces -----

  /** By date; at one instant the names of sales come first. */
  ghost predicate InOrder(dated: seq<Dated>) {
    forall i, j :: 0 <= i < j < |dated| ==>
      dated[i].at < dated[j].at || (dated[i].at == dated[j].at && dated[i].rank <= dated[j].rank)
  }

  lemma {:induction false} PlacedSame(sorted: seq<Dated>, d: Dated)
    ensures multiset(Placed(sorted, d)) == multiset(sorted) + multiset{d}
    ensures forall x :: x in Placed(sorted, d) ==> x in sorted || x == d
  {
    if |sorted| > 0 && !Before(sorted[|sorted| - 1], d) {
      assert sorted == sorted[..|sorted| - 1] + [sorted[|sorted| - 1]];
      PlacedSame(sorted[..|sorted| - 1], d);
    }
  }

  lemma InOrderOneMore(dated: seq<Dated>, d: Dated)
    requires InOrder(dated) && forall x :: x in dated ==> Before(x, d)
    ensures InOrder(dated + [d])
  {
    forall i | 0 <= i < |dated| ensures Before(dated[i], d) { assert dated[i] in dated; }
  }

  lemma {:induction false} PlacedInOrder(sorted: seq<Dated>, d: Dated)
    requires InOrder(sorted)
    ensures InOrder(Placed(sorted, d))
    ensures multiset(Placed(sorted, d)) == multiset(sorted) + multiset{d}
  {
    PlacedSame(sorted, d);
    if |sorted| > 0 {
      var front, last := sorted[..|sorted| - 1], sorted[|sorted| - 1];
      assert forall x :: x in front ==> Before(x, last);
      if !Before(last, d) {
        PlacedInOrder(front, d);
        PlacedSame(front, d);
        hide InOrder;
        InOrderOneMore(Placed(front, d), last);
      } else {
        assert forall x :: x in sorted ==> x in front || x == last;
        hide InOrder;
        InOrderOneMore(sorted, d);
      }
    }
  }

  /** The audit records of a product, and the names its sales recorded, each with its date. */
  function AuditTraces(audits: seq<AuditRow>, p: Product): seq<Dated> {
    if |audits| == 0 then []
    else
      var last := audits[|audits| - 1];
      AuditTraces(audits[..|audits| - 1], p) + if last.product == p then [Dated(last.createdAt, 1, last.trace)] else []
  }

  function SaleTraces(sales: seq<SaleDoc>, p: Product): seq<Dated> {
    if |sales| == 0 then []
    else
      var last := sales[|sales| - 1];
      SaleTraces(sales[..|sales| - 1], p)
      + if last.product == p && last.productName.Some? then [Dated(last.createdAt, 0, Sale(last.productName.value))] else []
  }

  lemma {:induction false} AuditsInOrder(audits: seq<AuditRow>, p: Product)
    ensures InOrder(FromAudits(audits, p)) && multiset(FromAudits(audits, p)) == multiset(AuditTraces(audits, p))
  {
    if |audits| > 0 {
      var front, last := audits[..|audits| - 1], audits[|audits| - 1];
      AuditsInOrder(front, p);
      if last.product == p { PlacedInOrder(FromAudits(front, p), Dated(last.createdAt, 1, last.trace)); }
    }
  }

  /**
   * What is folded for a product: every audit record of it and every name its sales recorded, none of
   * another product, in the order of their dates, sales before records of the same instant.
   */
  lemma {:induction false} TracesInOrder(audits: seq<AuditRow>, sales: seq<SaleDoc>, p: Product)
    ensures var dated := WithSales(FromAudits(audits, p), sales, p);
            && InOrder(dated) && multiset(dated) == multiset(AuditTraces(audits, p)) + multiset(SaleTraces(sales, p))
            && |TracesOf(audits, sales, p)| == |dated|
            && forall i :: 0 <= i < |dated| ==> TracesOf(audits, sales, p)[i] == dated[i].trace
  {
    hide InOrder, Placed, FromAudits, AuditTraces;
    if |sales| == 0 {
      AuditsInOrder(audits, p);
    } else {
      var front, last := sales[..|sales| - 1], sales[|sales| - 1];
      TracesInOrder(audits, front, p);
      if last.product == p && last.productName.Some? {
        PlacedInOrder(WithSales(FromAudits(audits, p), front, p), Dated(last.createdAt, 0, Sale(last.productName.value)));
      }
    }
  }

  /** The two lists hold the same sales, but for their history. */
  ghost predicate SameButHistory(a: seq<SaleDoc>, b: seq<SaleDoc>) {
    |a| == |b| && forall i :: 0 <= i < |a| ==> a[i].(lastKnown := None) == b[i].(lastKnown := None)
  }

  lemma {:induction false} SameTraces(dated: seq<Dated>, a: seq<SaleDoc>, b: seq<SaleDoc>, p: Product)
    requires SameButHistory(a, b)
    ensures WithSales(dated, a, p) == WithSales(dated, b, p)
  {
    if |a| > 0 {
      var n := |a| - 1;
      assert a[n].(lastKnown := None) == b[n].(lastKnown := None);
      assert SameButHistory(a[..n], b[..n]);
      SameTraces(dated, a[..n], b[..n], p);
    }
  }

  lemma SameKnown(audits: seq<AuditRow>, a: seq<SaleDoc>, b: seq<SaleDoc>, p: Product)
    requires SameButHistory(a, b)
    ensures KnownOf(audits, a, p) == KnownOf(audits, b, p)
  {
    SameTraces(FromAudits(audits, p), a, b, p);
  }

  function Orphans(sales: seq<SaleDoc>, products: set<Product>, scope: Option<nat>): set<nat> {
    set i: nat | i < |sales| && Orphan(sales[i], products, scope)
  }

  function Recoverables(audits: seq<AuditRow>, sales: seq<SaleDoc>, products: set<Product>, scope: Option<nat>): set<nat> {
    set i: nat | i < |sales| && Orphan(sales[i], products, scope) && Recoverable(KnownOf(audits, sales, sales[i].product))
  }

  lemma BackfillKeepsSales(audits: seq<AuditRow>, sales: seq<SaleDoc>, products: set<Product>, scope: Option<nat>)
    ensures SameButHistory(Backfilled(audits, sales, products, scope), sales)
  {
    hide KnownOf, Recoverable, Orphan;
  }

  /** A second run finds nothing left to write: what is still without history has nothing confirmed. */
  lemma SecondRunChangesNothing(audits: seq<AuditRow>, sales: seq<SaleDoc>, products: set<Product>, scope: Option<nat>)
    ensures var after := Backfilled(audits, sales, products, scope);
            && Recoverables(audits, after, products, scope) == {}
            && Backfilled(audits, after, products, scope) == after
            && Orphans(after, products, scope) == Orphans(sales, products, scope) - Recoverables(audits, sales, products, scope)
  {
    var after := Backfilled(audits, sales, products, scope);
    BackfillKeepsSales(audits, sales, products, scope);
    forall p ensures KnownOf(audits, after, p) == KnownOf(audits, sales, p) {
      SameKnown(audits, after, sales, p);
    }
    hide KnownOf, Recoverable;
    forall i | 0 <= i < |after| ensures !(Orphan(after[i], products, scope) && Recoverable(KnownOf(audits, after, after[i].product))) {
      assert after[i].(lastKnown := None) == sales[i].(lastKnown := None);
    }
  }

  /**
   * A sale is written exactly when it has no history, its product is gone from its organisation, the
   * run is not restricted to another one, and a name or a cost is known; and then with both of these.
   * A sale that has a history keeps it, and no other field is ever written.
   */
  lemma FrozenSalesAreKept(audits: seq<AuditRow>, sales: seq<SaleDoc>, products: set<Product>, scope: Option<nat>, i: nat)
    requires i < |sales|
    ensures var after := Backfilled(audits, sales, products, scope)[i]; var known := KnownOf(audits, sales, sales[i].product);
            after == if sales[i].lastKnown.None? && sales[i].product !in products
                        && (scope.Some? ==> scope.value == sales[i].product.organization)
                        && (known.name.Some? || known.unitCost.Some?)
                     then sales[i].(lastKnown := Some(known)) else sales[i]
  {
    hide KnownOf;
  }

  /** Sales left untouched, sales left without a name, sales left without a cost. */
  datatype Lists = Lists(unrecoverable: set<nat>, nameUnknown: set<nat>, costUnknown: set<nat>)

  datatype Report = Report(candidates: nat, recoverable: nat, unrecoverable: nat, updated: nat, lists: Lists)

  /** The orphans of some products, listed by what is known of each. */
  function ListsAmong(audits: seq<AuditRow>, sales: seq<SaleDoc>, orphans: set<nat>, among: set<Product>): Lists {
    Lists(set i | i in orphans && i < |sales| && sales[i].product in among && !Recoverable(KnownOf(audits, sales, sales[i].product)),
          set i | i in orphans && i < |sales| && sales[i].product in among && KnownOf(audits, sales, sales[i].product).name.None?,
          set i | i in orphans && i < |sales| && sales[i].product in among && KnownOf(audits, sales, sales[i].product).unitCost.None?)
  }

  function Listed(lists: Lists, ids: set<nat>, known: LastKnown): Lists {
    Lists(lists.unrecoverable + (if Recoverable(known) then {} else ids),
          lists.nameUnknown + (if known.name.None? then ids else {}),
          lists.costUnknown + (if known.unitCost.None? then ids else {}))
  }

  lemma ListsOneMore(audits: seq<AuditRow>, sales: seq<SaleDoc>, orphans: set<nat>, among: set<Product>, p: Product)
    ensures ListsAmong(audits, sales, orphans, among + {p})
         == Listed(ListsAmong(audits, sales, orphans, among), Among(orphans, sales, {p}), KnownOf(audits, sales, p))
  {
    hide KnownOf, Recoverable;
  }

  lemma ListsNone(audits: seq<AuditRow>, sales: seq<SaleDoc>, orphans: set<nat>)
    ensures ListsAmong(audits, sales, orphans, {}) == Lists({}, {}, {})
  {}

  lemma ListsAll(audits: seq<AuditRow>, sales: seq<SaleDoc>, products: set<Product>, scope: Option<nat>)
    ensures var orphans := Orphans(sales, products, scope);
            ListsAmong(audits, sales, orphans, GroupsOf(sales, products, scope)) == AllLists(audits, sales, orphans)
    ensures AllLists(audits, sales, Orphans(sales, products, scope)).unrecoverable
         == Orphans(sales, products, scope) - Recoverables(audits, sales, products, scope)
  {
    hide KnownOf, Recoverable;
    assert forall i :: i in Orphans(sales, products, scope) ==> sales[i].product in GroupsOf(sales, products, scope);
  }

  function AllLists(audits: seq<AuditRow>, sales: seq<SaleDoc>, orphans: set<nat>): Lists {
    Lists(set i | i in orphans && i < |sales| && !Recoverable(KnownOf(audits, sales, sales[i].product)),
          set i | i in orphans && i < |sales| && KnownOf(audits, sales, sales[i].product).name.None?,
          set i | i in orphans && i < |sales| && KnownOf(audits, sales, sales[i].product).unitCost.None?)
  }

  /** The part of the work that concerns some products. */
  function Among(ids: set<nat>, sales: seq<SaleDoc>, products: set<Product>): set<nat> {
    set i | i in ids && i < |sales| && sales[i].product in products
  }

  lemma AmongOneMore(ids: set<nat>, sales: seq<SaleDoc>, products: set<Product>, p: Product)
    requires p !in products
    ensures |Among(ids, sales, products + {p})| == |Among(ids, sales, products)| + |Among(ids, sales, {p})|
  {
    assert Among(ids, sales, products + {p}) == Among(ids, sales, products) + Among(ids, sales, {p});
    assert Among(ids, sales, products) !! Among(ids, sales, {p});
  }

  lemma AmongAll(ids: set<nat>, sales: seq<SaleDoc>, products: set<Product>)
    requires forall i :: i in ids ==> i < |sales| && sales[i].product in products
    ensures Among(ids, sales, products) == ids
  {}

  class Store {
    var sales: seq<SaleDoc>
    const audits: seq<AuditRow>
    const products: set<Product>

    constructor (audits: seq<AuditRow>, products: set<Product>, sales: seq<SaleDoc>)
      ensures this.audits == audits && this.products == products && this.sales == sales
    {
      this.audits, this.products, this.sales := audits, products, sales;
    }

    /** `updateMany` with the condition repeated: a sale with a history is not touched. */
    method UpdateMany(ids: set<nat>, known: LastKnown) returns (modified: nat)
      requires forall i :: i in ids ==> i < |sales|
      modifies this
      ensures |sales| == |old(sales)|
      ensures forall i :: 0 <= i < |sales| ==>
                sales[i] == if i in ids && old(sales)[i].lastKnown.None? then Filled(old(sales)[i], known) else old(sales)[i]
      ensures modified == |set i: nat | i in ids && i < |old(sales)| && old(sales)[i].lastKnown.None?|
    {
      var before := sales;
      modified := |set i: nat | i in ids && i < |before| && before[i].lastKnown.None?|;
      sales := seq(|before|, (i: nat) requires i < |before| =>
                 if i in ids && before[i].lastKnown.None? then Filled(before[i], known) else before[i]);
    }

    /** The sales of one deleted product: its traces are read, and its open sales filled together. */
    method RecoverGroup(p: Product, start: seq<SaleDoc>, scope: Option<nat>, apply: bool, ghost done: set<Product>)
      returns (ids: set<nat>, known: LastKnown, modified: nat)
      requires Reached(audits, sales, start, products, scope, done) && p !in products && p !in done
      modifies this
      ensures ids == Among(Orphans(start, products, scope), start, {p})
      ensures known == KnownOf(audits, start, p)
      ensures Reached(audits, sales, start, products, scope, if apply then done + {p} else done)
      ensures !apply ==> sales == old(sales)
      ensures modified == if apply && Recoverable(known) then |ids| else 0
    {
      hide KnownOf;
      ids := set i: nat | i < |start| && Orphan(start[i], products, scope) && start[i].product == p;
      assert ids == Among(Orphans(start, products, scope), start, {p});
      ReachedKeepsSales(audits, sales, start, products, scope, done);
      SameKnown(audits, sales, start, p);
      known := ConfirmedLastKnown(TracesOf(audits, sales, p));
      assert known == KnownOf(audits, start, p) by { KnownIs(audits, sales, p); }
      modified := 0;
      if Recoverable(known) && apply {
        assert ids == set i: nat | i in ids && i < |sales| && sales[i].lastKnown.None?;
        modified := UpdateMany(ids, known);
      }
    }

    /**
     * The backfill, one product at a time. Simulated, it writes nothing; applied, it leaves exactly
     * the recovered sales; the counters add up either way.
     */
    method Backfill(apply: bool, scope: Option<nat>) returns (report: Report)
      modifies this
      ensures sales == if apply then Backfilled(audits, old(sales), products, scope) else old(sales)
      ensures report.candidates == report.recoverable + report.unrecoverable == |Orphans(old(sales), products, scope)|
      ensures report.recoverable == |Recoverables(audits, old(sales), products, scope)|
      ensures report.updated == if apply then report.recoverable else 0
      ensures report.lists == AllLists(audits, old(sales), Orphans(old(sales), products, scope))
    {
      hide *;
      var start := sales;
      ghost var orphans := Orphans(start, products, scope);
      ghost var found := Recoverables(audits, start, products, scope);
      ghost var done: set<Product> := {};
      var groups := GroupsOf(start, products, scope);
      BackfillStarts(audits, start, products, scope);
      ListsNone(audits, start, orphans);
      report := Report(0, 0, 0, 0, Lists({}, {}, {}));
      while groups != {}
        invariant groups !! done && groups !! products
        invariant groups + done == GroupsOf(start, products, scope)
        invariant Reached(audits, sales, start, products, scope, if apply then done else {})
        invariant !apply ==> sales == start
        invariant report.candidates == report.recoverable + report.unrecoverable == |Among(orphans, start, done)|
        invariant report.recoverable == |Among(found, start, done)|
        invariant report.updated == if apply then report.recoverable else 0
        invariant report.lists == ListsAmong(audits, start, orphans, done)
        decreases groups
      {
        var p :| p in groups;
        AmongOneMore(orphans, start, done, p);
        AmongOneMore(found, start, done, p);
        ListsOneMore(audits, start, orphans, done, p);
        var ids, known, modified := RecoverGroup(p, start, scope, apply, if apply then done else {});
        report := report.(candidates := report.candidates + |ids|, updated := report.updated + modified,
                          lists := Listed(report.lists, ids, known));
        if Recoverable(known) {
          AllFound(audits, start, products, scope, p);
          report := report.(recoverable := report.recoverable + |ids|);
        } else {
          NoneFound(audits, start, products, scope, p);
          report := report.(unrecoverable := report.unrecoverable + |ids|);
        }
        groups := groups - {p};
        done := done + {p};
      }
      assert done == GroupsOf(start, products, scope);
      BackfillEnds(audits, start, products, scope);
      ListsAll(audits, start, products, scope);
      if apply {
        ReachedEnd(audits, sales, start, products, scope);
      }
    }
  }

  /** The aggregation: the deleted products that have sales without history. */
  function GroupsOf(sales: seq<SaleDoc>, products: set<Product>, scope: Option<nat>): set<Product> {
    set i | 0 <= i < |sales| && Orphan(sales[i], products, scope) :: sales[i].product
  }

  lemma BackfillStarts(audits: seq<AuditRow>, sales: seq<SaleDoc>, products: set<Product>, scope: Option<nat>)
    ensures GroupsOf(sales, products, scope) !! products
    ensures |Among(Orphans(sales, products, scope), sales, {})| == 0
    ensures |Among(Recoverables(audits, sales, products, scope), sales, {})| == 0
    ensures Reached(audits, sales, sales, products, scope, {})
  {
    hide KnownOf;
    assert Among(Orphans(sales, products, scope), sales, {}) == {};
    assert Among(Recoverables(audits, sales, products, scope), sales, {}) == {};
  }

  lemma BackfillEnds(audits: seq<AuditRow>, sales: seq<SaleDoc>, products: set<Product>, scope: Option<nat>)
    ensures var all := GroupsOf(sales, products, scope);
            && Among(Orphans(sales, products, scope), sales, all) == Orphans(sales, products, scope)
            && Among(Recoverables(audits, sales, products, scope), sales, all) == Recoverables(audits, sales, products, scope)
  {
    hide KnownOf, Recoverable;
    AmongAll(Orphans(sales, products, scope), sales, GroupsOf(sales, products, scope));
    AmongAll(Recoverables(audits, sales, products, scope), sales, GroupsOf(sales, products, scope));
  }

  /** The sales of the products in `done` are recovered, the others as they were. */
  ghost predicate Reached(audits: seq<AuditRow>, sales: seq<SaleDoc>, start: seq<SaleDoc>, products: set<Product>,
                          scope: Option<nat>, done: set<Product>) {
    && |sales| == |start|
    && forall i :: 0 <= i < |start| ==>
         sales[i] == if start[i].product in done then Recovered(audits, start, products, scope, start[i]) else start[i]
  }

  lemma ReachedKeepsSales(audits: seq<AuditRow>, sales: seq<SaleDoc>, start: seq<SaleDoc>, products: set<Product>,
                          scope: Option<nat>, done: set<Product>)
    requires Reached(audits, sales, start, products, scope, done)
    ensures SameButHistory(sales, start)
  {
    hide KnownOf, Recoverable, Orphan;
  }

  lemma ReachedEnd(audits: seq<AuditRow>, sales: seq<SaleDoc>, start: seq<SaleDoc>, products: set<Product>, scope: Option<nat>)
    requires Reached(audits, sales, start, products, scope, GroupsOf(start, products, scope))
    ensures sales == Backfilled(audits, start, products, scope)
  {
    hide KnownOf, Recoverable, Orphan;
    forall i | 0 <= i < |start| ensures sales[i] == Recovered(audits, start, products, scope, start[i]) {
      assert Orphan(start[i], products, scope) ==> start[i].product in GroupsOf(start, products, scope);
    }
  }

  lemma KnownIs(audits: seq<AuditRow>, sales: seq<SaleDoc>, p: Product)
    ensures KnownOf(audits, sales, p) == Known(TracesOf(audits, sales, p))
  {}

  lemma NoneFound(audits: seq<AuditRow>, sales: seq<SaleDoc>, products: set<Product>, scope: Option<nat>, p: Product)
    requires !Recoverable(KnownOf(audits, sales, p))
    ensures Among(Recoverables(audits, sales, products, scope), sales, {p}) == {}
  {}

  lemma AllFound(audits: seq<AuditRow>, sales: seq<SaleDoc>, products: set<Product>, scope: Option<nat>, p: Product)
    requires Recoverable(KnownOf(audits, sales, p))
    ensures Among(Recoverables(audits, sales, products, scope), sales, {p}) == Among(Orphans(sales, products, scope), sales, {p})
  {}
}
