/**
 * Keys of the outbox events, as the strings the code builds, and the fixed one-minute windows that
 * group sales and member activities.
 */
module EventKeys {

  import opened Options

  const WINDOW_MS: int := 60_000

  // ----- The window of an instant -----

  /** `Math.floor(t / 60000) * 60000`: division rounds down, also before 1970. */
  function WindowStart(eventAt: int): int {
    eventAt / WINDOW_MS * WINDOW_MS
  }

  function WindowEnd(eventAt: int): int {
    WindowStart(eventAt) + WINDOW_MS
  }

  /** The end of the window is the first aligned minute strictly after the event. */
  lemma WindowEndFollows(eventAt: int)
    ensures eventAt < WindowEnd(eventAt) <= eventAt + WINDOW_MS
    ensures WindowEnd(eventAt) % WINDOW_MS == 0
  {}

  // ----- Integers in template strings -----

  function Digit(d: nat): char
    requires d < 10
  {
    '0' + d as char
  }

  function Natural(n: nat): string {
    if n < 10 then [Digit(n)] else Natural(n / 10) + [Digit(n % 10)]
  }

  /** An integer as a template string writes it. */
  function Decimal(n: int): string {
    if n < 0 then "-" + Natural(-n) else Natural(n)
  }

  function DigitValue(c: char): (d: nat)
    requires '0' <= c <= '9'
  {
    c as int - '0' as int
  }

  predicate AllDigits(s: string) {
    forall i :: 0 <= i < |s| ==> '0' <= s[i] <= '9'
  }

  function ParseNatural(s: string): nat
    requires AllDigits(s)
  {
    if |s| == 0 then 0
    else
      var front: nat := ParseNatural(s[..|s| - 1]);
      front * 10 + DigitValue(s[|s| - 1])
  }

  /** `Number(text)` on integer texts; anything else is not a number. */
  function Parse(s: string): Option<int> {
    if |s| > 1 && s[0] == '-' && AllDigits(s[1..]) then Some(0 - ParseNatural(s[1..]) as int)
    else if |s| > 0 && AllDigits(s) then Some(ParseNatural(s) as int)
    else None
  }

  lemma {:induction false} NaturalRoundTrip(n: nat)
    ensures |Natural(n)| > 0 && AllDigits(Natural(n))
    ensures ParseNatural(Natural(n)) == n
  {
    if n >= 10 {
      NaturalRoundTrip(n / 10);
      var s := Natural(n);
      assert s[..|s| - 1] == Natural(n / 10);
    }
  }

  lemma DigitsHoldNoColon(s: string)
    requires AllDigits(s)
    ensures ':' !in s && '-' !in s
  {}

  lemma DecimalRoundTrip(n: int)
    ensures Parse(Decimal(n)) == Some(n)
    ensures ':' !in Decimal(n)
  {
    var digits := Natural(if n < 0 then -n else n);
    NaturalRoundTrip(if n < 0 then -n else n);
    DigitsHoldNoColon(digits);
    hide Natural, ParseNatural;
    if n < 0 {
      assert Decimal(n)[1..] == digits;
    } else {
      assert digits[0] in digits;
    }
  }

  // ----- Keys -----

  /** `memberActivityGroupKey`. */
  function GroupKey(organization: string, actor: string, entity: string, action: string, eventAt: int): string {
    "member-activity:" + (organization + ":" + (actor + ":" + (entity + ":" + (action + ":" + Decimal(WindowStart(eventAt))))))
  }

  function DigestKey(organization: string, eventAt: int): string {
    "sale-digest:" + (organization + ":" + Decimal(WindowStart(eventAt)))
  }

  lemma OneDigitMore(n: nat, front: string)
    requires n >= 10 && Natural(n / 10) == front
    ensures Natural(n) == front + [Digit(n % 10)]
  {}

  lemma SixtyThousand()
    ensures Natural(60_000) == "60000"
  {
    OneDigitMore(60, "6");
    OneDigitMore(600, "60");
    OneDigitMore(6_000, "600");
    OneDigitMore(60_000, "6000");
    hide Natural;
  }

  /** The keys of an event of the second minute, as they are stored. */
  lemma KeysAsStored(organization: string, actor: string, entity: string, action: string, eventAt: int)
    requires 60_000 <= eventAt < 120_000
    ensures DigestKey(organization, eventAt) == "sale-digest:" + organization + ":60000"
    ensures GroupKey(organization, actor, entity, action, eventAt)
         == "member-activity:" + organization + ":" + actor + ":" + entity + ":" + action + ":60000"
  {
    hide Natural;
    SixtyThousand();
    assert WindowStart(eventAt) == 60_000 && Decimal(60_000) == "60000";
    var tail := ":60000";
    assert ":" + "60000" == tail;
  }

  /** `text.slice(text.lastIndexOf(':') + 1)`. */
  function AfterLastColon(s: string): string {
    if |s| == 0 || s[|s| - 1] == ':' then [] else AfterLastColon(s[..|s| - 1]) + [s[|s| - 1]]
  }

  lemma {:induction false} AfterLastColonOfTail(before: string, tail: string)
    requires ':' !in tail
    ensures AfterLastColon(before + ":" + tail) == tail
  {
    var s := before + ":" + tail;
    if |tail| > 0 {
      AfterLastColonOfTail(before, tail[..|tail| - 1]);
      assert s[..|s| - 1] == before + ":" + tail[..|tail| - 1];
      assert s[|s| - 1] == tail[|tail| - 1] && tail[|tail| - 1] in tail;
    }
  }

  /** The dispatcher reads the window start back from the key: it gets the one written into it. */
  lemma GroupWindowReadBack(organization: string, actor: string, entity: string, action: string, eventAt: int)
    ensures Parse(AfterLastColon(GroupKey(organization, actor, entity, action, eventAt))) == Some(WindowStart(eventAt))
  {
    var w := Decimal(WindowStart(eventAt));
    var e := entity + ":" + action;
    var c := actor + ":" + e;
    var o := organization + ":" + c;
    DecimalRoundTrip(WindowStart(eventAt));
    hide Decimal, Parse, AfterLastColon;
    Regroup(entity, action, w);
    Regroup(actor, e, w);
    Regroup(organization, c, w);
    assert "member-activity:" + (o + ":" + w) == ("member-activity:" + o) + ":" + w;
    AfterLastColonOfTail("member-activity:" + o, w);
  }

  lemma Regroup(a: string, b: string, w: string)
    ensures a + ":" + (b + ":" + w) == (a + ":" + b) + ":" + w
  {}

  lemma FirstColon(a: string, x: string)
    requires ':' !in a
    ensures var s := a + ":" + x; s[|a|] == ':' && forall i :: 0 <= i < |a| ==> s[i] != ':'
  {
    forall i | 0 <= i < |a| ensures (a + ":" + x)[i] != ':' {
      assert a[i] in a;
    }
  }

  /** A text without a colon in front of a colon can be read back. */
  lemma FirstSegment(a: string, x: string, b: string, y: string)
    requires ':' !in a && ':' !in b
    requires a + ":" + x == b + ":" + y
    ensures a == b && x == y
  {
    var s := a + ":" + x;
    FirstColon(a, x);
    FirstColon(b, y);
    assert |a| == |b|;
    assert a == s[..|a|] && b == s[..|b|];
    assert x == s[|a| + 1..] && y == s[|b| + 1..];
  }

  lemma DecimalInjective(a: int, b: int)
    ensures Decimal(a) == Decimal(b) <==> a == b
  {
    DecimalRoundTrip(a);
    DecimalRoundTrip(b);
  }

  /** One group for each organisation, author, kind of target, action and minute, and only those. */
  lemma GroupKeyInjective(o1: string, c1: string, e1: string, a1: string, t1: int,
                          o2: string, c2: string, e2: string, a2: string, t2: int)
    requires ':' !in o1 && ':' !in c1 && ':' !in e1 && ':' !in a1
    requires ':' !in o2 && ':' !in c2 && ':' !in e2 && ':' !in a2
    ensures GroupKey(o1, c1, e1, a1, t1) == GroupKey(o2, c2, e2, a2, t2) <==>
            o1 == o2 && c1 == c2 && e1 == e2 && a1 == a2 && WindowStart(t1) == WindowStart(t2)
  {
    if GroupKey(o1, c1, e1, a1, t1) == GroupKey(o2, c2, e2, a2, t2) {
      var w1, w2 := Decimal(WindowStart(t1)), Decimal(WindowStart(t2));
      var r1, r2 := a1 + ":" + w1, a2 + ":" + w2;
      var s1, s2 := e1 + ":" + r1, e2 + ":" + r2;
      var u1, u2 := c1 + ":" + s1, c2 + ":" + s2;
      SameTail("member-activity:", o1 + ":" + u1, o2 + ":" + u2);
      FirstSegment(o1, u1, o2, u2);
      FirstSegment(c1, s1, c2, s2);
      FirstSegment(e1, r1, e2, r2);
      FirstSegment(a1, w1, a2, w2);
      DecimalInjective(WindowStart(t1), WindowStart(t2));
    }
  }

  lemma SameTail(p: string, x: string, y: string)
    requires p + x == p + y
    ensures x == y
  {
    assert x == (p + x)[|p|..];
    assert y == (p + y)[|p|..];
  }

  /** One digest for each organisation and minute, and only those. */
  lemma DigestKeyInjective(o1: string, t1: int, o2: string, t2: int)
    requires ':' !in o1 && ':' !in o2
    ensures DigestKey(o1, t1) == DigestKey(o2, t2) <==> o1 == o2 && WindowStart(t1) == WindowStart(t2)
  {
    if DigestKey(o1, t1) == DigestKey(o2, t2) {
      var w1, w2 := Decimal(WindowStart(t1)), Decimal(WindowStart(t2));
      SameTail("sale-digest:", o1 + ":" + w1, o2 + ":" + w2);
      FirstSegment(o1, w1, o2, w2);
      DecimalInjective(WindowStart(t1), WindowStart(t2));
    }
  }

  /** A key starts with the name of its category and a colon. */
  ghost predicate Named(key: string, name: string) {
    ':' !in name && exists rest :: key == name + ":" + rest
  }

  /** Keys of two categories never meet. */
  lemma NamedApart(key: string, a: string, b: string)
    requires Named(key, a) && Named(key, b)
    ensures a == b
  {
    var x :| key == a + ":" + x;
    var y :| key == b + ":" + y;
    FirstSegment(a, x, b, y);
  }

  lemma GroupKeyNamed(organization: string, actor: string, entity: string, action: string, eventAt: int)
    ensures Named(GroupKey(organization, actor, entity, action, eventAt), "member-activity")
  {
    var rest := organization + ":" + (actor + ":" + (entity + ":" + (action + ":" + Decimal(WindowStart(eventAt)))));
    assert GroupKey(organization, actor, entity, action, eventAt) == "member-activity" + ":" + rest;
  }

  lemma DigestKeyNamed(organization: string, eventAt: int)
    ensures Named(DigestKey(organization, eventAt), "sale-digest")
  {
    var rest := organization + ":" + Decimal(WindowStart(eventAt));
    assert DigestKey(organization, eventAt) == "sale-digest" + ":" + rest;
  }
}
