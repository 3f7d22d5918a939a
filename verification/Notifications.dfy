/**
 * Life of a notification of the centre: counted actions of a group, first reading, date of expiry.
 * Readings interleave with the dispatcher's writes.
 */
module Notifications {

  import opened Options
  import opened Outbox

  const HOUR: int := 3_600_000
  const DAY: int := 86_400_000

  /** Time a notification is kept once read; 30 days for a category outside the table. */
  function Retention(category: Category): int {
    match category
    case SaleCreated => 48 * HOUR
    case StockLow => 7 * DAY
    case MonthlyReport => 7 * DAY
    case MemberJoined => 7 * DAY
    case MemberActivity => 7 * DAY
    case StockDepleted => 30 * DAY
    case SubscriptionEnding => 30 * DAY
    case PaymentSucceeded => 30 * DAY
    case SaleDigest => 30 * DAY
  }

  /** The first reading dates the notification; a later one changes nothing. */
  function MarkedRead(n: Notification, at: int): Notification {
    if n.readAt.Some? then n
    else n.(readAt := Some(at), expiresAt := Some(at + Retention(n.content.category)))
  }

  /** A write of the dispatcher or the outbox, a reading, or a sender's progress with a delivery. */
  datatype Step = Written(w: Write) | Read(k: (string, string), at: int) | Progress(k: (string, string), delivery: Delivery)

  function Next(db: Database, step: Step): Database {
    match step
    case Written(w) => Apply(db, w)
    case Read(k, at) =>
      if k in db.notifications then db.(notifications := db.notifications[k := MarkedRead(db.notifications[k], at)])
      else db
    case Progress(k, delivery) =>
      if k in db.deliveries
      then db.(deliveries := db.deliveries[k := delivery.(owner := db.deliveries[k].owner,
                                                         organization := db.deliveries[k].organization)])
      else db
  }

  function After(db: Database, steps: seq<Step>): Database {
    if |steps| == 0 then db else Next(After(db, steps[..|steps| - 1]), steps[|steps| - 1])
  }

  // ----- Every notification, over every run -----

  /** Each action counted once; read and expiry dated together. */
  ghost predicate Sound(n: Notification) {
    && n.count == |n.events|
    && |n.targets| <= n.count && (n.count > 0 ==> n.targets != {})
    && (n.readAt.None? ==> n.expiresAt.None?)
    && (n.readAt.Some? ==> n.expiresAt == Some(n.readAt.value + Retention(n.content.category)))
  }

  ghost predicate AllSound(db: Database) {
    forall k :: k in db.notifications ==> Sound(db.notifications[k])
  }

  lemma AddedIsSound(n: Notification, event: string, target: Target, at: int)
    requires Sound(n) && event !in n.events
    ensures Sound(Added(n, event, target, at))
  {
    assert n.events + {event} - {event} == n.events;
    if target in n.targets {
      assert n.targets + {target} == n.targets;
    } else {
      assert |n.targets + {target}| == |n.targets| + 1;
    }
  }

  lemma NextKeepsSound(db: Database, step: Step)
    requires AllSound(db)
    ensures AllSound(Next(db, step))
  {
    if step.Written? && step.w.NotifyActivity? {
      var k := (step.w.key, step.w.user);
      if k in db.notifications && step.w.event !in db.notifications[k].events {
        AddedIsSound(db.notifications[k], step.w.event, step.w.target, step.w.at);
      }
    }
  }

  /** For any replays and readings. */
  lemma {:induction false} RunKeepsSound(db: Database, steps: seq<Step>)
    requires AllSound(db)
    ensures AllSound(After(db, steps))
  {
    if |steps| > 0 {
      RunKeepsSound(db, steps[..|steps| - 1]);
      NextKeepsSound(After(db, steps[..|steps| - 1]), steps[|steps| - 1]);
    }
  }

  /** Two days, a week or thirty days from its first reading, after which a notification is deleted. */
  ghost predicate KeptFor(n: Notification) {
    n.readAt.Some? ==>
      n.expiresAt == Some(n.readAt.value + match n.content.category
                                           case SaleCreated => 172_800_000
                                           case StockLow => 604_800_000
                                           case MonthlyReport => 604_800_000
                                           case MemberJoined => 604_800_000
                                           case MemberActivity => 604_800_000
                                           case _ => 2_592_000_000)
  }

  /**
   * After any run, from empty: a reading dates exactly an unread notification, at its instant and with
   * the expiry of its category; one read before, or absent, stays as it is, and so does all the rest.
   */
  lemma ReadingEffect(db: Database, steps: seq<Step>, k: (string, string), at: int)
    requires db.notifications == map[]
    ensures var b := After(db, steps); var c := Next(b, Read(k, at));
            && (forall j :: j in b.notifications ==> KeptFor(b.notifications[j]))
            && c.jobs == b.jobs && c.deliveries == b.deliveries && c.notifications.Keys == b.notifications.Keys
            && (forall j :: j in b.notifications && j != k ==> c.notifications[j] == b.notifications[j])
            && (k in b.notifications ==>
                  var n, m := b.notifications[k], c.notifications[k];
                  && KeptFor(m) && m.readAt == (if n.readAt.Some? then n.readAt else Some(at))
                  && m == n.(readAt := m.readAt, expiresAt := m.expiresAt))
  {
    hide After, Sound, KeptFor, Retention;
    var b := After(db, steps);
    RunKeepsSound(db, steps);
    forall j | j in b.notifications ensures KeptFor(b.notifications[j]) { SoundIsKeptFor(b.notifications[j]); }
    if k in b.notifications {
      NextKeepsSound(b, Read(k, at));
      SoundIsKeptFor(Next(b, Read(k, at)).notifications[k]);
    }
  }

  lemma SoundIsKeptFor(n: Notification)
    requires Sound(n)
    ensures KeptFor(n)
  {}

  // ----- Single-event notifications: read once and for all -----

  /** Outside activity groups the first reading, and with it the expiry, is never moved. */
  lemma {:induction false} FirstReadingIsKept(db: Database, steps: seq<Step>, k: (string, string))
    requires k in db.notifications && db.notifications[k].readAt.Some?
    requires forall s :: s in steps && s.Written? && s.w.NotifyActivity? ==> (s.w.key, s.w.user) != k
    ensures k in After(db, steps).notifications && After(db, steps).notifications[k] == db.notifications[k]
  {
    if |steps| > 0 {
      var last := steps[|steps| - 1];
      assert last in steps;
      FirstReadingIsKept(db, steps[..|steps| - 1], k);
    }
  }

  // ----- Activity groups: what any multiset of replays leads to -----

  ghost predicate Counts(s: Step, k: (string, string)) {
    s.Written? && s.w.NotifyActivity? && (s.w.key, s.w.user) == k
  }

  function EventsOf(steps: seq<Step>, k: (string, string)): set<string> {
    set s | s in steps && s.Written? && s.w.NotifyActivity? && (s.w.key, s.w.user) == k :: s.w.event
  }

  function TargetsOf(steps: seq<Step>, k: (string, string)): set<Target> {
    set s | s in steps && s.Written? && s.w.NotifyActivity? && (s.w.key, s.w.user) == k :: s.w.target
  }

  /** Replays of one action repeat its target and date; the key only ever holds a group. */
  ghost predicate OneGroup(steps: seq<Step>, k: (string, string)) {
    && (forall s :: s in steps && s.Written? && s.w.NotifyOnce? ==> (s.w.key, s.w.user) != k)
    && (forall s, t :: s in steps && t in steps && Counts(s, k) && Counts(t, k) && s.w.event == t.w.event ==>
          s.w.target == t.w.target && s.w.at == t.w.at)
  }

  ghost predicate Latest(steps: seq<Step>, k: (string, string), at: int) {
    && (forall s :: s in steps && Counts(s, k) ==> s.w.at <= at)
    && (exists s :: s in steps && Counts(s, k) && s.w.at == at)
  }

  /** The group is the sum of the distinct actions, its date the latest of theirs. */
  ghost predicate SumsUp(n: Notification, steps: seq<Step>, k: (string, string)) {
    n.events == EventsOf(steps, k) && n.targets == TargetsOf(steps, k) && Latest(steps, k, n.eventAt)
  }

  ghost predicate SameAction(v: Write, w: Write)
    requires v.NotifyActivity? && w.NotifyActivity?
  {
    v.event == w.event && v.target == w.target && v.at == w.at
  }

  lemma SameAsBefore(steps: seq<Step>, k: (string, string), at: int)
    requires |steps| > 0
    requires var front := steps[..|steps| - 1]; var last := steps[|steps| - 1];
             Counts(last, k) ==> exists t :: t in front && Counts(t, k) && SameAction(t.w, last.w)
    ensures var front := steps[..|steps| - 1];
            && EventsOf(steps, k) == EventsOf(front, k) && TargetsOf(steps, k) == TargetsOf(front, k)
            && (Latest(front, k, at) ==> Latest(steps, k, at))
  {
    var front := steps[..|steps| - 1];
    assert steps == front + [steps[|steps| - 1]];
    assert forall t :: t in front ==> t in steps;
    if Latest(front, k, at) {
      var s :| s in front && Counts(s, k) && s.w.at == at;
      assert s in steps;
    }
  }

  lemma OneMore(steps: seq<Step>, k: (string, string), at: int)
    requires |steps| > 0 && Counts(steps[|steps| - 1], k)
    ensures var front := steps[..|steps| - 1]; var w := steps[|steps| - 1].w;
            && EventsOf(steps, k) == EventsOf(front, k) + {w.event}
            && TargetsOf(steps, k) == TargetsOf(front, k) + {w.target}
            && (Latest(front, k, at) ==> Latest(steps, k, Max(at, w.at)))
            && ((forall s :: s in front ==> !Counts(s, k)) ==> Latest(steps, k, w.at))
  {
    var front := steps[..|steps| - 1];
    var last := steps[|steps| - 1];
    assert steps == front + [last];
    assert forall t :: t in front ==> t in steps;
    assert last in steps;
    if Latest(front, k, at) {
      var s :| s in front && Counts(s, k) && s.w.at == at;
      assert s in steps;
    }
  }

  ghost predicate GroupIs(db: Database, steps: seq<Step>, k: (string, string)) {
    && (k in db.notifications <==> exists s :: s in steps && Counts(s, k))
    && (k in db.notifications ==> SumsUp(db.notifications[k], steps, k))
  }

  lemma StillCounted(steps: seq<Step>, k: (string, string))
    requires |steps| > 0
    ensures (exists s :: s in steps && Counts(s, k)) <==>
            Counts(steps[|steps| - 1], k) || exists s :: s in steps[..|steps| - 1] && Counts(s, k)
  {
    assert steps == steps[..|steps| - 1] + [steps[|steps| - 1]];
    assert steps[|steps| - 1] in steps;
  }

  /** A step that counts nothing new leaves the group's events, targets and date. */
  lemma NothingNew(n: Notification, steps: seq<Step>, k: (string, string))
    requires |steps| > 0 && OneGroup(steps, k) && SumsUp(n, steps[..|steps| - 1], k)
    requires Counts(steps[|steps| - 1], k) ==> steps[|steps| - 1].w.event in n.events
    ensures SumsUp(n, steps, k)
  {
    hide EventsOf, TargetsOf, Latest, OneGroup;
    if Counts(steps[|steps| - 1], k) { CountedBefore(steps, k); }
    SameAsBefore(steps, k, n.eventAt);
  }

  lemma OneNew(n: Notification, steps: seq<Step>, k: (string, string))
    requires |steps| > 0 && SumsUp(n, steps[..|steps| - 1], k) && Counts(steps[|steps| - 1], k)
    ensures var w := steps[|steps| - 1].w; SumsUp(Added(n, w.event, w.target, w.at), steps, k)
  {
    hide EventsOf, TargetsOf, Latest;
    OneMore(steps, k, n.eventAt);
  }

  lemma FirstOne(steps: seq<Step>, k: (string, string))
    requires |steps| > 0 && Counts(steps[|steps| - 1], k)
    requires forall s :: s in steps[..|steps| - 1] ==> !Counts(s, k)
    ensures var w := steps[|steps| - 1].w; SumsUp(NewGroup(w.event, w.target, w.content, w.at), steps, k)
  {
    NothingCounted(steps[..|steps| - 1], k);
    hide EventsOf, TargetsOf, Latest;
    OneMore(steps, k, 0);
  }

  lemma ReadingKeepsSum(n: Notification, at: int, steps: seq<Step>, k: (string, string))
    requires SumsUp(n, steps, k)
    ensures SumsUp(MarkedRead(n, at), steps, k)
  {
    hide EventsOf, TargetsOf, Latest;
  }

  lemma GroupNext(db: Database, steps: seq<Step>, k: (string, string))
    requires |steps| > 0 && OneGroup(steps, k)
    requires GroupIs(db, steps[..|steps| - 1], k)
    ensures GroupIs(Next(db, steps[|steps| - 1]), steps, k)
  {
    hide SumsUp, MarkedRead, Added, NewGroup;
    var last := steps[|steps| - 1];
    assert last in steps;
    StillCounted(steps, k);
    if k in db.notifications {
      var n := db.notifications[k];
      if Counts(last, k) && last.w.event !in n.events {
        OneNew(n, steps, k);
      } else {
        NothingNew(n, steps, k);
        if last.Read? { ReadingKeepsSum(n, last.at, steps, k); }
      }
    } else if Counts(last, k) {
      FirstOne(steps, k);
    }
  }

  /** Whatever was replayed or read in between, the group sums up exactly the distinct actions. */
  lemma {:induction false} GroupSumsUpItsActions(db: Database, steps: seq<Step>, k: (string, string))
    requires k !in db.notifications && OneGroup(steps, k)
    ensures k in After(db, steps).notifications <==> exists s :: s in steps && Counts(s, k)
    ensures k in After(db, steps).notifications ==> SumsUp(After(db, steps).notifications[k], steps, k)
  {
    hide SumsUp, Next;
    if |steps| > 0 {
      var front := steps[..|steps| - 1];
      assert OneGroup(front, k) by { assert forall t :: t in front ==> t in steps; }
      GroupSumsUpItsActions(db, front, k);
      AfterLast(db, steps);
      hide After, OneGroup;
      GroupNext(After(db, front), steps, k);
    }
  }

  lemma AfterLast(db: Database, steps: seq<Step>)
    requires |steps| > 0
    ensures After(db, steps) == Next(After(db, steps[..|steps| - 1]), steps[|steps| - 1])
  {}

  lemma NothingCounted(steps: seq<Step>, k: (string, string))
    requires forall s :: s in steps ==> !Counts(s, k)
    ensures EventsOf(steps, k) == {} && TargetsOf(steps, k) == {}
  {}

  lemma CountedBefore(steps: seq<Step>, k: (string, string))
    requires |steps| > 0 && OneGroup(steps, k) && Counts(steps[|steps| - 1], k)
    requires steps[|steps| - 1].w.event in EventsOf(steps[..|steps| - 1], k)
    ensures var front := steps[..|steps| - 1]; var w := steps[|steps| - 1].w;
            exists t :: t in front && Counts(t, k) && SameAction(t.w, w)
  {
    var front := steps[..|steps| - 1];
    var last := steps[|steps| - 1];
    var t :| t in front && t.Written? && t.w.NotifyActivity? && (t.w.key, t.w.user) == k && t.w.event == last.w.event;
    assert t in steps && last in steps && Counts(t, k);
  }

  /** Adding an action makes the group unread exactly when the action had not been counted. */
  lemma UnreadExactlyWhenNew(db: Database, w: Write)
    requires w.NotifyActivity? && (w.key, w.user) in db.notifications
    ensures var n := db.notifications[(w.key, w.user)]; var m := Apply(db, w).notifications[(w.key, w.user)];
            && (w.event in n.events ==> m == n)
            && (w.event !in n.events ==> m.readAt.None? && m.expiresAt.None? && m.count == n.count + 1)
  {}

  // ----- The centre -----

  function UnreadOf(all: map<(string, string), Notification>, keys: seq<(string, string)>): set<(string, string)> {
    set k | k in keys && k in all && all[k].readAt.None?
  }

  lemma UnreadOneMore(all: map<(string, string), Notification>, keys: seq<(string, string)>, n: nat)
    requires n < |keys| && keys[n] !in keys[..n]
    ensures |UnreadOf(all, keys[..n + 1])|
         == |UnreadOf(all, keys[..n])| + if keys[n] in all && all[keys[n]].readAt.None? then 1 else 0
  {
    var one: set<(string, string)> := if keys[n] in all && all[keys[n]].readAt.None? then {keys[n]} else {};
    assert keys[..n + 1] == keys[..n] + [keys[n]];
    assert UnreadOf(all, keys[..n + 1]) == UnreadOf(all, keys[..n]) + one;
  }

  class Center {
    var notifications: map<(string, string), Notification>

    /** The filter `readAt: null` makes the first reading the only one. */
    method MarkRecordRead(k: (string, string), at: int) returns (marked: bool)
      modifies this
      ensures marked <==> k in old(notifications) && old(notifications)[k].readAt.None?
      ensures notifications == if k in old(notifications)
                               then old(notifications)[k := MarkedRead(old(notifications)[k], at)]
                               else old(notifications)
    {
      marked := k in notifications && notifications[k].readAt.None?;
      if marked {
        var n := notifications[k];
        notifications := notifications[k := n.(readAt := Some(at), expiresAt := Some(at + Retention(n.content.category)))];
      }
    }

    /** « Mark all as read » over the unread notifications found: each is dated by its own clock reading. */
    method ReadAll(unread: seq<(string, string)>, clock: seq<int>) returns (marked: nat)
      requires |clock| == |unread| && forall i, j :: 0 <= i < j < |unread| ==> unread[i] != unread[j]
      modifies this
      ensures notifications.Keys == old(notifications).Keys
      ensures forall i :: 0 <= i < |unread| && unread[i] in old(notifications) ==>
                notifications[unread[i]] == MarkedRead(old(notifications)[unread[i]], clock[i])
      ensures forall k :: k in old(notifications) && k !in unread ==> notifications[k] == old(notifications)[k]
      ensures marked == |UnreadOf(old(notifications), unread)|
    {
      marked := 0;
      hide MarkedRead, UnreadOf;
      assert |UnreadOf(old(notifications), unread[..0])| == 0 by { UnreadNone(old(notifications)); }
      for n := 0 to |unread|
        invariant notifications.Keys == old(notifications).Keys
        invariant forall i :: 0 <= i < n && unread[i] in old(notifications) ==>
                    notifications[unread[i]] == MarkedRead(old(notifications)[unread[i]], clock[i])
        invariant forall k :: k in old(notifications) && k !in unread[..n] ==> notifications[k] == old(notifications)[k]
        invariant marked == |UnreadOf(old(notifications), unread[..n])|
      {
        assert unread[n] !in unread[..n];
        UnreadOneMore(old(notifications), unread, n);
        var done := MarkRecordRead(unread[n], clock[n]);
        if done {
          marked := marked + 1;
        }
      }
      assert unread[..|unread|] == unread;
    }
  }

  lemma UnreadNone(all: map<(string, string), Notification>)
    ensures |UnreadOf(all, [])| == 0
  {}
}
