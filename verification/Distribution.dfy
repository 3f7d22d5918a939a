/**
 * What one distribution that is not cut short leaves, told on the documents: the job, the notifications
 * and the deliveries, with every age, category and outcome written out.
 */
module Distribution {

  import opened Options
  import opened Outbox
  import opened EventKeys
  import opened Dispatch

  // ----- Writes of other collections -----

  lemma {:induction false} DeliveriesKept(db: Database, writes: seq<Write>)
    requires forall w :: w in writes ==> !w.Deliver?
    ensures Run(db, writes).deliveries == db.deliveries
  {
    if |writes| > 0 {
      assert writes[|writes| - 1] in writes;
      DeliveriesKept(db, writes[..|writes| - 1]);
    }
  }

  lemma {:induction false} NotificationsKept(db: Database, writes: seq<Write>)
    requires forall w :: w in writes ==> !w.NotifyOnce? && !w.NotifyActivity?
    ensures Run(db, writes).notifications == db.notifications
  {
    if |writes| > 0 {
      assert writes[|writes| - 1] in writes;
      NotificationsKept(db, writes[..|writes| - 1]);
    }
  }

  lemma {:induction false} JobKept(db: Database, writes: seq<Write>, key: string)
    requires key in db.jobs && forall w :: w in writes ==> !w.Close?
    ensures var after := Run(db, writes); key in after.jobs && after.jobs[key] == db.jobs[key]
  {
    if |writes| > 0 {
      assert writes[|writes| - 1] in writes;
      JobKept(db, writes[..|writes| - 1], key);
    }
  }

  /** Deliveries that existed are left as they were. */
  lemma {:induction false} OldDeliveriesKept(db: Database, writes: seq<Write>, k: (string, string))
    requires k in db.deliveries
    ensures var after := Run(db, writes); k in after.deliveries && after.deliveries[k] == db.deliveries[k]
  {
    if |writes| > 0 { OldDeliveriesKept(db, writes[..|writes| - 1], k); }
  }

  ghost predicate SameAt(all: map<(string, string), Notification>, other: map<(string, string), Notification>, k: (string, string)) {
    (k in all <==> k in other) && (k in all ==> all[k] == other[k])
  }

  lemma ApplyAt(db: Database, now: Database, v: Write, k: (string, string))
    ensures !Notifies(v, k) ==> SameAt(now.notifications, Apply(now, v).notifications, k)
    ensures Notifies(v, k) ==> k in Apply(db, v).notifications
    ensures Notifies(v, k) && SameAt(now.notifications, db.notifications, k) ==>
              SameAt(Apply(now, v).notifications, Apply(db, v).notifications, k)
    ensures Notifies(v, k) && SameAt(now.notifications, Apply(db, v).notifications, k) ==>
              SameAt(Apply(now, v).notifications, Apply(db, v).notifications, k)
  {}

  /** A document that one write only may touch ends as that write, made once, leaves it. */
  lemma {:induction false} NotifiedOnce(db: Database, writes: seq<Write>, w: Write)
    requires w.NotifyOnce? || w.NotifyActivity?
    requires forall v :: v in writes && Notifies(v, (w.key, w.user)) ==> v == w
    ensures var k := (w.key, w.user);
            && (w in writes ==> k in Apply(db, w).notifications)
            && SameAt(Run(db, writes).notifications, if w in writes then Apply(db, w).notifications else db.notifications, k)
  {
    hide Apply;
    if |writes| > 0 {
      var front, last := writes[..|writes| - 1], writes[|writes| - 1];
      assert writes == front + [last];
      NotifiedOnce(db, front, w);
      ApplyAt(db, Run(db, front), last, (w.key, w.user));
      ApplyAt(db, Run(db, front), w, (w.key, w.user));
    }
  }

  // ----- The plan -----

  lemma PlanParts(event: Event, facts: Facts, clock: Clock, w: Write)
    requires facts.irrelevance.None?
    ensures w in Notices(event, facts.recipients, facts.authorName) ==> w.NotifyOnce? || w.NotifyActivity?
    ensures w in Pushes(event, facts, clock.now) ==> w.Record? || w.Deliver?
  {
    if w in Notices(event, facts.recipients, facts.authorName) {
      NoticesArePlanned(Work(event, facts, PushExpired(event, clock.now)), w);
    }
    hide NoticeFor, PushEvent;
    var each := EachDevice(event, facts.devices, clock.now);
    if w in each {
      var i :| 0 <= i < |each| && each[i] == w;
    }
  }

  lemma PlanSplits(db: Database, event: Event, facts: Facts, clock: Clock)
    requires facts.irrelevance.None?
    ensures var front := Notices(event, facts.recipients, facts.authorName) + Pushes(event, facts, clock.now);
            && Plan(event, facts, clock) == front + [Closing(event, facts, PushExpired(event, clock.now), clock.closedAt)]
            && Run(db, Plan(event, facts, clock))
                 == Apply(Run(db, front), Closing(event, facts, PushExpired(event, clock.now), clock.closedAt))
  {
    var front := Notices(event, facts.recipients, facts.authorName) + Pushes(event, facts, clock.now);
    RunLast(db, Plan(event, facts, clock));
    assert Plan(event, facts, clock)[..|front|] == front;
  }

  // ----- The job -----

  /**
   * How a pending job is closed: cancelled with the reason of an irrelevant event; else dispatched, with
   * "push-disabled" when push is off, with "push-expired" when it is on and the event is older than six
   * hours (stock), twelve (report) or one (the rest; the end of a subscription never is), and otherwise
   * without a reason and with the number of devices. A job no longer pending is left as it is.
   */
  lemma JobEffect(db: Database, event: Event, facts: Facts, clock: Clock)
    requires event.key in db.jobs && event.category != SaleDigest
    ensures var after := Run(db, Plan(event, facts, clock)); var job := db.jobs[event.key];
            var age := clock.now - event.eventAt;
            var inTime := match event.category
                          case SubscriptionEnding => true
                          case StockDepleted => age <= 21_600_000
                          case StockLow => age <= 21_600_000
                          case MonthlyReport => age <= 43_200_000
                          case _ => age <= 3_600_000;
            && event.key in after.jobs
            && after.jobs[event.key] ==
                 if job.status != Pending then job
                 else if facts.irrelevance.Some?
                 then job.(status := Cancelled, outcome := facts.irrelevance, deliveries := 0, processedAt := Some(clock.closedAt))
                 else if !facts.pushActive
                 then job.(status := Dispatched, outcome := Some("push-disabled"), deliveries := 0, processedAt := Some(clock.closedAt))
                 else if !inTime
                 then job.(status := Dispatched, outcome := Some("push-expired"), deliveries := 0, processedAt := Some(clock.closedAt))
                 else job.(status := Dispatched, outcome := None, deliveries := |facts.devices|, processedAt := Some(clock.closedAt))
  {
    var closing := Closing(event, facts, PushExpired(event, clock.now), clock.closedAt);
    if facts.irrelevance.Some? {
      RunOne(db, closing);
    } else {
      var front := Notices(event, facts.recipients, facts.authorName) + Pushes(event, facts, clock.now);
      PlanSplits(db, event, facts, clock);
      forall w | w in front ensures !w.Close? { PlanParts(event, facts, clock, w); }
      JobKept(db, front, event.key);
      hide Run, Plan, Notices, Pushes;
    }
  }

  // ----- Deliveries -----

  lemma DeliverHasDevice(event: Event, facts: Facts, clock: Clock, w: Write)
    requires facts.irrelevance.None? && w in Plan(event, facts, clock) && w.Deliver?
    ensures facts.pushActive && !PushExpired(event, clock.now)
    ensures exists d :: d in facts.devices && w == DeliverTo(event, d, clock.now)
  {
    var work := Work(event, facts, PushExpired(event, clock.now));
    DeliveryInPlan(work, clock, w);
    PlanParts(event, facts, clock, w);
  }

  /** The key a device is reached by: the minute of a sale, the group of an activity, or the event. */
  function DeliveryKey(event: Event): string
    requires event.category == MemberActivity ==> event.activity.Some? && event.actor.Some?
  {
    if event.category == SaleCreated then DigestKey(event.organization, event.eventAt)
    else if event.category == MemberActivity
    then GroupKey(event.organization, event.actor.value, event.activity.value.entity, event.activity.value.action, event.eventAt)
    else event.key
  }

  /**
   * A relevant event reaches every eligible device of its recipients exactly when push is on and the
   * event is in time; then each device that had no delivery yet gets one that waits, due at the end of
   * its minute for a sale or an activity and at once for anything else. Otherwise no delivery changes.
   */
  lemma PushReachesInTime(db: Database, event: Event, facts: Facts, clock: Clock)
    requires WellFormed(event) && event.key in db.jobs && db.jobs[event.key].status == Pending
    requires facts.irrelevance.None? && facts.pushActive && |facts.devices| > 0
    ensures var after := Run(db, Plan(event, facts, clock)); var age := clock.now - event.eventAt;
            var inTime := match event.category
                          case SubscriptionEnding => true
                          case StockDepleted => age <= 21_600_000
                          case StockLow => age <= 21_600_000
                          case MonthlyReport => age <= 43_200_000
                          case _ => age <= 3_600_000;
            && event.key in after.jobs
            && (inTime <==> after.jobs[event.key].outcome.None? && after.jobs[event.key].deliveries == |facts.devices|
                            && forall d :: d in facts.devices ==> (DeliveryKey(event), d.id) in after.deliveries)
            && (!inTime ==> after.jobs[event.key].outcome == Some("push-expired")
                            && after.jobs[event.key].deliveries == 0 && after.deliveries == db.deliveries)
  {
    JobEffect(db, event, facts, clock);
    var work := Work(event, facts, PushExpired(event, clock.now));
    var plan := Plan(event, facts, clock);
    if PushExpired(event, clock.now) {
      forall w | w in plan ensures !w.Deliver? {
        if w.Deliver? { DeliverHasDevice(event, facts, clock, w); }
      }
      DeliveriesKept(db, plan);
    } else {
      assert Completed(work, plan) by { assert Attempted(work, clock); }
      CompletedReachesAll(db, work, plan);
    }
  }

  /** A delivery nobody has tried to send yet, for the owner of the device and the event's organisation. */
  ghost predicate FirstDue(event: Event, clock: Clock, d: Device, delivery: Delivery) {
    delivery == Delivery(d.owner, event.organization, Waiting, 0,
                         if event.category == SaleCreated || event.category == MemberActivity
                         then (event.eventAt / 60_000 + 1) * 60_000 else clock.now, None, None, None)
  }

  /** What every delivery made by a distribution is; those that existed, and no others, stay. */
  lemma DeliveryEffect(db: Database, event: Event, facts: Facts, clock: Clock, k: (string, string))
    requires WellFormed(event) && event.key in db.jobs
    ensures var after := Run(db, Plan(event, facts, clock));
            && (k in db.deliveries ==> k in after.deliveries && after.deliveries[k] == db.deliveries[k])
            && (k !in db.deliveries && k in after.deliveries ==>
                  && facts.irrelevance.None? && facts.pushActive && k.0 == DeliveryKey(event)
                  && exists d :: d in facts.devices && d.id == k.1 && FirstDue(event, clock, d, after.deliveries[k]))
  {
    var plan := Plan(event, facts, clock);
    if k in db.deliveries {
      OldDeliveriesKept(db, plan, k);
    } else if k in Run(db, plan).deliveries {
      var w := NewDeliveryHasAWrite(db, plan, k);
      if facts.irrelevance.Some? {
        assert false;
      } else {
        DeliverHasDevice(event, facts, clock, w);
        var d :| d in facts.devices && w == DeliverTo(event, d, clock.now);
        hide Run;
      }
    }
  }

  /** The job of a group is recorded by the first event that needs it; no other job is ever touched. */
  lemma {:induction false} RecordedOnce(db: Database, writes: seq<Write>, w: Write)
    requires w.Record?
    requires forall v :: v in writes && v.Close? ==> v.key != w.job.key
    requires forall v :: v in writes && v.Record? && v.job.key == w.job.key ==> v == w
    ensures var k := w.job.key; var jobs := Run(db, writes).jobs;
            if k in db.jobs then k in jobs && jobs[k] == db.jobs[k]
            else (k in jobs <==> w in writes) && (k in jobs ==> jobs[k] == Job(w.job, w.initial, None, 0, None))
  {
    if |writes| > 0 {
      var front, last := writes[..|writes| - 1], writes[|writes| - 1];
      assert writes == front + [last];
      RecordedOnce(db, front, w);
    }
  }

  lemma RecordIsPlanned(event: Event, facts: Facts, clock: Clock, v: Write)
    requires WellFormed(event) && v in Plan(event, facts, clock)
    ensures v.Close? ==> v.key == event.key
    ensures v.Record? ==> v == Record(PushEvent(event), Dispatched) && Grouped(event)
                          && facts.irrelevance.None? && facts.pushActive && !PushExpired(event, clock.now) && |facts.devices| > 0
  {
    PlanIsPlanned(Work(event, facts, PushExpired(event, clock.now)), clock, v);
    if facts.irrelevance.None? { PlanParts(event, facts, clock, v); }
  }

  lemma GroupPlanned(event: Event, facts: Facts, clock: Clock)
    requires Grouped(event) && facts.irrelevance.None? && facts.pushActive && !PushExpired(event, clock.now) && |facts.devices| > 0
    ensures Record(PushEvent(event), Dispatched) in Plan(event, facts, clock)
  {
    assert Record(PushEvent(event), Dispatched) in Pushes(event, facts, clock.now) by {
      assert Deliveries(event, facts.devices, clock.now)[0] == Record(PushEvent(event), Dispatched);
    }
  }

  /**
   * Beside its own job a distribution records at most one, and only when a sale or an activity is pushed
   * in time: that of the minute, or of the group, dated at its end and never itself to be distributed.
   */
  lemma GroupJobEffect(db: Database, event: Event, facts: Facts, clock: Clock, k: string)
    requires WellFormed(event) && k != event.key
    ensures var jobs := Run(db, Plan(event, facts, clock)).jobs;
            && (k in db.jobs ==> k in jobs && jobs[k] == db.jobs[k])
            && (k !in db.jobs ==>
                  && (k in jobs <==> (event.category == SaleCreated || event.category == MemberActivity)
                                     && facts.irrelevance.None? && facts.pushActive && |facts.devices| > 0
                                     && clock.now - event.eventAt <= 3_600_000 && k == DeliveryKey(event))
                  && (k in jobs ==>
                        jobs[k] == Job(Event(k, if event.category == SaleCreated then SaleDigest else MemberActivity,
                                             event.organization, if event.category == SaleCreated then None else event.actor,
                                             None, Links(None, None, None, None, None, None),
                                             (event.eventAt / 60_000 + 1) * 60_000), Dispatched, None, 0, None)))
  {
    var plan := Plan(event, facts, clock);
    var group := if k == DeliveryKey(event) then PushEvent(event) else event.(key := k);
    forall v | v in plan
      ensures v.Close? ==> v.key != k
      ensures v.Record? && v.job.key == k ==> v == Record(group, Dispatched)
    {
      RecordIsPlanned(event, facts, clock, v);
    }
    RecordedOnce(db, plan, Record(group, Dispatched));
    if Record(group, Dispatched) in plan {
      RecordIsPlanned(event, facts, clock, Record(group, Dispatched));
    } else if Grouped(event) && facts.irrelevance.None? && facts.pushActive && !PushExpired(event, clock.now) && |facts.devices| > 0 {
      GroupPlanned(event, facts, clock);
    }
  }

  // ----- Notifications -----

  /** What a recipient finds under a key that was `before`: made, left alone, or counted once more. */
  ghost predicate Noticed(event: Event, authorName: Option<string>, before: Option<Notification>, after: Notification)
    requires event.category == MemberActivity ==> event.activity.Some? && event.actor.Some?
  {
    if event.category == MemberActivity then
      var a := event.activity.value;
      if before.None? then
        after == Notification(Content(MemberActivity, event.organization, Links(None, None, None, None, None, None),
                                      event.actor, authorName, Some(a.entity), Some(a.action)),
                              event.eventAt, 1, {event.key}, {a.target}, None, None)
      else if event.key in before.value.events then after == before.value
      else after == before.value.(eventAt := if before.value.eventAt < event.eventAt then event.eventAt else before.value.eventAt,
                                  count := before.value.count + 1, events := before.value.events + {event.key},
                                  targets := before.value.targets + {a.target}, readAt := None, expiresAt := None)
    else if before.None? then
      after == Notification(Content(event.category, event.organization, event.links, event.actor,
                                    if event.category == MemberJoined then authorName else None, None, None),
                            event.eventAt, 0, {}, {}, None, None)
    else after == before.value
  }

  /** The key a recipient is notified under: the group of an activity, or the event. */
  function NoticeKey(event: Event): string
    requires event.category == MemberActivity ==> event.activity.Some? && event.actor.Some?
  {
    if event.category == MemberActivity
    then GroupKey(event.organization, event.actor.value, event.activity.value.entity, event.activity.value.action, event.eventAt)
    else event.key
  }

  lemma NoticeIs(db: Database, event: Event, user: string, authorName: Option<string>)
    requires WellFormed(event)
    ensures var w := NoticeFor(event, user, authorName); var k := (NoticeKey(event), user);
            && Notifies(w, k) && (w.key, w.user) == k && k in Apply(db, w).notifications
            && Noticed(event, authorName, if k in db.notifications then Some(db.notifications[k]) else None,
                       Apply(db, w).notifications[k])
  {}

  /**
   * Each recipient of a relevant event is notified once, whatever the category, and an activity is
   * counted once in its group, which turns unread. Every other notification stays as it was.
   */
  lemma NoticeEffect(db: Database, event: Event, facts: Facts, clock: Clock, k: (string, string))
    requires WellFormed(event)
    ensures var after := Run(db, Plan(event, facts, clock)).notifications;
            if facts.irrelevance.None? && k.0 == NoticeKey(event) && k.1 in facts.recipients
            then k in after && Noticed(event, facts.authorName, if k in db.notifications then Some(db.notifications[k]) else None, after[k])
            else SameAt(after, db.notifications, k)
  {
    var plan := Plan(event, facts, clock);
    var work := Work(event, facts, PushExpired(event, clock.now));
    NoticeIs(db, event, k.1, facts.authorName);
    hide NoticeFor, Noticed, Run, Plan, Apply, WellFormed;
    forall v | v in plan && Notifies(v, k)
      ensures facts.irrelevance.None? && k.0 == NoticeKey(event) && k.1 in facts.recipients
      ensures v == NoticeFor(event, k.1, facts.authorName)
    {
      NoticeInPlan(work, clock, v);
    }
    if facts.irrelevance.None? && k.0 == NoticeKey(event) && k.1 in facts.recipients {
      PlanHolds(work, clock);
      NotifiedOnce(db, plan, NoticeFor(event, k.1, facts.authorName));
    } else {
      var nobody := Content(event.category, "", event.links, None, None, None, None);
      NotifiedOnce(db, plan, NotifyOnce(k.0, k.1, nobody, 0));
    }
  }
}
