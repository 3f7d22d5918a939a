/**
 * The dispatcher as the service runs it: upserts in loops over three collections. The ghost log holds
 * the single writes made so far, in order; a crash keeps the effect of a prefix of it.
 */
module Dispatcher {

  import opened Options
  import opened Outbox
  import Dispatch

  lemma RunOneMore(db: Database, writes: seq<Write>, w: Write)
    ensures Run(db, writes + [w]) == Apply(Run(db, writes), w)
  {
    assert (writes + [w])[..|writes|] == writes;
  }

  lemma NextNotice(db: Database, event: Event, userIds: seq<string>, n: nat, authorName: Option<string>)
    requires n < |userIds| && (event.category == MemberActivity ==> Dispatch.IsActivity(event))
    ensures Dispatch.Notices(event, userIds[..n + 1], authorName)
         == Dispatch.Notices(event, userIds[..n], authorName) + [Dispatch.NoticeFor(event, userIds[n], authorName)]
    ensures Run(db, Dispatch.Notices(event, userIds[..n + 1], authorName))
         == Apply(Run(db, Dispatch.Notices(event, userIds[..n], authorName)), Dispatch.NoticeFor(event, userIds[n], authorName))
  {
    RunOneMore(db, Dispatch.Notices(event, userIds[..n], authorName), Dispatch.NoticeFor(event, userIds[n], authorName));
  }

  lemma NextDevice(db: Database, event: Event, devices: seq<Dispatch.Device>, n: nat, now: int)
    requires n < |devices|
    ensures Dispatch.EachDevice(event, devices[..n + 1], now)
         == Dispatch.EachDevice(event, devices[..n], now) + [Dispatch.DeliverTo(event, devices[n], now)]
    ensures Run(db, Dispatch.EachDevice(event, devices[..n + 1], now))
         == Apply(Run(db, Dispatch.EachDevice(event, devices[..n], now)), Dispatch.DeliverTo(event, devices[n], now))
  {
    RunOneMore(db, Dispatch.EachDevice(event, devices[..n], now), Dispatch.DeliverTo(event, devices[n], now));
  }

  lemma NotGrouped(db: Database, event: Event)
    requires !Dispatch.Grouped(event)
    ensures Run(db, []) == db && Dispatch.PushEvent(event) == event
  {}

  lemma PushOrganization(event: Event)
    ensures Dispatch.PushEvent(event).organization == event.organization
  {}

  class Service {
    var jobs: map<string, Job>
    var notifications: map<(string, string), Notification>
    var deliveries: map<(string, string), Delivery>
    ghost var log: seq<Write>

    ghost function Db(): Database
      reads this
    {
      Database(jobs, notifications, deliveries)
    }

    /** The upsert on `{eventKey, userId}`: an existing notification is left as it is. */
    method UpsertNotification(event: Event, user: string, authorName: Option<string>) returns (upserted: nat)
      requires event.category != MemberActivity
      modifies this`notifications, this`log
      ensures var w := Dispatch.NoticeFor(event, user, authorName);
              Db() == Apply(old(Db()), w) && log == old(log) + [w]
      ensures |notifications| == |old(notifications)| + upserted
    {
      log := log + [Dispatch.NoticeFor(event, user, authorName)];
      var name := if event.category == MemberJoined then authorName else None;
      var content := Content(event.category, event.organization, event.links, event.actor, name, None, None);
      upserted := 0;
      if (event.key, user) !in notifications {
        notifications := notifications[(event.key, user) := NewNotification(content, event.eventAt)];
        upserted := 1;
      }
    }

    /**
     * The upsert of a group: its filter asks for a group that has not counted this action. When the
     * group has counted it, the upsert tries to insert and the unique index refuses.
     */
    method UpsertGroup(event: Event, user: string, authorName: Option<string>) returns (upserted: nat, duplicate: bool)
      requires Dispatch.IsActivity(event)
      modifies this`notifications, this`log
      ensures var w := Dispatch.NoticeFor(event, user, authorName);
              Db() == Apply(old(Db()), w) && log == old(log) + [w]
      ensures |notifications| == |old(notifications)| + upserted
      ensures duplicate ==> notifications == old(notifications)
    {
      log := log + [Dispatch.NoticeFor(event, user, authorName)];
      var activity := event.activity.value;
      var content := Content(MemberActivity, event.organization, Links(None, None, None, None, None, None), event.actor,
                             authorName, Some(activity.entity), Some(activity.action));
      var k := (Dispatch.ActivityKey(event), user);
      upserted, duplicate := 0, false;
      if k in notifications && event.key !in notifications[k].events {
        notifications := notifications[k := Added(notifications[k], event.key, activity.target, event.eventAt)];
      } else if k in notifications {
        duplicate := true;
      } else {
        notifications := notifications[k := NewGroup(event.key, activity.target, content, event.eventAt)];
        upserted := 1;
      }
    }

    /** One notification for each recipient and event. */
    method CreateFromJob(event: Event, userIds: seq<string>, authorName: Option<string>) returns (created: nat)
      requires event.category != MemberActivity
      modifies this`notifications, this`log
      ensures var writes := Dispatch.Notices(event, userIds, authorName);
              Db() == Run(old(Db()), writes) && log == old(log) + writes
      ensures |notifications| == |old(notifications)| + created
    {
      created := 0;
      ghost var writes: seq<Write> := [];
      for n := 0 to |userIds|
        invariant writes == Dispatch.Notices(event, userIds[..n], authorName)
        invariant Db() == Run(old(Db()), writes) && log == old(log) + writes
        invariant |notifications| == |old(notifications)| + created
      {
        NextNotice(old(Db()), event, userIds, n, authorName);
        var upserted := UpsertNotification(event, userIds[n], authorName);
        writes := writes + [Dispatch.NoticeFor(event, userIds[n], authorName)];
        created := created + upserted;
      }
      assert userIds[..|userIds|] == userIds;
    }

    /** One notification for each recipient and group; an action already counted changes nothing. */
    method CreateActivityFromJob(event: Event, userIds: seq<string>, authorName: Option<string>) returns (created: nat)
      requires event.category == MemberActivity
      modifies this`notifications, this`log
      ensures var writes := Dispatch.Notices(event, userIds, authorName);
              Db() == Run(old(Db()), writes) && log == old(log) + writes
      ensures |notifications| == |old(notifications)| + created
    {
      created := 0;
      if event.activity.None? || event.actor.None? {
        return;
      }
      ghost var writes: seq<Write> := [];
      for n := 0 to |userIds|
        invariant writes == Dispatch.Notices(event, userIds[..n], authorName)
        invariant Db() == Run(old(Db()), writes) && log == old(log) + writes
        invariant |notifications| == |old(notifications)| + created
      {
        NextNotice(old(Db()), event, userIds, n, authorName);
        var upserted, duplicate := UpsertGroup(event, userIds[n], authorName);
        writes := writes + [Dispatch.NoticeFor(event, userIds[n], authorName)];
        if duplicate {
          continue;
        }
        created := created + upserted;
      }
      assert userIds[..|userIds|] == userIds;
    }

    method RecordJob(event: Event, initial: JobStatus) returns (inserted: nat)
      modifies this`jobs, this`log
      ensures Db() == Apply(old(Db()), Record(event, initial)) && log == old(log) + [Record(event, initial)]
      ensures inserted == |jobs| - |old(jobs)|
    {
      log := log + [Record(event, initial)];
      inserted := 0;
      if event.key !in jobs {
        jobs := jobs[event.key := NewJob(event, initial)];
        inserted := 1;
      }
    }

    method UpsertDelivery(target: Event, device: Dispatch.Device, nextAttemptAt: int) returns (inserted: bool)
      modifies this`deliveries, this`log
      ensures var w := Deliver(target.key, device.id, device.owner, target.organization, nextAttemptAt);
              Db() == Apply(old(Db()), w) && log == old(log) + [w]
      ensures inserted <==> (target.key, device.id) !in old(deliveries)
    {
      log := log + [Deliver(target.key, device.id, device.owner, target.organization, nextAttemptAt)];
      inserted := (target.key, device.id) !in deliveries;
      if inserted {
        deliveries := deliveries[(target.key, device.id) := NewDelivery(device.owner, target.organization, nextAttemptAt)];
      }
    }

    method CloseJob(key: string, status: JobStatus, outcome: Option<string>, count: nat, at: int)
      modifies this`jobs, this`log
      ensures var w := Close(key, status, outcome, count, at);
              Db() == Apply(old(Db()), w) && log == old(log) + [w]
    {
      log := log + [Close(key, status, outcome, count, at)];
      if key in jobs && jobs[key].status == Pending {
        jobs := jobs[key := jobs[key].(status := status, outcome := outcome, deliveries := count, processedAt := Some(at))];
      }
    }

    /** The digest or the activity group, recorded if it is missing and read back. */
    method RecordGroup(event: Event) returns (stored: Event)
      requires Dispatch.Grouped(event) && Dispatch.GroupStored(jobs, event)
      modifies this`jobs, this`log
      ensures var w := Record(Dispatch.PushEvent(event), Dispatched);
              Db() == Apply(old(Db()), w) && log == old(log) + [w]
      ensures stored == Dispatch.PushEvent(event)
    {
      var group := Dispatch.PushEvent(event);
      var inserted := RecordJob(group, Dispatched);
      stored := jobs[group.key].event;
    }

    method DeliverToEach(event: Event, target: Event, devices: seq<Dispatch.Device>, nextAttemptAt: int, ghost now: int)
      requires target.key == Dispatch.PushEvent(event).key && target.organization == event.organization
      requires nextAttemptAt == Dispatch.DueAt(event, now)
      modifies this`deliveries, this`log
      ensures var writes := Dispatch.EachDevice(event, devices, now);
              Db() == Run(old(Db()), writes) && log == old(log) + writes
    {
      ghost var writes: seq<Write> := [];
      for n := 0 to |devices|
        invariant writes == Dispatch.EachDevice(event, devices[..n], now)
        invariant Db() == Run(old(Db()), writes) && log == old(log) + writes
      {
        NextDevice(old(Db()), event, devices, n, now);
        var inserted := UpsertDelivery(target, devices[n], nextAttemptAt);
        writes := writes + [Dispatch.DeliverTo(event, devices[n], now)];
      }
      assert devices[..|devices|] == devices;
    }

    method PlanDeliveries(event: Event, devices: seq<Dispatch.Device>, now: int) returns (count: nat)
      requires Dispatch.GroupStored(jobs, event)
      modifies this`jobs, this`deliveries, this`log
      ensures var writes := Dispatch.Deliveries(event, devices, now);
              Db() == Run(old(Db()), writes) && log == old(log) + writes
      ensures count == |devices|
    {
      if |devices| == 0 {
        return 0;
      }
      PushOrganization(event);
      hide Run, Apply, Dispatch.PushEvent, Dispatch.EachDevice;
      ghost var before := Db();
      var target := event;
      ghost var group: seq<Write> := [];
      if Dispatch.Grouped(event) {
        target := RecordGroup(event);
        group := [Record(Dispatch.PushEvent(event), Dispatched)];
        RunOne(before, group[0]);
      } else {
        NotGrouped(before, event);
      }
      var nextAttemptAt := if event.category == SaleCreated || event.category == MemberActivity then target.eventAt else now;
      DeliverToEach(event, target, devices, nextAttemptAt, now);
      RunAppend(before, group, Dispatch.EachDevice(event, devices, now));
      count := |devices|;
    }

    /** The push side of a distribution: nothing when push is off or the event is too old. */
    method Push(event: Event, facts: Dispatch.Facts, now: int) returns (outcome: Option<string>, count: nat)
      requires Dispatch.GroupStored(jobs, event)
      modifies this`jobs, this`deliveries, this`log
      ensures var writes := Dispatch.Pushes(event, facts, now);
              Db() == Run(old(Db()), writes) && log == old(log) + writes
      ensures facts.irrelevance.None? ==> forall at ::
                Dispatch.Closing(event, facts, Dispatch.PushExpired(event, now), at)
                  == Close(event.key, Dispatched, outcome, count, at)
    {
      hide Dispatch.Deliveries;
      outcome, count := None, 0;
      assert Run(Db(), []) == Db();
      if !facts.pushActive {
        outcome := Some("push-disabled");
      } else if Dispatch.PushExpired(event, now) {
        outcome := Some("push-expired");
      } else {
        count := PlanDeliveries(event, facts.devices, now);
      }
    }

    method Notify(event: Event, facts: Dispatch.Facts) returns (notified: nat)
      modifies this`notifications, this`log
      ensures var writes := Dispatch.Notices(event, facts.recipients, facts.authorName);
              Db() == Run(old(Db()), writes) && log == old(log) + writes
      ensures |notifications| == |old(notifications)| + notified
    {
      if event.category == MemberActivity {
        notified := CreateActivityFromJob(event, facts.recipients, facts.authorName);
      } else {
        notified := CreateFromJob(event, facts.recipients, facts.authorName);
      }
    }

    /** Distribution of one event: exactly the writes of its plan, each atomic, in that order. */
    method DispatchOne(event: Event, facts: Dispatch.Facts, clock: Dispatch.Clock) returns (notified: nat, cancelled: bool)
      requires Dispatch.GroupStored(jobs, event)
      modifies this
      ensures var plan := Dispatch.Plan(event, facts, clock);
              Db() == Run(old(Db()), plan) && log == old(log) + plan
      ensures cancelled <==> facts.irrelevance.Some?
      ensures |notifications| == |old(notifications)| + notified
    {
      hide Run, Apply, Dispatch.Notices, Dispatch.Pushes, Dispatch.PushExpired;
      notified, cancelled := 0, false;
      ghost var before := Db();
      if facts.irrelevance.Some? {
        RunOne(before, Close(event.key, Cancelled, facts.irrelevance, 0, clock.closedAt));
        CloseJob(event.key, Cancelled, facts.irrelevance, 0, clock.closedAt);
        cancelled := true;
        return;
      }
      notified := Notify(event, facts);
      ghost var notices := Dispatch.Notices(event, facts.recipients, facts.authorName);
      var outcome, count := Push(event, facts, clock.now);
      ghost var pushes := Dispatch.Pushes(event, facts, clock.now);
      RunAppend(before, notices, pushes);
      RunOneMore(before, notices + pushes, Close(event.key, Dispatched, outcome, count, clock.closedAt));
      CloseJob(event.key, Dispatched, outcome, count, clock.closedAt);
    }
  }
}
