/**
 * Crashes and replays among everything else that goes on: notifications are read and deliveries are
 * sent between the writes of the dispatcher.
 */
module Replays {

  import opened Options
  import opened Outbox
  import opened Dispatch
  import opened Notifications

  // ----- Nothing is taken away -----

  /** No job is closed as pending. */
  ghost predicate ClosesForGood(steps: seq<Step>) {
    forall s :: s in steps && s.Written? && s.w.Close? ==> s.w.status != Pending
  }

  lemma NextExtends(db: Database, step: Step)
    requires step.Written? && step.w.Close? ==> step.w.status != Pending
    ensures Extends(db, Next(db, step))
  {
    if step.Written? { ApplyExtends(db, step.w); }
  }

  /** Any run of writes, readings and sendings extends the database it starts from. */
  lemma {:induction false} AfterExtends(db: Database, steps: seq<Step>)
    requires ClosesForGood(steps)
    ensures Extends(db, After(db, steps))
  {
    if |steps| > 0 {
      var front, last := steps[..|steps| - 1], steps[|steps| - 1];
      assert steps == front + [last];
      assert last in steps && forall s :: s in front ==> s in steps;
      AfterExtends(db, front);
      NextExtends(After(db, front), last);
      AfterLast(db, steps);
      hide After, Next, Extends;
      ExtendsIsTransitive(db, After(db, front), After(db, steps));
    }
  }

  /**
   * A dispatch cut after any of its writes, then any run of other writes, readings and sendings, then
   * a new attempt: up to the point of the crash it changes nothing.
   */
  lemma ReplayWritesNothing(db: Database, work: Work, c: Clock, cut: nat, between: seq<Step>, d: Clock)
    requires WellFormed(work.event) && work.event.key in db.jobs
    requires Attempted(work, c) && Attempted(work, d) && cut <= |WorkPlan(work, c)|
    requires ClosesForGood(between)
    ensures var later := After(Run(db, WorkPlan(work, c)[..cut]), between);
            cut <= |WorkPlan(work, d)| && Run(later, WorkPlan(work, d)[..cut]) == later
  {
    var cutAt := Run(db, WorkPlan(work, c)[..cut]);
    AfterExtends(cutAt, between);
    ReplayIsIdle(db, work, c, cut, After(cutAt, between), d);
  }

  // ----- One final state, whatever was read and sent meanwhile -----

  function NotificationsLasting(all: map<(string, string), Notification>): map<(string, string), Notification> {
    map k | k in all :: all[k].(readAt := None, expiresAt := None)
  }

  function DeliveriesLasting(all: map<(string, string), Delivery>): map<(string, string), Delivery> {
    map k | k in all :: NewDelivery(all[k].owner, all[k].organization, 0)
  }

  /** The database without the dates of attempts, what users have read and how far senders have come. */
  function Lasting(db: Database): Database {
    Database(JobsTimeless(db.jobs), NotificationsLasting(db.notifications), DeliveriesLasting(db.deliveries))
  }

  lemma LastingIsTimeless(db: Database)
    ensures Lasting(DatabaseTimeless(db)) == Lasting(db)
  {
    assert JobsTimeless(JobsTimeless(db.jobs)) == JobsTimeless(db.jobs);
    assert DeliveriesLasting(DeliveriesTimeless(db.deliveries)) == DeliveriesLasting(db.deliveries);
  }

  lemma LastingApply(db: Database, w: Write)
    ensures Lasting(Apply(db, w)) == Apply(Lasting(db), Timeless(w))
  {
    if w.Record? || w.Close? {
      assert JobsTimeless(Recorded(db.jobs, w)) == Recorded(JobsTimeless(db.jobs), Timeless(w));
    } else if w.Deliver? {
      assert DeliveriesLasting(Delivered(db.deliveries, w)) == Delivered(DeliveriesLasting(db.deliveries), Timeless(w));
    } else {
      assert NotificationsLasting(Notified(db.notifications, w)) == Notified(NotificationsLasting(db.notifications), w);
    }
  }

  lemma LastingIdle(db: Database, step: Step)
    requires !step.Written?
    ensures Lasting(Next(db, step)) == Lasting(db)
  {
    if step.Read? {
      assert NotificationsLasting(Next(db, step).notifications) == NotificationsLasting(db.notifications);
    } else {
      assert DeliveriesLasting(Next(db, step).deliveries) == DeliveriesLasting(db.deliveries);
    }
  }

  function WritesOf(steps: seq<Step>): seq<Write> {
    if |steps| == 0 then []
    else WritesOf(steps[..|steps| - 1]) + if steps[|steps| - 1].Written? then [steps[|steps| - 1].w] else []
  }

  lemma {:induction false} LastingAfter(db: Database, steps: seq<Step>)
    ensures Lasting(After(db, steps)) == Lasting(Run(db, WritesOf(steps)))
  {
    if |steps| > 0 {
      var front, last := steps[..|steps| - 1], steps[|steps| - 1];
      LastingAfter(db, front);
      AfterLast(db, steps);
      hide After, Lasting;
      if last.Written? {
        LastingApply(After(db, front), last.w);
        LastingApply(Run(db, WritesOf(front)), last.w);
        assert WritesOf(steps)[..|WritesOf(front)|] == WritesOf(front);
      } else {
        LastingIdle(After(db, front), last);
        assert WritesOf(steps) == WritesOf(front);
      }
    }
  }

  /**
   * Crash safety among readers and senders: whatever attempts were cut short, interleaved and repeated
   * between readings and sendings, once every event has been distributed to the end the database is
   * the one of a single distribution of each, but for times, readings and sendings.
   */
  lemma CrashSafeAmongOthers(db: Database, work: seq<Work>, clocks: seq<Clock>, steps: seq<Step>)
    requires Distributable(db, work)
    requires |work| == |clocks| && forall i :: 0 <= i < |work| ==> Attempted(work[i], clocks[i])
    requires OnlyAttempts(work, WritesOf(steps))
    requires forall i :: 0 <= i < |work| ==> Completed(work[i], WritesOf(steps))
    ensures Lasting(After(db, steps)) == Lasting(Run(db, Uninterrupted(work, clocks)))
  {
    CrashSafe(db, work, clocks, WritesOf(steps));
    hide Lasting, DatabaseTimeless, Run, After, WritesOf, Uninterrupted;
    LastingAfter(db, steps);
    LastingIsTimeless(Run(db, WritesOf(steps)));
    LastingIsTimeless(Run(db, Uninterrupted(work, clocks)));
  }
}
