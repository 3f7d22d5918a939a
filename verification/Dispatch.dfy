/**
 * Distribution of one event and its replay after a crash. The dispatcher is a list of single writes;
 * a crash keeps a prefix of it and the next pass starts the list again.
 */
module Dispatch {

  import opened Options
  import opened Outbox
  import opened EventKeys

  // ----- Replays -----

  /** The write has already had its effect, whatever happened to the document since. */
  ghost predicate Done(db: Database, w: Write) {
    match w
    case NotifyOnce(key, user, _, _) => (key, user) in db.notifications
    case NotifyActivity(key, user, event, _, _, _) =>
      (key, user) in db.notifications && event in db.notifications[(key, user)].events
    case Record(event, _) => event.key in db.jobs
    case Deliver(key, device, _, _, _) => (key, device) in db.deliveries
    case Close(key, _, _, _, _) => key in db.jobs && db.jobs[key].status != Pending
  }

  /** A job is closed with a final status, and only once it exists. */
  ghost predicate Ready(db: Database, w: Write) {
    w.Close? ==> w.key in db.jobs && w.status != Pending
  }

  ghost predicate AllReady(db: Database, writes: seq<Write>) {
    forall i :: 0 <= i < |writes| ==> Ready(db, writes[i])
  }

  ghost predicate AllDone(db: Database, writes: seq<Write>) {
    forall i :: 0 <= i < |writes| ==> Done(db, writes[i])
  }

  lemma DoneIsIdle(db: Database, w: Write)
    requires Done(db, w)
    ensures Apply(db, w) == db
  {}

  lemma ApplyDoes(db: Database, w: Write)
    requires Ready(db, w)
    ensures Done(Apply(db, w), w)
  {}

  lemma ApplyKeeps(db: Database, v: Write, w: Write)
    ensures Done(db, w) ==> Done(Apply(db, v), w)
    ensures Ready(db, w) ==> Ready(Apply(db, v), w)
  {}

  lemma {:induction false} RunKeepsDone(db: Database, writes: seq<Write>, w: Write)
    ensures Done(db, w) ==> Done(Run(db, writes), w)
    ensures Ready(db, w) ==> Ready(Run(db, writes), w)
  {
    if |writes| > 0 {
      RunKeepsDone(db, writes[..|writes| - 1], w);
      ApplyKeeps(Run(db, writes[..|writes| - 1]), writes[|writes| - 1], w);
    }
  }

  lemma {:induction false} RunDoes(db: Database, writes: seq<Write>, w: Write)
    requires w in writes && Ready(db, w)
    ensures Done(Run(db, writes), w)
  {
    var front := writes[..|writes| - 1];
    var last := writes[|writes| - 1];
    RunKeepsDone(db, front, w);
    if w == last {
      ApplyDoes(Run(db, front), w);
    } else {
      assert writes == front + [last];
      RunDoes(db, front, w);
      ApplyKeeps(Run(db, front), last, w);
    }
  }

  lemma {:induction false} DoneRunIsIdle(db: Database, writes: seq<Write>)
    requires AllDone(db, writes)
    ensures Run(db, writes) == db
  {
    if |writes| > 0 {
      DoneRunIsIdle(db, writes[..|writes| - 1]);
      DoneIsIdle(db, writes[|writes| - 1]);
    }
  }

  // ----- Order does not matter -----

  /** Two writes on the same document agree on what it holds. */
  ghost predicate Coherent(v: Write, w: Write) {
    && (v.NotifyOnce? && w.NotifyOnce? && v.key == w.key && v.user == w.user ==> v == w)
    && (v.NotifyOnce? && w.NotifyActivity? ==> (v.key, v.user) != (w.key, w.user))
    && (v.NotifyActivity? && w.NotifyOnce? ==> (v.key, v.user) != (w.key, w.user))
    && (v.NotifyActivity? && w.NotifyActivity? && v.key == w.key && v.user == w.user ==>
          v.content == w.content && (v.event == w.event ==> v == w))
    && (v.Record? && w.Record? && v.job.key == w.job.key ==> v == w)
    && (v.Deliver? && w.Deliver? && v.key == w.key && v.device == w.device ==> v == w)
    && (v.Close? && w.Close? && v.key == w.key ==> v == w)
  }

  ghost predicate AllCoherent(writes: seq<Write>) {
    forall i, j :: 0 <= i < |writes| && 0 <= j < |writes| ==> Coherent(writes[i], writes[j])
  }

  lemma NotifiedCommute(all: map<(string, string), Notification>, v: Write, w: Write)
    requires v.NotifyOnce? || v.NotifyActivity?
    requires w.NotifyOnce? || w.NotifyActivity?
    requires Coherent(v, w)
    ensures Notified(Notified(all, v), w) == Notified(Notified(all, w), v)
  {
    var j, k := (v.key, v.user), (w.key, w.user);
    if j != k {
    } else if v.NotifyOnce? {
    } else if v.event == w.event {
    } else if k in all && (v.event in all[k].events || w.event in all[k].events) {
    } else if k in all {
      assert Added(Added(all[k], v.event, v.target, v.at), w.event, w.target, w.at)
          == Added(Added(all[k], w.event, w.target, w.at), v.event, v.target, v.at);
    } else {
      assert Added(NewGroup(v.event, v.target, v.content, v.at), w.event, w.target, w.at)
          == Added(NewGroup(w.event, w.target, w.content, w.at), v.event, v.target, v.at);
    }
  }

  lemma RecordedCommute(db: Database, v: Write, w: Write)
    requires v.Record? || v.Close?
    requires w.Record? || w.Close?
    requires Coherent(v, w) && Ready(db, v) && Ready(db, w)
    ensures Recorded(Recorded(db.jobs, v), w) == Recorded(Recorded(db.jobs, w), v)
  {}

  lemma Commute(db: Database, v: Write, w: Write)
    requires Coherent(v, w) && Ready(db, v) && Ready(db, w)
    ensures Apply(Apply(db, v), w) == Apply(Apply(db, w), v)
  {
    hide Notified, Recorded;
    if (v.NotifyOnce? || v.NotifyActivity?) && (w.NotifyOnce? || w.NotifyActivity?) {
      NotifiedCommute(db.notifications, v, w);
    } else if (v.Record? || v.Close?) && (w.Record? || w.Close?) {
      RecordedCommute(db, v, w);
    } else if v.Deliver? && w.Deliver? {
      assert (v.key, v.device) == (w.key, w.device) ==> v == w;
    }
  }

  lemma {:induction false} MoveLast(db: Database, writes: seq<Write>, w: Write)
    requires AllReady(db, writes) && Ready(db, w)
    requires forall v :: v in writes ==> Coherent(v, w)
    ensures Run(Apply(db, w), writes) == Apply(Run(db, writes), w)
  {
    if |writes| > 0 {
      var front := writes[..|writes| - 1];
      var last := writes[|writes| - 1];
      assert writes == front + [last];
      MoveLast(db, front, w);
      RunKeepsDone(db, front, w);
      RunKeepsDone(db, front, last);
      Commute(Run(db, front), last, w);
    }
  }

  lemma {:induction false} Exchange(db: Database, a: seq<Write>, b: seq<Write>)
    requires AllReady(db, a) && AllReady(db, b)
    requires forall v, w :: v in a && w in b ==> Coherent(v, w)
    ensures Run(Run(db, a), b) == Run(Run(db, b), a)
  {
    if |a| > 0 {
      var front := a[..|a| - 1];
      var last := a[|a| - 1];
      assert a == front + [last];
      Exchange(db, front, b);
      forall w | w in b ensures Ready(Run(db, front), w) { RunKeepsDone(db, front, w); }
      RunKeepsDone(db, front, last);
      forall v | v in b ensures Coherent(v, last) { assert Coherent(last, v); }
      MoveLast(Run(db, front), b, last);
    }
  }

  /** Coherent writes lead to one state, in any order and however often each is repeated. */
  lemma SameWritesSameState(db: Database, a: seq<Write>, b: seq<Write>)
    requires AllReady(db, a) && AllReady(db, b)
    requires forall w :: w in a <==> w in b
    requires AllCoherent(a)
    ensures Run(db, a) == Run(db, b)
  {
    forall v, w | v in a && w in b ensures Coherent(v, w) {
      assert w in a;
    }
    Exchange(db, a, b);
    forall w | w in b ensures Done(Run(db, a), w) { RunDoes(db, a, w); }
    forall w | w in a ensures Done(Run(db, b), w) { RunDoes(db, b, w); }
    DoneRunIsIdle(Run(db, a), b);
    DoneRunIsIdle(Run(db, b), a);
  }

  // ----- What one dispatch writes -----

  datatype Device = Device(id: string, owner: string)

  /** What the dispatcher reads before writing: reason to drop the event, recipients, devices, switch. */
  datatype Facts = Facts(irrelevance: Option<string>, recipients: seq<string>, authorName: Option<string>,
                         pushActive: bool, devices: seq<Device>)

  /** The clock is read at the start of a dispatch and again when its job is closed. */
  datatype Clock = Clock(now: int, closedAt: int)

  const HOUR: int := 3_600_000

  /** `PUSH_EVENT_MAX_AGE_MS`. */
  function MaxAge(category: Category): Option<int> {
    match category
    case StockDepleted => Some(6 * HOUR)
    case StockLow => Some(6 * HOUR)
    case SaleCreated => Some(HOUR)
    case SaleDigest => Some(HOUR)
    case PaymentSucceeded => Some(HOUR)
    case MonthlyReport => Some(12 * HOUR)
    case MemberJoined => Some(HOUR)
    case MemberActivity => Some(HOUR)
    case SubscriptionEnding => None
  }

  predicate PushExpired(event: Event, now: int) {
    MaxAge(event.category).Some? && now - event.eventAt > MaxAge(event.category).value
  }

  predicate IsActivity(event: Event) {
    event.category == MemberActivity && event.activity.Some? && event.actor.Some?
  }

  function ActivityKey(event: Event): string
    requires IsActivity(event)
  {
    GroupKey(event.organization, event.actor.value, event.activity.value.entity, event.activity.value.action, event.eventAt)
  }

  function NoticeFor(event: Event, user: string, authorName: Option<string>): Write
  {
    if IsActivity(event) then
      var a := event.activity.value;
      NotifyActivity(ActivityKey(event), user, event.key, a.target,
                     Content(MemberActivity, event.organization, Links(None, None, None, None, None, None),
                             event.actor, authorName, Some(a.entity), Some(a.action)),
                     event.eventAt)
    else
      var name := if event.category == MemberJoined then authorName else None;
      NotifyOnce(event.key, user,
                 Content(event.category, event.organization, event.links, event.actor, name, None, None),
                 event.eventAt)
  }

  function Notices(event: Event, recipients: seq<string>, authorName: Option<string>): seq<Write> {
    if event.category == MemberActivity && !IsActivity(event) then []
    else seq(|recipients|, (i: nat) requires i < |recipients| => NoticeFor(event, recipients[i], authorName))
  }

  predicate Grouped(event: Event) {
    event.category == SaleCreated || IsActivity(event)
  }

  /** The event the devices are told about: the sale digest, the activity group, or the event itself. */
  function PushEvent(event: Event): Event {
    var links := Links(None, None, None, None, None, None);
    if event.category == SaleCreated then
      Event(DigestKey(event.organization, event.eventAt), SaleDigest, event.organization, None, None, links,
            WindowEnd(event.eventAt))
    else if IsActivity(event) then
      Event(ActivityKey(event), MemberActivity, event.organization, event.actor, None, links, WindowEnd(event.eventAt))
    else event
  }

  function DueAt(event: Event, now: int): int {
    if event.category == SaleCreated || event.category == MemberActivity then PushEvent(event).eventAt else now
  }

  function DeliverTo(event: Event, device: Device, now: int): Write {
    Deliver(PushEvent(event).key, device.id, device.owner, event.organization, DueAt(event, now))
  }

  function EachDevice(event: Event, devices: seq<Device>, now: int): seq<Write> {
    seq(|devices|, (i: nat) requires i < |devices| => DeliverTo(event, devices[i], now))
  }

  function Deliveries(event: Event, devices: seq<Device>, now: int): seq<Write> {
    if |devices| == 0 then []
    else (if Grouped(event) then [Record(PushEvent(event), Dispatched)] else []) + EachDevice(event, devices, now)
  }

  function Closing(event: Event, facts: Facts, late: bool, closedAt: int): Write {
    if facts.irrelevance.Some? then Close(event.key, Cancelled, facts.irrelevance, 0, closedAt)
    else if !facts.pushActive then Close(event.key, Dispatched, Some("push-disabled"), 0, closedAt)
    else if late then Close(event.key, Dispatched, Some("push-expired"), 0, closedAt)
    else Close(event.key, Dispatched, None, |facts.devices|, closedAt)
  }

  function Pushes(event: Event, facts: Facts, now: int): seq<Write> {
    if facts.pushActive && !PushExpired(event, now) then Deliveries(event, facts.devices, now) else []
  }

  /** The writes of one dispatch, in order: notifications, deliveries, closing. */
  function Plan(event: Event, facts: Facts, clock: Clock): seq<Write> {
    var closing := Closing(event, facts, PushExpired(event, clock.now), clock.closedAt);
    if facts.irrelevance.Some? then [closing]
    else Notices(event, facts.recipients, facts.authorName) + Pushes(event, facts, clock.now) + [closing]
  }

  // ----- Up to the times of the first attempt -----

  function Timeless(w: Write): Write {
    match w
    case Deliver(key, device, owner, organization, _) => Deliver(key, device, owner, organization, 0)
    case Close(key, status, outcome, deliveries, _) => Close(key, status, outcome, deliveries, 0)
    case _ => w
  }

  function AllTimeless(writes: seq<Write>): seq<Write> {
    seq(|writes|, (i: nat) requires i < |writes| => Timeless(writes[i]))
  }

  function JobTimeless(job: Job): Job {
    if job.processedAt.Some? then job.(processedAt := Some(0)) else job
  }

  function JobsTimeless(jobs: map<string, Job>): map<string, Job> {
    map k | k in jobs :: JobTimeless(jobs[k])
  }

  function DeliveriesTimeless(all: map<(string, string), Delivery>): map<(string, string), Delivery> {
    map k | k in all :: all[k].(nextAttemptAt := 0)
  }

  /** The database without the dates that tell when an attempt was made. */
  function DatabaseTimeless(db: Database): Database {
    db.(jobs := JobsTimeless(db.jobs), deliveries := DeliveriesTimeless(db.deliveries))
  }

  lemma TimelessApply(db: Database, w: Write)
    ensures DatabaseTimeless(Apply(db, w)) == Apply(DatabaseTimeless(db), Timeless(w))
  {
    if w.Record? || w.Close? {
      assert JobsTimeless(Recorded(db.jobs, w)) == Recorded(JobsTimeless(db.jobs), Timeless(w));
    } else if w.Deliver? {
      assert DeliveriesTimeless(Delivered(db.deliveries, w)) == Delivered(DeliveriesTimeless(db.deliveries), Timeless(w));
    }
  }

  lemma {:induction false} TimelessRun(db: Database, writes: seq<Write>)
    ensures DatabaseTimeless(Run(db, writes)) == Run(DatabaseTimeless(db), AllTimeless(writes))
  {
    if |writes| > 0 {
      var front := writes[..|writes| - 1];
      TimelessRun(db, front);
      TimelessApply(Run(db, front), writes[|writes| - 1]);
      assert AllTimeless(writes)[..|writes| - 1] == AllTimeless(front);
    }
  }

  lemma PlanTimeless(event: Event, facts: Facts, c: Clock, d: Clock)
    requires PushExpired(event, c.now) == PushExpired(event, d.now)
    ensures AllTimeless(Plan(event, facts, c)) == AllTimeless(Plan(event, facts, d))
  {
    var p, q := Plan(event, facts, c), Plan(event, facts, d);
    assert |p| == |q|;
    forall i | 0 <= i < |p| ensures Timeless(p[i]) == Timeless(q[i]) {}
  }

  // ----- Events as the outbox records them -----

  predicate NoColon(s: string) {
    ':' !in s
  }

  /**
   * The key starts with the category; organisation and author are ObjectIds in hexadecimal (24 digits),
   * entity and action come from two fixed lists of short words; an activity always has its author.
   */
  ghost predicate WellFormed(event: Event) {
    && event.category != SaleDigest
    && Named(event.key, CategoryName(event.category))
    && NoColon(event.organization) && |event.organization| == 24
    && (event.category == MemberActivity ==>
          && IsActivity(event)
          && NoColon(event.actor.value) && NoColon(event.activity.value.action)
          && NoColon(event.activity.value.entity) && |event.activity.value.entity| < 24
          && (exists rest :: event.key == "member-activity:" + (event.activity.value.entity + ":" + rest)))
  }

  function NameLength(category: Category): nat {
    match category
    case StockDepleted => 14
    case StockLow => 9
    case SaleCreated => 12
    case SubscriptionEnding => 19
    case PaymentSucceeded => 17
    case MonthlyReport => 14
    case MemberJoined => 13
    case MemberActivity => 15
    case SaleDigest => 11
  }

  lemma NameLengths(category: Category)
    ensures |CategoryName(category)| == NameLength(category)
    ensures (CategoryName(category)[0] == 'm') == (category in {MonthlyReport, MemberJoined, MemberActivity})
  {}

  lemma CategoryNames(a: Category, b: Category)
    ensures CategoryName(a) == CategoryName(b) ==> a == b
  {
    NameLengths(a);
    NameLengths(b);
    hide CategoryName;
  }

  lemma PushKeyNamed(event: Event)
    requires WellFormed(event)
    ensures Named(PushEvent(event).key, CategoryName(PushEvent(event).category))
  {
    if event.category == SaleCreated {
      DigestKeyNamed(event.organization, event.eventAt);
    } else if event.category == MemberActivity {
      GroupKeyNamed(event.organization, event.actor.value, event.activity.value.entity,
                    event.activity.value.action, event.eventAt);
    }
  }

  /** The key of a digest or of a group is never the key of an event the outbox recorded. */
  lemma GroupIsNoEvent(event: Event, other: Event)
    requires WellFormed(event) && WellFormed(other) && Grouped(event)
    ensures PushEvent(event).key != other.key
  {
    PushKeyNamed(event);
    hide CategoryName;
    if PushEvent(event).key == other.key {
      NamedApart(other.key, CategoryName(PushEvent(event).category), CategoryName(other.category));
      CategoryNames(PushEvent(event).category, other.category);
      var entity := other.activity.value.entity;
      var rest :| other.key == "member-activity:" + (entity + ":" + rest);
      var tail := event.actor.value + ":" + (event.activity.value.entity + ":"
                  + (event.activity.value.action + ":" + Decimal(WindowStart(event.eventAt))));
      SameTail("member-activity:", event.organization + ":" + tail, entity + ":" + rest);
      FirstSegment(event.organization, tail, entity, rest);
      assert false;
    }
  }

  /** Two events grouped under one key share the whole record of their group. */
  lemma SameGroup(a: Event, b: Event)
    requires WellFormed(a) && WellFormed(b) && Grouped(a) && Grouped(b)
    requires PushEvent(a).key == PushEvent(b).key
    ensures PushEvent(a) == PushEvent(b)
    ensures a.category == b.category && a.organization == b.organization
    ensures a.category == MemberActivity ==>
              && a.actor == b.actor
              && a.activity.value.entity == b.activity.value.entity
              && a.activity.value.action == b.activity.value.action
  {
    PushKeyNamed(a);
    PushKeyNamed(b);
    hide CategoryName;
    NamedApart(PushEvent(a).key, CategoryName(PushEvent(a).category), CategoryName(PushEvent(b).category));
    CategoryNames(PushEvent(a).category, PushEvent(b).category);
    if a.category == SaleCreated {
      DigestKeyInjective(a.organization, a.eventAt, b.organization, b.eventAt);
    } else {
      GroupKeyInjective(a.organization, a.actor.value, a.activity.value.entity, a.activity.value.action, a.eventAt,
                        b.organization, b.actor.value, b.activity.value.entity, b.activity.value.action, b.eventAt);
    }
  }

  // ----- Plans of different events agree -----

  /** An event to distribute, what was read for it, and whether it is too old for push. */
  datatype Work = Work(event: Event, facts: Facts, late: bool)

  ghost predicate Attempted(work: Work, clock: Clock) {
    work.late == PushExpired(work.event, clock.now)
  }

  function WorkPlan(work: Work, clock: Clock): seq<Write> {
    Plan(work.event, work.facts, clock)
  }

  /** One key is one event with one set of facts; one author has one name; one device has one owner. */
  ghost predicate Consistent(a: Work, b: Work) {
    && (a.event.key == b.event.key ==> a == b)
    && (a.event.actor == b.event.actor ==> a.facts.authorName == b.facts.authorName)
    && (forall d, e :: d in a.facts.devices && e in b.facts.devices && d.id == e.id ==> d == e)
  }

  /** The writes a plan can hold, without the times. */
  ghost predicate Planned(work: Work, w: Write) {
    match w
    case NotifyOnce(_, user, _, _) => w == NoticeFor(work.event, user, work.facts.authorName)
    case NotifyActivity(_, user, _, _, _, _) => w == NoticeFor(work.event, user, work.facts.authorName)
    case Record(job, initial) => Grouped(work.event) && job == PushEvent(work.event) && initial == Dispatched
    case Deliver(_, _, _, _, _) =>
      exists device :: device in work.facts.devices && w == Timeless(DeliverTo(work.event, device, 0))
    case Close(_, _, _, _, _) => w == Closing(work.event, work.facts, work.late, 0)
  }

  lemma NoticesArePlanned(work: Work, w: Write)
    requires w in Notices(work.event, work.facts.recipients, work.facts.authorName)
    ensures (w.NotifyOnce? || w.NotifyActivity?) && w == NoticeFor(work.event, w.user, work.facts.authorName)
    ensures w.user in work.facts.recipients
  {
    var all := Notices(work.event, work.facts.recipients, work.facts.authorName);
    var i :| 0 <= i < |all| && all[i] == w;
    assert w == NoticeFor(work.event, work.facts.recipients[i], work.facts.authorName);
  }

  lemma PlanIsPlanned(work: Work, clock: Clock, w: Write)
    requires Attempted(work, clock)
    requires w in WorkPlan(work, clock)
    ensures Planned(work, Timeless(w))
  {
    var event, facts := work.event, work.facts;
    var deliveries := Deliveries(event, facts.devices, clock.now);
    if w in Notices(event, facts.recipients, facts.authorName) {
      NoticesArePlanned(work, w);
    } else if w in deliveries {
      hide PushEvent, NoticeFor;
      if w.Deliver? {
        DeliveryOf(event, facts.devices, clock.now, w);
      } else {
        assert w == Record(PushEvent(event), Dispatched);
      }
    } else {
      assert w == Closing(event, facts, work.late, clock.closedAt);
    }
  }

  lemma DeliveryOf(event: Event, devices: seq<Device>, now: int, w: Write)
    requires w in Deliveries(event, devices, now) && w.Deliver?
    ensures exists device :: device in devices && Timeless(w) == Timeless(DeliverTo(event, device, 0))
  {
    var each := EachDevice(event, devices, now);
    assert w in each;
    var i :| 0 <= i < |each| && each[i] == w;
    assert devices[i] in devices && Timeless(w) == Timeless(DeliverTo(event, devices[i], 0));
  }

  lemma NoticesAgree(a: Work, b: Work, v: Write, w: Write)
    requires WellFormed(a.event) && WellFormed(b.event) && Consistent(a, b)
    requires v.NotifyOnce? || v.NotifyActivity?
    requires w.NotifyOnce? || w.NotifyActivity?
    requires Planned(a, v) && Planned(b, w)
    ensures Coherent(v, w)
  {
    if v.NotifyActivity? && w.NotifyActivity? {
      if v.key == w.key { SameGroup(a.event, b.event); }
    } else if v.NotifyActivity? {
      GroupIsNoEvent(a.event, b.event);
    } else if w.NotifyActivity? {
      GroupIsNoEvent(b.event, a.event);
    }
  }

  lemma SamePushKey(a: Work, b: Work)
    requires WellFormed(a.event) && WellFormed(b.event) && Consistent(a, b)
    requires PushEvent(a.event).key == PushEvent(b.event).key
    ensures a.event.organization == b.event.organization
  {
    if Grouped(a.event) && Grouped(b.event) {
      SameGroup(a.event, b.event);
    } else if Grouped(a.event) {
      GroupIsNoEvent(a.event, b.event);
    } else if Grouped(b.event) {
      GroupIsNoEvent(b.event, a.event);
    }
  }

  lemma DeliveriesAgree(a: Work, b: Work, v: Write, w: Write)
    requires WellFormed(a.event) && WellFormed(b.event) && Consistent(a, b)
    requires v.Deliver? && w.Deliver? && v.key == w.key && v.device == w.device
    requires Planned(a, v) && Planned(b, w)
    ensures v == w
  {
    hide WellFormed, PushEvent, DueAt;
    var d :| d in a.facts.devices && v == Timeless(DeliverTo(a.event, d, 0));
    var e :| e in b.facts.devices && w == Timeless(DeliverTo(b.event, e, 0));
    assert d == e;
    SamePushKey(a, b);
  }

  lemma PlansAgree(a: Work, b: Work, v: Write, w: Write)
    requires WellFormed(a.event) && WellFormed(b.event) && Consistent(a, b)
    requires Planned(a, v) && Planned(b, w)
    ensures Coherent(v, w)
  {
    hide NoticeFor, DeliverTo, PushEvent, WellFormed, Closing;
    if (v.NotifyOnce? || v.NotifyActivity?) && (w.NotifyOnce? || w.NotifyActivity?) {
      NoticesAgree(a, b, v, w);
    } else if v.Deliver? && w.Deliver? {
      if v.key == w.key && v.device == w.device { DeliveriesAgree(a, b, v, w); }
    } else if v.Record? && w.Record? {
      if v.job.key == w.job.key { SameGroup(a.event, b.event); }
    } else if v.Close? && w.Close? {
      ClosingKey(a);
      ClosingKey(b);
    }
  }

  lemma ClosingKey(work: Work)
    ensures Closing(work.event, work.facts, work.late, 0).key == work.event.key
  {}

  // ----- Crashes and restarts -----

  ghost predicate Distributable(db: Database, work: seq<Work>) {
    && (forall i :: 0 <= i < |work| ==> WellFormed(work[i].event) && work[i].event.key in db.jobs)
    && (forall i, j :: 0 <= i < |work| && 0 <= j < |work| ==> Consistent(work[i], work[j]))
  }

  /** The write belongs to an attempt, finished or not, at this work. */
  ghost predicate OfAttempt(work: Work, w: Write) {
    exists clock :: Attempted(work, clock) && w in WorkPlan(work, clock)
  }

  ghost predicate OnlyAttempts(work: seq<Work>, history: seq<Write>) {
    forall w :: w in history ==> exists i :: 0 <= i < |work| && OfAttempt(work[i], w)
  }

  /** Some attempt at this work went through to the end. */
  ghost predicate Completed(work: Work, history: seq<Write>) {
    exists clock :: Attempted(work, clock) && forall w :: w in WorkPlan(work, clock) ==> w in history
  }

  /** Every work distributed once, in order, without a crash. */
  function Uninterrupted(work: seq<Work>, clocks: seq<Clock>): seq<Write>
    requires |work| == |clocks|
  {
    if |work| == 0 then []
    else Uninterrupted(work[..|work| - 1], clocks[..|work| - 1]) + WorkPlan(work[|work| - 1], clocks[|work| - 1])
  }

  lemma {:induction false} UninterruptedHolds(work: seq<Work>, clocks: seq<Clock>, w: Write)
    requires |work| == |clocks|
    ensures w in Uninterrupted(work, clocks) <==> exists i :: 0 <= i < |work| && w in WorkPlan(work[i], clocks[i])
  {
    if |work| > 0 {
      var n := |work| - 1;
      UninterruptedHolds(work[..n], clocks[..n], w);
      assert w in WorkPlan(work[n], clocks[n]) ==> w in Uninterrupted(work, clocks);
      if w in Uninterrupted(work[..n], clocks[..n]) {
        var i :| 0 <= i < n && w in WorkPlan(work[..n][i], clocks[..n][i]);
        assert w in WorkPlan(work[i], clocks[i]);
      }
      if i :| 0 <= i < n && w in WorkPlan(work[i], clocks[i]) {
        assert w in WorkPlan(work[..n][i], clocks[..n][i]);
      }
    }
  }

  lemma InTimeless(writes: seq<Write>, t: Write)
    ensures t in AllTimeless(writes) <==> exists w :: w in writes && t == Timeless(w)
  {
    if t in AllTimeless(writes) {
      var i :| 0 <= i < |writes| && AllTimeless(writes)[i] == t;
      assert writes[i] in writes && t == Timeless(writes[i]);
    }
    if w :| w in writes && t == Timeless(w) {
      var i :| 0 <= i < |writes| && writes[i] == w;
      assert AllTimeless(writes)[i] == t;
    }
  }

  /** Attempts at the same work at different times hold the same writes, but for the times. */
  lemma AttemptsAgree(work: Work, c: Clock, d: Clock, w: Write)
    requires Attempted(work, c) && Attempted(work, d) && w in WorkPlan(work, c)
    ensures exists v :: v in WorkPlan(work, d) && Timeless(v) == Timeless(w)
  {
    PlanTimeless(work.event, work.facts, c, d);
    hide Plan, Timeless;
    InTimeless(WorkPlan(work, c), Timeless(w));
    InTimeless(WorkPlan(work, d), Timeless(w));
  }

  lemma AttemptsAreReady(db: Database, work: Work, w: Write)
    requires WellFormed(work.event) && work.event.key in db.jobs && OfAttempt(work, w)
    ensures Ready(DatabaseTimeless(db), Timeless(w))
  {
    var clock :| Attempted(work, clock) && w in WorkPlan(work, clock);
    PlanIsPlanned(work, clock, w);
  }

  lemma HistoryIsReady(db: Database, work: seq<Work>, history: seq<Write>)
    requires Distributable(db, work) && OnlyAttempts(work, history)
    ensures AllReady(DatabaseTimeless(db), AllTimeless(history))
  {
    hide WellFormed, DatabaseTimeless, Ready, OfAttempt, Consistent;
    forall k | 0 <= k < |history| ensures Ready(DatabaseTimeless(db), AllTimeless(history)[k]) {
      assert history[k] in history;
      var i :| 0 <= i < |work| && OfAttempt(work[i], history[k]);
      AttemptsAreReady(db, work[i], history[k]);
    }
  }

  lemma HistoryIsCoherent(db: Database, work: seq<Work>, history: seq<Write>)
    requires Distributable(db, work) && OnlyAttempts(work, history)
    ensures AllCoherent(AllTimeless(history))
  {
    hide WellFormed, Coherent, Consistent, Planned, Plan;
    forall k, l | 0 <= k < |history| && 0 <= l < |history|
      ensures Coherent(AllTimeless(history)[k], AllTimeless(history)[l])
    {
      assert history[k] in history && history[l] in history;
      var i :| 0 <= i < |work| && OfAttempt(work[i], history[k]);
      var j :| 0 <= j < |work| && OfAttempt(work[j], history[l]);
      var c :| Attempted(work[i], c) && history[k] in WorkPlan(work[i], c);
      var d :| Attempted(work[j], d) && history[l] in WorkPlan(work[j], d);
      PlanIsPlanned(work[i], c, history[k]);
      PlanIsPlanned(work[j], d, history[l]);
      PlansAgree(work[i], work[j], Timeless(history[k]), Timeless(history[l]));
    }
  }

  lemma SameTimelessWrites(work: seq<Work>, clocks: seq<Clock>, history: seq<Write>, t: Write)
    requires |work| == |clocks| && forall i :: 0 <= i < |work| ==> Attempted(work[i], clocks[i])
    requires OnlyAttempts(work, history)
    requires forall i :: 0 <= i < |work| ==> Completed(work[i], history)
    ensures t in AllTimeless(history) <==> t in AllTimeless(Uninterrupted(work, clocks))
  {
    hide Plan, Timeless, PushExpired, Uninterrupted;
    var straight := Uninterrupted(work, clocks);
    InTimeless(history, t);
    InTimeless(straight, t);
    if w :| w in history && t == Timeless(w) {
      var i :| 0 <= i < |work| && OfAttempt(work[i], w);
      var c :| Attempted(work[i], c) && w in WorkPlan(work[i], c);
      AttemptsAgree(work[i], c, clocks[i], w);
      var v :| v in WorkPlan(work[i], clocks[i]) && Timeless(v) == Timeless(w);
      UninterruptedHolds(work, clocks, v);
    }
    if w :| w in straight && t == Timeless(w) {
      UninterruptedHolds(work, clocks, w);
      var i :| 0 <= i < |work| && w in WorkPlan(work[i], clocks[i]);
      assert Completed(work[i], history);
      var c :| Attempted(work[i], c) && forall v :: v in WorkPlan(work[i], c) ==> v in history;
      AttemptsAgree(work[i], clocks[i], c, w);
      var v :| v in WorkPlan(work[i], c) && Timeless(v) == Timeless(w);
    }
  }

  lemma UninterruptedIsAttempts(work: seq<Work>, clocks: seq<Clock>)
    requires |work| == |clocks| && forall i :: 0 <= i < |work| ==> Attempted(work[i], clocks[i])
    ensures OnlyAttempts(work, Uninterrupted(work, clocks))
  {
    hide Plan, PushExpired, Uninterrupted;
    forall w | w in Uninterrupted(work, clocks) ensures exists i :: 0 <= i < |work| && OfAttempt(work[i], w) {
      UninterruptedHolds(work, clocks, w);
      var i :| 0 <= i < |work| && w in WorkPlan(work[i], clocks[i]);
      assert OfAttempt(work[i], w);
    }
  }

  /**
   * Whatever attempts crashes cut short, however the writes of several organisations interleave and
   * however often an event is distributed again: once each event has been distributed to the end, the
   * database is the one that a single distribution of each event in turn leaves, up to the times of
   * the attempts.
   */
  lemma CrashSafe(db: Database, work: seq<Work>, clocks: seq<Clock>, history: seq<Write>)
    requires Distributable(db, work)
    requires |work| == |clocks| && forall i :: 0 <= i < |work| ==> Attempted(work[i], clocks[i])
    requires OnlyAttempts(work, history)
    requires forall i :: 0 <= i < |work| ==> Completed(work[i], history)
    ensures DatabaseTimeless(Run(db, history)) == DatabaseTimeless(Run(db, Uninterrupted(work, clocks)))
  {
    var straight := Uninterrupted(work, clocks);
    UninterruptedIsAttempts(work, clocks);
    hide DatabaseTimeless, Run, Uninterrupted, WellFormed, Completed, Attempted, OfAttempt;
    TimelessRun(db, history);
    TimelessRun(db, straight);
    HistoryIsReady(db, work, history);
    HistoryIsReady(db, work, straight);
    HistoryIsCoherent(db, work, history);
    forall t ensures t in AllTimeless(history) <==> t in AllTimeless(straight) {
      SameTimelessWrites(work, clocks, history, t);
    }
    SameWritesSameState(DatabaseTimeless(db), AllTimeless(history), AllTimeless(straight));
  }

  // ----- What a completed distribution leaves -----

  lemma PlanHolds(work: Work, clock: Clock)
    requires Attempted(work, clock) && work.facts.irrelevance.None? && WellFormed(work.event)
    ensures forall user :: user in work.facts.recipients ==>
              NoticeFor(work.event, user, work.facts.authorName) in WorkPlan(work, clock)
    ensures work.facts.pushActive && !work.late ==> forall d :: d in work.facts.devices ==>
              DeliverTo(work.event, d, clock.now) in WorkPlan(work, clock)
  {
    var event, facts := work.event, work.facts;
    var notices := Notices(event, facts.recipients, facts.authorName);
    hide NoticeFor, DeliverTo, PushEvent;
    forall user | user in facts.recipients ensures NoticeFor(event, user, facts.authorName) in WorkPlan(work, clock) {
      var i :| 0 <= i < |facts.recipients| && facts.recipients[i] == user;
      assert notices[i] == NoticeFor(event, user, facts.authorName);
      assert notices[i] in notices;
    }
    if facts.pushActive && !work.late {
      forall d | d in facts.devices ensures DeliverTo(event, d, clock.now) in WorkPlan(work, clock) {
        var i :| 0 <= i < |facts.devices| && facts.devices[i] == d;
        assert EachDevice(event, facts.devices, clock.now)[i] == DeliverTo(event, d, clock.now);
        assert DeliverTo(event, d, clock.now) in Pushes(event, facts, clock.now);
      }
    }
  }

  lemma CompletedIsDone(db: Database, work: Work, history: seq<Write>, clock: Clock, w: Write)
    requires WellFormed(work.event) && work.event.key in db.jobs && Attempted(work, clock)
    requires w in WorkPlan(work, clock) && w in history
    ensures Done(Run(db, history), w)
  {
    PlanIsReady(db, work, clock, w);
    RunDoes(db, history, w);
  }

  /** The notification of this event, or of its group with this event counted. */
  ghost predicate HasNotice(db: Database, event: Event, user: string) {
    if event.category == MemberActivity
    then IsActivity(event) && (ActivityKey(event), user) in db.notifications
         && event.key in db.notifications[(ActivityKey(event), user)].events
    else (event.key, user) in db.notifications
  }

  /**
   * However interrupted on the way, a completed distribution of a relevant event has notified every
   * recipient, planned a delivery for every eligible device, and closed the job.
   */
  lemma CompletedReachesAll(db: Database, work: Work, history: seq<Write>)
    requires WellFormed(work.event) && work.event.key in db.jobs && Completed(work, history)
    ensures var after := Run(db, history);
            && work.event.key in after.jobs && after.jobs[work.event.key].status != Pending
            && (work.facts.irrelevance.None? ==>
                  && (forall user :: user in work.facts.recipients ==> HasNotice(after, work.event, user))
                  && (work.facts.pushActive && !work.late ==>
                        forall d :: d in work.facts.devices ==> (PushEvent(work.event).key, d.id) in after.deliveries))
  {
    var clock :| Attempted(work, clock) && forall w :: w in WorkPlan(work, clock) ==> w in history;
    var event, facts := work.event, work.facts;
    var closing := Closing(event, facts, work.late, clock.closedAt);
    assert closing in WorkPlan(work, clock);
    CompletedIsDone(db, work, history, clock, closing);
    if facts.irrelevance.None? {
      PlanHolds(work, clock);
      hide Plan, Run, WellFormed;
      forall user | user in facts.recipients ensures HasNotice(Run(db, history), event, user) {
        CompletedIsDone(db, work, history, clock, NoticeFor(event, user, facts.authorName));
      }
      if facts.pushActive && !work.late {
        forall d | d in facts.devices ensures (PushEvent(event).key, d.id) in Run(db, history).deliveries {
          CompletedIsDone(db, work, history, clock, DeliverTo(event, d, clock.now));
        }
      }
    }
  }

  /** A pending job is closed once, by the first of the closing writes, which all say the same. */
  lemma {:induction false} ClosedOnce(db: Database, history: seq<Write>, key: string, closing: Write)
    requires key in db.jobs && db.jobs[key].status == Pending && closing.Close? && closing.status != Pending
    requires forall w :: w in history && w.Close? && w.key == key ==> Timeless(w) == closing
    ensures var after := Run(db, history);
            && key in after.jobs && after.jobs[key].event == db.jobs[key].event
            && (after.jobs[key].status == Pending ==> after.jobs[key] == db.jobs[key])
            && (after.jobs[key].status != Pending ==>
                  && after.jobs[key].status == closing.status && after.jobs[key].outcome == closing.outcome
                  && after.jobs[key].deliveries == closing.deliveries && after.jobs[key].processedAt.Some?)
  {
    if |history| > 0 {
      assert history[|history| - 1] in history;
      ClosedOnce(db, history[..|history| - 1], key, closing);
    }
  }

  lemma ClosingsAgree(work: seq<Work>, history: seq<Write>, i: nat, w: Write)
    requires i < |work| && forall j :: 0 <= j < |work| ==> Consistent(work[i], work[j])
    requires OnlyAttempts(work, history) && w in history && w.Close? && w.key == work[i].event.key
    ensures Timeless(w) == Closing(work[i].event, work[i].facts, work[i].late, 0)
  {
    hide Plan, Consistent, Closing;
    var j :| 0 <= j < |work| && OfAttempt(work[j], w);
    var clock :| Attempted(work[j], clock) && w in WorkPlan(work[j], clock);
    PlanIsPlanned(work[j], clock, w);
    ClosingKey(work[j]);
    assert work[i] == work[j] by {
      assert Consistent(work[i], work[j]);
      SameKeySameWork(work[i], work[j]);
    }
  }

  lemma SameKeySameWork(a: Work, b: Work)
    requires Consistent(a, b) && a.event.key == b.event.key
    ensures a == b
  {}

  /**
   * Whatever happened on the way, a distributed job ends as its dispatch decided: cancelled with the
   * reason when irrelevant; else dispatched, with the number of eligible devices, or with none and the
   * reason when push is off or the event too old for it.
   */
  lemma ClosedAsDecided(db: Database, work: seq<Work>, history: seq<Write>, i: nat)
    requires Distributable(db, work) && OnlyAttempts(work, history)
    requires i < |work| && Completed(work[i], history) && db.jobs[work[i].event.key].status == Pending
    ensures work[i].event.key in Run(db, history).jobs
    ensures var job := Run(db, history).jobs[work[i].event.key]; var facts := work[i].facts;
            && job.event == db.jobs[work[i].event.key].event && job.processedAt.Some?
            && (facts.irrelevance.Some? ==> job.status == Cancelled && job.outcome == facts.irrelevance && job.deliveries == 0)
            && (facts.irrelevance.None? ==>
                  && job.status == Dispatched
                  && job.outcome == (if !facts.pushActive then Some("push-disabled")
                                     else if work[i].late then Some("push-expired") else None)
                  && job.deliveries == (if facts.pushActive && !work[i].late then |facts.devices| else 0))
  {
    var closing := Closing(work[i].event, work[i].facts, work[i].late, 0);
    forall w | w in history && w.Close? && w.key == work[i].event.key ensures Timeless(w) == closing {
      ClosingsAgree(work, history, i, w);
    }
    hide WellFormed, Plan, Run, OfAttempt;
    ClosedOnce(db, history, work[i].event.key, closing);
    CompletedReachesAll(db, work[i], history);
  }

  ghost predicate Notifies(w: Write, k: (string, string)) {
    (w.NotifyOnce? || w.NotifyActivity?) && (w.key, w.user) == k
  }

  ghost predicate Delivers(w: Write, k: (string, string)) {
    w.Deliver? && (w.key, w.device) == k
  }

  /**
   * What any history records, recipients and devices changing from one attempt to the next or not: the
   * notifications and deliveries of all its writes together, and nothing else.
   */
  lemma {:induction false} RecordedIsUnion(db: Database, writes: seq<Write>, k: (string, string))
    ensures k in Run(db, writes).notifications <==>
            k in db.notifications || exists w :: w in writes && Notifies(w, k)
    ensures k in Run(db, writes).deliveries <==>
            k in db.deliveries || exists w :: w in writes && Delivers(w, k)
  {
    if |writes| > 0 {
      var front, last := writes[..|writes| - 1], writes[|writes| - 1];
      assert writes == front + [last];
      assert last in writes && forall w :: w in front ==> w in writes;
      RecordedIsUnion(db, front, k);
      RecordedOneMore(Run(db, front), last, k);
      hide Run;
      assert Run(db, writes) == Apply(Run(db, front), last) by { RunLast(db, writes); }
    }
  }

  lemma RunLast(db: Database, writes: seq<Write>)
    requires |writes| > 0
    ensures Run(db, writes) == Apply(Run(db, writes[..|writes| - 1]), writes[|writes| - 1])
  {}

  lemma RecordedOneMore(db: Database, w: Write, k: (string, string))
    ensures k in Apply(db, w).notifications <==> k in db.notifications || Notifies(w, k)
    ensures k in Apply(db, w).deliveries <==> k in db.deliveries || Delivers(w, k)
  {}

  lemma {:induction false} NewNotificationHasAWrite(db: Database, writes: seq<Write>, k: (string, string)) returns (w: Write)
    requires k !in db.notifications && k in Run(db, writes).notifications
    ensures w in writes && Notifies(w, k)
  {
    var front := writes[..|writes| - 1];
    assert writes == front + [writes[|writes| - 1]];
    if k in Run(db, front).notifications {
      w := NewNotificationHasAWrite(db, front, k);
    } else {
      w := writes[|writes| - 1];
    }
  }

  /** Nobody else is notified: a new notification is of a recipient of a relevant event. */
  lemma OnlyRecipientsAreNotified(db: Database, work: seq<Work>, history: seq<Write>, k: (string, string))
    requires OnlyAttempts(work, history)
    requires k !in db.notifications && k in Run(db, history).notifications
    ensures exists i :: 0 <= i < |work| && work[i].facts.irrelevance.None? && k.1 in work[i].facts.recipients
                     && Notifies(NoticeFor(work[i].event, k.1, work[i].facts.authorName), k)
  {
    var w := NewNotificationHasAWrite(db, history, k);
    hide Run, Attempted, NoticeFor;
    var i :| 0 <= i < |work| && OfAttempt(work[i], w);
    var clock :| Attempted(work[i], clock) && w in WorkPlan(work[i], clock);
    NoticeInPlan(work[i], clock, w);
  }

  lemma NoticeInPlan(work: Work, clock: Clock, w: Write)
    requires w in WorkPlan(work, clock) && (w.NotifyOnce? || w.NotifyActivity?)
    ensures work.facts.irrelevance.None? && w.user in work.facts.recipients
    ensures w == NoticeFor(work.event, w.user, work.facts.authorName)
  {
    assert w in Notices(work.event, work.facts.recipients, work.facts.authorName);
    NoticesArePlanned(work, w);
  }

  // ----- Between two attempts -----

  /** Nothing recorded is taken away: groups keep their counted actions, closed jobs stay closed. */
  ghost predicate Extends(db: Database, later: Database) {
    && (forall k :: k in db.jobs ==> k in later.jobs && (db.jobs[k].status != Pending ==> later.jobs[k].status != Pending))
    && (forall k :: k in db.notifications ==>
          k in later.notifications && db.notifications[k].events <= later.notifications[k].events)
    && (forall k :: k in db.deliveries ==> k in later.deliveries)
  }

  lemma ApplyExtends(db: Database, w: Write)
    requires w.Close? ==> w.status != Pending
    ensures Extends(db, Apply(db, w))
  {}

  lemma ExtendsIsTransitive(a: Database, b: Database, c: Database)
    requires Extends(a, b) && Extends(b, c)
    ensures Extends(a, c)
  {}

  /** In a database that takes nothing away from what a cut dispatch left, a new attempt idles so far. */
  lemma ReplayIsIdle(db: Database, work: Work, c: Clock, steps: nat, later: Database, d: Clock)
    requires WellFormed(work.event) && work.event.key in db.jobs
    requires Attempted(work, c) && Attempted(work, d) && steps <= |WorkPlan(work, c)|
    requires Extends(Run(db, WorkPlan(work, c)[..steps]), later)
    ensures steps <= |WorkPlan(work, d)| && Run(later, WorkPlan(work, d)[..steps]) == later
  {
    var p, q := WorkPlan(work, c), WorkPlan(work, d);
    PlanTimeless(work.event, work.facts, c, d);
    hide Plan, Run, Timeless, Done, Extends, WellFormed, Attempted;
    assert |AllTimeless(p)| == |AllTimeless(q)|;
    forall k | 0 <= k < steps ensures Done(later, q[..steps][k]) {
      assert AllTimeless(p)[k] == AllTimeless(q)[k];
      assert p[k] == p[..steps][k];
      PlanIsReady(db, work, c, p[k]);
      RunDoes(db, p[..steps], p[k]);
      DoneStays(Run(db, p[..steps]), later, p[k], q[k]);
    }
    DoneRunIsIdle(later, q[..steps]);
  }

  lemma DoneStays(db: Database, later: Database, v: Write, w: Write)
    requires Extends(db, later) && Done(db, v) && Timeless(v) == Timeless(w)
    ensures Done(later, w)
  {}

  lemma PlanIsReady(db: Database, work: Work, clock: Clock, w: Write)
    requires WellFormed(work.event) && work.event.key in db.jobs
    requires Attempted(work, clock) && w in WorkPlan(work, clock)
    ensures Ready(db, w)
  {
    PlanIsPlanned(work, clock, w);
  }

  // ----- Digests and groups -----

  /** Two sales reach a device by one delivery exactly when organisation and aligned minute agree. */
  lemma OneDeliveryPerMinute(a: Event, b: Event, d: Device, e: Device, s: int, t: int)
    requires WellFormed(a) && WellFormed(b) && a.category == b.category == SaleCreated
    ensures var v, w := DeliverTo(a, d, s), DeliverTo(b, e, t);
            && (v.key == w.key && v.device == w.device <==>
                  a.organization == b.organization && WindowStart(a.eventAt) == WindowStart(b.eventAt) && d.id == e.id)
            && v.at == WindowEnd(a.eventAt) && a.eventAt < v.at <= a.eventAt + WINDOW_MS
  {
    DigestKeyInjective(a.organization, a.eventAt, b.organization, b.eventAt);
    WindowEndFollows(a.eventAt);
  }

  /** The same for activities: organisation, author, kind of target, action and aligned minute. */
  lemma OneDeliveryPerActivityGroup(a: Event, b: Event, d: Device, e: Device, s: int, t: int)
    requires WellFormed(a) && WellFormed(b) && a.category == b.category == MemberActivity
    ensures var v, w := DeliverTo(a, d, s), DeliverTo(b, e, t);
            && (v.key == w.key && v.device == w.device <==>
                  && a.organization == b.organization && a.actor == b.actor
                  && a.activity.value.entity == b.activity.value.entity
                  && a.activity.value.action == b.activity.value.action
                  && WindowStart(a.eventAt) == WindowStart(b.eventAt) && d.id == e.id)
            && v.at == WindowEnd(a.eventAt) && a.eventAt < v.at <= a.eventAt + WINDOW_MS
  {
    GroupKeyInjective(a.organization, a.actor.value, a.activity.value.entity, a.activity.value.action, a.eventAt,
                      b.organization, b.actor.value, b.activity.value.entity, b.activity.value.action, b.eventAt);
    WindowEndFollows(a.eventAt);
  }

  lemma {:induction false} NewDeliveryHasAWrite(db: Database, writes: seq<Write>, k: (string, string)) returns (w: Write)
    requires k !in db.deliveries && k in Run(db, writes).deliveries
    ensures w in writes && Delivers(w, k)
    ensures Run(db, writes).deliveries[k] == NewDelivery(w.owner, w.organization, w.at)
  {
    var front := writes[..|writes| - 1];
    assert writes == front + [writes[|writes| - 1]];
    if k in Run(db, front).deliveries {
      w := NewDeliveryHasAWrite(db, front, k);
    } else {
      w := writes[|writes| - 1];
    }
  }

  /** A work that reaches this device through the digest or the group of this event. */
  ghost predicate InGroup(work: Work, event: Event, device: string) {
    && Grouped(work.event) && work.event.category == event.category
    && work.event.organization == event.organization
    && WindowStart(work.event.eventAt) == WindowStart(event.eventAt)
    && (event.category == MemberActivity ==>
          && IsActivity(event) && IsActivity(work.event) && work.event.actor == event.actor
          && work.event.activity.value.entity == event.activity.value.entity
          && work.event.activity.value.action == event.activity.value.action)
    && exists d :: d in work.facts.devices && d.id == device
  }

  /**
   * Whatever was distributed and replayed, a new delivery of a digest or of an activity group is first
   * due at the end of its minute, and comes from an event of that very group.
   */
  lemma GroupIsDueAtWindowEnd(db: Database, work: seq<Work>, history: seq<Write>, event: Event, device: string)
    requires Distributable(db, work) && OnlyAttempts(work, history)
    requires WellFormed(event) && Grouped(event)
    requires var k := (PushEvent(event).key, device); k !in db.deliveries && k in Run(db, history).deliveries
    ensures Run(db, history).deliveries[(PushEvent(event).key, device)].nextAttemptAt == WindowEnd(event.eventAt)
    ensures exists i :: 0 <= i < |work| && InGroup(work[i], event, device)
  {
    var w := NewDeliveryHasAWrite(db, history, (PushEvent(event).key, device));
    hide WellFormed, PushEvent, Run, Grouped, InGroup;
    var i :| 0 <= i < |work| && OfAttempt(work[i], w);
    var clock :| Attempted(work[i], clock) && w in WorkPlan(work[i], clock);
    DeliveryInPlan(work[i], clock, w);
    var d :| d in work[i].facts.devices && w == DeliverTo(work[i].event, d, clock.now);
    OfTheGroup(work[i], event, d);
    GroupDue(work[i].event, event, clock.now);
  }

  lemma GroupDue(a: Event, b: Event, now: int)
    requires Grouped(a) && WindowStart(a.eventAt) == WindowStart(b.eventAt)
    ensures DueAt(a, now) == WindowEnd(b.eventAt)
  {}

  lemma OfTheGroup(work: Work, event: Event, d: Device)
    requires WellFormed(work.event) && WellFormed(event) && Grouped(event)
    requires PushEvent(work.event).key == PushEvent(event).key && d in work.facts.devices
    ensures Grouped(work.event) && WindowStart(work.event.eventAt) == WindowStart(event.eventAt)
    ensures InGroup(work, event, d.id)
  {
    if Grouped(work.event) {
      SameGroup(work.event, event);
      assert WindowEnd(work.event.eventAt) == PushEvent(work.event).eventAt;
      assert WindowEnd(event.eventAt) == PushEvent(event).eventAt;
    } else {
      GroupIsNoEvent(event, work.event);
    }
  }

  lemma DeliveryInPlan(work: Work, clock: Clock, w: Write)
    requires w in WorkPlan(work, clock) && w.Deliver?
    ensures exists d :: d in work.facts.devices && w == DeliverTo(work.event, d, clock.now)
  {
    var devices := work.facts.devices;
    var each := EachDevice(work.event, devices, clock.now);
    assert w in Deliveries(work.event, devices, clock.now);
    assert w in each;
    var i :| 0 <= i < |each| && each[i] == w;
    assert devices[i] in devices;
  }

  /** A stored digest or group is the one every event of the group computes. */
  ghost predicate GroupStored(jobs: map<string, Job>, event: Event) {
    PushEvent(event).key in jobs ==> jobs[PushEvent(event).key].event == PushEvent(event)
  }

  ghost predicate GroupsStored(jobs: map<string, Job>) {
    forall event :: WellFormed(event) && Grouped(event) ==> GroupStored(jobs, event)
  }

  /** The outbox records well-formed events, the dispatcher the groups of such events. */
  ghost predicate Recordable(w: Write) {
    w.Record? ==> WellFormed(w.job) || exists e :: WellFormed(e) && Grouped(e) && w.job == PushEvent(e)
  }

  lemma GroupsStayStored(db: Database, w: Write)
    requires GroupsStored(db.jobs) && Recordable(w)
    ensures GroupsStored(Apply(db, w).jobs)
  {
    if w.Record? && w.job.key !in db.jobs {
      forall event | WellFormed(event) && Grouped(event) ensures GroupStored(Apply(db, w).jobs, event) {
        assert GroupStored(db.jobs, event);
        if PushEvent(event).key == w.job.key {
          if WellFormed(w.job) {
            GroupIsNoEvent(event, w.job);
          } else {
            var e :| WellFormed(e) && Grouped(e) && w.job == PushEvent(e);
            SameGroup(event, e);
          }
        }
      }
    } else {
      forall event | WellFormed(event) && Grouped(event) ensures GroupStored(Apply(db, w).jobs, event) {
        assert GroupStored(db.jobs, event);
      }
    }
  }

  lemma {:induction false} GroupsStayStoredOverRun(db: Database, writes: seq<Write>)
    requires GroupsStored(db.jobs) && forall w :: w in writes ==> Recordable(w)
    ensures GroupsStored(Run(db, writes).jobs)
  {
    if |writes| > 0 {
      hide GroupsStored, Recordable;
      assert writes[|writes| - 1] in writes;
      GroupsStayStoredOverRun(db, writes[..|writes| - 1]);
      GroupsStayStored(Run(db, writes[..|writes| - 1]), writes[|writes| - 1]);
    }
  }

  /** Whatever was dispatched, cut short and replayed, a stored group is the one its events compute. */
  lemma HistoryKeepsGroups(db: Database, work: seq<Work>, history: seq<Write>)
    requires Distributable(db, work) && OnlyAttempts(work, history) && GroupsStored(db.jobs)
    ensures GroupsStored(Run(db, history).jobs)
  {
    forall w | w in history ensures Recordable(w) {
      var i :| 0 <= i < |work| && OfAttempt(work[i], w);
      var clock :| Attempted(work[i], clock) && w in WorkPlan(work[i], clock);
      hide WellFormed, PushEvent, Plan;
      PlanIsPlanned(work[i], clock, w);
    }
    GroupsStayStoredOverRun(db, history);
  }
}
