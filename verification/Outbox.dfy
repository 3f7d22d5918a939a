/**
 * The three collections the dispatcher fills and the single writes that fill them. Each write touches
 * one document and is atomic; a crash falls between two writes. A map keyed by the fields of a unique
 * index holds a collection: an upsert that finds its key taken inserts nothing.
 */
module Outbox {

  import opened Options

  datatype Category =
    | StockDepleted | StockLow | SaleCreated | SubscriptionEnding | PaymentSucceeded
    | MonthlyReport | MemberJoined | MemberActivity | SaleDigest

  function CategoryName(category: Category): string {
    match category
    case StockDepleted => "stock-depleted"
    case StockLow => "stock-low"
    case SaleCreated => "sale-created"
    case SubscriptionEnding => "subscription-ending"
    case PaymentSucceeded => "payment-succeeded"
    case MonthlyReport => "monthly-report"
    case MemberJoined => "member-joined"
    case MemberActivity => "member-activity"
    case SaleDigest => "sale-digest"
  }

  datatype Target = Target(id: Option<string>, name: Option<string>)

  datatype Activity = Activity(entity: string, action: string, target: Target)

  /** What an event refers to: product, sale, payment, report, end of coverage, kind of period. */
  datatype Links = Links(product: Option<string>, sale: Option<string>, payment: Option<string>,
                         report: Option<string>, coverageEndsAt: Option<int>, periodKind: Option<string>)

  datatype Event = Event(key: string, category: Category, organization: string, actor: Option<string>,
                         activity: Option<Activity>, links: Links, eventAt: int)

  datatype JobStatus = Pending | Dispatched | Cancelled

  datatype Job = Job(event: Event, status: JobStatus, outcome: Option<string>, deliveries: nat,
                     processedAt: Option<int>)

  datatype Content = Content(category: Category, organization: string, links: Links, actor: Option<string>,
                             actorName: Option<string>, entity: Option<string>, action: Option<string>)

  /** `events` are the actions already counted; single-event notifications leave the tally empty. */
  datatype Notification = Notification(content: Content, eventAt: int, count: nat, events: set<string>,
                                       targets: set<Target>, readAt: Option<int>, expiresAt: Option<int>)

  datatype DeliveryStatus = Waiting | Sending | Sent | Failed | Skipped

  datatype Delivery = Delivery(owner: string, organization: string, status: DeliveryStatus, attempts: nat,
                               nextAttemptAt: int, lockedUntil: Option<int>, lastResult: Option<string>,
                               sentAt: Option<int>)

  datatype Database = Database(jobs: map<string, Job>,
                               notifications: map<(string, string), Notification>,
                               deliveries: map<(string, string), Delivery>)

  // ----- Single writes -----

  datatype Write =
    | NotifyOnce(key: string, user: string, content: Content, at: int)
    | NotifyActivity(key: string, user: string, event: string, target: Target, content: Content, at: int)
    | Record(job: Event, initial: JobStatus)
    | Deliver(key: string, device: string, owner: string, organization: string, at: int)
    | Close(key: string, status: JobStatus, outcome: Option<string>, deliveries: nat, at: int)

  function Max(a: int, b: int): int {
    if a < b then b else a
  }

  function NewJob(event: Event, status: JobStatus): Job {
    Job(event, status, None, 0, None)
  }

  function NewNotification(content: Content, at: int): Notification {
    Notification(content, at, 0, {}, {}, None, None)
  }

  function NewGroup(event: string, target: Target, content: Content, at: int): Notification {
    Notification(content, at, 1, {event}, {target}, None, None)
  }

  /** One more action in a group: counted, and the group is unread again. */
  function Added(n: Notification, event: string, target: Target, at: int): Notification {
    n.(eventAt := Max(n.eventAt, at), count := n.count + 1, events := n.events + {event},
       targets := n.targets + {target}, readAt := None, expiresAt := None)
  }

  function NewDelivery(owner: string, organization: string, at: int): Delivery {
    Delivery(owner, organization, Waiting, 0, at, None, None, None)
  }

  function Notified(all: map<(string, string), Notification>, w: Write): map<(string, string), Notification>
    requires w.NotifyOnce? || w.NotifyActivity?
  {
    var k := (w.key, w.user);
    match w
    case NotifyOnce(_, _, content, at) =>
      if k in all then all else all[k := NewNotification(content, at)]
    case NotifyActivity(_, _, event, target, content, at) =>
      if k !in all then all[k := NewGroup(event, target, content, at)]
      else if event in all[k].events then all
      else all[k := Added(all[k], event, target, at)]
  }

  function Recorded(all: map<string, Job>, w: Write): map<string, Job>
    requires w.Record? || w.Close?
  {
    match w
    case Record(event, initial) =>
      if event.key in all then all else all[event.key := NewJob(event, initial)]
    case Close(key, status, outcome, deliveries, at) =>
      if key in all && all[key].status == Pending
      then all[key := all[key].(status := status, outcome := outcome, deliveries := deliveries, processedAt := Some(at))]
      else all
  }

  function Delivered(all: map<(string, string), Delivery>, w: Write): map<(string, string), Delivery>
    requires w.Deliver?
  {
    if (w.key, w.device) in all then all
    else all[(w.key, w.device) := NewDelivery(w.owner, w.organization, w.at)]
  }

  function Apply(db: Database, w: Write): Database {
    if w.Record? || w.Close? then db.(jobs := Recorded(db.jobs, w))
    else if w.Deliver? then db.(deliveries := Delivered(db.deliveries, w))
    else db.(notifications := Notified(db.notifications, w))
  }

  function Run(db: Database, writes: seq<Write>): Database {
    if |writes| == 0 then db else Apply(Run(db, writes[..|writes| - 1]), writes[|writes| - 1])
  }

  lemma {:induction false} RunAppend(db: Database, a: seq<Write>, b: seq<Write>)
    ensures Run(db, a + b) == Run(Run(db, a), b)
  {
    if |b| == 0 {
      assert a + b == a;
    } else {
      RunAppend(db, a, b[..|b| - 1]);
      assert (a + b)[..|a + b| - 1] == a + b[..|b| - 1];
    }
  }

  lemma RunOne(db: Database, w: Write)
    ensures Run(db, [w]) == Apply(db, w)
  {
    assert Run(db, []) == db;
  }
}
