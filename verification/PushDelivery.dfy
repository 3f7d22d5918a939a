/**
 * Sending one delivery: reservation under a lock that expires, transport call, final status or retry.
 * A sender knows the attempt number and the instant of its reservation; its later writes only check
 * that the delivery is being sent, not by whom. Any number of senders may be alive.
 */
module PushDelivery {

  import opened Options
  import opened Outbox

  const PUSH_MAX_ATTEMPTS: nat := 5
  const PUSH_SEND_LOCK_MS: int := 60_000
  const PUSH_RETRY_DELAYS_MS: seq<int> := [30_000, 120_000, 600_000, 1_800_000]

  // ----- Single writes -----

  predicate Due(d: Delivery, now: int) {
    || (d.status == Waiting && d.nextAttemptAt <= now)
    || (d.status == Sending && d.lockedUntil.Some? && d.lockedUntil.value <= now)
  }

  function Reserved(d: Delivery, now: int): Delivery {
    d.(status := Sending, lockedUntil := Some(now + PUSH_SEND_LOCK_MS), attempts := d.attempts + 1)
  }

  function Finished(d: Delivery, status: DeliveryStatus, result: Option<string>, sentAt: Option<int>): Delivery {
    if d.status == Sending then d.(status := status, lastResult := result, lockedUntil := None, sentAt := sentAt) else d
  }

  function DelayIndex(attempt: nat): int {
    if attempt - 1 < |PUSH_RETRY_DELAYS_MS| - 1 then attempt - 1 else |PUSH_RETRY_DELAYS_MS| - 1
  }

  function Delayed(d: Delivery, attempt: nat, at: int, result: Option<string>): Delivery
    requires attempt >= 1
  {
    if d.status == Sending
    then d.(status := Waiting, nextAttemptAt := at + PUSH_RETRY_DELAYS_MS[DelayIndex(attempt)], lockedUntil := None,
            lastResult := result)
    else d
  }

  predicate Accepted(code: Option<int>) {
    code.Some? && 200 <= code.value < 300
  }

  predicate Gone(code: Option<int>) {
    code == Some(404) || code == Some(410)
  }

  /** No answer, too many requests, or a server error. */
  predicate Transient(code: Option<int>) {
    code.None? || code.value == 429 || code.value >= 500
  }

  predicate Retries(attempt: nat, code: Option<int>) {
    !Accepted(code) && !Gone(code) && Transient(code) && attempt < PUSH_MAX_ATTEMPTS
  }

  /** What a sender writes once the transport has answered. */
  function Answered(d: Delivery, attempt: nat, at: int, code: Option<int>, result: Option<string>): Delivery
    requires attempt >= 1
  {
    if Accepted(code) then Finished(d, Sent, result, Some(at))
    else if Retries(attempt, code) then Delayed(d, attempt, at, result)
    else Finished(d, Failed, result, None)
  }

  // ----- Any number of senders -----

  /**
   * `senders` maps the attempt number of each live sender to the instant of its reservation. `called`
   * and `delayed` are the attempts that called the transport and that put the delivery back to wait;
   * `first` counts reservations of a waiting delivery, `reclaims` those of one whose lock had expired.
   */
  datatype State = State(d: Delivery, senders: map<nat, int>, called: set<nat>, delayed: set<nat>,
                         calls: nat, first: nat, reclaims: nat)

  datatype Step =
    | Reserve(now: int)
    | Skip(attempt: nat, issue: string)
    | Call(attempt: nat)
    | Answer(attempt: nat, code: Option<int>, result: Option<string>)
    | Crash(attempt: nat)

  function Without(senders: map<nat, int>, attempt: nat): map<nat, int> {
    senders - {attempt}
  }

  function Next(s: State, step: Step): State {
    match step
    case Reserve(now) =>
      if !Due(s.d, now) then s
      else s.(d := Reserved(s.d, now), senders := s.senders[s.d.attempts + 1 := now],
              first := s.first + (if s.d.status == Waiting then 1 else 0),
              reclaims := s.reclaims + (if s.d.status == Waiting then 0 else 1))
    case Skip(a, issue) =>
      if a in s.senders && a !in s.called
      then s.(d := Finished(s.d, Skipped, Some(issue), None), senders := Without(s.senders, a))
      else s
    case Call(a) =>
      if a in s.senders && a !in s.called then s.(called := s.called + {a}, calls := s.calls + 1) else s
    case Answer(a, code, result) =>
      if a in s.senders && a in s.called && a >= 1
      then s.(d := Answered(s.d, a, s.senders[a], code, result), senders := Without(s.senders, a),
              delayed := if s.d.status == Sending && Retries(a, code) then s.delayed + {a} else s.delayed)
      else s
    case Crash(a) => s.(senders := Without(s.senders, a))
  }

  function After(s: State, steps: seq<Step>): State {
    if |steps| == 0 then s else Next(After(s, steps[..|steps| - 1]), steps[|steps| - 1])
  }

  function Fresh(owner: string, organization: string, at: int): State {
    State(NewDelivery(owner, organization, at), map[], {}, {}, 0, 0, 0)
  }

  predicate Final(d: Delivery) {
    d.status == Sent || d.status == Failed || d.status == Skipped
  }

  predicate UpTo(k: nat, n: nat) {
    1 <= k <= n
  }

  function Numbers(n: nat): set<nat> {
    set k: nat | k <= n && UpTo(k, n)
  }

  lemma {:induction false} NumbersSize(n: nat)
    ensures |Numbers(n)| == n
  {
    if n > 0 {
      NumbersSize(n - 1);
      assert Numbers(n) == Numbers(n - 1) + {n};
    } else {
      assert Numbers(0) == {};
    }
  }

  lemma Within(part: set<nat>, n: nat)
    requires part <= Numbers(n)
    ensures |part| <= n
  {
    NumbersSize(n);
    SubsetSize(part, Numbers(n));
  }

  lemma {:induction false} SubsetSize(part: set<nat>, all: set<nat>)
    requires part <= all
    ensures |part| <= |all|
  {
    assert all == part + (all - part);
    assert |all| == |part| + |all - part|;
  }

  /** A sent, abandoned or skipped delivery never changes again. */
  lemma FinalIsAbsorbing(s: State, step: Step)
    requires Final(s.d)
    ensures Next(s, step).d == s.d
  {}

  lemma {:induction false} FinalForGood(s: State, steps: seq<Step>)
    requires Final(s.d)
    ensures After(s, steps).d == s.d
  {
    if |steps| > 0 {
      FinalForGood(s, steps[..|steps| - 1]);
      FinalIsAbsorbing(After(s, steps[..|steps| - 1]), steps[|steps| - 1]);
    }
  }

  ghost predicate Counted(s: State) {
    && s.senders.Keys <= Numbers(s.d.attempts)
    && s.called <= Numbers(s.d.attempts) && s.calls == |s.called|
    && s.delayed <= Numbers(PUSH_MAX_ATTEMPTS - 1) && s.delayed !! s.senders.Keys
    && s.delayed <= Numbers(s.d.attempts)
    && s.d.attempts == s.first + s.reclaims
    && s.first + (if s.d.status == Waiting then 1 else 0) == 1 + |s.delayed|
  }

  lemma MoreNumbers(part: set<nat>, n: nat)
    requires part <= Numbers(n)
    ensures part <= Numbers(n + 1) && n + 1 !in part && n + 1 in Numbers(n + 1)
  {}

  lemma AnswerKeepsCounted(s: State, step: Step)
    requires Counted(s) && step.Answer?
    ensures Counted(Next(s, step))
  {
    assert forall k :: k in Without(s.senders, step.attempt) ==> k in s.senders;
  }

  lemma ReserveKeepsCounted(s: State, step: Step)
    requires Counted(s) && step.Reserve?
    ensures Counted(Next(s, step))
  {
    MoreNumbers(s.senders.Keys, s.d.attempts);
    MoreNumbers(s.called, s.d.attempts);
    MoreNumbers(s.delayed, s.d.attempts);
    hide Numbers;
  }

  lemma NextKeepsCounted(s: State, step: Step)
    requires Counted(s)
    ensures Counted(Next(s, step))
  {
    match step
    case Answer(_, _, _) => AnswerKeepsCounted(s, step);
    case Reserve(_) => ReserveKeepsCounted(s, step);
    case _ => hide Numbers;
  }

  lemma {:induction false} AfterKeepsCounted(s: State, steps: seq<Step>)
    requires Counted(s)
    ensures Counted(After(s, steps))
  {
    if |steps| > 0 {
      AfterKeepsCounted(s, steps[..|steps| - 1]);
      NextKeepsCounted(After(s, steps[..|steps| - 1]), steps[|steps| - 1]);
    }
  }

  /**
   * Over every interleaving of any senders, crashed or slow: no more calls than reservations, and no
   * more than five reservations beside those that took over an expired lock.
   */
  lemma CallsAreBounded(owner: string, organization: string, at: int, steps: seq<Step>)
    ensures var s := After(Fresh(owner, organization, at), steps);
            && s.calls <= s.d.attempts <= PUSH_MAX_ATTEMPTS + s.reclaims
            && s.first <= PUSH_MAX_ATTEMPTS
  {
    var s := After(Fresh(owner, organization, at), steps);
    AfterKeepsCounted(Fresh(owner, organization, at), steps);
    Within(s.called, s.d.attempts);
    Within(s.delayed, PUSH_MAX_ATTEMPTS - 1);
  }

  /** The delay looked up for a retry is always in the table, and is the one of that attempt. */
  lemma DelayIsInTable(attempt: nat, code: Option<int>)
    requires attempt >= 1 && Retries(attempt, code)
    ensures DelayIndex(attempt) == attempt - 1 && 0 <= DelayIndex(attempt) < |PUSH_RETRY_DELAYS_MS|
  {}

  // ----- Who holds the lock -----

  /**
   * The holder of the lock is the sender of the last reservation, attempt `d.attempts`. It reserved no
   * earlier than the delivery was due, and the lock outlives the due date.
   */
  ghost predicate HeldInTime(s: State) {
    && s.senders.Keys <= Numbers(s.d.attempts)
    && (s.d.status == Sending ==>
          && s.d.attempts >= 1
          && s.d.lockedUntil.Some? && s.d.lockedUntil.value > s.d.nextAttemptAt
          && (s.d.attempts in s.senders ==> s.senders[s.d.attempts] >= s.d.nextAttemptAt))
  }

  lemma NextKeepsHeldInTime(s: State, step: Step)
    requires HeldInTime(s)
    ensures HeldInTime(Next(s, step))
  {
    if step.Reserve? { MoreNumbers(s.senders.Keys, s.d.attempts); }
    hide Numbers;
  }

  /** Every state a run reaches keeps it. */
  lemma {:induction false} AfterKeepsHeldInTime(s: State, steps: seq<Step>)
    requires HeldInTime(s)
    ensures HeldInTime(After(s, steps))
  {
    if |steps| > 0 {
      AfterKeepsHeldInTime(s, steps[..|steps| - 1]);
      NextKeepsHeldInTime(After(s, steps[..|steps| - 1]), steps[|steps| - 1]);
    }
  }

  /** A delivery goes back to wait only by an answer, of a live sender with attempts left. */
  lemma RetryIsAnAnswer(s: State, step: Step)
    requires s.d.status == Sending && Next(s, step).d.status == Waiting
    ensures step.Answer? && step.attempt in s.senders && 1 <= step.attempt < PUSH_MAX_ATTEMPTS
    ensures Next(s, step).d.attempts == s.d.attempts
    ensures Next(s, step).d.nextAttemptAt == s.senders[step.attempt] + PUSH_RETRY_DELAYS_MS[step.attempt - 1]
  {}

  /**
   * Over every interleaving of any senders: a retry ordered by the holder of the lock leaves at most
   * four attempts made, and is due later than the attempt it follows was, by its whole delay.
   */
  lemma HolderRetriesInTime(owner: string, organization: string, at: int, steps: seq<Step>, next: Step)
    requires var s := After(Fresh(owner, organization, at), steps);
             && s.d.status == Sending && Next(s, next).d.status == Waiting
             && (next.Answer? ==> next.attempt == s.d.attempts)
    ensures var s := After(Fresh(owner, organization, at), steps); var t := Next(s, next);
            && 1 <= t.d.attempts < PUSH_MAX_ATTEMPTS
            && t.d.nextAttemptAt >= s.d.nextAttemptAt + PUSH_RETRY_DELAYS_MS[t.d.attempts - 1]
            && t.d.nextAttemptAt > s.d.nextAttemptAt
  {
    AfterKeepsHeldInTime(Fresh(owner, organization, at), steps);
    RetryIsAnAnswer(After(Fresh(owner, organization, at), steps), next);
    DelaysArePositive();
  }

  lemma DelaysArePositive()
    ensures forall i :: 0 <= i < |PUSH_RETRY_DELAYS_MS| ==> PUSH_RETRY_DELAYS_MS[i] > 0
  {}

  /** Every answer that could write came from the holder of the lock; crashes and takeovers are free. */
  ghost predicate OnlyHoldersAnswer(s: State, steps: seq<Step>) {
    |steps| == 0
    || (var before := After(s, steps[..|steps| - 1]); var last := steps[|steps| - 1];
        && OnlyHoldersAnswer(s, steps[..|steps| - 1])
        && (last.Answer? && before.d.status == Sending ==> last.attempt == before.d.attempts))
  }

  /** Then, with any number of senders, a waiting delivery always has fewer than five attempts. */
  lemma {:induction false} HoldersKeepTheBound(owner: string, organization: string, at: int, steps: seq<Step>)
    requires OnlyHoldersAnswer(Fresh(owner, organization, at), steps)
    ensures var s := After(Fresh(owner, organization, at), steps);
            && (s.d.status == Waiting ==> s.d.attempts < PUSH_MAX_ATTEMPTS)
            && s.d.nextAttemptAt >= at
  {
    if |steps| > 0 {
      var front, last := steps[..|steps| - 1], steps[|steps| - 1];
      HoldersKeepTheBound(owner, organization, at, front);
      var s := After(Fresh(owner, organization, at), front);
      if s.d.status == Sending && Next(s, last).d.status == Waiting {
        RetryIsAnAnswer(s, last);
        HolderRetriesInTime(owner, organization, at, front, last);
      }
    }
  }

  // ----- When a retry breaks the rule -----

  ghost predicate NoReserve(steps: seq<Step>) {
    forall i :: 0 <= i < |steps| ==> !steps[i].Reserve?
  }

  /** A live sender with attempts left of its own. */
  ghost predicate MayRetry(s: State, a: nat) {
    a in s.senders && 1 <= a < PUSH_MAX_ATTEMPTS
  }

  /** Until the next reservation a delivery being sent can go back to wait once, by one of its senders. */
  lemma {:induction false} WithoutReserve(s: State, steps: seq<Step>)
    requires NoReserve(steps)
    ensures var t := After(s, steps);
            && t.d.attempts == s.d.attempts
            && (forall a :: a in t.senders ==> a in s.senders && t.senders[a] == s.senders[a])
            && (s.d.status != Sending ==> t.d == s.d)
            && (t.d.status == Sending ==> t.d == s.d)
            && (s.d.status == Sending && t.d.status == Waiting ==>
                  exists a :: MayRetry(s, a) && t.d.nextAttemptAt == s.senders[a] + PUSH_RETRY_DELAYS_MS[a - 1])
  {
    if |steps| > 0 {
      var front, last := steps[..|steps| - 1], steps[|steps| - 1];
      assert NoReserve(front);
      WithoutReserve(s, front);
      var t := After(s, front);
      WithoutReserveOnce(t, last);
      hide Next, After;
      if t.d.status == Sending && Next(t, last).d.status == Waiting {
        assert MayRetry(s, last.attempt);
      }
    }
  }

  lemma WithoutReserveOnce(s: State, step: Step)
    requires !step.Reserve?
    ensures var t := Next(s, step);
            && t.d.attempts == s.d.attempts
            && (forall a :: a in t.senders ==> a in s.senders && t.senders[a] == s.senders[a])
            && (s.d.status != Sending ==> t.d == s.d)
            && (t.d.status == Sending ==> t.d == s.d)
            && (s.d.status == Sending && t.d.status == Waiting ==>
                  && step.Answer? && MayRetry(s, step.attempt)
                  && t.d.nextAttemptAt == s.senders[step.attempt] + PUSH_RETRY_DELAYS_MS[step.attempt - 1])
  {}

  /** The sender that may retry does so if the transport gives it no answer. */
  lemma RetryHappens(s: State, a: nat)
    requires s.d.status == Sending && MayRetry(s, a)
    ensures var t := After(s, [Call(a), Answer(a, None, None)]);
            && t.d.status == Waiting && t.d.attempts == s.d.attempts
            && t.d.nextAttemptAt == s.senders[a] + PUSH_RETRY_DELAYS_MS[a - 1]
    ensures NoReserve([Call(a), Answer(a, None, None)])
  {
    var steps := [Call(a), Answer(a, None, None)];
    assert steps[..1] == [Call(a)] && [Call(a)][..0] == [];
    assert After(s, []) == s;
    assert After(s, steps[..1]) == Next(s, Call(a));
  }

  /** Some continuation without a new reservation waits with five attempts made. */
  ghost predicate CanWaitWithFive(s: State) {
    exists steps :: NoReserve(steps) && After(s, steps).d.status == Waiting
                 && After(s, steps).d.attempts >= PUSH_MAX_ATTEMPTS
  }

  /** Some continuation without a new reservation waits until no later than the delivery was due. */
  ghost predicate CanBeBroughtBack(s: State) {
    exists steps :: NoReserve(steps) && After(s, steps).d.status == Waiting
                 && After(s, steps).d.nextAttemptAt <= s.d.nextAttemptAt
  }

  /**
   * The bound on a waiting delivery can be broken exactly when it is being sent for the fifth time or
   * more while a sender of one of the first four attempts is still alive.
   */
  lemma WaitsWithFiveExactly(s: State)
    requires s.d.status == Waiting ==> s.d.attempts < PUSH_MAX_ATTEMPTS
    ensures CanWaitWithFive(s) <==>
            s.d.status == Sending && s.d.attempts >= PUSH_MAX_ATTEMPTS && exists a :: MayRetry(s, a)
  {
    if CanWaitWithFive(s) {
      var steps :| NoReserve(steps) && After(s, steps).d.status == Waiting
                   && After(s, steps).d.attempts >= PUSH_MAX_ATTEMPTS;
      WithoutReserve(s, steps);
    }
    if a :| MayRetry(s, a) && s.d.status == Sending && s.d.attempts >= PUSH_MAX_ATTEMPTS {
      RetryHappens(s, a);
    }
  }

  /**
   * A retry can be brought back exactly when the delivery is being sent while a sender is alive whose
   * reservation plus delay is not later than the due date: never the holder of the lock.
   */
  lemma BroughtBackExactly(s: State)
    requires HeldInTime(s) && s.d.status != Waiting
    ensures CanBeBroughtBack(s) <==>
            s.d.status == Sending
            && exists a :: MayRetry(s, a) && s.senders[a] + PUSH_RETRY_DELAYS_MS[a - 1] <= s.d.nextAttemptAt
    ensures s.d.status == Sending && MayRetry(s, s.d.attempts) ==>
              s.senders[s.d.attempts] + PUSH_RETRY_DELAYS_MS[s.d.attempts - 1] > s.d.nextAttemptAt
  {
    DelaysArePositive();
    if CanBeBroughtBack(s) {
      var steps :| NoReserve(steps) && After(s, steps).d.status == Waiting
                   && After(s, steps).d.nextAttemptAt <= s.d.nextAttemptAt;
      WithoutReserve(s, steps);
    }
    if a :| MayRetry(s, a) && s.d.status == Sending && s.senders[a] + PUSH_RETRY_DELAYS_MS[a - 1] <= s.d.nextAttemptAt {
      RetryHappens(s, a);
    }
  }

  // ----- A single process -----

  /** One process reserves a delivery only when its previous sender has finished or has crashed. */
  ghost predicate OneAtATime(s: State, steps: seq<Step>) {
    |steps| == 0 || (OneAtATime(s, steps[..|steps| - 1])
                     && (steps[|steps| - 1].Reserve? ==> After(s, steps[..|steps| - 1]).senders == map[]))
  }

  ghost predicate Owned(s: State) {
    && (s.d.status == Waiting ==> s.d.attempts < PUSH_MAX_ATTEMPTS && s.senders == map[])
    && (s.d.status == Sending ==> s.d.lockedUntil.Some? && s.d.lockedUntil.value > s.d.nextAttemptAt)
    && (forall a :: a in s.senders ==> a == s.d.attempts >= 1 && s.d.status == Sending && s.senders[a] >= s.d.nextAttemptAt)
  }

  lemma NextKeepsOwned(s: State, step: Step)
    requires Owned(s) && (step.Reserve? ==> s.senders == map[])
    ensures Owned(Next(s, step))
    ensures Next(s, step).d.nextAttemptAt >= s.d.nextAttemptAt
    ensures s.d.status == Sending && Next(s, step).d.status == Waiting ==>
              && step.Answer? && 1 <= s.d.attempts < PUSH_MAX_ATTEMPTS
              && Next(s, step).d.nextAttemptAt >= s.d.nextAttemptAt + PUSH_RETRY_DELAYS_MS[s.d.attempts - 1]
  {
    if step.Answer? && step.attempt in s.senders {
      assert step.attempt == s.d.attempts;
      assert Without(s.senders, step.attempt) == map[];
    } else if step.Skip? && step.attempt in s.senders {
      assert Without(s.senders, step.attempt) == map[];
    }
  }

  /**
   * With one process, as the service is deployed: a waiting delivery has fewer than five attempts,
   * and each retry is due later than the attempt it follows was, by at least its delay.
   */
  lemma {:induction false} RunKeepsOwned(s: State, steps: seq<Step>)
    requires Owned(s) && OneAtATime(s, steps)
    ensures Owned(After(s, steps))
    ensures After(s, steps).d.nextAttemptAt >= s.d.nextAttemptAt
  {
    if |steps| > 0 {
      RunKeepsOwned(s, steps[..|steps| - 1]);
      NextKeepsOwned(After(s, steps[..|steps| - 1]), steps[|steps| - 1]);
    }
  }

  /** So the holder of the lock is the only live sender, and its retries are in time. */
  lemma OneProcess(owner: string, organization: string, at: int, steps: seq<Step>, next: Step)
    requires OneAtATime(Fresh(owner, organization, at), steps + [next])
    ensures var s := After(Fresh(owner, organization, at), steps);
            && (s.d.status == Waiting ==> s.d.attempts < PUSH_MAX_ATTEMPTS)
            && s.d.nextAttemptAt >= at
            && (s.d.status == Sending && Next(s, next).d.status == Waiting ==>
                  Next(s, next).d.nextAttemptAt > s.d.nextAttemptAt)
  {
    assert (steps + [next])[..|steps|] == steps;
    var s := After(Fresh(owner, organization, at), steps);
    RunKeepsOwned(Fresh(owner, organization, at), steps);
    if s.d.status == Sending && Next(s, next).d.status == Waiting {
      RetryIsAnAnswer(s, next);
      HolderRetriesInTime(owner, organization, at, steps, next);
    }
  }

  /** One attempt made as soon as it is due, to which the transport gives no answer. */
  function Unanswered(s: State): State {
    var now := s.d.nextAttemptAt;
    Next(Next(Next(s, Reserve(now)), Call(s.d.attempts + 1)), Answer(s.d.attempts + 1, None, None))
  }

  function Repeated(s: State, n: nat): State {
    if n == 0 then s else Unanswered(Repeated(s, n - 1))
  }

  function DelaysBefore(n: nat): int
    requires n <= |PUSH_RETRY_DELAYS_MS|
  {
    if n == 0 then 0 else DelaysBefore(n - 1) + PUSH_RETRY_DELAYS_MS[n - 1]
  }

  lemma OneUnanswered(s: State)
    requires s.d.status == Waiting && s.senders == map[] && s.d.attempts < PUSH_MAX_ATTEMPTS
    requires forall k :: k in s.called ==> 1 <= k <= s.d.attempts
    ensures var t := Unanswered(s); var n := s.d.attempts + 1;
            && t.d.attempts == n && t.senders == map[] && t.calls == s.calls + 1
            && (forall k :: k in t.called ==> 1 <= k <= n)
            && (n < PUSH_MAX_ATTEMPTS ==>
                  t.d.status == Waiting && t.d.nextAttemptAt == s.d.nextAttemptAt + PUSH_RETRY_DELAYS_MS[n - 1])
            && (n == PUSH_MAX_ATTEMPTS ==> t.d.status == Failed)
  {
    var n := s.d.attempts + 1;
    assert Without(map[n := s.d.nextAttemptAt], n) == map[];
  }

  lemma DelaysAddUp()
    ensures DelaysBefore(PUSH_MAX_ATTEMPTS - 1) == 2_550_000
  {
    assert DelaysBefore(1) == 30_000 && DelaysBefore(2) == 150_000 && DelaysBefore(3) == 750_000;
  }

  /**
   * A transport that never answers is tried at once and after each of the four delays, then given up:
   * five calls in all, 42 minutes and 30 seconds from first to last.
   */
  lemma {:induction false} FiveAttemptsThenGivenUp(owner: string, organization: string, at: int, n: nat)
    requires n <= PUSH_MAX_ATTEMPTS
    ensures var s := Repeated(Fresh(owner, organization, at), n);
            && s.d.attempts == n == s.calls && s.senders == map[] && (forall k :: k in s.called ==> 1 <= k <= n)
            && (n < PUSH_MAX_ATTEMPTS ==> s.d.status == Waiting && s.d.nextAttemptAt == at + DelaysBefore(n))
            && (n == PUSH_MAX_ATTEMPTS ==> s.d.status == Failed)
    ensures DelaysBefore(PUSH_MAX_ATTEMPTS - 1) == 2_550_000
  {
    DelaysAddUp();
    if n > 0 {
      FiveAttemptsThenGivenUp(owner, organization, at, n - 1);
      var s := Repeated(Fresh(owner, organization, at), n - 1);
      OneUnanswered(s);
      hide Next, Unanswered;
    }
  }

  // ----- Two processes -----

  /** The first sender is still waiting for its answer while others take the delivery over. */
  ghost predicate SlowFirst(s: State) {
    1 in s.senders && s.senders[1] == 0 && 1 in s.called
  }

  ghost predicate Held(s: State, attempts: nat, until: int) {
    SlowFirst(s) && s.d.status == Sending && s.d.attempts == attempts >= 1 && s.d.lockedUntil == Some(until)
  }

  lemma AfterOneMore(s: State, steps: seq<Step>, step: Step)
    ensures After(s, steps + [step]) == Next(After(s, steps), step)
  {
    assert (steps + [step])[..|steps|] == steps;
  }

  lemma FirstCalls() returns (steps: seq<Step>)
    ensures Held(After(Fresh("u", "o", 0), steps), 1, PUSH_SEND_LOCK_MS)
    ensures After(Fresh("u", "o", 0), steps).called == {1}
  {
    var s := Fresh("u", "o", 0);
    assert After(s, []) == s;
    AfterOneMore(s, [], Reserve(0));
    AfterOneMore(s, [] + [Reserve(0)], Call(1));
    steps := [] + [Reserve(0)] + [Call(1)];
  }

  lemma TakenOver(s: State, attempts: nat, until: int)
    requires Held(s, attempts, until)
    ensures Held(Next(s, Reserve(until)), attempts + 1, until + PUSH_SEND_LOCK_MS)
    ensures var t := Next(s, Reserve(until));
            t.senders == s.senders[attempts + 1 := until] && t.called == s.called && t.d.nextAttemptAt == s.d.nextAttemptAt
  {}

  lemma {:induction false} TakenOverOften(n: nat) returns (steps: seq<Step>)
    requires n >= 1
    ensures Held(After(Fresh("u", "o", 0), steps), n, n * PUSH_SEND_LOCK_MS)
  {
    if n == 1 {
      steps := FirstCalls();
    } else {
      var s := Fresh("u", "o", 0);
      var before := TakenOverOften(n - 1);
      var now := (n - 1) * PUSH_SEND_LOCK_MS;
      AfterOneMore(s, before, Reserve(now));
      TakenOver(After(s, before), n - 1, now);
      steps := before + [Reserve(now)];
    }
  }

  lemma SlowAnswer(s: State, attempts: nat, until: int)
    requires Held(s, attempts, until)
    ensures var t := Next(s, Answer(1, None, None));
            t.d.status == Waiting && t.d.attempts == attempts && t.d.nextAttemptAt == PUSH_RETRY_DELAYS_MS[0]
  {}

  /**
   * With a second process the bound on a waiting delivery fails, for any number of attempts: a slow
   * first sender puts the delivery back to wait although its lock has long been taken over.
   */
  lemma WaitingAfterAnyAttempts(n: nat)
    requires n >= 1
    ensures exists steps :: var s := After(Fresh("u", "o", 0), steps); s.d.status == Waiting && s.d.attempts == n
  {
    var s := Fresh("u", "o", 0);
    var steps := TakenOverOften(n);
    AfterOneMore(s, steps, Answer(1, None, None));
    SlowAnswer(After(s, steps), n, n * PUSH_SEND_LOCK_MS);
  }

  lemma SecondRetries(s: State)
    requires Held(s, 2, 120_000) && 2 in s.senders && s.senders[2] == 60_000 && s.called == {1}
    ensures var t := Next(Next(s, Call(2)), Answer(2, None, None));
            SlowFirst(t) && t.d.status == Waiting && t.d.attempts == 2 && t.d.nextAttemptAt == 180_000
  {}

  lemma ThirdReserves(s: State)
    requires SlowFirst(s) && s.d.status == Waiting && s.d.attempts == 2 && s.d.nextAttemptAt == 180_000
    ensures Held(Next(s, Reserve(180_000)), 3, 240_000) && Next(s, Reserve(180_000)).d.nextAttemptAt == 180_000
  {}

  /** And such a sender can bring a retry back to before the attempt under way. */
  lemma RetryMovedBack()
    ensures exists steps, next :: var s := After(Fresh("u", "o", 0), steps);
              s.d.status == Sending && Next(s, next).d.status == Waiting && Next(s, next).d.nextAttemptAt < s.d.nextAttemptAt
  {
    var s := Fresh("u", "o", 0);
    var steps := FirstCalls();
    hide Next, After;
    AfterOneMore(s, steps, Reserve(60_000));
    TakenOver(After(s, steps), 1, 60_000);
    steps := steps + [Reserve(60_000)];
    AfterOneMore(s, steps, Call(2));
    AfterOneMore(s, steps + [Call(2)], Answer(2, None, None));
    SecondRetries(After(s, steps));
    steps := steps + [Call(2)] + [Answer(2, None, None)];
    AfterOneMore(s, steps, Reserve(180_000));
    ThirdReserves(After(s, steps));
    steps := steps + [Reserve(180_000)];
    SlowAnswer(After(s, steps), 3, 240_000);
    assert Next(After(s, steps), Answer(1, None, None)).d.nextAttemptAt < After(s, steps).d.nextAttemptAt;
  }

  // ----- What a sending does, told on the document -----

  /** One sending, alone: reservation, revalidation, transport, outcome. */
  function Attempted(d: Delivery, now: int, issue: Option<string>, code: Option<int>, outcome: string): Delivery {
    if !Due(d, now) then d
    else if issue.Some? then Finished(Reserved(d, now), Skipped, issue, None)
    else Answered(Reserved(d, now), d.attempts + 1, now, code, Some(outcome))
  }

  /**
   * An answer, from the holder of the lock or not, is written only while the delivery is being sent: it
   * is sent exactly on a code of 200 to 299, put back for half a minute, two, ten or thirty minutes
   * after the reservation exactly when there is no code, 429 or 500 and above, on one of the first four
   * attempts, and given up in every other case.
   */
  lemma AnswerEffect(s: State, a: nat, code: Option<int>, result: Option<string>)
    requires a in s.senders && a in s.called && a >= 1
    ensures var t := Next(s, Answer(a, code, result)); var at := s.senders[a];
            && a !in t.senders && t.called == s.called && t.calls == s.calls
            && (s.d.status != Sending ==> t.d == s.d)
            && (s.d.status == Sending && code.Some? && 200 <= code.value < 300 ==>
                  t.d == s.d.(status := Sent, sentAt := Some(at), lastResult := result, lockedUntil := None))
            && (s.d.status == Sending && (code.None? || code.value == 429 || code.value >= 500) && a <= 4 ==>
                  var delay := if a == 1 then 30_000 else if a == 2 then 120_000 else if a == 3 then 600_000 else 1_800_000;
                  t.d == s.d.(status := Waiting, nextAttemptAt := at + delay, lastResult := result, lockedUntil := None))
            && (s.d.status == Sending && code.Some? && !(200 <= code.value < 300) && !(code.value == 429 || code.value >= 500) ==>
                  t.d == s.d.(status := Failed, sentAt := None, lastResult := result, lockedUntil := None))
            && (s.d.status == Sending && (code.None? || code.value == 429 || code.value >= 500) && a >= 5 ==>
                  t.d == s.d.(status := Failed, sentAt := None, lastResult := result, lockedUntil := None))
  {}

  /**
   * A reservation succeeds on a delivery that waits and is due, or whose lock has expired: one attempt
   * more, and for a minute no other reservation does.
   */
  lemma ReservationEffect(s: State, now: int, later: int)
    ensures var t := Next(s, Reserve(now));
            if (s.d.status == Waiting && s.d.nextAttemptAt <= now)
               || (s.d.status == Sending && s.d.lockedUntil.Some? && s.d.lockedUntil.value <= now)
            then t.d == s.d.(status := Sending, lockedUntil := Some(now + 60_000), attempts := s.d.attempts + 1)
                 && t.senders == s.senders[s.d.attempts + 1 := now] && t.called == s.called
                 && (Next(t, Reserve(later)) == t <==> later < now + 60_000)
            else t == s
  {
    if Due(s.d, now) && later >= now + 60_000 {
      assert Next(Next(s, Reserve(now)), Reserve(later)).d.attempts == s.d.attempts + 2;
    }
  }

  /** The other steps: a skip is final, a call is counted once for each reservation, a crash writes nothing. */
  lemma OtherEffects(s: State, a: nat, issue: string)
    requires a in s.senders
    ensures Next(s, Crash(a)).d == s.d && a !in Next(s, Crash(a)).senders
    ensures a in s.called ==> Next(s, Skip(a, issue)) == s == Next(s, Call(a))
    ensures a !in s.called ==>
              && Next(s, Call(a)) == s.(called := s.called + {a}, calls := s.calls + 1)
              && a !in Next(s, Skip(a, issue)).senders
              && Next(s, Skip(a, issue)).d == if s.d.status != Sending then s.d
                   else s.d.(status := Skipped, lastResult := Some(issue), lockedUntil := None, sentAt := None)
  {}

  lemma AfterThree(s: State, a: Step, b: Step, c: Step)
    ensures After(s, [a, b, c]) == Next(Next(Next(s, a), b), c)
    ensures After(s, [a, b]) == Next(Next(s, a), b)
  {
    assert After(s, []) == s;
    AfterOneMore(s, [], a);
    AfterOneMore(s, [a], b);
    AfterOneMore(s, [a, b], c);
    assert [] + [a] == [a] && [a] + [b] == [a, b] && [a, b] + [c] == [a, b, c];
  }

  /** The steps of one sender that takes a delivery and goes on to the end. */
  function SendingSteps(n: nat, now: int, issue: Option<string>, code: Option<int>, outcome: string): seq<Step> {
    if issue.Some? then [Reserve(now), Skip(n, issue.value)]
    else [Reserve(now), Call(n), Answer(n, code, Some(outcome))]
  }

  lemma CalledAlone(s: State, now: int, code: Option<int>, outcome: string)
    requires s.d.attempts + 1 !in s.called && s.d.attempts + 1 !in s.senders
    ensures var n := s.d.attempts + 1;
            Next(Next(Next(s, Reserve(now)), Call(n)), Answer(n, code, Some(outcome))).d == Attempted(s.d, now, None, code, outcome)
  {
    hide Answered, Due;
  }

  lemma SkippedAlone(s: State, now: int, issue: string, code: Option<int>, outcome: string)
    requires s.d.attempts + 1 !in s.called && s.d.attempts + 1 !in s.senders
    ensures Next(Next(s, Reserve(now)), Skip(s.d.attempts + 1, issue)).d == Attempted(s.d, now, Some(issue), code, outcome)
  {
    hide Finished, Due;
  }

  lemma SendingIsSteps(s: State, now: int, issue: Option<string>, code: Option<int>, outcome: string)
    requires Counted(s)
    ensures var n := s.d.attempts + 1;
            After(s, SendingSteps(n, now, issue, code, outcome)).d == Attempted(s.d, now, issue, code, outcome)
  {
    var n := s.d.attempts + 1;
    MoreNumbers(s.called, s.d.attempts);
    MoreNumbers(s.senders.Keys, s.d.attempts);
    hide Numbers, Counted, After, Next, Attempted;
    if issue.Some? {
      AfterThree(s, Reserve(now), Skip(n, issue.value), Skip(n, issue.value));
      SkippedAlone(s, now, issue.value, code, outcome);
    } else {
      AfterThree(s, Reserve(now), Call(n), Answer(n, code, Some(outcome)));
      CalledAlone(s, now, code, outcome);
    }
  }

  /** What one sending leaves of a delivery, in every state of it and for every answer. */
  lemma SendingEffect(s: State, now: int, issue: Option<string>, code: Option<int>, outcome: string)
    requires Counted(s)
    ensures var d := s.d; var t := After(s, SendingSteps(d.attempts + 1, now, issue, code, outcome)).d;
            var due := (d.status == Waiting && d.nextAttemptAt <= now)
                       || (d.status == Sending && d.lockedUntil.Some? && d.lockedUntil.value <= now);
            var again := code.None? || code.value == 429 || code.value >= 500;
            && t == Attempted(d, now, issue, code, outcome)
            && (!due ==> t == d)
            && (due ==> t.attempts == d.attempts + 1 && t.lockedUntil.None? && t.owner == d.owner && t.organization == d.organization)
            && (due && issue.Some? ==> t.status == Skipped && t.lastResult == issue && t.sentAt.None?)
            && (due && issue.None? ==>
                  && t.status in {Sent, Waiting, Failed} && t.lastResult == Some(outcome)
                  && (t.status == Sent <==> code.Some? && 200 <= code.value < 300)
                  && (t.status == Waiting <==> again && d.attempts < 4)
                  && (t.status == Sent ==> t.sentAt == Some(now))
                  && (t.status == Failed ==> t.sentAt.None?)
                  && (t.status == Waiting && d.attempts == 0 ==> t.nextAttemptAt == now + 30_000)
                  && (t.status == Waiting && d.attempts == 1 ==> t.nextAttemptAt == now + 120_000)
                  && (t.status == Waiting && d.attempts == 2 ==> t.nextAttemptAt == now + 600_000)
                  && (t.status == Waiting && d.attempts == 3 ==> t.nextAttemptAt == now + 1_800_000)
                  && (t.status != Waiting ==> t.nextAttemptAt == d.nextAttemptAt))
  {
    SendingIsSteps(s, now, issue, code, outcome);
    hide Counted, After;
  }

  // ----- The sender as the service runs it -----

  class Sender {
    var deliveries: map<(string, string), Delivery>

    /** `findOneAndUpdate`: reserves a due delivery and returns it as it is after the update. */
    method ReserveOne(k: (string, string), now: int) returns (reserved: Option<Delivery>)
      modifies this
      ensures reserved.Some? <==> k in old(deliveries) && Due(old(deliveries)[k], now)
      ensures reserved.Some? ==> reserved.value == Reserved(old(deliveries)[k], now)
                                 && deliveries == old(deliveries)[k := reserved.value]
      ensures reserved.None? ==> deliveries == old(deliveries)
    {
      if k !in deliveries || !Due(deliveries[k], now) {
        return None;
      }
      var d := deliveries[k].(status := Sending, lockedUntil := Some(now + PUSH_SEND_LOCK_MS),
                              attempts := deliveries[k].attempts + 1);
      deliveries := deliveries[k := d];
      reserved := Some(d);
    }

    method Finish(k: (string, string), status: DeliveryStatus, result: Option<string>, sentAt: Option<int>)
      modifies this
      ensures deliveries == if k in old(deliveries)
                            then old(deliveries)[k := Finished(old(deliveries)[k], status, result, sentAt)]
                            else old(deliveries)
    {
      if k in deliveries && deliveries[k].status == Sending {
        deliveries := deliveries[k := deliveries[k].(status := status, lastResult := result, lockedUntil := None,
                                                     sentAt := sentAt)];
      }
    }

    /** One sending, alone: reservation, revalidation, transport, outcome. */
    method SendOne(k: (string, string), now: int, issue: Option<string>, code: Option<int>, outcome: string)
      returns (called: bool)
      modifies this
      ensures deliveries.Keys == old(deliveries).Keys
      ensures forall j :: j in old(deliveries) && j != k ==> deliveries[j] == old(deliveries)[j]
      ensures called <==> k in old(deliveries) && Due(old(deliveries)[k], now) && issue.None?
      ensures k in old(deliveries) ==>
                deliveries[k] == Attempted(old(deliveries)[k], now, issue, code, outcome)
    {
      called := false;
      var reserved := ReserveOne(k, now);
      if reserved.None? {
        return;
      }
      if issue.Some? {
        Finish(k, Skipped, issue, None);
        return;
      }
      called := true;
      var attempts := reserved.value.attempts;
      if Accepted(code) {
        Finish(k, Sent, Some(outcome), Some(now));
        return;
      }
      if Gone(code) {
        Finish(k, Failed, Some(outcome), None);
        return;
      }
      if Transient(code) && attempts < PUSH_MAX_ATTEMPTS {
        var index := DelayIndex(attempts);
        var delay := PUSH_RETRY_DELAYS_MS[index];
        if deliveries[k].status == Sending {
          deliveries := deliveries[k := deliveries[k].(status := Waiting, nextAttemptAt := now + delay, lockedUntil := None,
                                                       lastResult := Some(outcome))];
        }
        return;
      }
      Finish(k, Failed, Some(outcome), None);
    }
  }
}
