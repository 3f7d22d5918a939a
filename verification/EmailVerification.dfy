/** Verification of the address of one account: issuance of links and their one-shot confirmation. */
module EmailVerification {
  import opened Options
  import opened FixedWindow
  import opened LinkIssuance

  const EMAIL_VERIFICATION_TTL_MS := 86_400_000

  datatype Account = Account(verifiedAt: Option<int>, link: Option<nat>, expiresAt: int, desk: Desk)

  const REGISTERED := Account(None, None, 0, NEW_DESK)

  function IssuanceRead(a: Account, now: int): Account {
    if a.verifiedAt.Some? then a else a.(desk := PrepareLink(a.desk, now, 0))
  }

  predicate Issues(a: Account, i: nat) {
    a.verifiedAt.None? && Unmoved(a.desk, i)
  }

  function IssuanceWritten(a: Account, i: nat): Account {
    if Issues(a, i)
    then a.(desk := CommitLink(a.desk, i), link := Some(i),
            expiresAt := a.desk.requests[i].now + EMAIL_VERIFICATION_TTL_MS)
    else a
  }

  predicate Confirms(a: Account, link: nat, now: int) {
    a.link == Some(link) && a.expiresAt > now && a.verifiedAt.None?
  }

  function Confirmed(a: Account, link: nat, now: int): Account {
    if Confirms(a, link, now) then a.(verifiedAt := Some(now), link := None) else a
  }

  datatype Action = ReadIssuance(now: int) | WriteIssuance(request: nat) | Confirm(link: nat, at: int)

  function Step(a: Account, action: Action): Account {
    match action
    case ReadIssuance(now) => IssuanceRead(a, now)
    case WriteIssuance(i) => IssuanceWritten(a, i)
    case Confirm(link, at) => Confirmed(a, link, at)
  }

  function Run(a: Account, actions: seq<Action>): Account {
    if |actions| == 0 then a else Step(Run(a, actions[..|actions| - 1]), actions[|actions| - 1])
  }

  /** A link in the account belongs to the last request that wrote; a verified account has none. */
  ghost predicate AccountKept(a: Account) {
    && DeskKept(a.desk)
    && (a.verifiedAt.Some? ==> a.link.None?)
    && (a.link.Some? ==>
          && a.link.value < |a.desk.requests|
          && a.desk.emission.lastSentAt == Some(a.desk.requests[a.link.value].now)
          && a.expiresAt == a.desk.requests[a.link.value].now + EMAIL_VERIFICATION_TTL_MS)
  }

  lemma {:induction false} RunKeeps(a: Account, actions: seq<Action>)
    requires AccountKept(a)
    ensures AccountKept(Run(a, actions))
  {
    hide DeskKept;
    if |actions| > 0 {
      RunKeeps(a, actions[..|actions| - 1]);
      var b := Run(a, actions[..|actions| - 1]);
      match actions[|actions| - 1]
      case ReadIssuance(now) => PrepareKeeps(b.desk, now, 0);
      case WriteIssuance(i) => StepWriteKeeps(b, i);
      case Confirm(link, at) =>
    }
  }

  lemma StepWriteKeeps(a: Account, i: nat)
    requires AccountKept(a)
    ensures AccountKept(IssuanceWritten(a, i))
  {
    CommitKeeps(a.desk, i);
  }

  /** From registration on, under every interleaving: a minute apart, five a window, nine an hour. */
  lemma IssuanceIsBounded(actions: seq<Action>, from: int)
    ensures Spaced(Run(REGISTERED, actions).desk.log.times)
    ensures CountIn(Run(REGISTERED, actions).desk.log.times, from, from + WINDOW_MS) <= 9
    ensures AccountKept(Run(REGISTERED, actions))
  {
    RunKeeps(REGISTERED, actions);
    EmissionsAreBounded(Run(REGISTERED, actions).desk, from);
  }

  /**
   * The limit of five in any hour, over every run: it holds exactly when each emission came an hour
   * after the fifth before it.
   */
  lemma HourlyLimitExactly(actions: seq<Action>)
    ensures var times := Run(REGISTERED, actions).desk.log.times;
            Sliding(times, WINDOW_MS, HOURLY_LIMIT) <==> SpreadOut(times, WINDOW_MS, HOURLY_LIMIT)
  {
    RunKeeps(REGISTERED, actions);
    SlidingHourExactly(Run(REGISTERED, actions).desk);
  }

  /** A link written after any run keeps that limit exactly when the fifth-last one is an hour old. */
  lemma HourlyLimitAfterWrite(actions: seq<Action>, i: nat)
    requires var a := Run(REGISTERED, actions); Issues(a, i) && Sliding(a.desk.log.times, WINDOW_MS, HOURLY_LIMIT)
    ensures var a := Run(REGISTERED, actions); var n := |a.desk.log.times|;
            Sliding(IssuanceWritten(a, i).desk.log.times, WINDOW_MS, HOURLY_LIMIT) <==>
            n < HOURLY_LIMIT || a.desk.requests[i].now - a.desk.log.times[n - HOURLY_LIMIT] >= WINDOW_MS
  {
    RunKeeps(REGISTERED, actions);
    var a := Run(REGISTERED, actions);
    CommitKeeps(a.desk, i);
    assert Reserve(a.desk.requests[i].seen, a.desk.requests[i].now).Some?;
    assert |CommitLink(a.desk, i).log.times| == |a.desk.log.times| + 1;
    hide Run, CommitLink, Sliding;
    SlidingHourAfterCommit(a.desk, i);
  }

  /** Once verified, an account keeps its date for ever, has no link, and is sent nothing any more. */
  lemma {:induction false} VerifiedForGood(a: Account, actions: seq<Action>)
    requires AccountKept(a) && a.verifiedAt.Some?
    ensures var b := Run(a, actions);
            && b.verifiedAt == a.verifiedAt && b.link.None?
            && b.desk.log == a.desk.log && b.desk.emission == a.desk.emission
  {
    if |actions| > 0 { VerifiedForGood(a, actions[..|actions| - 1]); }
  }

  /** A confirmation verifies with the newest link, before its expiry, once. */
  lemma ConfirmationIsOneShot(a: Account, link: nat, now: int, actions: seq<Action>, again: nat, at: int)
    requires AccountKept(a) && Confirms(a, link, now)
    ensures a.desk.requests[link].now + EMAIL_VERIFICATION_TTL_MS > now
    ensures a.desk.emission.lastSentAt == Some(a.desk.requests[link].now)
    ensures Confirmed(a, link, now).verifiedAt == Some(now)
    ensures !Confirms(Run(Confirmed(a, link, now), actions), again, at)
  {
    VerifiedForGood(Confirmed(a, link, now), actions);
  }

  // ----- What each request does, told on the account -----

  /** A link is prepared for an unverified account, under the cooldown and the quota. */
  lemma IssuanceEffect(actions: seq<Action>, now: int)
    ensures var a := Run(REGISTERED, actions); var log := a.desk.log; var n := |log.times|;
            && |log.heads| == n && (n > 0 ==> log.heads[n - 1] < n)
            && Step(a, ReadIssuance(now)) ==
                 if a.verifiedAt.None? && (n == 0 || (now >= log.times[n - 1] + 60_000
                      && (now >= log.times[log.heads[n - 1]] + 3_600_000 || n - log.heads[n - 1] < 5)))
                 then a.(desk := a.desk.(requests := a.desk.requests + [Prepared(now, a.desk.emission, 0)]))
                 else a
  {
    RunKeeps(REGISTERED, actions);
    AdmittedExactly(Run(REGISTERED, actions).desk, now, 0);
    hide Run, DeskKept;
  }

  /** It is written while the account is unverified and nothing was sent since the request read. */
  lemma WriteEffect(actions: seq<Action>, i: nat)
    ensures var a := Run(REGISTERED, actions); var b := Step(a, WriteIssuance(i));
            if a.verifiedAt.None? && i < |a.desk.requests| && a.desk.requests[i].seen.lastSentAt == a.desk.emission.lastSentAt
            then && b == a.(desk := b.desk, link := Some(i), expiresAt := a.desk.requests[i].now + 86_400_000)
                 && b.desk.log.times == a.desk.log.times + [a.desk.requests[i].now]
                 && b.desk.emission.lastSentAt == Some(a.desk.requests[i].now) && b.desk.requests == a.desk.requests
            else b == a
  {
    RunKeeps(REGISTERED, actions);
    WrittenExactly(Run(REGISTERED, actions).desk, i);
    hide Run, DeskKept;
  }

  /** It verifies the account exactly while it is the account's link and less than a day old. */
  lemma ConfirmEffect(actions: seq<Action>, link: nat, at: int)
    ensures var a := Run(REGISTERED, actions);
            Step(a, Confirm(link, at)) ==
              if a.link == Some(link) && link < |a.desk.requests| && at < a.desk.requests[link].now + 86_400_000
              then a.(verifiedAt := Some(at), link := None) else a
  {
    RunKeeps(REGISTERED, actions);
    hide Run, DeskKept;
  }

  datatype ClaimKind = Verified | Throttled | Ready

  class EmailVerificationService {
    var verifiedAt: Option<int>
    var link: Option<nat>
    var expiresAt: int
    var emission: Emission
    var requests: seq<Prepared>
    var log: Log

    ghost function Contents(): Account
      reads this
    {
      Account(verifiedAt, link, expiresAt, Desk(emission, requests, log))
    }

    constructor ()
      ensures Contents() == REGISTERED
    {
      verifiedAt, link, expiresAt := None, None, 0;
      emission, requests, log := NEVER_SENT, [], EMPTY_LOG;
    }

    method PrepareIssuance(now: int) returns (kind: ClaimKind)
      modifies this`requests
      ensures Contents() == IssuanceRead(old(Contents()), now)
      ensures kind == if old(verifiedAt).Some? then Verified
                      else if Reserve(old(emission), now).None? then Throttled else Ready
    {
      if verifiedAt.Some? { return Verified; }
      if emission.lastSentAt.Some? && now - emission.lastSentAt.value < COOLDOWN_MS { return Throttled; }
      var windowStartedAt := emission.windowStartedAt;
      var sendCount := if emission.sendCount.Some? then emission.sendCount.value else 0;
      if windowStartedAt.None? || now - windowStartedAt.value >= WINDOW_MS {
        windowStartedAt := Some(now);
        sendCount := 0;
      }
      if sendCount >= HOURLY_LIMIT { return Throttled; }
      requests := requests + [Prepared(now, emission, 0)];
      kind := Ready;
    }

    method WriteLink(i: nat) returns (claimed: bool)
      requires i < |requests| && Reserve(requests[i].seen, requests[i].now).Some?
      modifies this
      ensures claimed == Issues(old(Contents()), i)
      ensures Contents() == IssuanceWritten(old(Contents()), i)
    {
      var request := requests[i];
      if verifiedAt.Some? || emission.lastSentAt != request.seen.lastSentAt { return false; }
      emission := Reserve(request.seen, request.now).value;
      log := Extended(log, Window(request.now, emission.sendCount.value), request.now);
      link := Some(i);
      expiresAt := request.now + EMAIL_VERIFICATION_TTL_MS;
      claimed := true;
    }

    method ConfirmLink(token: nat, now: int) returns (confirmed: bool)
      modifies this`verifiedAt, this`link
      ensures confirmed == Confirms(old(Contents()), token, now)
      ensures Contents() == Confirmed(old(Contents()), token, now)
    {
      if link != Some(token) || expiresAt <= now || verifiedAt.Some? { return false; }
      verifiedAt := Some(now);
      link := None;
      confirmed := true;
    }
  }
}
