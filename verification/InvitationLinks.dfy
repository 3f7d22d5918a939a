/**
 * Links that let an invited person create an account: sends of one invitation under concurrent
 * requests. A request reads the invitation, takes a place in the recipient's quota, then writes on
 * condition that no other request has sent since; refused, it gives its place back.
 */
module InvitationLinks {

  import opened Options
  import LinkIssuance

  const TTL_MS: int := 86_400_000
  const MAX_SENDS: nat := 5

  datatype Phase = Reading | Placed | Over

  /** What a request read, and how far it has come. */
  datatype Request = Request(now: int, seen: Option<int>, count: nat, phase: Phase)

  /**
   * `usable` until the invitation is taken, revoked or closed. `places` is what its requests hold of
   * the recipient's quota; `times` lists the sends.
   */
  datatype Invitation = Invitation(usable: bool, expiresAt: int, lastSentAt: Option<int>, sendCount: nat,
                                   link: Option<nat>, linkExpiresAt: int, requests: seq<Request>,
                                   places: int, times: seq<int>)

  function Created(expiresAt: int): Invitation {
    Invitation(true, expiresAt, None, 0, None, 0, [], 0, [])
  }

  /** Cooldown and number of sends, on what was read. */
  predicate MaySend(v: Invitation, now: int) {
    && v.usable && v.expiresAt > now
    && !(v.lastSentAt.Some? && now - v.lastSentAt.value < LinkIssuance.COOLDOWN_MS)
    && v.sendCount < MAX_SENDS
  }

  function Looked(v: Invitation, now: int): Invitation {
    if MaySend(v, now) then v.(requests := v.requests + [Request(now, v.lastSentAt, v.sendCount, Reading)]) else v
  }

  function InPhase(v: Invitation, i: nat, phase: Phase): Invitation
    requires i < |v.requests|
  {
    v.(requests := v.requests[i := v.requests[i].(phase := phase)])
  }

  /** The account is looked up and the quota asked; either may end the request. */
  function Taken(v: Invitation, i: nat, hasAccount: bool, allowed: bool): Invitation {
    if i >= |v.requests| || v.requests[i].phase != Reading then v
    else if hasAccount || !allowed then InPhase(v, i, Over)
    else InPhase(v, i, Placed).(places := v.places + 1)
  }

  predicate Sends(v: Invitation, i: nat) {
    i < |v.requests| && v.requests[i].phase == Placed && v.usable && v.expiresAt > v.requests[i].now
    && v.lastSentAt == v.requests[i].seen
  }

  function Earlier(a: int, b: int): int {
    if a < b then a else b
  }

  function Written(v: Invitation, i: nat): Invitation {
    if i >= |v.requests| || v.requests[i].phase != Placed then v
    else if Sends(v, i) then
      var r := v.requests[i];
      InPhase(v, i, Over).(lastSentAt := Some(r.now), sendCount := r.count + 1, link := Some(i),
                           linkExpiresAt := Earlier(v.expiresAt, r.now + TTL_MS), times := v.times + [r.now])
    else InPhase(v, i, Over).(places := v.places - 1)
  }

  /** The link creates the account once: the invitation is deleted with it. */
  predicate Opens(v: Invitation, link: nat, now: int) {
    v.usable && v.expiresAt > now && v.link == Some(link) && v.linkExpiresAt > now
  }

  datatype Step =
    | Look(now: int)
    | Take(request: nat, hasAccount: bool, allowed: bool)
    | Write(request: nat)
    | Use(link: nat, at: int)
    | Revoke

  function Next(v: Invitation, step: Step): Invitation {
    match step
    case Look(now) => Looked(v, now)
    case Take(i, hasAccount, allowed) => Taken(v, i, hasAccount, allowed)
    case Write(i) => Written(v, i)
    case Use(link, now) => if Opens(v, link, now) then v.(usable := false) else v
    case Revoke => v.(usable := false)
  }

  function Run(v: Invitation, steps: seq<Step>): Invitation {
    if |steps| == 0 then v else Next(Run(v, steps[..|steps| - 1]), steps[|steps| - 1])
  }

  /** Requests that hold a place. */
  function Holding(requests: seq<Request>): nat {
    if |requests| == 0 then 0
    else Holding(requests[..|requests| - 1]) + if requests[|requests| - 1].phase == Placed then 1 else 0
  }

  lemma {:induction false} HoldingAfter(requests: seq<Request>, i: nat, phase: Phase)
    requires i < |requests|
    ensures Holding(requests[i := requests[i].(phase := phase)])
         == Holding(requests) - (if requests[i].phase == Placed then 1 else 0) + if phase == Placed then 1 else 0
  {
    var n := |requests| - 1;
    var after := requests[i := requests[i].(phase := phase)];
    if i == n {
      assert after[..n] == requests[..n];
    } else {
      HoldingAfter(requests[..n], i, phase);
      assert after[..n] == requests[..n][i := requests[i].(phase := phase)];
    }
  }

  /** Sends only move forward, so the last one a request read identifies all it read. */
  ghost predicate OfSomeSend(v: Invitation, r: Request) {
    && (r.seen.Some? ==> r.now - r.seen.value >= LinkIssuance.COOLDOWN_MS)
    && (r.seen.Some? ==> v.lastSentAt.Some? && r.seen.value <= v.lastSentAt.value)
    && (r.seen == v.lastSentAt ==> r.count == v.sendCount)
    && r.count < MAX_SENDS
  }

  ghost predicate Kept(v: Invitation) {
    && v.sendCount == |v.times| <= MAX_SENDS
    && LinkIssuance.Spaced(v.times)
    && v.lastSentAt == (if |v.times| == 0 then None else Some(v.times[|v.times| - 1]))
    && (forall i :: 0 <= i < |v.requests| ==> OfSomeSend(v, v.requests[i]) || v.requests[i].phase == Over)
    && v.places == |v.times| + Holding(v.requests)
    && (v.link.Some? ==> v.lastSentAt.Some? && v.linkExpiresAt == Earlier(v.expiresAt, v.lastSentAt.value + TTL_MS))
  }

  lemma LookKeeps(v: Invitation, now: int)
    requires Kept(v)
    ensures Kept(Looked(v, now))
  {
    var r := Request(now, v.lastSentAt, v.sendCount, Reading);
    assert (v.requests + [r])[..|v.requests|] == v.requests;
  }

  lemma TakeKeeps(v: Invitation, i: nat, hasAccount: bool, allowed: bool)
    requires Kept(v)
    ensures Kept(Taken(v, i, hasAccount, allowed))
  {
    if i < |v.requests| {
      HoldingAfter(v.requests, i, Over);
      HoldingAfter(v.requests, i, Placed);
      hide Holding, LinkIssuance.Spaced;
    }
  }

  lemma WriteKeeps(v: Invitation, i: nat)
    requires Kept(v)
    ensures Kept(Written(v, i))
  {
    if i < |v.requests| && v.requests[i].phase == Placed {
      HoldingAfter(v.requests, i, Over);
      assert OfSomeSend(v, v.requests[i]);
      if Sends(v, i) {
        SpacedOneMore(v.times, v.requests[i].now);
      }
      hide Holding, LinkIssuance.Spaced;
    }
  }

  lemma SpacedOneMore(times: seq<int>, now: int)
    requires LinkIssuance.Spaced(times) && (|times| > 0 ==> now - times[|times| - 1] >= LinkIssuance.COOLDOWN_MS)
    ensures LinkIssuance.Spaced(times + [now])
  {
    forall i | 0 <= i < |times| ensures now - times[i] >= LinkIssuance.COOLDOWN_MS {
      if i < |times| - 1 { assert times[|times| - 1] - times[i] >= LinkIssuance.COOLDOWN_MS; }
    }
  }

  /**
   * Under every interleaving: at most five sends for an invitation, a minute apart at least; the
   * recipient's quota is held once for each send and once for each request on its way to the write; a
   * link lives a day at most and never longer than its invitation.
   */
  lemma {:induction false} RunKeeps(expiresAt: int, steps: seq<Step>)
    ensures Kept(Run(Created(expiresAt), steps))
  {
    if |steps| > 0 {
      RunKeeps(expiresAt, steps[..|steps| - 1]);
      var v := Run(Created(expiresAt), steps[..|steps| - 1]);
      match steps[|steps| - 1]
      case Look(now) => LookKeeps(v, now);
      case Take(i, hasAccount, allowed) => TakeKeeps(v, i, hasAccount, allowed);
      case Write(i) => WriteKeeps(v, i);
      case _ =>
    }
  }

  /** Of the requests that read the invitation before a send, only the sender gets through. */
  lemma OneSendPerReading(v: Invitation, i: nat, j: nat)
    requires Kept(v) && Sends(v, i) && j < |v.requests| && v.requests[j].seen == v.requests[i].seen
    ensures !Sends(Written(v, i), j)
    ensures Written(v, i).times == v.times + [v.requests[i].now]
  {
    assert OfSomeSend(v, v.requests[i]);
  }

  /** An account link opens once: only the newest, in time, and nothing opens after it. */
  lemma {:induction false} UsedForGood(v: Invitation, steps: seq<Step>, link: nat, now: int)
    requires !v.usable
    ensures !Run(v, steps).usable && Run(v, steps).times == v.times && !Opens(Run(v, steps), link, now)
  {
    if |steps| > 0 { UsedForGood(v, steps[..|steps| - 1], link, now); }
  }

  // ----- What each request does, told on the invitation -----

  /** A request goes on to the account and the quota exactly while a link may still be sent. */
  lemma LookEffect(expiresAt: int, steps: seq<Step>, now: int)
    ensures var v := Run(Created(expiresAt), steps); var n := |v.times|;
            Next(v, Look(now)) ==
              if v.usable && now < v.expiresAt && n < 5 && (n == 0 || now >= v.times[n - 1] + 60_000)
              then v.(requests := v.requests + [Request(now, v.lastSentAt, n, Reading)]) else v
  {
    RunKeeps(expiresAt, steps);
    hide Run, Holding, LinkIssuance.Spaced;
  }

  /** It takes a place unless the address has an account or the quota refuses, and is then over. */
  lemma TakeEffect(v: Invitation, i: nat, hasAccount: bool, allowed: bool)
    ensures var w := Next(v, Take(i, hasAccount, allowed));
            if i < |v.requests| && v.requests[i].phase == Reading
            then && |w.requests| == |v.requests|
                 && (forall j :: 0 <= j < |v.requests| && j != i ==> w.requests[j] == v.requests[j])
                 && w.requests[i] == v.requests[i].(phase := if !hasAccount && allowed then Phase.Placed else Over)
                 && w == v.(requests := w.requests, places := v.places + if !hasAccount && allowed then 1 else 0)
            else w == v
  {}

  /**
   * A request that holds a place sends exactly when the invitation is still open at its instant and no
   * link was sent since it read; its link is then the only one, for a day or until the invitation ends.
   * Otherwise it gives its place back. It never writes twice.
   */
  lemma WriteEffect(expiresAt: int, steps: seq<Step>, i: nat)
    ensures var v := Run(Created(expiresAt), steps); var n := |v.times|; var w := Next(v, Write(i));
            if i < |v.requests| && v.requests[i].phase == Phase.Placed
            then && w.requests == v.requests[i := v.requests[i].(phase := Over)]
                 && w.usable == v.usable && w.expiresAt == v.expiresAt
                 && if v.usable && v.requests[i].now < v.expiresAt
                       && v.requests[i].seen == (if n == 0 then None else Some(v.times[n - 1]))
                    then && w.times == v.times + [v.requests[i].now] && w.link == Some(i) && w.places == v.places
                         && w.linkExpiresAt == (if v.expiresAt < v.requests[i].now + 86_400_000
                                                then v.expiresAt else v.requests[i].now + 86_400_000)
                    else w.times == v.times && w.link == v.link && w.linkExpiresAt == v.linkExpiresAt && w.places == v.places - 1
            else w == v
  {
    RunKeeps(expiresAt, steps);
    hide Run, Holding, LinkIssuance.Spaced;
  }

  /** The account is created exactly with the newest link, within a day and while the invitation is open. */
  lemma UseEffect(expiresAt: int, steps: seq<Step>, link: nat, at: int)
    ensures var v := Run(Created(expiresAt), steps); var n := |v.times|;
            Next(v, Use(link, at)) ==
              if v.usable && at < v.expiresAt && v.link == Some(link) && n > 0 && at < v.times[n - 1] + 86_400_000
              then v.(usable := false) else v
    ensures Next(Run(Created(expiresAt), steps), Revoke) == Run(Created(expiresAt), steps).(usable := false)
  {
    RunKeeps(expiresAt, steps);
    hide Run, Holding, LinkIssuance.Spaced;
  }
}
