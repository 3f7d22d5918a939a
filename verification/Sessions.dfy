/**
 * Passwords, reset links and tokens of one account. Every request is cut at its database accesses:
 * what it read is kept with it, and the steps of all requests interleave freely.
 */
module Sessions {
  import opened Options
  import opened FixedWindow
  import opened LinkIssuance
  import opened SessionVersion

  const PASSWORD_RESET_TTL_MS := 3_600_000

  /** A confirmation that found its link, on its way to the conditional write. */
  datatype Confirmation = Confirmation(link: nat, now: int, version: nat, password: nat)

  /** Credentials that were verified: the version read together with the password that matched. */
  datatype Login = Login(version: nat, password: nat)

  datatype AccessScope = App | SubscriptionLimited

  /** A signed token; `login` is the verified login it descends from. */
  datatype Token = Token(version: nat, scope: AccessScope, login: nat)

  /** A request that presents a token to get another one: organisation switch or limited exchange. */
  datatype Derivation = Derivation(token: nat, checked: bool)

  /**
   * The account document and the requests around it. Passwords are identified by number; a link is
   * identified by the request that prepared it. `passwords[v]` is the password of version v, `resets`
   * the links that were used, in order.
   */
  datatype World = World(
    password: nat, authVersion: JsValue, resetLink: Option<nat>, resetExpiresAt: int, desk: Desk,
    confirmations: seq<Confirmation>, logins: seq<Login>, tokens: seq<Token>, derivations: seq<Derivation>,
    resets: seq<nat>, passwords: seq<nat>)

  function Created(password: nat): World {
    World(password, Absent, None, 0, NEW_DESK, [], [], [], [], [], [password])
  }

  // ----- Password reset -----

  function RequestRead(w: World, now: int): World {
    w.(desk := PrepareLink(w.desk, now, CurrentVersion(w.authVersion)))
  }

  /** The link is written only if neither the last emission nor the session version moved. */
  predicate Installs(w: World, i: nat) {
    Unmoved(w.desk, i) && FilterMatches(w.desk.requests[i].version, w.authVersion)
  }

  function LinkWritten(w: World, i: nat): World {
    if Installs(w, i)
    then w.(desk := CommitLink(w.desk, i), resetLink := Some(i),
            resetExpiresAt := w.desk.requests[i].now + PASSWORD_RESET_TTL_MS)
    else w
  }

  predicate LinkUsable(w: World, link: nat, now: int) {
    w.resetLink == Some(link) && w.resetExpiresAt > now
  }

  function ConfirmRead(w: World, link: nat, password: nat, now: int): World {
    if LinkUsable(w, link, now)
    then w.(confirmations := w.confirmations + [Confirmation(link, now, CurrentVersion(w.authVersion), password)])
    else w
  }

  predicate Resets(w: World, j: nat) {
    && j < |w.confirmations|
    && LinkUsable(w, w.confirmations[j].link, w.confirmations[j].now)
    && FilterMatches(w.confirmations[j].version, w.authVersion)
  }

  function ConfirmWritten(w: World, j: nat): World {
    if Resets(w, j) then
      var c := w.confirmations[j];
      w.(password := c.password, authVersion := Integer(c.version + 1), resetLink := None,
         resets := w.resets + [c.link], passwords := w.passwords + [c.password])
    else w
  }

  // ----- Tokens -----

  function CredentialsVerified(w: World, password: nat): World {
    if password == w.password
    then w.(logins := w.logins + [Login(CurrentVersion(w.authVersion), password)]) else w
  }

  /** Signed with the version read with the credentials, however late. */
  function LoginSigned(w: World, k: nat, active: bool): World {
    if k < |w.logins|
    then w.(tokens := w.tokens + [Token(w.logins[k].version, if active then App else SubscriptionLimited, k)])
    else w
  }

  predicate Accepts(w: World, t: nat) {
    t < |w.tokens| && IsSessionCurrent(Integer(w.tokens[t].version), w.authVersion)
  }

  function Presented(w: World, t: nat): World {
    if Accepts(w, t) then w.(derivations := w.derivations + [Derivation(t, false)]) else w
  }

  /** The version is read again after everything else the request reads. */
  function VersionChecked(w: World, d: nat): World {
    if d < |w.derivations| && Accepts(w, w.derivations[d].token)
    then w.(derivations := w.derivations[d := w.derivations[d].(checked := true)]) else w
  }

  /** A switch signs for the subscription's state; an exchange only when the subscription is active. */
  function DerivedSigned(w: World, d: nat, active: bool): World {
    if d < |w.derivations| && w.derivations[d].checked && w.derivations[d].token < |w.tokens| then
      var t := w.tokens[w.derivations[d].token];
      if t.scope.SubscriptionLimited? && !active then w
      else w.(tokens := w.tokens + [t.(scope := if active then App else SubscriptionLimited)])
    else w
  }

  // ----- Runs -----

  datatype Action =
    | ReadRequest(now: int)
    | WriteLink(request: nat)
    | ReadConfirm(link: nat, newPassword: nat, at: int)
    | WriteConfirm(confirmation: nat)
    | VerifyCredentials(password: nat)
    | SignLogin(login: nat, active: bool)
    | PresentToken(token: nat)
    | CheckVersion(derivation: nat)
    | SignDerived(derivation: nat, active: bool)

  function Step(w: World, a: Action): World {
    match a
    case ReadRequest(now) => RequestRead(w, now)
    case WriteLink(i) => LinkWritten(w, i)
    case ReadConfirm(link, password, at) => ConfirmRead(w, link, password, at)
    case WriteConfirm(j) => ConfirmWritten(w, j)
    case VerifyCredentials(password) => CredentialsVerified(w, password)
    case SignLogin(k, active) => LoginSigned(w, k, active)
    case PresentToken(t) => Presented(w, t)
    case CheckVersion(d) => VersionChecked(w, d)
    case SignDerived(d, active) => DerivedSigned(w, d, active)
  }

  function Run(w: World, actions: seq<Action>): World {
    if |actions| == 0 then w else Step(Run(w, actions[..|actions| - 1]), actions[|actions| - 1])
  }

  // ----- What every interleaving keeps -----

  ghost predicate VersionsKept(w: World) {
    var v := CurrentVersion(w.authVersion);
    && WellStored(w.authVersion)
    && |w.passwords| == v + 1 && w.passwords[v] == w.password
    && |w.resets| == v
    && (forall i :: 0 <= i < |w.desk.requests| ==> w.desk.requests[i].version <= v)
    && (forall j :: 0 <= j < |w.confirmations| ==> w.confirmations[j].version <= v)
  }

  ghost predicate LineageKept(w: World) {
    && (forall k :: 0 <= k < |w.logins| ==>
          w.logins[k].version < |w.passwords| && w.passwords[w.logins[k].version] == w.logins[k].password)
    && (forall t :: 0 <= t < |w.tokens| ==>
          w.tokens[t].login < |w.logins| && w.tokens[t].version == w.logins[w.tokens[t].login].version)
  }

  /** A link in the account or already used belongs to a request that can never write again. */
  ghost predicate LinksKept(w: World) {
    && DeskKept(w.desk)
    && (w.resetLink.Some? ==>
          w.resetLink.value < |w.desk.requests| && !Unmoved(w.desk, w.resetLink.value) && w.resetLink.value !in w.resets)
    && (forall link :: link in w.resets ==> link < |w.desk.requests| && !Unmoved(w.desk, link))
    && (forall i, j :: 0 <= i < j < |w.resets| ==> w.resets[i] != w.resets[j])
  }

  ghost predicate Kept(w: World) {
    VersionsKept(w) && LineageKept(w) && LinksKept(w)
  }

  lemma RequestReadKeeps(w: World, now: int)
    requires Kept(w)
    ensures Kept(RequestRead(w, now))
  {
    hide DeskKept;
    PrepareKeeps(w.desk, now, CurrentVersion(w.authVersion));
  }

  lemma LinkWrittenKeeps(w: World, i: nat)
    requires Kept(w)
    ensures Kept(LinkWritten(w, i))
  {
    if Installs(w, i) {
      CommitKeeps(w.desk, i);
      forall link | link in w.resets ensures !Unmoved(CommitLink(w.desk, i), link) {
        MovedForGood(w.desk, link, i);
      }
    }
  }

  lemma ConfirmWrittenKeeps(w: World, j: nat)
    requires Kept(w)
    requires |ConfirmWritten(w, j).resets| <= MAX_SAFE_INTEGER
    ensures Kept(ConfirmWritten(w, j))
  {
    hide DeskKept;
    if Resets(w, j) {
      FilterIsVersionTest(w.confirmations[j].version, w.authVersion);
    }
  }

  lemma StepKeeps(w: World, a: Action)
    requires Kept(w)
    requires |Step(w, a).resets| <= MAX_SAFE_INTEGER
    ensures Kept(Step(w, a))
  {
    hide DeskKept;
    match a
    case ReadRequest(now) => RequestReadKeeps(w, now);
    case WriteLink(i) => LinkWrittenKeeps(w, i);
    case WriteConfirm(j) => ConfirmWrittenKeeps(w, j);
    case _ =>
  }

  lemma {:induction false} ResetsGrow(w: World, actions: seq<Action>, n: nat)
    requires n <= |actions|
    ensures |Run(w, actions[..n]).resets| <= |Run(w, actions).resets|
    decreases |actions|
  {
    if n < |actions| {
      ResetsGrow(w, actions[..|actions| - 1], n);
      assert actions[..|actions| - 1][..n] == actions[..n];
    } else {
      assert actions[..n] == actions;
    }
  }

  /** Every interleaving, as long as the number of resets is itself a version. */
  lemma {:induction false} RunKeeps(w: World, actions: seq<Action>)
    requires Kept(w)
    requires |Run(w, actions).resets| <= MAX_SAFE_INTEGER
    ensures Kept(Run(w, actions))
  {
    if |actions| > 0 {
      ResetsGrow(w, actions, |actions| - 1);
      RunKeeps(w, actions[..|actions| - 1]);
      StepKeeps(Run(w, actions[..|actions| - 1]), actions[|actions| - 1]);
    }
  }

  lemma CreatedIsKept(password: nat)
    ensures Kept(Created(password))
  {}

  /**
   * Session lineage: a token the version check accepts descends from a login that verified the very
   * password now in force, whatever was read, reset or derived in between.
   */
  lemma SessionLineage(password: nat, actions: seq<Action>, t: nat)
    requires |Run(Created(password), actions).resets| <= MAX_SAFE_INTEGER
    requires Accepts(Run(Created(password), actions), t)
    ensures var w := Run(Created(password), actions);
            && w.tokens[t].login < |w.logins|
            && w.logins[w.tokens[t].login].password == w.password
  {
    CreatedIsKept(password);
    RunKeeps(Created(password), actions);
  }

  /** Reset links are emitted a minute apart, five a window, nine in any hour, whatever else happens. */
  lemma ResetLinksAreBounded(password: nat, actions: seq<Action>, from: int)
    requires |Run(Created(password), actions).resets| <= MAX_SAFE_INTEGER
    ensures var times := Run(Created(password), actions).desk.log.times;
            Spaced(times) && CountIn(times, from, from + WINDOW_MS) <= 9
  {
    CreatedIsKept(password);
    RunKeeps(Created(password), actions);
    EmissionsAreBounded(Run(Created(password), actions).desk, from);
  }

  /** Five in any hour, exactly when each reset link came an hour after the fifth before it. */
  lemma HourlyLimitExactly(password: nat, actions: seq<Action>)
    requires |Run(Created(password), actions).resets| <= MAX_SAFE_INTEGER
    ensures var times := Run(Created(password), actions).desk.log.times;
            Sliding(times, WINDOW_MS, HOURLY_LIMIT) <==> SpreadOut(times, WINDOW_MS, HOURLY_LIMIT)
  {
    CreatedIsKept(password);
    RunKeeps(Created(password), actions);
    SlidingHourExactly(Run(Created(password), actions).desk);
  }

  /** A reset link written keeps that limit exactly when the fifth-last one is an hour old. */
  lemma HourlyLimitAfterWrite(w: World, i: nat)
    requires Kept(w) && Installs(w, i) && Sliding(w.desk.log.times, WINDOW_MS, HOURLY_LIMIT)
    ensures var n := |w.desk.log.times|;
            Sliding(LinkWritten(w, i).desk.log.times, WINDOW_MS, HOURLY_LIMIT) <==>
            n < HOURLY_LIMIT || w.desk.requests[i].now - w.desk.log.times[n - HOURLY_LIMIT] >= WINDOW_MS
  {
    CommitKeeps(w.desk, i);
    assert |CommitLink(w.desk, i).log.times| == |w.desk.log.times| + 1;
    hide CommitLink, Sliding;
    SlidingHourAfterCommit(w.desk, i);
  }

  /** The version counts the successful resets, and no link ever resets twice. */
  lemma OneVersionPerReset(password: nat, actions: seq<Action>)
    requires |Run(Created(password), actions).resets| <= MAX_SAFE_INTEGER
    ensures var w := Run(Created(password), actions);
            && CurrentVersion(w.authVersion) == |w.resets|
            && forall i, j :: 0 <= i < j < |w.resets| ==> w.resets[i] != w.resets[j]
  {
    CreatedIsKept(password);
    RunKeeps(Created(password), actions);
  }

  /** A confirmed reset: new password, version up by one, the link spent, all in one write. */
  lemma ResetEffect(w: World, j: nat)
    requires Kept(w) && Resets(w, j) && |w.resets| < MAX_SAFE_INTEGER
    ensures var after := ConfirmWritten(w, j); var c := w.confirmations[j];
            && after.password == c.password
            && CurrentVersion(after.authVersion) == CurrentVersion(w.authVersion) + 1
            && after.resets == w.resets + [c.link]
            && (forall t: nat :: t < |after.tokens| ==> !Accepts(after, t))
            && (forall k: nat :: !Resets(after, k))
  {
    FilterIsVersionTest(w.confirmations[j].version, w.authVersion);
    forall t: nat | t < |w.tokens| ensures w.tokens[t].version < |w.passwords| {
      assert w.tokens[t].login < |w.logins|;
    }
  }

  /** `v` comes after `w`: versions never go back, and requests are kept as they were prepared. */
  ghost predicate Later(w: World, v: World) {
    && CurrentVersion(w.authVersion) <= CurrentVersion(v.authVersion)
    && |w.desk.requests| <= |v.desk.requests|
    && forall i: nat :: i < |w.desk.requests| ==> v.desk.requests[i] == w.desk.requests[i]
  }

  lemma StepIsLater(w: World, a: Action)
    requires Kept(w) && |Step(w, a).resets| <= MAX_SAFE_INTEGER
    ensures Later(w, Step(w, a))
  {
    if a.WriteConfirm? && Resets(w, a.confirmation) {
      FilterIsVersionTest(w.confirmations[a.confirmation].version, w.authVersion);
    }
  }

  lemma LaterStill(w: World, v: World, u: World)
    requires Later(w, v) && Later(v, u)
    ensures Later(w, u)
  {}

  lemma {:induction false} RunIsLater(w: World, actions: seq<Action>)
    requires Kept(w)
    requires |Run(w, actions).resets| <= MAX_SAFE_INTEGER
    ensures Later(w, Run(w, actions))
  {
    hide Kept, Step;
    if |actions| > 0 {
      var front := actions[..|actions| - 1];
      ResetsGrow(w, actions, |front|);
      RunIsLater(w, front);
      RunKeeps(w, front);
      StepIsLater(Run(w, front), actions[|front|]);
      LaterStill(w, Run(w, front), Run(w, actions));
    } else {
      assert Later(w, w);
    }
  }

  /** A link request prepared before a reset never installs its link after it. */
  lemma PreparedBeforeReset(w: World, actions: seq<Action>, i: nat)
    requires Kept(w)
    requires |Run(w, actions).resets| <= MAX_SAFE_INTEGER
    requires i < |w.desk.requests| && w.desk.requests[i].version < CurrentVersion(w.authVersion)
    ensures LinkWritten(Run(w, actions), i) == Run(w, actions)
  {
    RunIsLater(w, actions);
    RunKeeps(w, actions);
    var after := Run(w, actions);
    assert after.desk.requests[i] == w.desk.requests[i];
    FilterIsVersionTest(w.desk.requests[i].version, after.authVersion);
  }

  // ----- What each request does, told on the account -----

  /** A link lives one hour from the clock of the request that prepared it. */
  ghost predicate LivesAnHour(w: World) {
    w.resetLink.Some? ==>
      w.resetLink.value < |w.desk.requests| && w.resetExpiresAt == w.desk.requests[w.resetLink.value].now + 3_600_000
  }

  lemma {:induction false} RunLivesAnHour(w: World, actions: seq<Action>)
    requires LivesAnHour(w)
    ensures LivesAnHour(Run(w, actions))
  {
    if |actions| > 0 { RunLivesAnHour(w, actions[..|actions| - 1]); }
  }

  /** The link of the account, in time at this instant. */
  ghost predicate InTime(w: World, link: nat, at: int) {
    w.resetLink == Some(link) && link < |w.desk.requests| && at < w.desk.requests[link].now + 3_600_000
  }

  lemma ReachedState(password: nat, actions: seq<Action>)
    requires |Run(Created(password), actions).resets| <= MAX_SAFE_INTEGER
    ensures var w := Run(Created(password), actions);
            Kept(w) && LivesAnHour(w) && WellStored(w.authVersion) && CurrentVersion(w.authVersion) == |w.resets|
  {
    hide Run, DeskKept;
    CreatedIsKept(password);
    RunKeeps(Created(password), actions);
    RunLivesAnHour(Created(password), actions);
  }

  lemma ReadConfirmIs(w: World, link: nat, newPassword: nat, at: int)
    requires LivesAnHour(w) && CurrentVersion(w.authVersion) == |w.resets|
    ensures Step(w, ReadConfirm(link, newPassword, at)) ==
              if InTime(w, link, at)
              then w.(confirmations := w.confirmations + [Confirmation(link, at, |w.resets|, newPassword)]) else w
  {
    hide CurrentVersion;
  }

  lemma WriteConfirmIs(w: World, j: nat)
    requires LivesAnHour(w) && WellStored(w.authVersion) && CurrentVersion(w.authVersion) == |w.resets|
    ensures Step(w, WriteConfirm(j)) ==
              if j < |w.confirmations| && InTime(w, w.confirmations[j].link, w.confirmations[j].now)
                 && w.confirmations[j].version == |w.resets|
              then var c := w.confirmations[j];
                   w.(password := c.password, authVersion := Integer(|w.resets| + 1), resetLink := None,
                      resets := w.resets + [c.link], passwords := w.passwords + [c.password])
              else w
  {
    if j < |w.confirmations| { FilterIsVersionTest(w.confirmations[j].version, w.authVersion); }
    hide CurrentVersion, FilterMatches, WellStored;
  }

  /**
   * After any run a confirmation finds its link exactly when it is the account's and less than an hour
   * old; it replaces the password exactly when this still holds of the instant it read the link at, and
   * no reset came in between. Both then write what they should, and otherwise nothing.
   */
  lemma ConfirmationEffect(password: nat, actions: seq<Action>, link: nat, newPassword: nat, at: int, j: nat)
    requires |Run(Created(password), actions).resets| <= MAX_SAFE_INTEGER
    ensures var w := Run(Created(password), actions);
            Step(w, ReadConfirm(link, newPassword, at)) ==
              if InTime(w, link, at)
              then w.(confirmations := w.confirmations + [Confirmation(link, at, |w.resets|, newPassword)]) else w
    ensures var w := Run(Created(password), actions);
            Step(w, WriteConfirm(j)) ==
              if j < |w.confirmations| && InTime(w, w.confirmations[j].link, w.confirmations[j].now)
                 && w.confirmations[j].version == |w.resets|
              then var c := w.confirmations[j];
                   w.(password := c.password, authVersion := Integer(|w.resets| + 1), resetLink := None,
                      resets := w.resets + [c.link], passwords := w.passwords + [c.password])
              else w
  {
    hide Run, Step, InTime, Created, Kept, LivesAnHour;
    var w := Run(Created(password), actions);
    ReachedState(password, actions);
    ReadConfirmIs(w, link, newPassword, at);
    WriteConfirmIs(w, j);
  }

  /** So nothing an hour after its request, or later, moves the account through a link. */
  lemma ExpiredLinkIsDead(password: nat, actions: seq<Action>, a: Action)
    requires |Run(Created(password), actions).resets| <= MAX_SAFE_INTEGER
    requires Step(Run(Created(password), actions), a) != Run(Created(password), actions)
    ensures var w := Run(Created(password), actions);
            && (a.ReadConfirm? ==> a.link < |w.desk.requests| && a.at < w.desk.requests[a.link].now + 3_600_000)
            && (a.WriteConfirm? ==>
                  && a.confirmation < |w.confirmations|
                  && var c := w.confirmations[a.confirmation];
                     c.link < |w.desk.requests| && c.now < w.desk.requests[c.link].now + 3_600_000)
  {
    hide Step, Run;
    match a
    case ReadConfirm(link, newPassword, at) => ConfirmationEffect(password, actions, link, newPassword, at, 0);
    case WriteConfirm(j) => ConfirmationEffect(password, actions, 0, 0, 0, j);
    case _ =>
  }

  /**
   * A request for a link writes exactly when neither an emission nor a reset came since it read; its
   * link then replaces the account's, for an hour from its clock. Nothing else of the account moves.
   */
  lemma LinkEffect(password: nat, actions: seq<Action>, i: nat)
    requires |Run(Created(password), actions).resets| <= MAX_SAFE_INTEGER
    ensures var w := Run(Created(password), actions); var v := Step(w, WriteLink(i));
            if i < |w.desk.requests| && w.desk.requests[i].seen.lastSentAt == w.desk.emission.lastSentAt
               && w.desk.requests[i].version == |w.resets|
            then && v == w.(desk := v.desk, resetLink := Some(i), resetExpiresAt := w.desk.requests[i].now + 3_600_000)
                 && v.desk.log.times == w.desk.log.times + [w.desk.requests[i].now]
                 && v.desk.emission.lastSentAt == Some(w.desk.requests[i].now) && v.desk.requests == w.desk.requests
            else v == w
  {
    hide Run, DeskKept, CurrentVersion, FilterMatches, WellStored;
    var w := Run(Created(password), actions);
    ReachedState(password, actions);
    WrittenExactly(w.desk, i);
    if i < |w.desk.requests| { FilterIsVersionTest(w.desk.requests[i].version, w.authVersion); }
  }

  /** It is prepared under the cooldown and the quota, with the number of resets so far. */
  lemma RequestEffect(password: nat, actions: seq<Action>, now: int)
    requires |Run(Created(password), actions).resets| <= MAX_SAFE_INTEGER
    ensures var w := Run(Created(password), actions); var log := w.desk.log; var n := |log.times|;
            && |log.heads| == n && (n > 0 ==> log.heads[n - 1] < n)
            && Step(w, ReadRequest(now)) ==
                 if n == 0 || (now >= log.times[n - 1] + 60_000
                               && (now >= log.times[log.heads[n - 1]] + 3_600_000 || n - log.heads[n - 1] < 5))
                 then w.(desk := w.desk.(requests := w.desk.requests + [Prepared(now, w.desk.emission, |w.resets|)]))
                 else w
  {
    hide Run, DeskKept, PrepareLink, CurrentVersion;
    ReachedState(password, actions);
    AdmittedExactly(Run(Created(password), actions).desk, now, |Run(Created(password), actions).resets|);
  }

  /**
   * Tokens: a login takes the password in force and the number of resets so far; a token is accepted
   * exactly while that number has not moved; a request that presents one signs another only once it
   * was accepted again after the other reads, and not for a limited token without a subscription.
   */
  lemma AccessEffect(password: nat, actions: seq<Action>, a: Action)
    requires |Run(Created(password), actions).resets| <= MAX_SAFE_INTEGER
    ensures var w := Run(Created(password), actions); var v := Step(w, a);
            match a
            case VerifyCredentials(given) =>
              v == if given == w.password then w.(logins := w.logins + [Login(|w.resets|, given)]) else w
            case SignLogin(k, active) =>
              v == if k < |w.logins|
                   then w.(tokens := w.tokens + [Token(w.logins[k].version, if active then App else SubscriptionLimited, k)]) else w
            case PresentToken(t) =>
              v == if t < |w.tokens| && w.tokens[t].version == |w.resets|
                   then w.(derivations := w.derivations + [Derivation(t, false)]) else w
            case CheckVersion(d) =>
              v == if d < |w.derivations| && w.derivations[d].token < |w.tokens|
                      && w.tokens[w.derivations[d].token].version == |w.resets|
                   then w.(derivations := w.derivations[d := Derivation(w.derivations[d].token, true)]) else w
            case SignDerived(d, active) =>
              v == if d < |w.derivations| && w.derivations[d].checked && w.derivations[d].token < |w.tokens|
                      && (w.tokens[w.derivations[d].token].scope == App || active)
                   then var t := w.tokens[w.derivations[d].token];
                        w.(tokens := w.tokens + [Token(t.version, if active then App else SubscriptionLimited, t.login)])
                   else w
            case _ => true
  {
    hide Run, DeskKept;
    var w := Run(Created(password), actions);
    ReachedState(password, actions);
    forall t: nat | t < |w.tokens| ensures w.tokens[t].version < |w.passwords| {
      assert w.tokens[t].login < |w.logins|;
    }
  }

  /**
   * Action n of a run signed token t with this scope: for a login, or on presenting a token; with the
   * whole application exactly when the subscription was active, as it must be for a limited token.
   */
  ghost predicate SignedBy(password: nat, actions: seq<Action>, n: nat, t: nat, scope: AccessScope)
    requires n < |actions|
  {
    var w := Run(Created(password), actions[..n]); var a := actions[n];
    && (a.SignLogin? || a.SignDerived?) && |w.tokens| == t && (scope == App <==> a.active)
    && (a.SignDerived? ==>
          && a.derivation < |w.derivations| && w.derivations[a.derivation].token < |w.tokens|
          && (w.tokens[w.derivations[a.derivation].token].scope == SubscriptionLimited ==> a.active))
  }

  lemma TokenSigned(w: World, a: Action)
    ensures var v := Step(w, a);
            v.tokens != w.tokens ==>
              && (a.SignLogin? || a.SignDerived?) && |v.tokens| == |w.tokens| + 1 && v.tokens[..|w.tokens|] == w.tokens
              && (v.tokens[|w.tokens|].scope == App <==> a.active)
              && (a.SignDerived? ==>
                    && a.derivation < |w.derivations| && w.derivations[a.derivation].token < |w.tokens|
                    && (w.tokens[w.derivations[a.derivation].token].scope == SubscriptionLimited ==> a.active))
  {}

  lemma RunOneMore(w: World, actions: seq<Action>)
    requires |actions| > 0
    ensures Run(w, actions) == Step(Run(w, actions[..|actions| - 1]), actions[|actions| - 1])
  {}

  /**
   * Over every run a token opens the application exactly when it was signed for an active subscription;
   * and one signed on presenting a limited token was signed for an active one.
   */
  lemma {:induction false} ScopeFollowsSubscription(password: nat, actions: seq<Action>, t: nat)
    requires t < |Run(Created(password), actions).tokens|
    ensures exists n: nat :: n < |actions| && SignedBy(password, actions, n, t, Run(Created(password), actions).tokens[t].scope)
  {
    if |actions| > 0 {
      var last := |actions| - 1;
      var w, v := Run(Created(password), actions[..last]), Run(Created(password), actions);
      RunOneMore(Created(password), actions);
      TokenSigned(w, actions[last]);
      hide Run, Step;
      if t < |w.tokens| {
        assert v.tokens[t] == w.tokens[t] by { assert v.tokens != w.tokens ==> v.tokens[..|w.tokens|][t] == w.tokens[t]; }
        ScopeFollowsSubscription(password, actions[..last], t);
        var n: nat :| n < last && SignedBy(password, actions[..last], n, t, w.tokens[t].scope);
        assert actions[..last][..n] == actions[..n];
        assert SignedBy(password, actions, n, t, v.tokens[t].scope);
      } else {
        assert SignedBy(password, actions, last, t, v.tokens[t].scope);
      }
    }
  }

  // ----- The services -----

  class AccountStore {
    var password: nat
    var authVersion: JsValue
    var resetLink: Option<nat>
    var resetExpiresAt: int
    var emission: Emission
    var requests: seq<Prepared>
    var log: Log
    var confirmations: seq<Confirmation>
    var logins: seq<Login>
    var tokens: seq<Token>
    var derivations: seq<Derivation>
    var resets: seq<nat>
    var passwords: seq<nat>

    ghost function Contents(): World
      reads this
    {
      World(password, authVersion, resetLink, resetExpiresAt, Desk(emission, requests, log),
            confirmations, logins, tokens, derivations, resets, passwords)
    }

    constructor (password: nat)
      ensures Contents() == Created(password)
    {
      this.password, authVersion, resetLink, resetExpiresAt := password, Absent, None, 0;
      emission, requests, log := NEVER_SENT, [], EMPTY_LOG;
      confirmations, logins, tokens, derivations := [], [], [], [];
      resets, passwords := [], [password];
    }

    /** First half of a reset request: read the account, check cooldown and quota. */
    method PrepareReset(now: int)
      modifies this`requests
      ensures Contents() == RequestRead(old(Contents()), now)
    {
      if emission.lastSentAt.Some? && now - emission.lastSentAt.value < COOLDOWN_MS { return; }
      var windowStartedAt := emission.windowStartedAt;
      var sendCount := if emission.sendCount.Some? then emission.sendCount.value else 0;
      if windowStartedAt.None? || now - windowStartedAt.value >= WINDOW_MS {
        windowStartedAt := Some(now);
        sendCount := 0;
      }
      if sendCount >= HOURLY_LIMIT { return; }
      requests := requests + [Prepared(now, emission, CurrentVersion(authVersion))];
    }

    /** Second half: one conditional write. */
    method InstallLink(i: nat) returns (installed: bool)
      requires i < |requests| && Reserve(requests[i].seen, requests[i].now).Some?
      modifies this`emission, this`log, this`resetLink, this`resetExpiresAt
      ensures installed == Installs(old(Contents()), i)
      ensures Contents() == LinkWritten(old(Contents()), i)
    {
      var request := requests[i];
      if request.seen.lastSentAt != emission.lastSentAt || !FilterMatches(request.version, authVersion) {
        return false;
      }
      emission := Reserve(request.seen, request.now).value;
      log := Extended(log, Window(request.now, emission.sendCount.value), request.now);
      resetLink := Some(i);
      resetExpiresAt := request.now + PASSWORD_RESET_TTL_MS;
      installed := true;
    }

    method FindLink(link: nat, newPassword: nat, now: int) returns (found: bool)
      modifies this`confirmations
      ensures found == LinkUsable(old(Contents()), link, now)
      ensures Contents() == ConfirmRead(old(Contents()), link, newPassword, now)
    {
      if resetLink != Some(link) || resetExpiresAt <= now { return false; }
      confirmations := confirmations + [Confirmation(link, now, CurrentVersion(authVersion), newPassword)];
      found := true;
    }

    method ReplacePassword(j: nat) returns (replaced: bool)
      requires j < |confirmations|
      modifies this
      ensures replaced == Resets(old(Contents()), j)
      ensures Contents() == ConfirmWritten(old(Contents()), j)
    {
      var c := confirmations[j];
      if resetLink != Some(c.link) || resetExpiresAt <= c.now || !FilterMatches(c.version, authVersion) {
        return false;
      }
      password := c.password;
      authVersion := Integer(c.version + 1);
      resetLink := None;
      resets, passwords := resets + [c.link], passwords + [c.password];
      replaced := true;
    }

    method Verify(candidate: nat) returns (valid: bool)
      modifies this`logins
      ensures valid == (candidate == password)
      ensures Contents() == CredentialsVerified(old(Contents()), candidate)
    {
      valid := candidate == password;
      if valid { logins := logins + [Login(CurrentVersion(authVersion), password)]; }
    }

    method SignLogin(k: nat, active: bool)
      requires k < |logins|
      modifies this`tokens
      ensures Contents() == LoginSigned(old(Contents()), k, active)
    {
      tokens := tokens + [Token(logins[k].version, if active then App else SubscriptionLimited, k)];
    }

    method Present(t: nat) returns (accepted: bool)
      modifies this`derivations
      ensures accepted == Accepts(old(Contents()), t)
      ensures Contents() == Presented(old(Contents()), t)
    {
      accepted := t < |tokens| && IsSessionCurrent(Integer(tokens[t].version), authVersion);
      if accepted { derivations := derivations + [Derivation(t, false)]; }
    }

    /** `assertSessionVersion`, after every other read of the request. */
    method AssertVersion(d: nat) returns (current: bool)
      requires d < |derivations|
      modifies this`derivations
      ensures current == Accepts(old(Contents()), old(derivations[d].token))
      ensures Contents() == VersionChecked(old(Contents()), d)
    {
      var t := derivations[d].token;
      current := t < |tokens| && IsSessionCurrent(Integer(tokens[t].version), authVersion);
      if current { derivations := derivations[d := Derivation(t, true)]; }
    }

    method Derive(d: nat, active: bool)
      requires d < |derivations| && derivations[d].token < |tokens|
      modifies this`tokens
      ensures Contents() == DerivedSigned(old(Contents()), d, active)
    {
      var t := tokens[derivations[d].token];
      if !derivations[d].checked || (t.scope.SubscriptionLimited? && !active) { return; }
      tokens := tokens + [Token(t.version, if active then App else SubscriptionLimited, t.login)];
    }
  }
}
