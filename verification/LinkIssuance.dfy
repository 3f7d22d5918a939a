/**
 * Reservation of an emailed link, shared by the password reset and the email verification: a request
 * reads the account, checks cooldown and hourly quota against its own clock reading, then writes only
 * if the last emission is still the one it read. Requests interleave freely between the two steps.
 */
module LinkIssuance {
  import opened Options
  import opened FixedWindow

  const COOLDOWN_MS := 60_000
  const WINDOW_MS := 3_600_000
  const HOURLY_LIMIT: nat := 5

  /** The three reservation fields of the account; absent until the first emission. */
  datatype Emission = Emission(lastSentAt: Option<int>, windowStartedAt: Option<int>, sendCount: Option<nat>)

  const NEVER_SENT := Emission(None, None, None)

  /** The fields to write, or `None` when the cooldown or the quota refuses. */
  function Reserve(e: Emission, now: int): Option<Emission> {
    if e.lastSentAt.Some? && now - e.lastSentAt.value < COOLDOWN_MS then None
    else
      var restart := e.windowStartedAt.None? || now - e.windowStartedAt.value >= WINDOW_MS;
      var startedAt := if restart then now else e.windowStartedAt.value;
      var count := if restart || e.sendCount.None? then 0 else e.sendCount.value;
      if count >= HOURLY_LIMIT then None
      else Some(Emission(Some(now), Some(startedAt), Some(count + 1)))
  }

  /** A request between its read and its write: its clock, what it read, the session version it read. */
  datatype Prepared = Prepared(now: int, seen: Emission, version: nat)

  /** The reservation fields, every request that passed its checks, and the emissions so far. */
  datatype Desk = Desk(emission: Emission, requests: seq<Prepared>, log: Log)

  const NEW_DESK := Desk(NEVER_SENT, [], EMPTY_LOG)

  function PrepareLink(d: Desk, now: int, version: nat): Desk {
    if Reserve(d.emission, now).Some?
    then d.(requests := d.requests + [Prepared(now, d.emission, version)]) else d
  }

  /** The condition of the write: the last emission is the one the request read. */
  predicate Unmoved(d: Desk, i: nat) {
    i < |d.requests| && d.requests[i].seen.lastSentAt == d.emission.lastSentAt
  }

  function CommitLink(d: Desk, i: nat): Desk {
    if Unmoved(d, i) && Reserve(d.requests[i].seen, d.requests[i].now).Some? then
      var written := Reserve(d.requests[i].seen, d.requests[i].now).value;
      d.(emission := written,
         log := Extended(d.log, Window(d.requests[i].now, written.sendCount.value), d.requests[i].now))
    else d
  }

  // ----- What every interleaving keeps -----

  function WindowOf(e: Emission): Option<Window> {
    if e.windowStartedAt.Some? && e.sendCount.Some?
    then Some(Window(e.windowStartedAt.value, e.sendCount.value)) else None
  }

  /** No emission is earlier than what any request read. */
  predicate ReadInThePast(seen: Emission, current: Emission) {
    seen.lastSentAt.None? || (current.lastSentAt.Some? && seen.lastSentAt.value <= current.lastSentAt.value)
  }

  ghost predicate Spaced(times: seq<int>) {
    forall i, j :: 0 <= i < j < |times| ==> times[j] - times[i] >= COOLDOWN_MS
  }

  ghost predicate FieldsMatchLog(e: Emission, log: Log) {
    var n := |log.times|;
    && (n == 0 ==> e == NEVER_SENT)
    && (n > 0 ==>
          && e.lastSentAt == Some(log.times[n - 1])
          && WindowOf(e).Some?
          && Tracks(WindowOf(e), log, log.times[n - 1], WINDOW_MS))
  }

  ghost predicate DeskKept(d: Desk) {
    && Kept(d.log, WINDOW_MS, HOURLY_LIMIT)
    && Spaced(d.log.times)
    && FieldsMatchLog(d.emission, d.log)
    && forall i: nat :: i < |d.requests| ==>
         && ReadInThePast(d.requests[i].seen, d.emission)
         && (Unmoved(d, i) ==> d.requests[i].seen == d.emission)
         && Reserve(d.requests[i].seen, d.requests[i].now).Some?
  }

  lemma PrepareKeeps(d: Desk, now: int, version: nat)
    requires DeskKept(d)
    ensures DeskKept(PrepareLink(d, now, version))
  {}

  /** A reservation is an admission of the window scheme, a cooldown after the last emission. */
  lemma ReserveAdmits(e: Emission, log: Log, now: int)
    requires Kept(log, WINDOW_MS, HOURLY_LIMIT) && FieldsMatchLog(e, log) && Reserve(e, now).Some?
    ensures var written := Reserve(e, now).value; var w := WindowOf(written);
            && w.Some? && written.lastSentAt == Some(now)
            && Admit(WindowOf(e), now, WINDOW_MS, HOURLY_LIMIT) == w
            && (|log.times| > 0 ==> now >= log.times[|log.times| - 1] + COOLDOWN_MS)
            && Kept(Extended(log, w.value, now), WINDOW_MS, HOURLY_LIMIT)
            && Tracks(w, Extended(log, w.value, now), now, WINDOW_MS)
  {
    var n := |log.times|;
    assert |log.heads| == n;
    hide Kept;
    AdmitKeeps(WindowOf(e), log, if n > 0 then log.times[n - 1] else now, now, WINDOW_MS, HOURLY_LIMIT);
  }

  lemma CommitKeeps(d: Desk, i: nat)
    requires DeskKept(d)
    ensures DeskKept(CommitLink(d, i))
    ensures CommitLink(d, i) != d ==>
            && Unmoved(d, i) && d.requests[i].seen == d.emission
            && CommitLink(d, i).emission.lastSentAt == Some(d.requests[i].now)
            && (d.emission.lastSentAt.Some? ==> d.emission.lastSentAt.value + COOLDOWN_MS <= d.requests[i].now)
    ensures Unmoved(d, i) ==> !Unmoved(CommitLink(d, i), i)
  {
    if Unmoved(d, i) {
      var now := d.requests[i].now;
      assert d.requests[i].seen == d.emission;
      ReserveAdmits(d.emission, d.log, now);
      var c := CommitLink(d, i);
      var n := |d.log.times|;
      assert Spaced(c.log.times) by {
        forall j, k | 0 <= j < k < n + 1 ensures c.log.times[k] - c.log.times[j] >= COOLDOWN_MS {
          if k == n && j < n - 1 { assert d.log.times[n - 1] - d.log.times[j] >= COOLDOWN_MS; }
        }
      }
    }
  }

  /** Once a request has written, or another has, it never writes again. */
  lemma MovedForGood(d: Desk, i: nat, k: nat)
    requires DeskKept(d) && i < |d.requests| && !Unmoved(d, i)
    ensures !Unmoved(CommitLink(d, k), i)
  {
    CommitKeeps(d, k);
  }

  /**
   * A request passes its checks exactly when nothing was emitted yet, or the last emission is a minute
   * old and either the window it is in is an hour old or fewer than five were emitted in it.
   */
  lemma AdmittedExactly(d: Desk, now: int, version: nat)
    requires DeskKept(d)
    ensures var n := |d.log.times|; var admitted := d.(requests := d.requests + [Prepared(now, d.emission, version)]);
            && |d.log.heads| == n && (n > 0 ==> d.log.heads[n - 1] < n)
            && PrepareLink(d, now, version) ==
                 if n == 0 || (now >= d.log.times[n - 1] + 60_000
                               && (now >= d.log.times[d.log.heads[n - 1]] + 3_600_000 || n - d.log.heads[n - 1] < 5))
                 then admitted else d
  {
    var n := |d.log.times|;
    if n > 0 && now >= d.log.times[n - 1] + 60_000 {
      hide Kept;
      AdmitsExactly(WindowOf(d.emission), d.log, d.log.times[n - 1], now, WINDOW_MS, HOURLY_LIMIT);
    }
  }

  /**
   * A request that passed its checks writes exactly when nothing was emitted since it read; the emission
   * is then dated with the request's clock, and every request stays as it was.
   */
  lemma WrittenExactly(d: Desk, i: nat)
    requires DeskKept(d)
    ensures var c := CommitLink(d, i);
            && c.requests == d.requests
            && (c != d <==> i < |d.requests| && d.requests[i].seen.lastSentAt == d.emission.lastSentAt)
            && (c != d ==> c.emission.lastSentAt == Some(d.requests[i].now) && c.log.times == d.log.times + [d.requests[i].now])
  {
    CommitKeeps(d, i);
  }

  // ----- Runs of the reservation alone -----

  datatype Move = Read(now: int) | Write(request: nat)

  function Moved(d: Desk, m: Move): Desk {
    match m
    case Read(now) => PrepareLink(d, now, 0)
    case Write(i) => CommitLink(d, i)
  }

  function Moves(moves: seq<Move>): Desk {
    if |moves| == 0 then NEW_DESK else Moved(Moves(moves[..|moves| - 1]), moves[|moves| - 1])
  }

  lemma {:induction false} MovesKeep(moves: seq<Move>)
    ensures DeskKept(Moves(moves))
  {
    if |moves| > 0 {
      MovesKeep(moves[..|moves| - 1]);
      var d := Moves(moves[..|moves| - 1]);
      match moves[|moves| - 1]
      case Read(now) => PrepareKeeps(d, now, 0);
      case Write(i) => CommitKeeps(d, i);
    }
  }

  /**
   * Emissions of one account under every interleaving of concurrent requests: a minute apart at
   * least, at most five in a window, at most nine in any hour.
   */
  lemma EmissionsAreBounded(d: Desk, from: int)
    requires DeskKept(d)
    ensures Spaced(d.log.times)
    ensures forall i: nat, j: nat :: i <= j < |d.log.heads| && d.log.heads[i] == d.log.heads[j] ==>
              j - i + 1 <= HOURLY_LIMIT && d.log.times[j] - d.log.times[i] < WINDOW_MS
    ensures CountIn(d.log.times, from, from + WINDOW_MS) <= 2 * HOURLY_LIMIT - 1
  {
    forall i: nat, j: nat | i <= j < |d.log.heads| && d.log.heads[i] == d.log.heads[j]
      ensures j - i + 1 <= HOURLY_LIMIT && d.log.times[j] - d.log.times[i] < WINDOW_MS
    {
      WindowHolds(d.log, WINDOW_MS, HOURLY_LIMIT, i, j);
    }
    AnyInterval(d.log, WINDOW_MS, HOURLY_LIMIT, from);
  }

  /**
   * When "five per sliding hour" does hold: of the emissions so far, exactly when each came an hour
   * after the fifth before it.
   */
  lemma SlidingHourExactly(d: Desk)
    requires DeskKept(d)
    ensures Sliding(d.log.times, WINDOW_MS, HOURLY_LIMIT) <==> SpreadOut(d.log.times, WINDOW_MS, HOURLY_LIMIT)
  {
    SlidingExactly(d.log.times, WINDOW_MS, HOURLY_LIMIT);
  }

  /**
   * And of one more emission: it keeps the sliding limit exactly when the fifth-last emission is at
   * least an hour old, which can be told before the write.
   */
  lemma SlidingHourAfterCommit(d: Desk, i: nat)
    requires DeskKept(d) && CommitLink(d, i) != d && Sliding(d.log.times, WINDOW_MS, HOURLY_LIMIT)
    ensures var n := |d.log.times|;
            Sliding(CommitLink(d, i).log.times, WINDOW_MS, HOURLY_LIMIT) <==>
            n < HOURLY_LIMIT || d.requests[i].now - d.log.times[n - HOURLY_LIMIT] >= WINDOW_MS
  {
    CommitKeeps(d, i);
    assert CommitLink(d, i).log.times == d.log.times + [d.requests[i].now];
    hide CommitLink, Sliding;
    SlidingAfterOneMore(d.log.times, d.requests[i].now, WINDOW_MS, HOURLY_LIMIT);
  }

  /** Requests at these times, each writing before the next reads. */
  function Sequential(times: seq<int>): seq<Move> {
    if |times| == 0 then []
    else Sequential(times[..|times| - 1]) + [Read(times[|times| - 1]), Write(|times| - 1)]
  }

  /** One more request served after these: it is logged, and counted in [from, from + an hour) if inside. */
  lemma ServeOne(times: seq<int>, now: int, e: Emission, from: int)
    requires Moves(Sequential(times)).emission == e && Reserve(e, now).Some?
    requires |Moves(Sequential(times)).requests| == |times|
    ensures var before := Moves(Sequential(times)); var after := Moves(Sequential(times + [now]));
            && after.emission == Reserve(e, now).value
            && |after.requests| == |times| + 1
            && CountIn(after.log.times, from, from + WINDOW_MS)
                 == CountIn(before.log.times, from, from + WINDOW_MS)
                    + if from <= now < from + WINDOW_MS then 1 else 0
  {
    var before := Sequential(times);
    var all := Sequential(times + [now]);
    assert (times + [now])[..|times|] == times;
    assert all == before + [Read(now), Write(|times|)];
    assert all[..|all| - 1] == before + [Read(now)];
    assert (before + [Read(now)])[..|before|] == before;
    var logged := Moves(before).log.times;
    assert (logged + [now])[..|logged|] == logged;
  }

  lemma NothingServed(from: int)
    ensures Moves(Sequential([])) == NEW_DESK && CountIn(NEW_DESK.log.times, from, from + WINDOW_MS) == 0
  {}

  /** Ten requests: one at noon, then one a minute from 12:56 to 13:04. */
  const TEN_REQUESTS: seq<int> := [0, 3_360_000, 3_420_000, 3_480_000, 3_540_000,
                                   3_600_000, 3_660_000, 3_720_000, 3_780_000, 3_840_000]

  /**
   * The window is not a sliding one: nine of these ten requests are served within one hour, so five
   * per sliding hour does not hold, and the bound of nine cannot be improved.
   */
  lemma NineInOneHour()
    ensures CountIn(Moves(Sequential(TEN_REQUESTS)).log.times, 3_360_000, 3_360_000 + WINDOW_MS)
              == 2 * HOURLY_LIMIT - 1
  {
    var from := 3_360_000;
    var e := NEVER_SENT;
    var served: seq<int> := [];
    NothingServed(from);
    hide Moves, Sequential, CountIn;
    for k := 0 to 10
      invariant served == TEN_REQUESTS[..k]
      invariant Moves(Sequential(served)).emission == e && |Moves(Sequential(served)).requests| == k
      invariant CountIn(Moves(Sequential(served)).log.times, from, from + WINDOW_MS) == if k == 0 then 0 else k - 1
      invariant k == 0 ==> e == NEVER_SENT
      invariant 0 < k <= 5 ==> e == Emission(Some(TEN_REQUESTS[k - 1]), Some(0), Some(k))
      invariant 5 < k ==> e == Emission(Some(TEN_REQUESTS[k - 1]), Some(3_600_000), Some(k - 5))
    {
      ServeOne(served, TEN_REQUESTS[k], e, from);
      e := Reserve(e, TEN_REQUESTS[k]).value;
      served := served + [TEN_REQUESTS[k]];
    }
    assert served == TEN_REQUESTS;
  }
}
