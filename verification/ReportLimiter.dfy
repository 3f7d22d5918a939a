/**
 * Protection of the monthly report generation: a quota per account and shop counted in restarting
 * windows, and a bound on simultaneous generations, overall and per shop.
 */
module ReportLimiter {
  import opened Options
  import opened FixedWindow

  datatype Limits = Limits(
    windowMs: nat, maxPerWindow: nat, maxActiveGlobal: nat, maxActivePerOrganization: nat,
    busyRetryAfterSeconds: nat)

  const REPORT_GENERATION_LIMITS := Limits(600_000, 20, 3, 2, 10)

  datatype Key = Key(userId: string, organizationId: string)

  /** What a release closure captured: the shop of its slot, and whether it has been called. */
  datatype Slot = Slot(organizationId: string, released: bool)

  datatype Decision =
    | Admitted(slot: nat)
    | RateLimited(retryAfterSeconds: int)
    | Busy(retryAfterSeconds: int)

  datatype State = State(
    windows: map<Key, Window>, activeByOrganization: map<string, nat>, activeTotal: int, slots: seq<Slot>)

  const INITIAL := State(map[], map[], 0, [])

  function WindowOf(windows: map<Key, Window>, key: Key): Option<Window> {
    if key in windows then Some(windows[key]) else None
  }

  /** Expired windows are dropped. */
  function Pruned(windows: map<Key, Window>, now: int, windowMs: int): map<Key, Window> {
    map key | key in windows && now - windows[key].startedAt < windowMs :: windows[key]
  }

  function ActiveOf(s: State, organizationId: string): nat {
    if organizationId in s.activeByOrganization then s.activeByOrganization[organizationId] else 0
  }

  /** Whole seconds until the window closes, rounded up, one at least. */
  function SecondsLeft(w: Window, now: int, windowMs: int): int {
    var left := w.startedAt + windowMs - now;
    var seconds := (left + 999) / 1000;
    if seconds > 1 then seconds else 1
  }

  function Acquired(l: Limits, s: State, key: Key, now: int): (State, Decision) {
    var p := s.(windows := Pruned(s.windows, now, l.windowMs));
    var window := WindowOf(p.windows, key);
    if window.Some? && window.value.count >= l.maxPerWindow then
      (p, RateLimited(SecondsLeft(window.value, now, l.windowMs)))
    else if p.activeTotal >= l.maxActiveGlobal || ActiveOf(p, key.organizationId) >= l.maxActivePerOrganization then
      (p, Busy(l.busyRetryAfterSeconds))
    else
      (State(
         p.windows[key := if window.Some? then window.value.(count := window.value.count + 1) else Window(now, 1)],
         p.activeByOrganization[key.organizationId := ActiveOf(p, key.organizationId) + 1],
         p.activeTotal + 1,
         p.slots + [Slot(key.organizationId, false)]),
       Admitted(|p.slots|))
  }

  /** Calling a release closure; the second and later calls do nothing. */
  function Released(s: State, slot: nat): State {
    if slot >= |s.slots| || s.slots[slot].released then s
    else
      var organizationId := s.slots[slot].organizationId;
      var held: int := if organizationId in s.activeByOrganization then s.activeByOrganization[organizationId] else 1;
      var left := held - 1;
      State(
        s.windows,
        if left > 0 then s.activeByOrganization[organizationId := left]
        else s.activeByOrganization - {organizationId},
        s.activeTotal - 1,
        s.slots[slot := s.slots[slot].(released := true)])
  }

  // ----- Slots -----

  /** The shops of the generations under way, one occurrence per slot held. */
  function Live(slots: seq<Slot>): multiset<string> {
    if |slots| == 0 then multiset{}
    else
      var last := slots[|slots| - 1];
      Live(slots[..|slots| - 1]) + (if last.released then multiset{} else multiset{last.organizationId})
  }

  /**
   * The counters are the slots: the total is their number, each shop's counter is the number of its
   * slots, and a shop without a slot has no counter at all.
   */
  ghost predicate CountersAreSlots(s: State) {
    && s.activeTotal == |Live(s.slots)|
    && (forall o :: o in s.activeByOrganization <==> o in Live(s.slots))
    && (forall o :: o in s.activeByOrganization ==> s.activeByOrganization[o] == Live(s.slots)[o])
  }

  ghost predicate WithinBounds(l: Limits, s: State) {
    && s.activeTotal <= l.maxActiveGlobal
    && forall o :: o in s.activeByOrganization ==> 0 < s.activeByOrganization[o] <= l.maxActivePerOrganization
  }

  lemma {:induction false} LiveAfterRelease(slots: seq<Slot>, k: nat)
    requires k < |slots| && !slots[k].released
    ensures Live(slots) == Live(slots[k := slots[k].(released := true)]) + multiset{slots[k].organizationId}
  {
    var n := |slots|;
    var after := slots[k := slots[k].(released := true)];
    if k == n - 1 {
      assert after[..n - 1] == slots[..n - 1];
    } else {
      LiveAfterRelease(slots[..n - 1], k);
      assert after[..n - 1] == slots[..n - 1][k := slots[k].(released := true)];
    }
  }

  lemma LiveOneMore(slots: seq<Slot>, organizationId: string)
    ensures Live(slots + [Slot(organizationId, false)]) == Live(slots) + multiset{organizationId}
  {
    assert (slots + [Slot(organizationId, false)])[..|slots|] == slots;
  }

  function OneMore(counts: map<string, nat>, o: string): map<string, nat> {
    counts[o := (if o in counts then counts[o] else 0) + 1]
  }

  lemma CountOneMore(counts: map<string, nat>, live: multiset<string>, o: string)
    requires forall x :: x in counts <==> x in live
    requires forall x :: x in counts ==> counts[x] == live[x]
    ensures forall x :: x in OneMore(counts, o) <==> x in live + multiset{o}
    ensures forall x :: x in OneMore(counts, o) ==> OneMore(counts, o)[x] == (live + multiset{o})[x]
  {}

  lemma AcquireKeeps(l: Limits, s: State, key: Key, now: int)
    requires CountersAreSlots(s) && WithinBounds(l, s)
    ensures CountersAreSlots(Acquired(l, s, key, now).0) && WithinBounds(l, Acquired(l, s, key, now).0)
  {
    hide Live, Pruned, WindowOf, SecondsLeft;
    var (t, decision) := Acquired(l, s, key, now);
    if decision.Admitted? {
      LiveOneMore(s.slots, key.organizationId);
      CountOneMore(s.activeByOrganization, Live(s.slots), key.organizationId);
      assert t.activeByOrganization == OneMore(s.activeByOrganization, key.organizationId);
    }
  }

  lemma ReleaseKeeps(l: Limits, s: State, slot: nat)
    requires CountersAreSlots(s) && WithinBounds(l, s)
    ensures CountersAreSlots(Released(s, slot)) && WithinBounds(l, Released(s, slot))
    ensures Released(Released(s, slot), slot) == Released(s, slot)
  {
    hide Live;
    if slot < |s.slots| && !s.slots[slot].released {
      LiveAfterRelease(s.slots, slot);
      assert s.slots[slot].organizationId in Live(s.slots);
    }
  }

  /** A refused request consumes nothing: no slot, no counter, no quota; it only forgets expired windows. */
  lemma RefusalConsumesNothing(l: Limits, s: State, key: Key, now: int)
    requires !Acquired(l, s, key, now).1.Admitted?
    ensures Acquired(l, s, key, now).0 == s.(windows := Pruned(s.windows, now, l.windowMs))
    ensures forall k :: Current(WindowOf(s.windows, k), now, l.windowMs)
                     == WindowOf(Acquired(l, s, key, now).0.windows, k)
  {}

  /** Why a request is refused: its quota is used up, else no slot is free; both are counted in slots. */
  lemma DecisionMeaning(l: Limits, s: State, key: Key, now: int)
    requires CountersAreSlots(s)
    ensures var d := Acquired(l, s, key, now).1; var quota := Admit(WindowOf(s.windows, key), now, l.windowMs, l.maxPerWindow);
            var full := |Live(s.slots)| >= l.maxActiveGlobal
                     || Live(s.slots)[key.organizationId] >= l.maxActivePerOrganization;
            && (d.RateLimited? <==> quota.None?)
            && (d.Busy? <==> quota.Some? && full)
            && (d.Busy? ==> d.retryAfterSeconds == l.busyRetryAfterSeconds)
            && (d.Admitted? ==>
                  && d.slot == |s.slots|
                  && WindowOf(Acquired(l, s, key, now).0.windows, key) == quota)
  {}

  /**
   * The advertised delay outlives the window that refused: once it has elapsed the window is expired,
   * and a delay one second shorter would not do (unless the delay is the minimum of one second).
   */
  lemma RetryAfterOutlivesWindow(l: Limits, s: State, key: Key, now: int, later: int)
    requires Acquired(l, s, key, now).1.RateLimited?
    requires later >= now + 1000 * Acquired(l, s, key, now).1.retryAfterSeconds
    ensures key !in Pruned(s.windows, later, l.windowMs)
    ensures Acquired(l, s, key, now).1.retryAfterSeconds >= 1
    ensures Acquired(l, s, key, now).1.retryAfterSeconds > 1 ==>
            key in Pruned(s.windows, now + 1000 * (Acquired(l, s, key, now).1.retryAfterSeconds - 1), l.windowMs)
  {}

  // ----- Runs -----

  datatype Call = AcquireCall(key: Key, at: int) | ReleaseCall(slot: nat)

  /** The limiter, the time of its last request, and the admitted events of each key. */
  datatype Run = Run(state: State, clock: int, logs: map<Key, Log>)

  function LogOf(logs: map<Key, Log>, key: Key): Log {
    if key in logs then logs[key] else EMPTY_LOG
  }

  /** The clock never goes back: a request is dated no earlier than the one before it. */
  function Date(r: Run, at: int): int {
    if at < r.clock then r.clock else at
  }

  function Perform(l: Limits, r: Run, call: Call): Run {
    match call
    case ReleaseCall(slot) => r.(state := Released(r.state, slot))
    case AcquireCall(key, at) =>
      var now := Date(r, at);
      var (state, decision) := Acquired(l, r.state, key, now);
      Run(state, now,
        if decision.Admitted? && key in state.windows
        then r.logs[key := Extended(LogOf(r.logs, key), state.windows[key], now)] else r.logs)
  }

  function PerformAll(l: Limits, start: int, calls: seq<Call>): Run {
    if |calls| == 0 then Run(INITIAL, start, map[])
    else Perform(l, PerformAll(l, start, calls[..|calls| - 1]), calls[|calls| - 1])
  }

  ghost predicate LogsKept(l: Limits, r: Run) {
    forall key :: Kept(LogOf(r.logs, key), l.windowMs, l.maxPerWindow)
               && Tracks(WindowOf(r.state.windows, key), LogOf(r.logs, key), r.clock, l.windowMs)
  }

  lemma KeyKeepsLog(l: Limits, r: Run, call: Call, key: Key)
    requires l.windowMs > 0 && l.maxPerWindow >= 1 && call.AcquireCall?
    requires Kept(LogOf(r.logs, key), l.windowMs, l.maxPerWindow)
    requires Tracks(WindowOf(r.state.windows, key), LogOf(r.logs, key), r.clock, l.windowMs)
    ensures var after := Perform(l, r, call);
            && Kept(LogOf(after.logs, key), l.windowMs, l.maxPerWindow)
            && Tracks(WindowOf(after.state.windows, key), LogOf(after.logs, key), after.clock, l.windowMs)
  {
    hide Kept, Tracks;
    var now := Date(r, call.at);
    var w := WindowOf(r.state.windows, key);
    if key == call.key && Acquired(l, r.state, key, now).1.Admitted? {
      AdmitKeeps(w, LogOf(r.logs, key), r.clock, now, l.windowMs, l.maxPerWindow);
    } else {
      WaitKeeps(w, LogOf(r.logs, key), r.clock, now, l.windowMs, l.maxPerWindow);
    }
  }

  lemma PerformKeepsLogs(l: Limits, r: Run, call: Call)
    requires l.windowMs > 0 && l.maxPerWindow >= 1 && LogsKept(l, r)
    ensures LogsKept(l, Perform(l, r, call))
  {
    hide Kept, Tracks;
    if call.AcquireCall? {
      forall key
        ensures Kept(LogOf(Perform(l, r, call).logs, key), l.windowMs, l.maxPerWindow)
        ensures Tracks(WindowOf(Perform(l, r, call).state.windows, key), LogOf(Perform(l, r, call).logs, key),
                       Perform(l, r, call).clock, l.windowMs)
      {
        KeyKeepsLog(l, r, call, key);
      }
    }
  }

  /**
   * Any sequence of requests and releases, repeated and reordered: the counters are the slots held,
   * within both bounds; every key's admitted events fit their windows.
   */
  lemma {:induction false} LimiterHolds(l: Limits, start: int, calls: seq<Call>)
    requires l.windowMs > 0 && l.maxPerWindow >= 1
    ensures CountersAreSlots(PerformAll(l, start, calls).state)
    ensures WithinBounds(l, PerformAll(l, start, calls).state)
    ensures LogsKept(l, PerformAll(l, start, calls))
  {
    if |calls| > 0 {
      var r := PerformAll(l, start, calls[..|calls| - 1]);
      var call := calls[|calls| - 1];
      LimiterHolds(l, start, calls[..|calls| - 1]);
      PerformKeepsLogs(l, r, call);
      match call
      case AcquireCall(key, at) => AcquireKeeps(l, r.state, key, Date(r, at));
      case ReleaseCall(slot) => ReleaseKeeps(l, r.state, slot);
    }
  }

  /** With the production limits: any ten minutes admit at most 39 reports per account and shop. */
  lemma TenMinutes(start: int, calls: seq<Call>, key: Key, from: int)
    ensures CountIn(LogOf(PerformAll(REPORT_GENERATION_LIMITS, start, calls).logs, key).times,
                    from, from + 600_000) <= 39
  {
    LimiterHolds(REPORT_GENERATION_LIMITS, start, calls);
    AnyInterval(LogOf(PerformAll(REPORT_GENERATION_LIMITS, start, calls).logs, key), 600_000, 20, from);
  }

  // ----- What each call does under the production limits -----

  /** The reports an account was admitted for a shop: none yet, ten minutes over, or fewer than twenty. */
  ghost predicate QuotaLeft(log: Log, now: int)
    requires |log.times| == |log.heads| && (|log.heads| > 0 ==> log.heads[|log.heads| - 1] < |log.heads|)
  {
    var n := |log.times|;
    n == 0 || now >= log.times[log.heads[n - 1]] + 600_000 || n - log.heads[n - 1] < 20
  }

  /** Three generations are under way, or two for this shop. */
  ghost predicate SlotsFull(s: State, organizationId: string) {
    |Live(s.slots)| >= 3 || Live(s.slots)[organizationId] >= 2
  }

  /**
   * After any run a report is admitted exactly with quota left, fewer than three generations under way,
   * and fewer than two for its shop; a refusal says whether the quota or the slots refused.
   */
  lemma AdmittedExactly(start: int, calls: seq<Call>, key: Key, at: int)
    ensures var r := PerformAll(REPORT_GENERATION_LIMITS, start, calls); var now := Date(r, at);
            var log := LogOf(r.logs, key); var d := Acquired(REPORT_GENERATION_LIMITS, r.state, key, now).1;
            && now == (if at < r.clock then r.clock else at)
            && |log.times| == |log.heads| && (|log.heads| > 0 ==> log.heads[|log.heads| - 1] < |log.heads|)
            && (d.RateLimited? <==> !QuotaLeft(log, now))
            && (d.Admitted? <==> QuotaLeft(log, now) && !SlotsFull(r.state, key.organizationId))
            && (d.Busy? ==> d.retryAfterSeconds == 10)
  {
    hide PerformAll, QuotaLeft, SlotsFull, Acquired, LogsKept, CountersAreSlots, WithinBounds, Admit;
    var r := PerformAll(REPORT_GENERATION_LIMITS, start, calls);
    LimiterHolds(REPORT_GENERATION_LIMITS, start, calls);
    QuotaExactly(r, key, Date(r, at));
    ProductionDecision(r.state, key, Date(r, at));
  }

  lemma ProductionDecision(s: State, key: Key, now: int)
    requires CountersAreSlots(s)
    ensures var d := Acquired(REPORT_GENERATION_LIMITS, s, key, now).1;
            var quota := Admit(WindowOf(s.windows, key), now, 600_000, 20);
            && (d.RateLimited? <==> quota.None?)
            && (d.Admitted? <==> quota.Some? && !SlotsFull(s, key.organizationId))
            && (d.Busy? ==> d.retryAfterSeconds == 10)
  {
    DecisionMeaning(REPORT_GENERATION_LIMITS, s, key, now);
    hide Acquired, Admit, Live, CountersAreSlots;
  }

  lemma QuotaExactly(r: Run, key: Key, now: int)
    requires LogsKept(REPORT_GENERATION_LIMITS, r) && r.clock <= now
    ensures var log := LogOf(r.logs, key);
            && |log.times| == |log.heads| && (|log.heads| > 0 ==> log.heads[|log.heads| - 1] < |log.heads|)
            && (Admit(WindowOf(r.state.windows, key), now, 600_000, 20).Some? <==> QuotaLeft(log, now))
  {
    TracksShape(WindowOf(r.state.windows, key), LogOf(r.logs, key), r.clock, 600_000);
    hide Kept, Tracks;
    AdmitsExactly(WindowOf(r.state.windows, key), LogOf(r.logs, key), r.clock, now, 600_000, 20);
  }

  /** An admitted request takes a slot and is logged; a refused one takes nothing. */
  lemma AcquireEffect(l: Limits, r: Run, key: Key, at: int)
    ensures var now := Date(r, at); var d := Acquired(l, r.state, key, now).1; var after := Perform(l, r, AcquireCall(key, at));
            && after.clock == now
            && after.state.slots == (if d.Admitted? then r.state.slots + [Slot(key.organizationId, false)] else r.state.slots)
            && (forall k :: LogOf(after.logs, k).times ==
                              if k == key && d.Admitted? then LogOf(r.logs, k).times + [now] else LogOf(r.logs, k).times)
  {
    hide Pruned, SecondsLeft;
  }

  lemma TracksShape(w: Option<Window>, log: Log, clock: int, length: int)
    requires Tracks(w, log, clock, length)
    ensures |log.heads| == |log.times| && (|log.heads| > 0 ==> log.heads[|log.heads| - 1] < |log.heads|)
  {}

  /** Calling a release frees its slot, once, and touches nothing else. */
  lemma ReleaseEffect(l: Limits, r: Run, slot: nat)
    requires CountersAreSlots(r.state)
    ensures var after := Perform(l, r, ReleaseCall(slot)); var live := Live(r.state.slots);
            && after.clock == r.clock && after.logs == r.logs && after.state.windows == r.state.windows
            && if slot < |r.state.slots| && !r.state.slots[slot].released
               then && after.state.slots == r.state.slots[slot := r.state.slots[slot].(released := true)]
                    && Live(after.state.slots) == live - multiset{r.state.slots[slot].organizationId}
                    && |Live(after.state.slots)| == |live| - 1
               else after == r
  {
    if slot < |r.state.slots| && !r.state.slots[slot].released { LiveAfterRelease(r.state.slots, slot); }
    hide Live;
  }

  // ----- The service -----

  class ReportGenerationLimiter {
    const limits: Limits
    var windows: map<Key, Window>
    var activeByOrganization: map<string, nat>
    var activeTotal: int
    var slots: seq<Slot>

    ghost function Contents(): State
      reads this
    {
      State(windows, activeByOrganization, activeTotal, slots)
    }

    ghost predicate Valid()
      reads this
    {
      CountersAreSlots(Contents()) && WithinBounds(limits, Contents())
    }

    constructor (limits: Limits)
      ensures this.limits == limits && Contents() == INITIAL && Valid()
    {
      this.limits := limits;
      windows, activeByOrganization, activeTotal, slots := map[], map[], 0, [];
    }

    method Prune(now: int)
      modifies this`windows
      ensures windows == Pruned(old(windows), now, limits.windowMs)
    {
      var keys := windows.Keys;
      while keys != {}
        invariant keys <= old(windows).Keys
        invariant windows == map key | key in old(windows)
                    && (key in keys || now - old(windows)[key].startedAt < limits.windowMs) :: old(windows)[key]
        decreases keys
      {
        var key :| key in keys;
        if now - windows[key].startedAt >= limits.windowMs {
          windows := windows - {key};
        }
        keys := keys - {key};
      }
    }

    method Acquire(key: Key, now: int) returns (decision: Decision)
      requires Valid()
      modifies this
      ensures Valid()
      ensures (Contents(), decision) == Acquired(limits, old(Contents()), key, now)
    {
      hide CountersAreSlots, WithinBounds;
      AcquireKeeps(limits, Contents(), key, now);
      Prune(now);
      if key in windows && windows[key].count >= limits.maxPerWindow {
        return RateLimited(SecondsLeft(windows[key], now, limits.windowMs));
      }
      var active := if key.organizationId in activeByOrganization then activeByOrganization[key.organizationId] else 0;
      if activeTotal >= limits.maxActiveGlobal || active >= limits.maxActivePerOrganization {
        return Busy(limits.busyRetryAfterSeconds);
      }
      if key in windows {
        windows := windows[key := Window(windows[key].startedAt, windows[key].count + 1)];
      } else {
        windows := windows[key := Window(now, 1)];
      }
      activeTotal := activeTotal + 1;
      activeByOrganization := activeByOrganization[key.organizationId := active + 1];
      slots := slots + [Slot(key.organizationId, false)];
      decision := Admitted(|slots| - 1);
    }

    method Release(slot: nat)
      requires Valid() && slot < |slots|
      modifies this
      ensures Valid()
      ensures Contents() == Released(old(Contents()), slot)
    {
      hide CountersAreSlots, WithinBounds;
      ReleaseKeeps(limits, Contents(), slot);
      if slots[slot].released { return; }
      var organizationId := slots[slot].organizationId;
      slots := slots[slot := Slot(organizationId, true)];
      activeTotal := activeTotal - 1;
      var held: int := if organizationId in activeByOrganization then activeByOrganization[organizationId] else 1;
      var left := held - 1;
      if left > 0 {
        activeByOrganization := activeByOrganization[organizationId := left];
      } else {
        activeByOrganization := activeByOrganization - {organizationId};
      }
    }
  }
}
