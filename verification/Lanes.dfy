/**
 * Distribution of one lot by parallel lanes: each lane takes the next organisation off a shared queue
 * and handles its jobs one after the other. Steps of different lanes interleave freely.
 */
module Lanes {

  import opened BatchSelection

  // ----- Grouping -----

  /** Each organisation of the lot once; a group is its jobs in lot order. */
  ghost predicate Grouped(jobs: seq<Job>, orgs: seq<nat>) {
    && (forall i, j :: 0 <= i < j < |orgs| ==> orgs[i] != orgs[j])
    && (forall o :: o in orgs <==> o in Organizations(jobs))
  }

  /** The grouping loop: a map in order of first insertion. */
  method GroupByOrganization(jobs: seq<Job>) returns (orgs: seq<nat>, groups: map<nat, seq<Job>>)
    ensures Grouped(jobs, orgs)
    ensures forall o :: o in groups <==> o in orgs
    ensures forall o :: o in groups ==> groups[o] == OfOrg(jobs, o)
  {
    hide OfOrg;
    orgs, groups := [], map[];
    OfOrgEmpty();
    assert jobs[..0] == [];
    for n := 0 to |jobs|
      invariant Grouped(jobs[..n], orgs)
      invariant Filled(jobs[..n], orgs, groups)
    {
      assert jobs[..n + 1] == jobs[..n] + [jobs[n]];
      GroupedOneMore(jobs[..n], jobs[n], orgs);
      FilledOneMore(jobs[..n], jobs[n], orgs, groups);
      hide Grouped, Filled;
      var o := jobs[n].organization;
      if o !in groups {
        orgs := orgs + [o];
        groups := groups[o := []];
      }
      groups := groups[o := groups[o] + [jobs[n]]];
    }
    assert jobs[..|jobs|] == jobs;
  }

  ghost predicate Filled(jobs: seq<Job>, orgs: seq<nat>, groups: map<nat, seq<Job>>) {
    && (forall o :: o in groups <==> o in orgs)
    && (forall o :: OfOrg(jobs, o) == if o in groups then groups[o] else [])
  }

  lemma GroupedOneMore(jobs: seq<Job>, job: Job, orgs: seq<nat>)
    requires Grouped(jobs, orgs)
    ensures Grouped(jobs + [job], if job.organization in orgs then orgs else orgs + [job.organization])
  {
    OrganizationsOneMore(jobs, job);
    hide Organizations;
  }

  lemma FilledOneMore(jobs: seq<Job>, job: Job, orgs: seq<nat>, groups: map<nat, seq<Job>>)
    requires Filled(jobs, orgs, groups)
    ensures var o := job.organization;
            && (o in groups <==> o in orgs)
            && (o in groups ==> Filled(jobs + [job], orgs, groups[o := groups[o] + [job]]))
            && (o !in groups ==> Filled(jobs + [job], orgs + [o], groups[o := []][o := [] + [job]]))
  {
    hide OfOrg;
    forall x ensures OfOrg(jobs + [job], x) == if x == job.organization then OfOrg(jobs, x) + [job] else OfOrg(jobs, x) {
      OfOrgSnoc(jobs, job, x);
    }
  }

  lemma OrganizationsOneMore(jobs: seq<Job>, job: Job)
    ensures Organizations(jobs + [job]) == Organizations(jobs) + {job.organization}
  {
    assert job in jobs + [job];
    assert forall x :: x in jobs ==> x in jobs + [job];
  }

  // ----- Lanes -----

  datatype Lane =
    | Free
    | Between(group: nat, done: nat)
    | Busy(group: nat, done: nat)
    | Finished
    | Halted(group: nat, done: nat)
    | Failed(group: nat, done: nat)

  /** `taken` groups are off the queue; `log` lists the jobs handed to the dispatcher, in order. */
  datatype State = State(taken: nat, lanes: seq<Lane>, halting: bool, log: seq<Job>)

  datatype Step = Shift(lane: nat) | Begin(lane: nat) | Complete(lane: nat) | Throw(lane: nat) | Halt

  function Group(jobs: seq<Job>, orgs: seq<nat>, g: nat): seq<Job> {
    if g < |orgs| then OfOrg(jobs, orgs[g]) else []
  }

  function Start(orgs: seq<nat>, dispatchLanes: nat): State {
    var wanted := if dispatchLanes < |orgs| then dispatchLanes else |orgs|;
    State(0, seq(if wanted < 1 then 1 else wanted, (i: nat) => Free), false, [])
  }

  /** The lane has handled its whole group, or has none yet: it goes back to the queue. */
  predicate AtQueue(jobs: seq<Job>, orgs: seq<nat>, lane: Lane) {
    lane.Free? || (lane.Between? && lane.done >= |Group(jobs, orgs, lane.group)|)
  }

  function Next(jobs: seq<Job>, orgs: seq<nat>, s: State, step: Step): State {
    if step.Halt? then s.(halting := true)
    else if step.lane >= |s.lanes| then s
    else
      var lane := s.lanes[step.lane];
      match step
      case Shift(l) =>
        if !AtQueue(jobs, orgs, lane) then s
        else if s.taken < |orgs| then s.(taken := s.taken + 1, lanes := s.lanes[l := Between(s.taken, 0)])
        else s.(lanes := s.lanes[l := Finished])
      case Begin(l) =>
        if !lane.Between? || AtQueue(jobs, orgs, lane) then s
        else if s.halting then s.(lanes := s.lanes[l := Halted(lane.group, lane.done)])
        else s.(lanes := s.lanes[l := Busy(lane.group, lane.done + 1)],
                log := s.log + [Group(jobs, orgs, lane.group)[lane.done]])
      case Complete(l) =>
        if lane.Busy? then s.(lanes := s.lanes[l := Between(lane.group, lane.done)]) else s
      case Throw(l) =>
        if lane.Busy? then s.(lanes := s.lanes[l := Failed(lane.group, lane.done)]) else s
  }

  function Run(jobs: seq<Job>, orgs: seq<nat>, s: State, steps: seq<Step>): State {
    if |steps| == 0 then s else Next(jobs, orgs, Run(jobs, orgs, s, steps[..|steps| - 1]), steps[|steps| - 1])
  }

  predicate Holds(lane: Lane, g: nat) {
    (lane.Between? || lane.Busy? || lane.Halted? || lane.Failed?) && lane.group == g
  }

  ghost predicate HeldBy(s: State, i: nat, g: nat) {
    i < |s.lanes| && Holds(s.lanes[i], g)
  }

  ghost predicate Held(s: State, g: nat) {
    exists i: nat :: HeldBy(s, i, g)
  }

  /** What of a group has been handled so far. */
  ghost predicate Progress(jobs: seq<Job>, orgs: seq<nat>, s: State, g: nat)
    requires g < |orgs|
  {
    && (g >= s.taken ==> OfOrg(s.log, orgs[g]) == [] && !Held(s, g))
    && (forall i: nat :: HeldBy(s, i, g) ==>
          && s.lanes[i].done <= |Group(jobs, orgs, g)|
          && OfOrg(s.log, orgs[g]) == Group(jobs, orgs, g)[..s.lanes[i].done])
    && (g < s.taken && !Held(s, g) ==> OfOrg(s.log, orgs[g]) == Group(jobs, orgs, g))
  }

  ghost predicate Apart(s: State) {
    forall i: nat, j: nat, g: nat :: HeldBy(s, i, g) && HeldBy(s, j, g) ==> i == j
  }

  ghost predicate Ends(orgs: seq<nat>, s: State) {
    && (forall i :: 0 <= i < |s.lanes| && s.lanes[i].Finished? ==> s.taken == |orgs|)
    && (forall i :: 0 <= i < |s.lanes| && s.lanes[i].Halted? ==> s.halting)
  }

  ghost predicate Inv(jobs: seq<Job>, orgs: seq<nat>, s: State) {
    && s.taken <= |orgs| && Apart(s) && Ends(orgs, s)
    && (forall i: nat, g: nat :: HeldBy(s, i, g) ==> g < s.taken)
    && (forall g :: 0 <= g < |orgs| ==> Progress(jobs, orgs, s, g))
    && (forall job :: job in s.log ==> job.organization in orgs)
  }

  // ----- One step -----

  lemma GroupMembers(jobs: seq<Job>, orgs: seq<nat>, g: nat, k: nat)
    requires g < |orgs| && k < |Group(jobs, orgs, g)|
    ensures Group(jobs, orgs, g)[k].organization == orgs[g]
  {
    OfOrgMembers(jobs, orgs[g]);
    hide OfOrg;
    assert Group(jobs, orgs, g)[k] in OfOrg(jobs, orgs[g]);
  }

  /** A lane that keeps its group and its count changes no progress. */
  lemma SameHolding(jobs: seq<Job>, orgs: seq<nat>, s: State, l: nat, lane: Lane)
    requires Inv(jobs, orgs, s) && l < |s.lanes|
    requires forall g :: Holds(lane, g) <==> Holds(s.lanes[l], g)
    requires !lane.Free? && !lane.Finished? && !s.lanes[l].Free? && !s.lanes[l].Finished? && lane.done == s.lanes[l].done
    requires lane.Halted? ==> s.halting
    ensures Inv(jobs, orgs, s.(lanes := s.lanes[l := lane]))
  {
    hide OfOrg, Holds;
    var t := s.(lanes := s.lanes[l := lane]);
    forall i: nat, g: nat ensures HeldBy(t, i, g) <==> HeldBy(s, i, g) {}
    forall g: nat | g < |orgs| ensures Progress(jobs, orgs, t, g) {
      assert Progress(jobs, orgs, s, g);
      assert Held(t, g) <==> Held(s, g);
    }
  }

  /** A lane done with its group lets it go; it takes the next group or none. */
  lemma ShiftKeeps(jobs: seq<Job>, orgs: seq<nat>, s: State, l: nat)
    requires Inv(jobs, orgs, s) && l < |s.lanes| && AtQueue(jobs, orgs, s.lanes[l])
    ensures Inv(jobs, orgs, Next(jobs, orgs, s, Shift(l)))
  {
    hide OfOrg;
    var t := Next(jobs, orgs, s, Shift(l));
    var lane := s.lanes[l];
    forall i: nat, g: nat ensures HeldBy(t, i, g) <==> (i != l && HeldBy(s, i, g)) || (i == l && t.taken > s.taken && g == s.taken) {}
    forall g: nat | g < |orgs| ensures Progress(jobs, orgs, t, g) {
      assert Progress(jobs, orgs, s, g);
      if Holds(lane, g) {
        assert HeldBy(s, l, g);
        assert !Held(t, g);
        assert Group(jobs, orgs, g)[..lane.done] == Group(jobs, orgs, g);
      } else {
        assert Held(t, g) <==> Held(s, g) || (t.taken > s.taken && g == s.taken) by {
          if Held(s, g) {
            var i: nat :| HeldBy(s, i, g);
            assert HeldBy(t, i, g);
          }
          if t.taken > s.taken && g == s.taken { assert HeldBy(t, l, g); }
        }
      }
    }
  }

  lemma BeginKeeps(jobs: seq<Job>, orgs: seq<nat>, s: State, l: nat)
    requires Grouped(jobs, orgs) && Inv(jobs, orgs, s)
    requires l < |s.lanes| && s.lanes[l].Between? && !AtQueue(jobs, orgs, s.lanes[l]) && !s.halting
    ensures Inv(jobs, orgs, Next(jobs, orgs, s, Begin(l)))
  {
    hide OfOrg;
    var t := Next(jobs, orgs, s, Begin(l));
    var lane := s.lanes[l];
    assert HeldBy(s, l, lane.group);
    var job := Group(jobs, orgs, lane.group)[lane.done];
    GroupMembers(jobs, orgs, lane.group, lane.done);
    forall i: nat, g: nat ensures HeldBy(t, i, g) <==> HeldBy(s, i, g) {}
    forall g: nat | g < |orgs| ensures Progress(jobs, orgs, t, g) {
      assert Progress(jobs, orgs, s, g);
      assert Held(t, g) <==> Held(s, g);
      OfOrgSnoc(s.log, job, orgs[g]);
    }
  }

  lemma NextKeeps(jobs: seq<Job>, orgs: seq<nat>, s: State, step: Step)
    requires Grouped(jobs, orgs) && Inv(jobs, orgs, s)
    ensures Inv(jobs, orgs, Next(jobs, orgs, s, step))
  {
    if step.Halt? {
      HaltKeeps(jobs, orgs, s);
    } else if step.lane < |s.lanes| {
      var l, lane := step.lane, s.lanes[step.lane];
      hide Inv;
      match step
      case Shift(_) => if AtQueue(jobs, orgs, lane) { ShiftKeeps(jobs, orgs, s, l); }
      case Begin(_) =>
        if lane.Between? && !AtQueue(jobs, orgs, lane) {
          if s.halting { SameHolding(jobs, orgs, s, l, Halted(lane.group, lane.done)); }
          else { BeginKeeps(jobs, orgs, s, l); }
        }
      case Complete(_) => if lane.Busy? { SameHolding(jobs, orgs, s, l, Between(lane.group, lane.done)); }
      case Throw(_) => if lane.Busy? { SameHolding(jobs, orgs, s, l, Failed(lane.group, lane.done)); }
    }
  }

  lemma HaltKeeps(jobs: seq<Job>, orgs: seq<nat>, s: State)
    requires Inv(jobs, orgs, s)
    ensures Inv(jobs, orgs, s.(halting := true))
  {
    var t := s.(halting := true);
    hide OfOrg;
    forall i: nat, g: nat ensures HeldBy(t, i, g) <==> HeldBy(s, i, g) {}
    forall g: nat | g < |orgs| ensures Progress(jobs, orgs, t, g) {
      assert Progress(jobs, orgs, s, g);
      assert Held(t, g) <==> Held(s, g);
    }
  }

  lemma {:induction false} RunKeeps(jobs: seq<Job>, orgs: seq<nat>, dispatchLanes: nat, steps: seq<Step>)
    requires Grouped(jobs, orgs)
    ensures Inv(jobs, orgs, Run(jobs, orgs, Start(orgs, dispatchLanes), steps))
    ensures |Run(jobs, orgs, Start(orgs, dispatchLanes), steps).lanes| == |Start(orgs, dispatchLanes).lanes|
  {
    var s := Start(orgs, dispatchLanes);
    if |steps| > 0 {
      RunKeeps(jobs, orgs, dispatchLanes, steps[..|steps| - 1]);
      NextKeeps(jobs, orgs, Run(jobs, orgs, s, steps[..|steps| - 1]), steps[|steps| - 1]);
    } else {
      forall i: nat, g: nat ensures !HeldBy(s, i, g) {}
      OfOrgEmpty();
    }
  }

  // ----- Main results -----

  /** At any moment no two lanes work for one organisation. */
  lemma OneLanePerOrganization(jobs: seq<Job>, orgs: seq<nat>, dispatchLanes: nat, steps: seq<Step>, i: nat, j: nat, g: nat, h: nat)
    requires Grouped(jobs, orgs)
    requires var s := Run(jobs, orgs, Start(orgs, dispatchLanes), steps);
             i != j && HeldBy(s, i, g) && HeldBy(s, j, h)
    ensures g < |orgs| && h < |orgs| && orgs[g] != orgs[h]
  {
    RunKeeps(jobs, orgs, dispatchLanes, steps);
    var s := Run(jobs, orgs, Start(orgs, dispatchLanes), steps);
    assert g != h;
  }

  lemma {:induction false} NoneOfOrg(jobs: seq<Job>, o: nat)
    requires forall job :: job in jobs ==> job.organization != o
    ensures OfOrg(jobs, o) == []
  {
    if |jobs| > 0 {
      assert jobs[|jobs| - 1] in jobs;
      NoneOfOrg(jobs[..|jobs| - 1], o);
    }
  }

  lemma HandledPrefix(jobs: seq<Job>, orgs: seq<nat>, s: State, o: nat)
    requires Grouped(jobs, orgs) && Inv(jobs, orgs, s)
    ensures OfOrg(s.log, o) <= OfOrg(jobs, o)
  {
    hide OfOrg;
    if o in orgs {
      var g: nat :| g < |orgs| && orgs[g] == o;
      assert Progress(jobs, orgs, s, g);
      if Held(s, g) {
        var i: nat :| HeldBy(s, i, g);
      }
    } else {
      NoneOfOrg(s.log, o);
    }
  }

  /** At any moment each organisation's jobs were handled in lot order, each at most once. */
  lemma InOrderAtMostOnce(jobs: seq<Job>, orgs: seq<nat>, dispatchLanes: nat, steps: seq<Step>, o: nat)
    requires Grouped(jobs, orgs)
    ensures var log := Run(jobs, orgs, Start(orgs, dispatchLanes), steps).log;
            OfOrg(log, o) <= OfOrg(jobs, o) && multiset(log) <= multiset(jobs)
  {
    RunKeeps(jobs, orgs, dispatchLanes, steps);
    var s := Run(jobs, orgs, Start(orgs, dispatchLanes), steps);
    HandledPrefix(jobs, orgs, s, o);
    forall job ensures multiset(s.log)[job] <= multiset(jobs)[job] {
      HandledPrefix(jobs, orgs, s, job.organization);
      CountInOrg(s.log, job);
      CountInOrg(jobs, job);
      PrefixCounts(OfOrg(s.log, job.organization), OfOrg(jobs, job.organization), job);
    }
  }

  /** `Promise.allSettled`: every lane has come to an end. */
  ghost predicate Settled(s: State) {
    forall i :: 0 <= i < |s.lanes| ==> s.lanes[i].Finished? || s.lanes[i].Halted? || s.lanes[i].Failed?
  }

  /**
   * Without a halt, if some lane came to its normal end, then of each organisation everything was
   * handled, or a lane failed on it and only what followed the failure is left.
   */
  lemma FailureSkipsOnlyItsGroup(jobs: seq<Job>, orgs: seq<nat>, dispatchLanes: nat, steps: seq<Step>, o: nat)
    requires Grouped(jobs, orgs)
    requires var s := Run(jobs, orgs, Start(orgs, dispatchLanes), steps);
             Settled(s) && !s.halting && exists i :: 0 <= i < |s.lanes| && s.lanes[i].Finished?
    ensures var s := Run(jobs, orgs, Start(orgs, dispatchLanes), steps);
            || OfOrg(s.log, o) == OfOrg(jobs, o)
            || exists i: nat, g: nat :: HeldBy(s, i, g) && s.lanes[i].Failed? && g < |orgs| && orgs[g] == o
                 && s.lanes[i].done <= |OfOrg(jobs, o)| && OfOrg(s.log, o) == OfOrg(jobs, o)[..s.lanes[i].done]
  {
    RunKeeps(jobs, orgs, dispatchLanes, steps);
    var s := Run(jobs, orgs, Start(orgs, dispatchLanes), steps);
    hide Run, Start;
    HandledPrefix(jobs, orgs, s, o);
    hide OfOrg;
    if o in orgs {
      var g: nat :| g < |orgs| && orgs[g] == o;
      assert Progress(jobs, orgs, s, g);
      if Held(s, g) {
        var i: nat :| HeldBy(s, i, g);
        assert s.lanes[i].Failed?;
      }
    } else {
      NoneOfOrg(jobs, o);
      NoneOfOrg(s.log, o);
    }
  }

  /** Without a halt and without a failure the lanes handle every job of the lot exactly once. */
  lemma EveryJobOnce(jobs: seq<Job>, orgs: seq<nat>, dispatchLanes: nat, steps: seq<Step>)
    requires Grouped(jobs, orgs)
    requires var s := Run(jobs, orgs, Start(orgs, dispatchLanes), steps);
             Settled(s) && !s.halting && forall i :: 0 <= i < |s.lanes| ==> !s.lanes[i].Failed?
    ensures multiset(Run(jobs, orgs, Start(orgs, dispatchLanes), steps).log) == multiset(jobs)
  {
    RunKeeps(jobs, orgs, dispatchLanes, steps);
    var s := Run(jobs, orgs, Start(orgs, dispatchLanes), steps);
    assert |s.lanes| >= 1 && s.lanes[0].Finished?;
    hide Inv, Run, Start, OfOrg, Grouped;
    forall job ensures multiset(s.log)[job] == multiset(jobs)[job] {
      FailureSkipsOnlyItsGroup(jobs, orgs, dispatchLanes, steps, job.organization);
      CountInOrg(s.log, job);
      CountInOrg(jobs, job);
    }
  }

  // ----- What each step does, and that the lanes come to an end -----

  /** As many lanes as asked for, no more than there are organisations, one at least. */
  lemma LaneCount(orgs: seq<nat>, dispatchLanes: nat)
    ensures var n := |Start(orgs, dispatchLanes).lanes|;
            && n >= 1 && (n > 1 ==> n <= dispatchLanes && n <= |orgs|)
            && (n == dispatchLanes || n == |orgs| || (n == 1 && (dispatchLanes == 0 || |orgs| == 0)))
  {}

  /** Once the service is halting no job begins any more, whatever the lanes still do. */
  lemma {:induction false} NothingBeginsAfterHalt(jobs: seq<Job>, orgs: seq<nat>, s: State, steps: seq<Step>)
    requires s.halting
    ensures Run(jobs, orgs, s, steps).halting && Run(jobs, orgs, s, steps).log == s.log
  {
    if |steps| > 0 {
      NothingBeginsAfterHalt(jobs, orgs, s, steps[..|steps| - 1]);
    }
  }

  /** A lane with a job left begins it, the very next of its organisation, and no other lane moves. */
  lemma BeginEffect(jobs: seq<Job>, orgs: seq<nat>, s: State, l: nat)
    requires l < |s.lanes| && s.lanes[l].Between? && s.lanes[l].group < |orgs| && !s.halting
    requires s.lanes[l].done < |OfOrg(jobs, orgs[s.lanes[l].group])|
    ensures var t := Next(jobs, orgs, s, Begin(l)); var g, d := s.lanes[l].group, s.lanes[l].done;
            && t.log == s.log + [OfOrg(jobs, orgs[g])[d]]
            && t == s.(lanes := s.lanes[l := Busy(g, d + 1)], log := t.log)
            && Next(jobs, orgs, t, Complete(l)) == t.(lanes := t.lanes[l := Between(g, d + 1)])
            && Next(jobs, orgs, t, Throw(l)) == t.(lanes := t.lanes[l := Failed(g, d + 1)])
  {
    hide OfOrg;
  }

  /** A lane without a group, or done with it, takes the next one off the queue, or ends when there is none. */
  lemma ShiftEffect(jobs: seq<Job>, orgs: seq<nat>, s: State, l: nat)
    requires l < |s.lanes|
    requires s.lanes[l].Free? || (s.lanes[l].Between? && s.lanes[l].group < |orgs|
                                  && s.lanes[l].done == |OfOrg(jobs, orgs[s.lanes[l].group])|)
    ensures Next(jobs, orgs, s, Shift(l)) ==
              if s.taken < |orgs| then s.(taken := s.taken + 1, lanes := s.lanes[l := Between(s.taken, 0)])
              else s.(lanes := s.lanes[l := Finished])
  {
    hide OfOrg;
  }

  /** Steps still ahead of a lane: two for each job left of its group, and its return to the queue. */
  function Ahead(jobs: seq<Job>, orgs: seq<nat>, lane: Lane): int {
    match lane
    case Free => 1
    case Between(g, done) => 2 * (|Group(jobs, orgs, g)| - done) + 1
    case Busy(g, done) => 2 * (|Group(jobs, orgs, g)| - done) + 2
    case _ => 0
  }

  function AllAhead(jobs: seq<Job>, orgs: seq<nat>, lanes: seq<Lane>): int {
    if |lanes| == 0 then 0
    else AllAhead(jobs, orgs, lanes[..|lanes| - 1]) + Ahead(jobs, orgs, lanes[|lanes| - 1])
  }

  /** The same for the groups from n on, nobody's yet. */
  function Queued(jobs: seq<Job>, orgs: seq<nat>, n: nat): nat
    decreases |orgs| - n
  {
    if n >= |orgs| then 0 else 2 * |Group(jobs, orgs, n)| + 1 + Queued(jobs, orgs, n + 1)
  }

  function Left(jobs: seq<Job>, orgs: seq<nat>, s: State): int {
    AllAhead(jobs, orgs, s.lanes) + Queued(jobs, orgs, s.taken)
  }

  lemma {:induction false} AheadMoves(jobs: seq<Job>, orgs: seq<nat>, lanes: seq<Lane>, l: nat, lane: Lane)
    requires l < |lanes|
    ensures AllAhead(jobs, orgs, lanes[l := lane])
         == AllAhead(jobs, orgs, lanes) - Ahead(jobs, orgs, lanes[l]) + Ahead(jobs, orgs, lane)
  {
    var n := |lanes| - 1;
    hide Ahead;
    if l == n {
      assert lanes[l := lane][..n] == lanes[..n];
    } else {
      AheadMoves(jobs, orgs, lanes[..n], l, lane);
      assert lanes[l := lane][..n] == lanes[..n][l := lane];
    }
  }

  lemma InvBounds(jobs: seq<Job>, orgs: seq<nat>, s: State, i: nat)
    requires Inv(jobs, orgs, s) && i < |s.lanes|
    ensures !s.lanes[i].Free? && !s.lanes[i].Finished? ==>
              s.lanes[i].group < |orgs| && s.lanes[i].done <= |Group(jobs, orgs, s.lanes[i].group)|
    ensures Ahead(jobs, orgs, s.lanes[i]) >= 0
  {
    hide OfOrg;
    if !s.lanes[i].Free? && !s.lanes[i].Finished? {
      assert HeldBy(s, i, s.lanes[i].group);
      assert Progress(jobs, orgs, s, s.lanes[i].group);
    }
  }

  lemma {:induction false} NothingOwed(jobs: seq<Job>, orgs: seq<nat>, s: State, n: nat)
    requires Inv(jobs, orgs, s) && n <= |s.lanes|
    ensures AllAhead(jobs, orgs, s.lanes[..n]) >= 0
  {
    if n > 0 {
      NothingOwed(jobs, orgs, s, n - 1);
      InvBounds(jobs, orgs, s, n - 1);
      assert s.lanes[..n][..n - 1] == s.lanes[..n - 1];
    }
  }

  /** A step that changes a lane brings the end nearer; while a lane has not ended, some step does. */
  lemma StepsBringTheEnd(jobs: seq<Job>, orgs: seq<nat>, s: State, step: Step)
    requires Inv(jobs, orgs, s)
    ensures Left(jobs, orgs, s) >= 0
    ensures var t := Next(jobs, orgs, s, step); t.lanes != s.lanes ==> Left(jobs, orgs, t) < Left(jobs, orgs, s)
  {
    NothingOwed(jobs, orgs, s, |s.lanes|);
    assert s.lanes[..|s.lanes|] == s.lanes;
    if !step.Halt? && step.lane < |s.lanes| {
      InvBounds(jobs, orgs, s, step.lane);
      AheadMoves(jobs, orgs, s.lanes, step.lane, Next(jobs, orgs, s, step).lanes[step.lane]);
      hide AllAhead, OfOrg, Inv, Group;
    }
  }

  lemma SomethingCanMove(jobs: seq<Job>, orgs: seq<nat>, s: State)
    requires Inv(jobs, orgs, s) && !Settled(s)
    ensures exists step: Step :: !step.Halt? && !step.Throw? && Next(jobs, orgs, s, step).lanes != s.lanes
  {
    var l: nat :| l < |s.lanes| && !s.lanes[l].Finished? && !s.lanes[l].Halted? && !s.lanes[l].Failed?;
    var lane := s.lanes[l];
    assert lane.Between? ==> HeldBy(s, l, lane.group);
    assert lane.Between? ==> lane.group < s.taken;
    hide Inv, Group;
    if lane.Busy? {
      assert Next(jobs, orgs, s, Complete(l)).lanes[l] != lane;
    } else if AtQueue(jobs, orgs, lane) {
      assert Next(jobs, orgs, s, Shift(l)).lanes[l] != lane;
    } else {
      assert Next(jobs, orgs, s, Begin(l)).lanes[l] != lane;
    }
  }

  lemma {:induction false} QueuedOneMore(jobs: seq<Job>, job: Job, orgs: seq<nat>, n: nat)
    requires forall i, j :: 0 <= i < j < |orgs| ==> orgs[i] != orgs[j]
    ensures Queued(jobs + [job], orgs, n)
         == Queued(jobs, orgs, n) + if n < |orgs| && job.organization in orgs[n..] then 2 else 0
    decreases |orgs| - n
  {
    if n < |orgs| {
      OfOrgSnoc(jobs, job, orgs[n]);
      hide OfOrg;
      QueuedOneMore(jobs, job, orgs, n + 1);
      assert orgs[n..] == [orgs[n]] + orgs[n + 1..];
    }
  }

  lemma {:induction false} QueuedEmpty(orgs: seq<nat>, n: nat)
    requires n <= |orgs|
    ensures Queued([], orgs, n) == |orgs| - n
    decreases |orgs| - n
  {
    if n < |orgs| {
      QueuedEmpty(orgs, n + 1);
      OfOrgEmpty();
    }
  }

  lemma {:induction false} QueuedAtStart(jobs: seq<Job>, orgs: seq<nat>)
    requires forall i, j :: 0 <= i < j < |orgs| ==> orgs[i] != orgs[j]
    requires forall job :: job in jobs ==> job.organization in orgs
    ensures Queued(jobs, orgs, 0) == 2 * |jobs| + |orgs|
  {
    if |jobs| == 0 {
      QueuedEmpty(orgs, 0);
    } else {
      var front, last := jobs[..|jobs| - 1], jobs[|jobs| - 1];
      assert jobs == front + [last];
      QueuedAtStart(front, orgs);
      QueuedOneMore(front, last, orgs, 0);
      assert orgs[0..] == orgs;
      hide Queued;
    }
  }

  lemma {:induction false} AheadAtStart(jobs: seq<Job>, orgs: seq<nat>, lanes: seq<Lane>)
    requires forall i :: 0 <= i < |lanes| ==> lanes[i].Free?
    ensures AllAhead(jobs, orgs, lanes) == |lanes|
  {
    if |lanes| > 0 { AheadAtStart(jobs, orgs, lanes[..|lanes| - 1]); }
  }

  /** How many steps of a run changed a lane. */
  function Moves(jobs: seq<Job>, orgs: seq<nat>, s: State, steps: seq<Step>): nat {
    if |steps| == 0 then 0
    else
      var front := steps[..|steps| - 1];
      Moves(jobs, orgs, s, front) + if Run(jobs, orgs, s, steps).lanes != Run(jobs, orgs, s, front).lanes then 1 else 0
  }

  lemma {:induction false} MovesAreSpent(jobs: seq<Job>, orgs: seq<nat>, dispatchLanes: nat, steps: seq<Step>)
    requires Grouped(jobs, orgs)
    ensures var s := Start(orgs, dispatchLanes);
            && Left(jobs, orgs, Run(jobs, orgs, s, steps)) >= 0
            && Left(jobs, orgs, Run(jobs, orgs, s, steps)) + Moves(jobs, orgs, s, steps) <= Left(jobs, orgs, s)
  {
    var s := Start(orgs, dispatchLanes);
    RunKeeps(jobs, orgs, dispatchLanes, steps);
    StepsBringTheEnd(jobs, orgs, Run(jobs, orgs, s, steps), Halt);
    if |steps| > 0 {
      var front := steps[..|steps| - 1];
      RunKeeps(jobs, orgs, dispatchLanes, front);
      MovesAreSpent(jobs, orgs, dispatchLanes, front);
      StepsBringTheEnd(jobs, orgs, Run(jobs, orgs, s, front), steps[|steps| - 1]);
      LanesUnmoved(jobs, orgs, Run(jobs, orgs, s, front), steps[|steps| - 1]);
      hide Inv, Left, Next, Start;
    }
  }

  lemma LanesUnmoved(jobs: seq<Job>, orgs: seq<nat>, s: State, step: Step)
    requires Inv(jobs, orgs, s)
    ensures var t := Next(jobs, orgs, s, step); t.lanes == s.lanes ==> t.taken == s.taken
  {
    if !step.Halt? && step.lane < |s.lanes| && s.lanes[step.lane].Between? {
      assert HeldBy(s, step.lane, s.lanes[step.lane].group);
    }
  }

  /**
   * The lanes come to an end, however their steps interleave: at most two steps for each job, one for
   * each organisation and one for each lane change anything, and until all lanes have ended some step
   * other than a failure or a halt still does.
   */
  lemma LanesComeToAnEnd(jobs: seq<Job>, orgs: seq<nat>, dispatchLanes: nat, steps: seq<Step>)
    requires Grouped(jobs, orgs)
    ensures var s := Start(orgs, dispatchLanes); var t := Run(jobs, orgs, s, steps);
            && Moves(jobs, orgs, s, steps) <= 2 * |jobs| + |orgs| + |s.lanes|
            && (Settled(t) || exists step: Step :: !step.Halt? && !step.Throw? && Next(jobs, orgs, t, step).lanes != t.lanes)
  {
    var s := Start(orgs, dispatchLanes);
    MovesAreSpent(jobs, orgs, dispatchLanes, steps);
    RunKeeps(jobs, orgs, dispatchLanes, steps);
    AheadAtStart(jobs, orgs, s.lanes);
    QueuedAtStart(jobs, orgs);
    hide Inv, Run, Queued, AllAhead, Moves, Next;
    if !Settled(Run(jobs, orgs, s, steps)) { SomethingCanMove(jobs, orgs, Run(jobs, orgs, s, steps)); }
  }
}
