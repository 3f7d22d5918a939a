/**
 * Choice of the next lot of jobs: a bounded share per organisation first, then the excess of the busy
 * ones. `pending` is the queue in the order both queries return it, oldest first.
 */
module BatchSelection {

  const BATCH: nat := 50
  const PUSH_JOBS_PER_ORGANIZATION: nat := 10

  datatype Job = Job(id: nat, organization: nat, eventAt: int)

  function Min(a: nat, b: nat): nat {
    if a < b then a else b
  }

  function OfOrg(jobs: seq<Job>, o: nat): seq<Job> {
    if |jobs| == 0 then []
    else
      var last := jobs[|jobs| - 1];
      OfOrg(jobs[..|jobs| - 1], o) + if last.organization == o then [last] else []
  }

  // ----- The steps -----

  datatype Split = Split(selected: seq<Job>, overflow: seq<Job>)

  /** Each job takes a place unless its organisation already has its quota; the others are set aside. */
  function Share(selected: seq<Job>, jobs: seq<Job>, quota: nat): Split {
    if |jobs| == 0 then Split(selected, [])
    else
      var before := Share(selected, jobs[..|jobs| - 1], quota);
      var job := jobs[|jobs| - 1];
      if |OfOrg(before.selected, job.organization)| >= quota
      then before.(overflow := before.overflow + [job])
      else before.(selected := before.selected + [job])
  }

  function Organizations(jobs: seq<Job>): set<nat> {
    set job | job in jobs :: job.organization
  }

  function Ids(jobs: seq<Job>): set<nat> {
    set job | job in jobs :: job.id
  }

  /** The second query, before its limit: pending jobs of other organisations, not selected yet. */
  function Candidates(pending: seq<Job>, capped: set<nat>, taken: set<nat>): seq<Job> {
    if |pending| == 0 then []
    else
      var last := pending[|pending| - 1];
      Candidates(pending[..|pending| - 1], capped, taken)
      + if last.organization !in capped && last.id !in taken then [last] else []
  }

  function Head(pending: seq<Job>, batch: nat): seq<Job> {
    pending[..Min(batch, |pending|)]
  }

  function First(pending: seq<Job>, batch: nat, quota: nat): Split {
    Share([], Head(pending, batch), quota)
  }

  function Others(pending: seq<Job>, batch: nat, quota: nat): seq<Job> {
    var first := First(pending, batch, quota);
    if |first.overflow| == 0 || |first.selected| > batch then []
    else
      var candidates := Candidates(pending, Organizations(first.overflow), Ids(first.selected));
      candidates[..Min(batch - |first.selected|, |candidates|)]
  }

  function Shared(pending: seq<Job>, batch: nat, quota: nat): seq<Job> {
    Share(First(pending, batch, quota).selected, Others(pending, batch, quota), quota).selected
  }

  /** The excess that still fits. */
  function Filler(pending: seq<Job>, batch: nat, quota: nat): seq<Job> {
    var overflow := First(pending, batch, quota).overflow;
    var used := |Shared(pending, batch, quota)|;
    if used >= batch then [] else overflow[..Min(batch - used, |overflow|)]
  }

  /** The lot before it is put back in date order. */
  function Chosen(pending: seq<Job>, batch: nat, quota: nat): seq<Job> {
    Shared(pending, batch, quota) + Filler(pending, batch, quota)
  }

  /** Stable insertion: after every job that is not later. */
  function Inserted(sorted: seq<Job>, job: Job): seq<Job> {
    if |sorted| > 0 && sorted[|sorted| - 1].eventAt > job.eventAt
    then Inserted(sorted[..|sorted| - 1], job) + [sorted[|sorted| - 1]]
    else sorted + [job]
  }

  function SortedByDate(jobs: seq<Job>): seq<Job> {
    if |jobs| == 0 then [] else Inserted(SortedByDate(jobs[..|jobs| - 1]), jobs[|jobs| - 1])
  }

  function Lot(pending: seq<Job>, batch: nat, quota: nat): seq<Job> {
    SortedByDate(Chosen(pending, batch, quota))
  }

  // ----- Sequences seen from one organisation -----

  lemma {:induction false} OfOrgAppend(a: seq<Job>, b: seq<Job>, o: nat)
    ensures OfOrg(a + b, o) == OfOrg(a, o) + OfOrg(b, o)
  {
    if |b| == 0 {
      assert a + b == a;
    } else {
      OfOrgAppend(a, b[..|b| - 1], o);
      assert (a + b)[..|a + b| - 1] == a + b[..|b| - 1];
    }
  }

  lemma OfOrgPrefix(jobs: seq<Job>, n: nat, o: nat)
    requires n <= |jobs|
    ensures OfOrg(jobs[..n], o) <= OfOrg(jobs, o)
    ensures OfOrg(jobs, o) == OfOrg(jobs[..n], o) + OfOrg(jobs[n..], o)
  {
    OfOrgAppend(jobs[..n], jobs[n..], o);
    assert jobs[..n] + jobs[n..] == jobs;
  }

  lemma {:induction false} OfOrgMembers(jobs: seq<Job>, o: nat)
    ensures forall job :: job in OfOrg(jobs, o) <==> job in jobs && job.organization == o
    ensures |OfOrg(jobs, o)| <= |jobs|
  {
    if |jobs| > 0 {
      OfOrgMembers(jobs[..|jobs| - 1], o);
      assert jobs == jobs[..|jobs| - 1] + [jobs[|jobs| - 1]];
    }
  }

  /** How many of n jobs fit beside those already placed. */
  function Fit(placed: nat, n: nat, quota: nat): nat {
    if placed >= quota then 0 else Min(quota - placed, n)
  }

  lemma OfOrgEmpty()
    ensures forall o :: OfOrg([], o) == []
  {}

  lemma OfOrgSnoc(jobs: seq<Job>, job: Job, o: nat)
    ensures OfOrg(jobs + [job], o) == if job.organization == o then OfOrg(jobs, o) + [job] else OfOrg(jobs, o)
  {
    assert (jobs + [job])[..|jobs|] == jobs;
  }

  lemma OfOrgLast(jobs: seq<Job>, o: nat)
    requires |jobs| > 0
    ensures var last := jobs[|jobs| - 1]; var front := OfOrg(jobs[..|jobs| - 1], o);
            OfOrg(jobs, o) == if last.organization == o then front + [last] else front
  {}

  lemma ShareLast(selected: seq<Job>, jobs: seq<Job>, quota: nat)
    requires |jobs| > 0
    ensures var before := Share(selected, jobs[..|jobs| - 1], quota); var job := jobs[|jobs| - 1];
            Share(selected, jobs, quota)
              == if |OfOrg(before.selected, job.organization)| >= quota
                 then Split(before.selected, before.overflow + [job])
                 else Split(before.selected + [job], before.overflow)
  {}

  lemma ShareStep(selected: seq<Job>, jobs: seq<Job>, quota: nat, o: nat)
    requires |jobs| > 0
    ensures var before := Share(selected, jobs[..|jobs| - 1], quota); var job := jobs[|jobs| - 1];
            var placed := OfOrg(before.selected, o); var aside := OfOrg(before.overflow, o);
            var s := Share(selected, jobs, quota);
            && OfOrg(s.selected, o) == (if job.organization == o && |placed| < quota then placed + [job] else placed)
            && OfOrg(s.overflow, o) == (if job.organization == o && |placed| >= quota then aside + [job] else aside)
  {
    ShareLast(selected, jobs, quota);
    hide OfOrg, Share;
    var before := Share(selected, jobs[..|jobs| - 1], quota);
    OfOrgSnoc(before.selected, jobs[|jobs| - 1], o);
    OfOrgSnoc(before.overflow, jobs[|jobs| - 1], o);
  }

  lemma OneMoreToFit(base: seq<Job>, all: seq<Job>, job: Job, quota: nat)
    ensures var k := Fit(|base|, |all|, quota); var n := Fit(|base|, |all + [job]|, quota);
            && k <= |all| && n <= |all| + 1
            && base + (all + [job])[..n] == (if |base + all[..k]| < quota then base + all[..k] + [job] else base + all[..k])
            && (all + [job])[n..] == (if |base + all[..k]| >= quota then all[k..] + [job] else all[k..])
  {}

  /** For one organisation, sharing takes its first jobs up to the quota and sets the rest aside. */
  lemma {:induction false} ShareOfOrg(selected: seq<Job>, jobs: seq<Job>, quota: nat, o: nat)
    ensures var s := Share(selected, jobs, quota); var all := OfOrg(jobs, o);
            var k := Fit(|OfOrg(selected, o)|, |all|, quota);
            && OfOrg(s.selected, o) == OfOrg(selected, o) + all[..k]
            && OfOrg(s.overflow, o) == all[k..]
  {
    if |jobs| > 0 {
      var front := jobs[..|jobs| - 1];
      ShareStep(selected, jobs, quota, o);
      OfOrgLast(jobs, o);
      hide OfOrg, Share;
      ShareOfOrg(selected, front, quota, o);
      if jobs[|jobs| - 1].organization == o {
        OneMoreToFit(OfOrg(selected, o), OfOrg(front, o), jobs[|jobs| - 1], quota);
      }
    } else {
      assert OfOrg(jobs, o) == [];
    }
  }

  lemma {:induction false} ShareCounts(selected: seq<Job>, jobs: seq<Job>, quota: nat)
    ensures var s := Share(selected, jobs, quota);
            && |s.selected| + |s.overflow| == |selected| + |jobs|
            && |selected| <= |s.selected| && s.selected[..|selected|] == selected
  {
    if |jobs| > 0 {
      ShareLast(selected, jobs, quota);
      hide OfOrg, Share;
      ShareCounts(selected, jobs[..|jobs| - 1], quota);
    }
  }

  lemma AddOne(a: multiset<Job>, b: multiset<Job>, c: multiset<Job>, d: multiset<Job>, x: Job)
    requires a + b == c + d
    ensures (a + multiset{x}) + b == c + (d + multiset{x})
    ensures a + (b + multiset{x}) == c + (d + multiset{x})
  {
    assert (a + multiset{x}) + b == (a + b) + multiset{x};
    assert a + (b + multiset{x}) == (a + b) + multiset{x};
    assert c + (d + multiset{x}) == (c + d) + multiset{x};
  }

  /** Every job is selected or set aside, once. */
  lemma {:induction false} ShareIsSplit(selected: seq<Job>, jobs: seq<Job>, quota: nat)
    ensures var s := Share(selected, jobs, quota);
            multiset(s.selected) + multiset(s.overflow) == multiset(selected) + multiset(jobs)
  {
    if |jobs| > 0 {
      ShareLast(selected, jobs, quota);
      hide OfOrg, Share;
      var front := jobs[..|jobs| - 1];
      var job := jobs[|jobs| - 1];
      ShareIsSplit(selected, front, quota);
      var before := Share(selected, front, quota);
      assert multiset(jobs) == multiset(front) + multiset{job} by { assert jobs == front + [job]; }
      assert multiset(before.selected + [job]) == multiset(before.selected) + multiset{job};
      assert multiset(before.overflow + [job]) == multiset(before.overflow) + multiset{job};
      AddOne(multiset(before.selected), multiset(before.overflow), multiset(selected), multiset(front), job);
    }
  }

  lemma CandidatesLast(pending: seq<Job>, capped: set<nat>, taken: set<nat>, o: nat)
    requires |pending| > 0
    ensures var last := pending[|pending| - 1]; var front := pending[..|pending| - 1];
            OfOrg(Candidates(pending, capped, taken), o)
              == if last.organization == o && o !in capped && last.id !in taken
                 then OfOrg(Candidates(front, capped, taken), o) + [last]
                 else OfOrg(Candidates(front, capped, taken), o)
  {
    var last := pending[|pending| - 1];
    var before := Candidates(pending[..|pending| - 1], capped, taken);
    assert Candidates(pending, capped, taken)
        == if last.organization !in capped && last.id !in taken then before + [last] else before;
    hide OfOrg, Candidates;
    OfOrgSnoc(before, last, o);
  }

  lemma {:induction false} CandidatesNoneOfOrg(pending: seq<Job>, capped: set<nat>, taken: set<nat>, o: nat)
    requires o in capped || forall job :: job in pending && job.organization == o ==> job.id in taken
    ensures OfOrg(Candidates(pending, capped, taken), o) == []
  {
    if |pending| > 0 {
      CandidatesLast(pending, capped, taken, o);
      hide OfOrg, Candidates;
      CandidatesNoneOfOrg(pending[..|pending| - 1], capped, taken, o);
    }
  }

  lemma {:induction false} CandidatesAllOfOrg(pending: seq<Job>, capped: set<nat>, taken: set<nat>, o: nat)
    requires o !in capped && forall job :: job in pending && job.organization == o ==> job.id !in taken
    ensures OfOrg(Candidates(pending, capped, taken), o) == OfOrg(pending, o)
  {
    if |pending| > 0 {
      CandidatesLast(pending, capped, taken, o);
      OfOrgLast(pending, o);
      hide OfOrg, Candidates;
      CandidatesAllOfOrg(pending[..|pending| - 1], capped, taken, o);
    }
  }

  lemma {:induction false} CandidatesAppend(a: seq<Job>, b: seq<Job>, capped: set<nat>, taken: set<nat>)
    ensures Candidates(a + b, capped, taken) == Candidates(a, capped, taken) + Candidates(b, capped, taken)
  {
    if |b| == 0 {
      assert a + b == a;
    } else {
      CandidatesAppend(a, b[..|b| - 1], capped, taken);
      assert (a + b)[..|a + b| - 1] == a + b[..|b| - 1];
    }
  }

  ghost predicate Distinct(jobs: seq<Job>) {
    forall i, j :: 0 <= i < j < |jobs| ==> jobs[i].id != jobs[j].id
  }

  ghost predicate DateOrder(jobs: seq<Job>) {
    forall i, j :: 0 <= i <= j < |jobs| ==> jobs[i].eventAt <= jobs[j].eventAt
  }

  // ----- Back in date order -----

  lemma {:induction false} InsertedSameJobs(sorted: seq<Job>, job: Job)
    ensures multiset(Inserted(sorted, job)) == multiset(sorted) + multiset{job}
  {
    if |sorted| > 0 && sorted[|sorted| - 1].eventAt > job.eventAt {
      InsertedSameJobs(sorted[..|sorted| - 1], job);
      assert sorted == sorted[..|sorted| - 1] + [sorted[|sorted| - 1]];
    }
  }

  ghost predicate NoneLater(jobs: seq<Job>, last: int) {
    forall i :: 0 <= i < |jobs| ==> jobs[i].eventAt <= last
  }

  lemma {:induction false} InsertedNoneLater(sorted: seq<Job>, job: Job, last: int)
    requires NoneLater(sorted, last) && job.eventAt <= last
    ensures NoneLater(Inserted(sorted, job), last)
  {
    if |sorted| > 0 && sorted[|sorted| - 1].eventAt > job.eventAt {
      InsertedNoneLater(sorted[..|sorted| - 1], job, last);
    }
  }

  lemma {:induction false} InsertedInOrder(sorted: seq<Job>, job: Job)
    requires DateOrder(sorted)
    ensures DateOrder(Inserted(sorted, job))
  {
    if |sorted| > 0 && sorted[|sorted| - 1].eventAt > job.eventAt {
      var front := sorted[..|sorted| - 1];
      var last := sorted[|sorted| - 1];
      InsertedInOrder(front, job);
      assert Inserted(sorted, job) == Inserted(front, job) + [last];
      hide Inserted;
      InsertedNoneLater(front, job, last.eventAt);
    }
  }

  lemma {:induction false} InsertedOfOrg(sorted: seq<Job>, job: Job, o: nat)
    ensures job.organization != o ==> OfOrg(Inserted(sorted, job), o) == OfOrg(sorted, o)
    ensures job.organization == o && (forall x :: x in OfOrg(sorted, o) ==> x.eventAt <= job.eventAt) ==>
            OfOrg(Inserted(sorted, job), o) == OfOrg(sorted, o) + [job]
  {
    if |sorted| > 0 && sorted[|sorted| - 1].eventAt > job.eventAt {
      var front := sorted[..|sorted| - 1];
      var last := sorted[|sorted| - 1];
      OfOrgLast(sorted, o);
      InsertedOfOrg(front, job, o);
      OfOrgSnoc(Inserted(front, job), last, o);
      hide OfOrg;
      if last.organization == o { assert last in OfOrg(sorted, o); }
    } else {
      OfOrgSnoc(sorted, job, o);
    }
  }

  lemma {:induction false} SortedByDateIsSorted(jobs: seq<Job>)
    ensures DateOrder(SortedByDate(jobs))
    ensures multiset(SortedByDate(jobs)) == multiset(jobs)
  {
    if |jobs| > 0 {
      SortedByDateIsSorted(jobs[..|jobs| - 1]);
      InsertedInOrder(SortedByDate(jobs[..|jobs| - 1]), jobs[|jobs| - 1]);
      InsertedSameJobs(SortedByDate(jobs[..|jobs| - 1]), jobs[|jobs| - 1]);
      assert jobs == jobs[..|jobs| - 1] + [jobs[|jobs| - 1]];
    }
  }

  /** The stable sort does not reorder an organisation whose jobs were already in date order. */
  lemma {:induction false} SortedByDateOfOrg(jobs: seq<Job>, o: nat)
    requires DateOrder(OfOrg(jobs, o))
    ensures OfOrg(SortedByDate(jobs), o) == OfOrg(jobs, o)
  {
    if |jobs| > 0 {
      var front := jobs[..|jobs| - 1];
      var job := jobs[|jobs| - 1];
      OfOrgLast(jobs, o);
      hide OfOrg;
      var all := OfOrg(jobs, o);
      var before := OfOrg(front, o);
      assert forall i :: 0 <= i < |before| ==> all[i] == before[i];
      SortedByDateOfOrg(front, o);
      InsertedOfOrg(SortedByDate(front), job, o);
      if job.organization == o {
        forall x | x in before ensures x.eventAt <= job.eventAt {
          var i :| 0 <= i < |before| && before[i] == x;
          assert all[i].eventAt <= all[|all| - 1].eventAt;
        }
      }
    }
  }

  lemma {:induction false} OfOrgInDateOrder(jobs: seq<Job>, o: nat)
    requires DateOrder(jobs)
    ensures DateOrder(OfOrg(jobs, o))
  {
    if |jobs| > 0 {
      var front := jobs[..|jobs| - 1];
      OfOrgInDateOrder(front, o);
      OfOrgMembers(front, o);
      OfOrgLast(jobs, o);
      hide OfOrg;
      forall x | x in OfOrg(front, o) ensures x.eventAt <= jobs[|jobs| - 1].eventAt {
        var i :| 0 <= i < |front| && front[i] == x;
        assert jobs[i].eventAt <= jobs[|jobs| - 1].eventAt;
      }
    }
  }

  // ----- What the selection guarantees -----

  /** After the first pass: the oldest of each organisation up to its quota, the rest set aside. */
  lemma FirstOfOrg(pending: seq<Job>, batch: nat, quota: nat, o: nat)
    ensures var first := First(pending, batch, quota); var head := OfOrg(Head(pending, batch), o);
            && OfOrg(first.selected, o) == head[..Min(quota, |head|)]
            && OfOrg(first.overflow, o) == head[Min(quota, |head|)..]
            && (o in Organizations(first.overflow) <==> |head| > quota)
  {
    OfOrgEmpty();
    hide OfOrg, Share, Head;
    ShareOfOrg([], Head(pending, batch), quota, o);
    var first := First(pending, batch, quota);
    OfOrgMembers(first.overflow, o);
    var head := OfOrg(Head(pending, batch), o);
    if |head| > quota {
      assert OfOrg(first.overflow, o)[0] in OfOrg(first.overflow, o);
    }
  }

  lemma NotInBothParts(pending: seq<Job>, n: nat, a: Job, b: Job)
    requires Distinct(pending) && n <= |pending| && a in pending[..n] && b in pending[n..]
    ensures a.id != b.id
  {
    var i :| 0 <= i < n && pending[i] == a;
    var j :| 0 <= j < |pending| - n && pending[n..][j] == b;
    assert pending[n + j] == b;
  }

  lemma SelectedFromHead(pending: seq<Job>, batch: nat, quota: nat, job: Job)
    requires job in First(pending, batch, quota).selected
    ensures job in Head(pending, batch)
  {
    ShareIsSplit([], Head(pending, batch), quota);
    var first := First(pending, batch, quota);
    assert job in multiset(first.selected) + multiset(first.overflow);
    assert job in multiset([]) + multiset(Head(pending, batch));
  }

  lemma RestIsNotTaken(pending: seq<Job>, batch: nat, quota: nat, job: Job)
    requires Distinct(pending) && job in pending[|Head(pending, batch)|..]
    ensures job.id !in Ids(First(pending, batch, quota).selected)
  {
    forall other | other in First(pending, batch, quota).selected ensures other.id != job.id {
      SelectedFromHead(pending, batch, quota, other);
      NotInBothParts(pending, |Head(pending, batch)|, other, job);
    }
  }

  lemma HeadOfOrgIsTaken(pending: seq<Job>, batch: nat, quota: nat, job: Job)
    requires job in Head(pending, batch) && |OfOrg(Head(pending, batch), job.organization)| <= quota
    ensures job.id in Ids(First(pending, batch, quota).selected)
  {
    var o := job.organization;
    var first := First(pending, batch, quota);
    FirstOfOrg(pending, batch, quota, o);
    OfOrgMembers(Head(pending, batch), o);
    OfOrgMembers(first.selected, o);
    hide OfOrg;
    assert job in OfOrg(Head(pending, batch), o);
    assert job in OfOrg(first.selected, o);
  }

  /** The second query finds, for an organisation not capped, exactly its jobs behind the head. */
  lemma OthersOfOrg(pending: seq<Job>, batch: nat, quota: nat, o: nat)
    requires Distinct(pending)
    ensures var first := First(pending, batch, quota); var rest := pending[|Head(pending, batch)|..];
            OfOrg(Candidates(pending, Organizations(first.overflow), Ids(first.selected)), o)
              == if |OfOrg(Head(pending, batch), o)| > quota then [] else OfOrg(rest, o)
  {
    var first := First(pending, batch, quota);
    var head := Head(pending, batch);
    var rest := pending[|head|..];
    var capped := Organizations(first.overflow);
    var taken := Ids(first.selected);
    FirstOfOrg(pending, batch, quota, o);
    CandidatesAppend(head, rest, capped, taken);
    assert head + rest == pending;
    hide OfOrg, Candidates, First;
    OfOrgAppend(Candidates(head, capped, taken), Candidates(rest, capped, taken), o);
    forall job | |OfOrg(head, o)| <= quota && job in head && job.organization == o ensures job.id in taken {
      HeadOfOrgIsTaken(pending, batch, quota, job);
    }
    forall job | job in rest ensures job.id !in taken {
      RestIsNotTaken(pending, batch, quota, job);
    }
    CandidatesNoneOfOrg(head, capped, taken, o);
    if o in capped {
      CandidatesNoneOfOrg(rest, capped, taken, o);
    } else {
      CandidatesAllOfOrg(rest, capped, taken, o);
    }
  }

  /** The jobs of an organisation that the two queries brought back. */
  function Fetched(pending: seq<Job>, batch: nat, quota: nat, o: nat): nat {
    |OfOrg(Head(pending, batch), o)| + |OfOrg(Others(pending, batch, quota), o)|
  }

  lemma OthersArePrefix(pending: seq<Job>, batch: nat, quota: nat, o: nat)
    requires Distinct(pending)
    ensures |OfOrg(Head(pending, batch), o)| > quota ==> OfOrg(Others(pending, batch, quota), o) == []
    ensures OfOrg(Head(pending, batch), o) + OfOrg(Others(pending, batch, quota), o) <= OfOrg(pending, o)
  {
    var first := First(pending, batch, quota);
    var n := |Head(pending, batch)|;
    var others := Others(pending, batch, quota);
    var candidates := Candidates(pending, Organizations(first.overflow), Ids(first.selected));
    OfOrgEmpty();
    assert others == [] || others == candidates[..|others|];
    hide OfOrg, Candidates, Others, First;
    OthersOfOrg(pending, batch, quota, o);
    OfOrgPrefix(pending, n, o);
    if others != [] { OfOrgPrefix(candidates, |others|, o); }
    assert OfOrg(others, o) <= if |OfOrg(pending[..n], o)| > quota then [] else OfOrg(pending[n..], o);
    PrefixOfSecond(OfOrg(pending[..n], o), OfOrg(others, o), OfOrg(pending[n..], o));
  }

  lemma PrefixOfSecond(a: seq<Job>, b: seq<Job>, c: seq<Job>)
    requires b == [] || b <= c
    ensures a + b <= a + c
  {}

  /**
   * What one organisation gets: a prefix of its own queue, all it has fetched within its quota, and
   * more than its quota only from the filler.
   */
  lemma ChosenOfOrg(pending: seq<Job>, batch: nat, quota: nat, o: nat)
    requires Distinct(pending)
    ensures OfOrg(Chosen(pending, batch, quota), o) <= OfOrg(pending, o)
    ensures |OfOrg(Shared(pending, batch, quota), o)| == Min(quota, Fetched(pending, batch, quota, o))
    ensures |OfOrg(Chosen(pending, batch, quota), o)|
         == Min(quota, Fetched(pending, batch, quota, o)) + |OfOrg(Filler(pending, batch, quota), o)|
    ensures |OfOrg(Filler(pending, batch, quota), o)| > 0 ==> |OfOrg(Head(pending, batch), o)| > quota
  {
    var head := OfOrg(Head(pending, batch), o);
    var others := OfOrg(Others(pending, batch, quota), o);
    var filler := OfOrg(Filler(pending, batch, quota), o);
    OthersArePrefix(pending, batch, quota, o);
    SharedOfOrg(pending, batch, quota, o);
    FillerIsPrefix(pending, batch, quota, o);
    OfOrgAppend(Shared(pending, batch, quota), Filler(pending, batch, quota), o);
    hide OfOrg, Shared, Filler, Others;
    PlacedThenFilled(head, others, OfOrg(pending, o), filler, quota);
  }

  lemma PlacedThenFilled(head: seq<Job>, others: seq<Job>, queue: seq<Job>, filler: seq<Job>, quota: nat)
    requires head + others <= queue && (|head| > quota ==> others == [])
    requires filler <= if |head| > quota then head[quota..] else []
    ensures (head + others)[..Min(quota, |head + others|)] + filler <= queue
  {
    if |head| > quota {
      assert head + others == head;
      assert head[..quota] + head[quota..] == head;
      assert head[..quota] + filler <= head;
    } else {
      assert filler == [];
    }
  }

  lemma PlacedThenShared(head: seq<Job>, others: seq<Job>, quota: nat)
    requires |head| > quota ==> others == []
    ensures var placed := head[..Min(quota, |head|)]; var both := head + others;
            placed + others[..Fit(|placed|, |others|, quota)] == both[..Min(quota, |both|)]
  {}

  lemma SharedOfOrg(pending: seq<Job>, batch: nat, quota: nat, o: nat)
    requires Distinct(pending)
    ensures var head := OfOrg(Head(pending, batch), o); var both := head + OfOrg(Others(pending, batch, quota), o);
            OfOrg(Shared(pending, batch, quota), o) == both[..Min(quota, |both|)]
  {
    var first := First(pending, batch, quota);
    var head := OfOrg(Head(pending, batch), o);
    hide OfOrg, Others, First, Share;
    OthersArePrefix(pending, batch, quota, o);
    FirstOfOrg(pending, batch, quota, o);
    ShareOfOrg(first.selected, Others(pending, batch, quota), quota, o);
    hide Fit, Min;
    PlacedThenShared(head, OfOrg(Others(pending, batch, quota), o), quota);
  }

  lemma FillerIsPrefix(pending: seq<Job>, batch: nat, quota: nat, o: nat)
    ensures var head := OfOrg(Head(pending, batch), o); var filler := OfOrg(Filler(pending, batch, quota), o);
            filler <= if |head| > quota then head[quota..] else []
  {
    var overflow := First(pending, batch, quota).overflow;
    FirstOfOrg(pending, batch, quota, o);
    OfOrgPrefix(overflow, |Filler(pending, batch, quota)|, o);
    assert OfOrg([], o) == [];
  }

  lemma {:induction false} CandidatesNone(pending: seq<Job>, capped: set<nat>, taken: set<nat>)
    requires forall job :: job in pending ==> job.organization in capped || job.id in taken
    ensures Candidates(pending, capped, taken) == []
  {
    if |pending| > 0 { CandidatesNone(pending[..|pending| - 1], capped, taken); }
  }

  lemma ShortQueueIsShared(pending: seq<Job>, batch: nat, quota: nat)
    requires |pending| < batch
    ensures Others(pending, batch, quota) == []
  {
    var first := First(pending, batch, quota);
    assert Head(pending, batch) == pending;
    ShareIsSplit([], pending, quota);
    forall job | job in pending
      ensures job.organization in Organizations(first.overflow) || job.id in Ids(first.selected)
    {
      assert job in multiset([]) + multiset(pending);
      assert job in multiset(first.selected) + multiset(first.overflow);
    }
    CandidatesNone(pending, Organizations(first.overflow), Ids(first.selected));
  }

  /** The lot is full unless the queue is shorter, and then it is the whole queue. */
  lemma LotSize(pending: seq<Job>, batch: nat, quota: nat)
    ensures |Lot(pending, batch, quota)| == Min(batch, |pending|)
  {
    var first := First(pending, batch, quota);
    ShareCounts([], Head(pending, batch), quota);
    ShareCounts(first.selected, Others(pending, batch, quota), quota);
    if |pending| < batch { ShortQueueIsShared(pending, batch, quota); }
    SortedByDateIsSorted(Chosen(pending, batch, quota));
    hide SortedByDate, Candidates, Share;
    assert |multiset(Lot(pending, batch, quota))| == |multiset(Chosen(pending, batch, quota))|;
  }

  // ----- Main results -----

  /** For each organisation, the lot is a prefix of its own queue, in queue order. */
  lemma LotIsPrefixPerOrganization(pending: seq<Job>, batch: nat, quota: nat, o: nat)
    requires Distinct(pending) && DateOrder(pending)
    ensures OfOrg(Lot(pending, batch, quota), o) <= OfOrg(pending, o)
    ensures OfOrg(Lot(pending, batch, quota), o) == OfOrg(Chosen(pending, batch, quota), o)
    ensures DateOrder(Lot(pending, batch, quota))
  {
    var chosen := Chosen(pending, batch, quota);
    ChosenOfOrg(pending, batch, quota, o);
    OfOrgInDateOrder(pending, o);
    hide OfOrg, Chosen;
    assert forall i :: 0 <= i < |OfOrg(chosen, o)| ==> OfOrg(chosen, o)[i] == OfOrg(pending, o)[i];
    SortedByDateOfOrg(chosen, o);
    SortedByDateIsSorted(chosen);
  }

  lemma {:induction false} OfOrgDistinct(jobs: seq<Job>, o: nat)
    requires Distinct(jobs)
    ensures Distinct(OfOrg(jobs, o))
  {
    if |jobs| > 0 {
      var front := jobs[..|jobs| - 1];
      OfOrgDistinct(front, o);
      OfOrgMembers(front, o);
      OfOrgLast(jobs, o);
      hide OfOrg;
      forall i | 0 <= i < |OfOrg(front, o)| ensures OfOrg(front, o)[i].id != jobs[|jobs| - 1].id {
        var job := OfOrg(front, o)[i];
        assert job in OfOrg(front, o);
        var k :| 0 <= k < |front| && front[k] == job;
        assert jobs[k] == job;
      }
    }
  }

  /** The multiplicity of a job in a sequence is its multiplicity among its organisation's jobs. */
  lemma {:induction false} CountInOrg(jobs: seq<Job>, job: Job)
    ensures multiset(jobs)[job] == multiset(OfOrg(jobs, job.organization))[job]
  {
    if |jobs| > 0 {
      CountInOrg(jobs[..|jobs| - 1], job);
      OfOrgLast(jobs, job.organization);
      hide OfOrg;
      assert jobs == jobs[..|jobs| - 1] + [jobs[|jobs| - 1]];
    }
  }

  /** The lot holds a job no more often than the queue does. */
  lemma LotHoldsOnlyPending(pending: seq<Job>, batch: nat, quota: nat, job: Job)
    requires Distinct(pending) && DateOrder(pending)
    ensures multiset(Lot(pending, batch, quota))[job] <= multiset(pending)[job]
  {
    var o := job.organization;
    CountInOrg(Lot(pending, batch, quota), job);
    CountInOrg(pending, job);
    LotIsPrefixPerOrganization(pending, batch, quota, o);
    hide OfOrg, Lot, Distinct, DateOrder;
    PrefixCounts(OfOrg(Lot(pending, batch, quota), o), OfOrg(pending, o), job);
  }

  lemma PrefixCounts(part: seq<Job>, all: seq<Job>, job: Job)
    requires part <= all
    ensures multiset(part)[job] <= multiset(all)[job]
  {
    assert all == part + all[|part|..];
  }

  /** The lot holds no job twice and nothing that is not pending. */
  lemma LotHasNoDuplicates(pending: seq<Job>, batch: nat, quota: nat)
    requires Distinct(pending) && DateOrder(pending)
    ensures multiset(Lot(pending, batch, quota)) <= multiset(pending)
    ensures Distinct(Lot(pending, batch, quota))
  {
    hide Lot;
    forall job ensures multiset(Lot(pending, batch, quota))[job] <= multiset(pending)[job] {
      LotHoldsOnlyPending(pending, batch, quota, job);
    }
    SubMultisetDistinct(pending, Lot(pending, batch, quota));
  }

  lemma SubMultisetDistinct(jobs: seq<Job>, part: seq<Job>)
    requires Distinct(jobs) && multiset(part) <= multiset(jobs)
    ensures Distinct(part)
  {
    forall i, j | 0 <= i < j < |part| ensures part[i].id != part[j].id {
      assert part[i] in multiset(jobs) && part[j] in multiset(jobs);
      var a :| 0 <= a < |jobs| && jobs[a] == part[i];
      var b :| 0 <= b < |jobs| && jobs[b] == part[j];
      if a == b {
        TwiceInMultiset(part, i, j);
        OnceIfDistinct(jobs, a);
        assert false;
      }
    }
  }

  lemma TwiceInMultiset(part: seq<Job>, i: nat, j: nat)
    requires i < j < |part| && part[i] == part[j]
    ensures multiset(part)[part[i]] >= 2
  {
    assert part == part[..j] + [part[j]] + part[j + 1..];
    assert part[i] in part[..j];
  }

  lemma OnceIfDistinct(jobs: seq<Job>, a: nat)
    requires Distinct(jobs) && a < |jobs|
    ensures multiset(jobs)[jobs[a]] == 1
  {
    assert jobs == jobs[..a] + [jobs[a]] + jobs[a + 1..];
    assert jobs[a] !in jobs[..a] && jobs[a] !in jobs[a + 1..];
  }

  /** The oldest pending job is always in the lot. */
  lemma OldestIsSelected(pending: seq<Job>, batch: nat, quota: nat)
    requires Distinct(pending) && DateOrder(pending)
    requires |pending| > 0 && batch > 0 && quota > 0
    ensures pending[0] in Lot(pending, batch, quota)
  {
    var o := pending[0].organization;
    var lot := Lot(pending, batch, quota);
    var head := Head(pending, batch);
    LotIsPrefixPerOrganization(pending, batch, quota, o);
    ChosenOfOrg(pending, batch, quota, o);
    OfOrgPrefix(head, 1, o);
    OfOrgPrefix(pending, 1, o);
    OfOrgLast(pending[..1], o);
    assert head[..1] == pending[..1];
    OfOrgMembers(lot, o);
    assert OfOrg(lot, o)[0] == OfOrg(pending, o)[0] == pending[0];
  }

  /**
   * Fairness over what was fetched: every organisation has at least its quota, or everything the two
   * queries brought back for it, before any organisation has more than its quota.
   */
  lemma QuotasComeFirst(pending: seq<Job>, batch: nat, quota: nat, o: nat)
    requires Distinct(pending) && DateOrder(pending)
    ensures |OfOrg(Lot(pending, batch, quota), o)| >= Min(quota, Fetched(pending, batch, quota, o))
    ensures |OfOrg(Lot(pending, batch, quota), o)| > quota ==> |OfOrg(Head(pending, batch), o)| > quota
  {
    LotIsPrefixPerOrganization(pending, batch, quota, o);
    ChosenOfOrg(pending, batch, quota, o);
  }

  // ----- Fairness over the whole queue -----

  ghost predicate QuotaServed(pending: seq<Job>, batch: nat, quota: nat, o: nat) {
    |OfOrg(Lot(pending, batch, quota), o)| >= Min(quota, |OfOrg(pending, o)|)
  }

  ghost predicate QuotaFetched(pending: seq<Job>, batch: nat, quota: nat, o: nat) {
    Fetched(pending, batch, quota, o) >= Min(quota, |OfOrg(pending, o)|)
  }

  ghost predicate OverQuota(pending: seq<Job>, batch: nat, quota: nat, o: nat) {
    |OfOrg(Lot(pending, batch, quota), o)| > quota
  }

  /** Some organisation exceeds its quota only when every other has its quota or its whole queue. */
  ghost predicate FairOverQueue(pending: seq<Job>, batch: nat, quota: nat) {
    (exists o :: OverQuota(pending, batch, quota, o)) ==> forall o :: QuotaServed(pending, batch, quota, o)
  }

  lemma ExcessIsFiller(pending: seq<Job>, batch: nat, quota: nat)
    requires Distinct(pending) && DateOrder(pending)
    ensures (exists o :: OverQuota(pending, batch, quota, o)) <==> |Filler(pending, batch, quota)| > 0
  {
    var filler := Filler(pending, batch, quota);
    if |filler| > 0 {
      var o := filler[0].organization;
      OfOrgMembers(filler, o);
      hide OfOrg;
      assert filler[0] in OfOrg(filler, o);
      LotIsPrefixPerOrganization(pending, batch, quota, o);
      ChosenOfOrg(pending, batch, quota, o);
      assert OverQuota(pending, batch, quota, o);
    }
    if o :| OverQuota(pending, batch, quota, o) {
      LotIsPrefixPerOrganization(pending, batch, quota, o);
      ChosenOfOrg(pending, batch, quota, o);
      OfOrgMembers(filler, o);
    }
  }

  lemma ServedExactlyWhenFetched(pending: seq<Job>, batch: nat, quota: nat, o: nat)
    requires Distinct(pending) && DateOrder(pending)
    ensures QuotaServed(pending, batch, quota, o) <==> QuotaFetched(pending, batch, quota, o)
  {
    LotIsPrefixPerOrganization(pending, batch, quota, o);
    ChosenOfOrg(pending, batch, quota, o);
    hide OfOrg, Lot, Filler, Chosen, Others;
  }

  /**
   * Over the whole queue, not only what was fetched, the share is fair exactly when no excess was
   * needed or the two queries had brought back every organisation's quota.
   */
  lemma FairExactlyWhenFetched(pending: seq<Job>, batch: nat, quota: nat)
    requires Distinct(pending) && DateOrder(pending)
    ensures FairOverQueue(pending, batch, quota) <==>
            |Filler(pending, batch, quota)| == 0 || forall o :: QuotaFetched(pending, batch, quota, o)
  {
    ExcessIsFiller(pending, batch, quota);
    forall o ensures QuotaServed(pending, batch, quota, o) <==> QuotaFetched(pending, batch, quota, o) {
      ServedExactlyWhenFetched(pending, batch, quota, o);
    }
    hide QuotaServed, QuotaFetched, OverQuota, Filler;
  }

  /** A second query that stops before its limit has found all the jobs of the others. */
  lemma UncutQueryFetches(pending: seq<Job>, batch: nat, quota: nat, o: nat)
    requires Distinct(pending)
    requires |First(pending, batch, quota).overflow| > 0
    requires |First(pending, batch, quota).selected| + |Others(pending, batch, quota)| < batch
    ensures QuotaFetched(pending, batch, quota, o)
    ensures |OfOrg(Head(pending, batch), o)| <= quota ==>
              Fetched(pending, batch, quota, o) == |OfOrg(pending, o)|
  {
    var first := First(pending, batch, quota);
    var n := |Head(pending, batch)|;
    var candidates := Candidates(pending, Organizations(first.overflow), Ids(first.selected));
    assert candidates[..|candidates|] == candidates;
    assert Others(pending, batch, quota) == candidates;
    hide OfOrg, Others, First, Candidates;
    OthersOfOrg(pending, batch, quota, o);
    OfOrgPrefix(pending, n, o);
  }

  /** So the share is fair over the whole queue whenever the second query was not cut by its limit. */
  lemma FairWhenQueryUncut(pending: seq<Job>, batch: nat, quota: nat)
    requires Distinct(pending) && DateOrder(pending)
    requires |First(pending, batch, quota).selected| + |Others(pending, batch, quota)| < batch
    ensures FairOverQueue(pending, batch, quota)
  {
    var excess := |First(pending, batch, quota).overflow| > 0;
    assert excess || |Filler(pending, batch, quota)| == 0;
    hide OfOrg, Others, First, Filler, QuotaFetched, FairOverQueue;
    forall o | excess ensures QuotaFetched(pending, batch, quota, o) {
      UncutQueryFetches(pending, batch, quota, o);
    }
    FairExactlyWhenFetched(pending, batch, quota);
  }

  // ----- Fairness told from the queue -----

  /** What the second query finds before its limit. */
  function Candidacy(pending: seq<Job>, batch: nat, quota: nat): seq<Job> {
    var first := First(pending, batch, quota);
    Candidates(pending, Organizations(first.overflow), Ids(first.selected))
  }

  /** The places left for the second query. */
  function Room(pending: seq<Job>, batch: nat, quota: nat): int {
    batch - |First(pending, batch, quota).selected|
  }

  /** Jobs of an organisation among the oldest of the queue, and among those the second query can take. */
  function Reached(pending: seq<Job>, batch: nat, quota: nat, o: nat): nat
    requires 0 <= Room(pending, batch, quota) <= |Candidacy(pending, batch, quota)|
  {
    |OfOrg(Head(pending, batch), o)| + |OfOrg(Candidacy(pending, batch, quota)[..Room(pending, batch, quota)], o)|
  }

  /**
   * The second query is cut by its limit while it brings back more of one organisation than its quota
   * and less of another than its quota, neither of them set aside by the first query.
   */
  ghost predicate CutUnevenly(pending: seq<Job>, batch: nat, quota: nat) {
    && |First(pending, batch, quota).overflow| > 0
    && 0 <= Room(pending, batch, quota) < |Candidacy(pending, batch, quota)|
    && (exists o :: |OfOrg(Head(pending, batch), o)| <= quota && Reached(pending, batch, quota, o) > quota)
    && (exists o :: |OfOrg(Head(pending, batch), o)| <= quota
                 && Reached(pending, batch, quota, o) < Min(quota, |OfOrg(pending, o)|))
  }

  lemma FirstFits(pending: seq<Job>, batch: nat, quota: nat)
    ensures |First(pending, batch, quota).selected| + |First(pending, batch, quota).overflow| == Min(batch, |pending|)
    ensures Room(pending, batch, quota) >= 0
  {
    ShareCounts([], Head(pending, batch), quota);
  }

  /** Some job of the second query is over quota exactly when it brought too many of an organisation. */
  lemma RefusedExactly(pending: seq<Job>, batch: nat, quota: nat)
    requires Distinct(pending)
    ensures |Shared(pending, batch, quota)| < |First(pending, batch, quota).selected| + |Others(pending, batch, quota)| <==>
            exists o :: |OfOrg(Head(pending, batch), o)| <= quota && Fetched(pending, batch, quota, o) > quota
  {
    var first := First(pending, batch, quota);
    var others := Others(pending, batch, quota);
    var s := Share(first.selected, others, quota);
    ShareCounts(first.selected, others, quota);
    hide OfOrg, Share, First, Others;
    if o :| |OfOrg(Head(pending, batch), o)| <= quota && Fetched(pending, batch, quota, o) > quota {
      RefusedOf(pending, batch, quota, o);
      OfOrgMembers(s.overflow, o);
    }
    if |s.overflow| > 0 {
      var o := s.overflow[0].organization;
      OfOrgMembers(s.overflow, o);
      assert s.overflow[0] in OfOrg(s.overflow, o);
      RefusedOf(pending, batch, quota, o);
      OthersArePrefix(pending, batch, quota, o);
    }
  }

  lemma RefusedOf(pending: seq<Job>, batch: nat, quota: nat, o: nat)
    requires Distinct(pending)
    ensures var refused := Share(First(pending, batch, quota).selected, Others(pending, batch, quota), quota).overflow;
            |OfOrg(refused, o)| > 0 <==>
            |OfOrg(Head(pending, batch), o)| <= quota && Fetched(pending, batch, quota, o) > quota
  {
    hide OfOrg, Share, First, Others;
    FirstOfOrg(pending, batch, quota, o);
    OthersArePrefix(pending, batch, quota, o);
    ShareOfOrg(First(pending, batch, quota).selected, Others(pending, batch, quota), quota, o);
  }

  lemma CutQueryIsFull(pending: seq<Job>, batch: nat, quota: nat)
    requires |First(pending, batch, quota).overflow| > 0 && Room(pending, batch, quota) <= |Candidacy(pending, batch, quota)|
    ensures Room(pending, batch, quota) >= 0
    ensures Others(pending, batch, quota) == Candidacy(pending, batch, quota)[..Room(pending, batch, quota)]
  {
    FirstFits(pending, batch, quota);
    hide First, Candidates;
  }

  lemma WholeQueryFetches(pending: seq<Job>, batch: nat, quota: nat, o: nat)
    requires Distinct(pending)
    requires |First(pending, batch, quota).overflow| > 0 && |Candidacy(pending, batch, quota)| <= Room(pending, batch, quota)
    ensures QuotaFetched(pending, batch, quota, o)
  {
    var candidates := Candidacy(pending, batch, quota);
    assert candidates[..|candidates|] == candidates;
    assert Others(pending, batch, quota) == candidates;
    hide OfOrg, Others, First, Candidates;
    OthersOfOrg(pending, batch, quota, o);
    OfOrgPrefix(pending, |Head(pending, batch)|, o);
  }

  /** Over the whole queue the share is unfair exactly when the second query is cut unevenly. */
  lemma UnfairExactly(pending: seq<Job>, batch: nat, quota: nat)
    requires Distinct(pending) && DateOrder(pending)
    ensures !FairOverQueue(pending, batch, quota) <==> CutUnevenly(pending, batch, quota)
  {
    var first := First(pending, batch, quota);
    FairExactlyWhenFetched(pending, batch, quota);
    FirstFits(pending, batch, quota);
    if |first.overflow| == 0 {
      assert |Filler(pending, batch, quota)| == 0;
    } else if |Candidacy(pending, batch, quota)| <= Room(pending, batch, quota) {
      forall o ensures QuotaFetched(pending, batch, quota, o) { WholeQueryFetches(pending, batch, quota, o); }
    } else {
      UnfairWhenCut(pending, batch, quota);
    }
  }

  lemma UnfairWhenCut(pending: seq<Job>, batch: nat, quota: nat)
    requires Distinct(pending) && DateOrder(pending)
    requires |First(pending, batch, quota).overflow| > 0 && Room(pending, batch, quota) < |Candidacy(pending, batch, quota)|
    ensures !FairOverQueue(pending, batch, quota) <==> CutUnevenly(pending, batch, quota)
  {
    hide OfOrg, Others, First, Candidacy, Filler, Shared, FairOverQueue;
    FairExactlyWhenFetched(pending, batch, quota);
    CutQueryIsFull(pending, batch, quota);
    RefusedExactly(pending, batch, quota);
    FillerFits(pending, batch, quota);
    forall o ensures Reached(pending, batch, quota, o) == Fetched(pending, batch, quota, o) {}
    if o :| !QuotaFetched(pending, batch, quota, o) {
      assert |OfOrg(Head(pending, batch), o)| <= quota;
      assert Reached(pending, batch, quota, o) < Min(quota, |OfOrg(pending, o)|);
    }
    if CutUnevenly(pending, batch, quota) {
      var o :| Reached(pending, batch, quota, o) < Min(quota, |OfOrg(pending, o)|);
      assert !QuotaFetched(pending, batch, quota, o);
      var x :| |OfOrg(Head(pending, batch), x)| <= quota && Reached(pending, batch, quota, x) > quota;
      assert Fetched(pending, batch, quota, x) > quota;
    }
    if |Filler(pending, batch, quota)| > 0 {
      var x :| |OfOrg(Head(pending, batch), x)| <= quota && Fetched(pending, batch, quota, x) > quota;
      assert Reached(pending, batch, quota, x) > quota;
    }
  }

  lemma FillerFits(pending: seq<Job>, batch: nat, quota: nat)
    requires |First(pending, batch, quota).overflow| > 0
    ensures |Filler(pending, batch, quota)| > 0 <==> |Shared(pending, batch, quota)| < batch
  {
    hide First, Shared;
  }

  function Block(start: nat, n: nat, o: nat): seq<Job> {
    seq(n, (i: nat) => Job(start + i, o, start + i))
  }

  lemma {:induction false} OfOneOrganization(jobs: seq<Job>, o: nat, x: nat)
    requires forall job :: job in jobs ==> job.organization == o
    ensures OfOrg(jobs, x) == if x == o then jobs else []
  {
    if |jobs| > 0 {
      OfOneOrganization(jobs[..|jobs| - 1], o, x);
      assert jobs == jobs[..|jobs| - 1] + [jobs[|jobs| - 1]];
    }
  }

  lemma {:induction false} CandidatesAll(jobs: seq<Job>, capped: set<nat>, taken: set<nat>)
    requires forall job :: job in jobs ==> job.organization !in capped && job.id !in taken
    ensures Candidates(jobs, capped, taken) == jobs
  {
    if |jobs| > 0 {
      CandidatesAll(jobs[..|jobs| - 1], capped, taken);
      assert jobs == jobs[..|jobs| - 1] + [jobs[|jobs| - 1]];
    }
  }

  /** Fifty old jobs of one organisation, forty of a second, then a single one of a third. */
  function LateThird(): seq<Job> {
    Block(0, 50, 1) + Block(50, 40, 2) + Block(90, 1, 3)
  }

  lemma SharedAreGiven(jobs: seq<Job>, quota: nat, job: Job)
    requires var s := Share([], jobs, quota); job in s.selected || job in s.overflow
    ensures job in jobs
  {
    var s := Share([], jobs, quota);
    ShareIsSplit([], jobs, quota);
    hide Share;
    assert job in multiset(s.selected) + multiset(s.overflow);
    assert job in multiset(jobs);
  }

  /** A head that is all of one organisation: its quota is taken, the rest set aside. */
  lemma ShareOfOneOrganization(jobs: seq<Job>, quota: nat, o: nat)
    requires forall job :: job in jobs ==> job.organization == o
    ensures var s := Share([], jobs, quota);
            && |s.selected| == Min(quota, |jobs|) && |s.overflow| == |jobs| - Min(quota, |jobs|)
            && (forall job :: job in s.selected || job in s.overflow ==> job in jobs)
  {
    var s := Share([], jobs, quota);
    OfOrgEmpty();
    hide Share, OfOrg;
    ShareOfOrg([], jobs, quota, o);
    forall job | job in s.selected || job in s.overflow ensures job in jobs {
      SharedAreGiven(jobs, quota, job);
    }
    OfOneOrganization(jobs, o, o);
    OfOneOrganization(s.selected, o, o);
    OfOneOrganization(s.overflow, o, o);
  }

  lemma LateThirdFirst()
    ensures var first := First(LateThird(), BATCH, PUSH_JOBS_PER_ORGANIZATION);
            && |first.selected| == 10 && |first.overflow| == 40
            && (forall job :: job in first.selected || job in first.overflow ==> job in Block(0, 50, 1))
  {
    assert Head(LateThird(), BATCH) == Block(0, 50, 1);
    hide Share;
    ShareOfOneOrganization(Block(0, 50, 1), PUSH_JOBS_PER_ORGANIZATION, 1);
  }

  lemma LateThirdCandidates(capped: set<nat>, taken: set<nat>)
    requires capped == {1} && forall id :: id in taken ==> id < 50
    ensures Candidates(LateThird(), capped, taken) == Block(50, 40, 2) + Block(90, 1, 3)
  {
    hide Candidates;
    CandidatesNone(Block(0, 50, 1), capped, taken);
    CandidatesAll(Block(50, 40, 2) + Block(90, 1, 3), capped, taken);
    CandidatesAppend(Block(0, 50, 1), Block(50, 40, 2) + Block(90, 1, 3), capped, taken);
    assert LateThird() == Block(0, 50, 1) + (Block(50, 40, 2) + Block(90, 1, 3));
  }

  lemma LateThirdOthers()
    ensures Others(LateThird(), BATCH, PUSH_JOBS_PER_ORGANIZATION) == Block(50, 40, 2)
  {
    var first := First(LateThird(), BATCH, PUSH_JOBS_PER_ORGANIZATION);
    hide First, Candidates;
    LateThirdFirst();
    assert Organizations(first.overflow) == {1} by {
      assert first.overflow[0] in first.overflow;
    }
    LateThirdCandidates(Organizations(first.overflow), Ids(first.selected));
    assert (Block(50, 40, 2) + Block(90, 1, 3))[..40] == Block(50, 40, 2);
  }

  /** Forty jobs of one organisation beside ten of another: thirty of them are over the quota. */
  lemma LateThirdOverQuota(selected: seq<Job>)
    requires |selected| == 10
    ensures |Share(selected, Block(50, 40, 2), PUSH_JOBS_PER_ORGANIZATION).selected| <= 20
  {
    var others := Block(50, 40, 2);
    var s := Share(selected, others, PUSH_JOBS_PER_ORGANIZATION);
    OfOneOrganization(others, 2, 2);
    hide Share, OfOrg, Block;
    ShareOfOrg(selected, others, PUSH_JOBS_PER_ORGANIZATION, 2);
    ShareCounts(selected, others, PUSH_JOBS_PER_ORGANIZATION);
    OfOrgMembers(s.overflow, 2);
  }

  lemma LateThirdNeedsExcess()
    ensures |Filler(LateThird(), BATCH, PUSH_JOBS_PER_ORGANIZATION)| > 0
  {
    var first := First(LateThird(), BATCH, PUSH_JOBS_PER_ORGANIZATION);
    hide First, Others, Share, LateThird;
    LateThirdFirst();
    LateThirdOthers();
    LateThirdOverQuota(first.selected);
  }

  lemma LateThirdIsLeftOut()
    ensures OfOrg(Head(LateThird(), BATCH), 3) == []
    ensures OfOrg(Others(LateThird(), BATCH, PUSH_JOBS_PER_ORGANIZATION), 3) == []
    ensures OfOrg(LateThird(), 3) == Block(90, 1, 3)
  {
    hide OfOrg, Others;
    LateThirdOthers();
    OfOneOrganization(Block(0, 50, 1), 1, 3);
    OfOneOrganization(Block(50, 40, 2), 2, 3);
    OfOneOrganization(Block(90, 1, 3), 3, 3);
    assert Head(LateThird(), BATCH) == Block(0, 50, 1);
    OfOrgAppend(Block(0, 50, 1) + Block(50, 40, 2), Block(90, 1, 3), 3);
    OfOrgAppend(Block(0, 50, 1), Block(50, 40, 2), 3);
  }

  /**
   * With the production limits a job well inside its organisation's quota can be left out of the lot
   * while another organisation exceeds its own quota.
   */
  lemma FairnessFailsOverQueue()
    ensures Distinct(LateThird()) && DateOrder(LateThird())
    ensures OfOrg(Lot(LateThird(), BATCH, PUSH_JOBS_PER_ORGANIZATION), 3) == [] != OfOrg(LateThird(), 3)
    ensures !FairOverQueue(LateThird(), BATCH, PUSH_JOBS_PER_ORGANIZATION)
  {
    var all := LateThird();
    assert forall i :: 0 <= i < 91 ==> all[i].id == i && all[i].eventAt == i;
    hide LateThird, Head, OfOrg, Lot, Filler, Chosen, Others, Shared, FairOverQueue;
    LateThirdNeedsExcess();
    LateThirdIsLeftOut();
    LotIsPrefixPerOrganization(all, BATCH, PUSH_JOBS_PER_ORGANIZATION, 3);
    ChosenOfOrg(all, BATCH, PUSH_JOBS_PER_ORGANIZATION, 3);
    FairExactlyWhenFetched(all, BATCH, PUSH_JOBS_PER_ORGANIZATION);
    assert !QuotaFetched(all, BATCH, PUSH_JOBS_PER_ORGANIZATION, 3);
  }

  // ----- The selection as the dispatcher runs it -----

  ghost predicate Tally(perOrganization: map<nat, nat>, selected: seq<Job>) {
    forall o: nat :: (if o in perOrganization then perOrganization[o] else 0) == |OfOrg(selected, o)|
  }

  lemma TallyOneMore(counts: map<nat, nat>, selected: seq<Job>, job: Job)
    requires Tally(counts, selected)
    ensures Tally(counts[job.organization := |OfOrg(selected, job.organization)| + 1], selected + [job])
  {
    hide OfOrg;
    forall o: nat ensures |OfOrg(selected + [job], o)| == |OfOrg(selected, o)| + if o == job.organization then 1 else 0 {
      OfOrgSnoc(selected, job, o);
    }
  }

  lemma NextShare(selected: seq<Job>, jobs: seq<Job>, i: nat, quota: nat)
    requires i < |jobs|
    ensures var before := Share(selected, jobs[..i], quota);
            Share(selected, jobs[..i + 1], quota)
              == if |OfOrg(before.selected, jobs[i].organization)| >= quota
                 then Split(before.selected, before.overflow + [jobs[i]])
                 else Split(before.selected + [jobs[i]], before.overflow)
  {
    ShareLast(selected, jobs[..i + 1], quota);
    hide Share;
    assert jobs[..i + 1][..i] == jobs[..i];
  }

  /**
   * The sharing loop over one query's result: a counter by organisation, a list of the selected jobs
   * and a list of those over quota.
   */
  method ShareOut(perOrganization: map<nat, nat>, selected: seq<Job>, jobs: seq<Job>, quota: nat)
    returns (counts: map<nat, nat>, kept: seq<Job>, overflow: seq<Job>)
    requires Tally(perOrganization, selected)
    ensures Tally(counts, kept)
    ensures Split(kept, overflow) == Share(selected, jobs, quota)
  {
    counts, kept, overflow := perOrganization, selected, [];
    for i := 0 to |jobs|
      invariant Tally(counts, kept)
      invariant Split(kept, overflow) == Share(selected, jobs[..i], quota)
    {
      var job := jobs[i];
      var o := job.organization;
      var taken := if o in counts then counts[o] else 0;
      NextShare(selected, jobs, i, quota);
      hide Share, OfOrg;
      assert taken == |OfOrg(kept, o)|;
      if taken >= quota {
        overflow := overflow + [job];
      } else {
        TallyOneMore(counts, kept, job);
        counts := counts[o := taken + 1];
        kept := kept + [job];
      }
    }
    assert jobs[..|jobs|] == jobs;
  }

  /** The sort of the selection, by insertion: the same jobs, stable by date. */
  method SortByDate(jobs: seq<Job>) returns (sorted: seq<Job>)
    ensures sorted == SortedByDate(jobs)
  {
    sorted := [];
    for i := 0 to |jobs|
      invariant sorted == SortedByDate(jobs[..i])
    {
      assert jobs[..i + 1][..i] == jobs[..i];
      sorted := Inserted(sorted, jobs[i]);
    }
    assert jobs[..|jobs|] == jobs;
  }

  /** The excess of the capped organisations fills the places that are left. */
  method FillUp(selected: seq<Job>, overflow: seq<Job>, batch: nat) returns (full: seq<Job>)
    ensures full == selected
                 + if |selected| >= batch then [] else overflow[..Min(batch - |selected|, |overflow|)]
  {
    full := selected;
    var i := 0;
    while i < |overflow| && |full| < batch
      invariant i <= |overflow| && full == selected + overflow[..i]
      invariant i > 0 ==> |selected| + i <= batch
    {
      full := full + [overflow[i]];
      i := i + 1;
    }
  }

  /** One selection: two queries, the shares, the filler, the sort. */
  method SelectJobs(pending: seq<Job>) returns (jobs: seq<Job>, more: bool)
    ensures jobs == Lot(pending, BATCH, PUSH_JOBS_PER_ORGANIZATION)
    ensures more == (|Head(pending, BATCH)| == BATCH)
  {
    hide Share, OfOrg, Candidates, Inserted, SortedByDate;
    var head := Head(pending, BATCH);
    var perOrganization: map<nat, nat> := map[];
    OfOrgEmpty();
    var selected, overflow;
    perOrganization, selected, overflow := ShareOut(perOrganization, [], head, PUSH_JOBS_PER_ORGANIZATION);
    ShareCounts([], head, PUSH_JOBS_PER_ORGANIZATION);
    if |overflow| > 0 {
      var candidates := Candidates(pending, Organizations(overflow), Ids(selected));
      var others := candidates[..Min(BATCH - |selected|, |candidates|)];
      var ignored;
      perOrganization, selected, ignored := ShareOut(perOrganization, selected, others, PUSH_JOBS_PER_ORGANIZATION);
      selected := FillUp(selected, overflow, BATCH);
    } else {
      ShareNothing(selected, PUSH_JOBS_PER_ORGANIZATION);
    }
    assert selected == Chosen(pending, BATCH, PUSH_JOBS_PER_ORGANIZATION);
    jobs := SortByDate(selected);
    more := |head| == BATCH;
  }

  lemma ShareNothing(selected: seq<Job>, quota: nat)
    ensures Share(selected, [], quota) == Split(selected, [])
  {}
}
