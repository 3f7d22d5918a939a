/**
 * Bounded reuse of signed read URLs: a table in recency order, one signature under way per key.
 * A lookup and the completion of a signature are the two atomic steps; they interleave freely.
 */
module SignedUrlCache {
  import opened Options

  datatype Settings = Settings(maxEntries: nat, reuseMs: int)

  datatype Entry = Entry(key: string, url: string, reusableUntil: int)

  /** A signature: asked for a key at a time, then settled with a URL or, on failure, without one. */
  datatype Job = Job(key: string, signedAt: int, settled: bool, url: Option<string>)

  /** `entries` is in the iteration order of the table; `uses` records which keys were served or stored. */
  datatype Cache = Cache(entries: seq<Entry>, inFlight: map<string, nat>, jobs: seq<Job>, uses: seq<string>)

  const EMPTY_CACHE := Cache([], map[], [], [])

  datatype Answer = Hit(url: string) | Joined(job: nat) | Started(job: nat)

  function IndexOf(entries: seq<Entry>, key: string): (r: Option<nat>)
    ensures r.Some? ==> r.value < |entries| && entries[r.value].key == key
    ensures r.None? ==> forall e :: e in entries ==> e.key != key
  {
    if |entries| == 0 then None
    else if entries[0].key == key then Some(0)
    else
      var rest := IndexOf(entries[1..], key);
      if rest.Some? then Some(rest.value + 1) else None
  }

  function Without(entries: seq<Entry>, key: string): seq<Entry> {
    if |entries| == 0 then []
    else if entries[|entries| - 1].key == key then Without(entries[..|entries| - 1], key)
    else Without(entries[..|entries| - 1], key) + [entries[|entries| - 1]]
  }

  /** Storing under a present key keeps its place; a new key goes last. */
  function Stored(entries: seq<Entry>, e: Entry): seq<Entry> {
    var i := IndexOf(entries, e.key);
    if i.Some? then entries[i.value := e] else entries + [e]
  }

  /** Oldest entries leave until the table fits. */
  function Trimmed(entries: seq<Entry>, maxEntries: nat): seq<Entry> {
    if |entries| <= maxEntries then entries else entries[|entries| - maxEntries..]
  }

  /** `throwsAtOnce`: the signing function throws before returning a promise. */
  function Lookup(c: Cache, key: string, now: int, signedAt: int, throwsAtOnce: bool): (Cache, Answer) {
    var i := IndexOf(c.entries, key);
    if i.Some? && c.entries[i.value].reusableUntil > now then
      (c.(entries := Without(c.entries, key) + [c.entries[i.value]], uses := c.uses + [key]),
       Hit(c.entries[i.value].url))
    else
      var d := c.(entries := Without(c.entries, key));
      if key in c.inFlight then (d, Joined(c.inFlight[key]))
      else
        // A signature that throws at once has already removed its key when the key is recorded.
        (d.(jobs := c.jobs + [Job(key, signedAt, throwsAtOnce, None)], inFlight := c.inFlight[key := |c.jobs|]),
         Started(|c.jobs|))
  }

  function Complete(s: Settings, c: Cache, j: nat, url: Option<string>): Cache {
    if j >= |c.jobs| || c.jobs[j].settled then c
    else
      var job := c.jobs[j];
      var d := c.(jobs := c.jobs[j := job.(settled := true, url := url)], inFlight := c.inFlight - {job.key});
      if url.None? || s.reuseMs <= 0 then d
      else d.(
        entries := Trimmed(Stored(c.entries, Entry(job.key, url.value, job.signedAt + s.reuseMs)), s.maxEntries),
        uses := c.uses + [job.key])
  }

  // ----- Recency -----

  /** The position after the last use of a key; 0 when it was never used. */
  function LastUse(uses: seq<string>, key: string): nat {
    if |uses| == 0 then 0
    else if uses[|uses| - 1] == key then |uses|
    else LastUse(uses[..|uses| - 1], key)
  }

  lemma {:induction false} LastUseAppended(uses: seq<string>, used: string, key: string)
    ensures LastUse(uses + [used], key) == if used == key then |uses| + 1 else LastUse(uses, key)
    ensures LastUse(uses, key) <= |uses|
  {
    assert (uses + [used])[..|uses|] == uses;
    if |uses| > 0 { LastUseAppended(uses[..|uses| - 1], uses[|uses| - 1], key); assert uses[..|uses| - 1] + [uses[|uses| - 1]] == uses; }
  }

  /** The table is in recency order: each entry was used before the next, and all were used. */
  ghost predicate RecencyOrder(entries: seq<Entry>, uses: seq<string>) {
    && (forall i :: 0 <= i < |entries| ==> LastUse(uses, entries[i].key) > 0)
    && forall i, k :: 0 <= i < k < |entries| ==>
         LastUse(uses, entries[i].key) < LastUse(uses, entries[k].key)
  }

  lemma {:induction false} WithoutMembers(entries: seq<Entry>, key: string)
    ensures forall e :: e in Without(entries, key) <==> e in entries && e.key != key
  {
    if |entries| > 0 {
      WithoutMembers(entries[..|entries| - 1], key);
      assert entries == entries[..|entries| - 1] + [entries[|entries| - 1]];
    }
  }

  lemma {:induction false} WithoutShrinks(entries: seq<Entry>, key: string, i: nat)
    requires i < |entries| ==> entries[i].key == key
    ensures |Without(entries, key)| <= |entries|
    ensures i < |entries| ==> |Without(entries, key)| < |entries|
  {
    if |entries| > 0 { WithoutShrinks(entries[..|entries| - 1], key, i); }
  }

  lemma {:induction false} WithoutOrder(entries: seq<Entry>, uses: seq<string>, key: string)
    requires RecencyOrder(entries, uses)
    ensures RecencyOrder(Without(entries, key), uses)
  {
    hide LastUse;
    if |entries| > 0 {
      var front := entries[..|entries| - 1];
      var last := entries[|entries| - 1];
      WithoutOrder(front, uses, key);
      WithoutMembers(front, key);
      var kept := Without(front, key);
      forall i | 0 <= i < |kept| ensures LastUse(uses, kept[i].key) < LastUse(uses, last.key) {
        assert kept[i] in front;
      }
    }
  }

  lemma WithoutKeeps(entries: seq<Entry>, uses: seq<string>, key: string)
    requires RecencyOrder(entries, uses)
    ensures RecencyOrder(Without(entries, key), uses)
    ensures forall e :: e in Without(entries, key) <==> e in entries && e.key != key
    ensures |Without(entries, key)| <= |entries|
    ensures IndexOf(entries, key).Some? ==> |Without(entries, key)| < |entries|
  {
    var i := IndexOf(entries, key);
    WithoutOrder(entries, uses, key);
    WithoutMembers(entries, key);
    WithoutShrinks(entries, key, if i.Some? then i.value else |entries|);
  }

  /** The key just used goes last, and the order of the others does not move. */
  lemma UseKeepsOrder(entries: seq<Entry>, uses: seq<string>, e: Entry)
    requires RecencyOrder(entries, uses)
    requires forall f :: f in entries ==> f.key != e.key
    ensures RecencyOrder(entries + [e], uses + [e.key])
  {
    var all := entries + [e];
    forall i | 0 <= i < |all|
      ensures LastUse(uses + [e.key], all[i].key)
           == if i == |entries| then |uses| + 1 else LastUse(uses, entries[i].key)
    {
      LastUseAppended(uses, e.key, all[i].key);
      if i < |entries| { assert entries[i] in entries; }
    }
    forall i | 0 <= i < |entries| ensures LastUse(uses, entries[i].key) <= |uses| {
      LastUseAppended(uses, e.key, entries[i].key);
    }
  }

  // ----- What every interleaving keeps -----

  /** A URL signed for this key, and reusable for `reuseMs` from when its signature was asked. */
  ghost predicate SignedBy(s: Settings, jobs: seq<Job>, e: Entry, j: nat) {
    && j < |jobs|
    && jobs[j].settled && jobs[j].key == e.key && jobs[j].url == Some(e.url)
    && e.reusableUntil == jobs[j].signedAt + s.reuseMs
  }

  ghost predicate Signed(s: Settings, jobs: seq<Job>, e: Entry) {
    exists j: nat :: SignedBy(s, jobs, e, j)
  }

  ghost predicate UrlsSigned(s: Settings, jobs: seq<Job>, entries: seq<Entry>) {
    forall e :: e in entries ==> Signed(s, jobs, e)
  }

  /** Exactly one unsettled signature per in-flight key, and none under any other key. */
  ghost predicate SingleFlight(c: Cache) {
    && (forall key :: key in c.inFlight ==>
          && c.inFlight[key] < |c.jobs|
          && c.jobs[c.inFlight[key]].key == key && !c.jobs[c.inFlight[key]].settled)
    && forall j: nat :: j < |c.jobs| && !c.jobs[j].settled ==>
         c.jobs[j].key in c.inFlight && c.inFlight[c.jobs[j].key] == j
  }

  ghost predicate Disjoint(c: Cache) {
    forall e :: e in c.entries ==> e.key !in c.inFlight
  }

  ghost predicate CacheKept(s: Settings, c: Cache) {
    && |c.entries| <= s.maxEntries
    && RecencyOrder(c.entries, c.uses)
    && Disjoint(c)
    && SingleFlight(c)
    && UrlsSigned(s, c.jobs, c.entries)
  }

  lemma MoreJobsStillSigned(s: Settings, jobs: seq<Job>, entries: seq<Entry>, more: seq<Job>, fewer: seq<Entry>)
    requires UrlsSigned(s, jobs, entries) && |jobs| <= |more|
    requires forall e :: e in fewer ==> e in entries
    requires forall j: nat :: j < |jobs| && jobs[j].settled ==> more[j] == jobs[j]
    ensures UrlsSigned(s, more, fewer)
  {
    forall e | e in fewer ensures Signed(s, more, e) {
      assert Signed(s, jobs, e);
      var j: nat :| SignedBy(s, jobs, e, j);
      assert SignedBy(s, more, e, j);
    }
  }

  lemma LookupKeeps(s: Settings, c: Cache, key: string, now: int, signedAt: int)
    requires CacheKept(s, c)
    ensures CacheKept(s, Lookup(c, key, now, signedAt, false).0)
  {
    hide Without, IndexOf, LastUse;
    var (d, answer) := Lookup(c, key, now, signedAt, false);
    WithoutKeeps(c.entries, c.uses, key);
    if answer.Hit? {
      UseKeepsOrder(Without(c.entries, key), c.uses, c.entries[IndexOf(c.entries, key).value]);
    } else {
      hide RecencyOrder;
      StartKeepsSingleFlight(c, key, now, signedAt);
    }
    hide RecencyOrder, SingleFlight;
    MoreJobsStillSigned(s, c.jobs, c.entries, d.jobs, d.entries);
  }

  lemma StartKeepsSingleFlight(c: Cache, key: string, now: int, signedAt: int)
    requires SingleFlight(c)
    ensures SingleFlight(Lookup(c, key, now, signedAt, false).0)
  {}

  lemma TrimmedKeeps(entries: seq<Entry>, uses: seq<string>, maxEntries: nat)
    requires RecencyOrder(entries, uses)
    ensures RecencyOrder(Trimmed(entries, maxEntries), uses)
    ensures |Trimmed(entries, maxEntries)| <= maxEntries
    ensures forall e :: e in Trimmed(entries, maxEntries) ==> e in entries
  {}

  lemma CompleteKeepsSingleFlight(s: Settings, c: Cache, j: nat, url: Option<string>)
    requires SingleFlight(c)
    ensures SingleFlight(Complete(s, c, j, url))
  {
    if j < |c.jobs| && !c.jobs[j].settled { assert c.inFlight[c.jobs[j].key] == j; }
  }

  lemma CompleteKeeps(s: Settings, c: Cache, j: nat, url: Option<string>)
    requires CacheKept(s, c)
    ensures CacheKept(s, Complete(s, c, j, url))
  {
    hide RecencyOrder, UrlsSigned, LastUse, Stored, Trimmed, IndexOf;
    if j < |c.jobs| && !c.jobs[j].settled {
      var job := c.jobs[j];
      var d := Complete(s, c, j, url);
      assert job.key in c.inFlight;
      CompleteKeepsSingleFlight(s, c, j, url);
      MoreJobsStillSigned(s, c.jobs, c.entries, d.jobs, c.entries);
      if url.Some? && s.reuseMs > 0 {
        StoreKeeps(s, d.jobs, c.entries, c.uses, Entry(job.key, url.value, job.signedAt + s.reuseMs), j);
      }
      hide SingleFlight;
    }
  }

  lemma StoredGoesLast(entries: seq<Entry>, e: Entry)
    requires forall f :: f in entries ==> f.key != e.key
    ensures Stored(entries, e) == entries + [e]
  {}

  /** A freshly signed URL goes last; the oldest entries leave if the table is over its size. */
  lemma StoreKeeps(s: Settings, jobs: seq<Job>, entries: seq<Entry>, uses: seq<string>, e: Entry, j: nat)
    requires RecencyOrder(entries, uses) && UrlsSigned(s, jobs, entries) && SignedBy(s, jobs, e, j)
    requires forall f :: f in entries ==> f.key != e.key
    ensures var after := Trimmed(Stored(entries, e), s.maxEntries);
            && |after| <= s.maxEntries
            && RecencyOrder(after, uses + [e.key])
            && UrlsSigned(s, jobs, after)
            && forall f :: f in after ==> f in entries || f == e
  {
    StoredGoesLast(entries, e);
    UseKeepsOrder(entries, uses, e);
    TrimmedKeeps(entries + [e], uses + [e.key], s.maxEntries);
    hide Stored, Trimmed, IndexOf, LastUse, RecencyOrder;
    assert Signed(s, jobs, e);
  }

  datatype Action =
    | Get(key: string, now: int, signedAt: int, throwsAtOnce: bool)
    | Settle(job: nat, url: Option<string>)

  function Step(s: Settings, c: Cache, a: Action): Cache {
    match a
    case Get(key, now, signedAt, throwsAtOnce) => Lookup(c, key, now, signedAt, throwsAtOnce).0
    case Settle(j, url) => Complete(s, c, j, url)
  }

  function Run(s: Settings, c: Cache, actions: seq<Action>): Cache {
    if |actions| == 0 then c else Step(s, Run(s, c, actions[..|actions| - 1]), actions[|actions| - 1])
  }

  /** Every signature is asked asynchronously, as the one caller does. */
  ghost predicate Asynchronous(actions: seq<Action>) {
    forall i :: 0 <= i < |actions| ==> (actions[i].Get? ==> !actions[i].throwsAtOnce)
  }

  lemma {:induction false} RunKeeps(s: Settings, actions: seq<Action>)
    requires Asynchronous(actions)
    ensures CacheKept(s, Run(s, EMPTY_CACHE, actions))
  {
    if |actions| > 0 {
      hide CacheKept;
      RunKeeps(s, actions[..|actions| - 1]);
      var c := Run(s, EMPTY_CACHE, actions[..|actions| - 1]);
      match actions[|actions| - 1]
      case Get(key, now, signedAt, _) => LookupKeeps(s, c, key, now, signedAt);
      case Settle(j, url) => CompleteKeeps(s, c, j, url);
    } else {
      assert CacheKept(s, EMPTY_CACHE);
    }
  }

  /** Every hit was signed for this very key, less than `reuseMs` before it is served. */
  lemma HitsAreFresh(s: Settings, actions: seq<Action>, key: string, now: int, signedAt: int)
    requires Asynchronous(actions)
    requires Lookup(Run(s, EMPTY_CACHE, actions), key, now, signedAt, false).1.Hit?
    ensures var c := Run(s, EMPTY_CACHE, actions); var answer := Lookup(c, key, now, signedAt, false).1;
            exists j: nat :: j < |c.jobs| && c.jobs[j].key == key && c.jobs[j].url == Some(answer.url)
                          && now < c.jobs[j].signedAt + s.reuseMs
  {
    RunKeeps(s, actions);
    var c := Run(s, EMPTY_CACHE, actions);
    var e := c.entries[IndexOf(c.entries, key).value];
    assert Signed(s, c.jobs, e);
    var j: nat :| SignedBy(s, c.jobs, e, j);
  }

  /** A lookup of a key being signed joins that signature: never two at a time for one key. */
  lemma OneSignaturePerKey(s: Settings, actions: seq<Action>, i: nat, j: nat)
    requires Asynchronous(actions)
    ensures var c := Run(s, EMPTY_CACHE, actions);
            i < |c.jobs| && j < |c.jobs| && !c.jobs[i].settled && !c.jobs[j].settled && c.jobs[i].key == c.jobs[j].key
            ==> i == j
  {
    RunKeeps(s, actions);
  }

  /**
   * What a completion changes: a failure stores nothing and frees the key; a success makes its key
   * the most recent one and drops, at most, the least recently used.
   */
  lemma CompletionEffect(s: Settings, c: Cache, j: nat, url: Option<string>)
    requires CacheKept(s, c) && j < |c.jobs| && !c.jobs[j].settled
    ensures var d := Complete(s, c, j, url); var key := c.jobs[j].key;
            && key in c.inFlight && d.inFlight == c.inFlight - {key}
            && (url.None? || s.reuseMs <= 0 ==> d.entries == c.entries)
            && (url.Some? && s.reuseMs > 0 && s.maxEntries > 0 ==>
                  && d.entries[|d.entries| - 1] == Entry(key, url.value, c.jobs[j].signedAt + s.reuseMs)
                  && d.entries[..|d.entries| - 1] == (if |c.entries| == s.maxEntries then c.entries[1..] else c.entries)
                  && (|c.entries| == s.maxEntries ==>
                        forall e :: e in c.entries[1..] ==> LastUse(c.uses, c.entries[0].key) < LastUse(c.uses, e.key)))
  {
    assert IndexOf(c.entries, c.jobs[j].key).None?;
  }

  /** A table in recency order has one entry of a key at most: the first found is it. */
  lemma OneEntryPerKey(c: Cache, key: string, i: nat)
    requires RecencyOrder(c.entries, c.uses) && i < |c.entries| && c.entries[i].key == key
    ensures IndexOf(c.entries, key) == Some(i)
  {
    var k := IndexOf(c.entries, key).value;
    assert LastUse(c.uses, c.entries[i].key) == LastUse(c.uses, c.entries[k].key);
  }

  /** A hit serves the entry and only makes it the most recent; nothing enters or leaves the table. */
  lemma HitEffect(s: Settings, c: Cache, key: string, now: int, signedAt: int)
    requires CacheKept(s, c) && Lookup(c, key, now, signedAt, false).1.Hit?
    ensures var (d, answer) := Lookup(c, key, now, signedAt, false);
            && (forall e :: e in d.entries <==> e in c.entries)
            && d.entries[|d.entries| - 1].key == key && d.entries[|d.entries| - 1].url == answer.url
            && d.inFlight == c.inFlight && d.jobs == c.jobs
  {
    WithoutKeeps(c.entries, c.uses, key);
    var i := IndexOf(c.entries, key).value;
    forall e | e in c.entries ensures e.key == key ==> e == c.entries[i] {
      var k :| 0 <= k < |c.entries| && c.entries[k] == e;
      if e.key == key { OneEntryPerKey(c, key, k); }
    }
  }

  /** The table holds a URL of this key that may still be served at this instant. */
  ghost predicate Fresh(c: Cache, key: string, now: int, url: string) {
    exists i :: 0 <= i < |c.entries| && c.entries[i].key == key && c.entries[i].url == url && now < c.entries[i].reusableUntil
  }

  /**
   * After any run, a lookup serves the stored URL exactly while it may be reused; else it joins the
   * signature under way for its key, or starts one. Unless it serves, it drops what was stored for the
   * key and nothing else.
   */
  lemma LookupExactly(s: Settings, actions: seq<Action>, key: string, now: int, signedAt: int, url: string)
    requires Asynchronous(actions)
    ensures var c := Run(s, EMPTY_CACHE, actions); var (d, answer) := Lookup(c, key, now, signedAt, false);
            && (answer == Hit(url) <==> Fresh(c, key, now, url))
            && (!answer.Hit? ==>
                  && (forall other :: !Fresh(c, key, now, other))
                  && (forall e :: e in d.entries <==> e in c.entries && e.key != key)
                  && (key in c.inFlight ==> answer == Joined(c.inFlight[key]) && d.inFlight == c.inFlight && d.jobs == c.jobs)
                  && (key !in c.inFlight ==>
                        && answer == Started(|c.jobs|) && d.inFlight == c.inFlight[key := |c.jobs|]
                        && d.jobs == c.jobs + [Job(key, signedAt, false, None)]))
  {
    RunKeeps(s, actions);
    var c := Run(s, EMPTY_CACHE, actions);
    hide Run, LastUse, RecencyOrder, UrlsSigned, SingleFlight, Without;
    WithoutKeeps(c.entries, c.uses, key);
    forall i: nat | i < |c.entries| && c.entries[i].key == key ensures IndexOf(c.entries, key) == Some(i) {
      OneEntryPerKey(c, key, i);
    }
    hide IndexOf;
  }

  /** A signature that succeeds is served to the next lookup of its key within the reuse time. */
  lemma SignedThenServed(s: Settings, actions: seq<Action>, j: nat, url: string, now: int, signedAt: int)
    requires Asynchronous(actions) && s.maxEntries > 0
    requires var c := Run(s, EMPTY_CACHE, actions); j < |c.jobs| && !c.jobs[j].settled
    ensures var c := Run(s, EMPTY_CACHE, actions); var d := Complete(s, c, j, Some(url)); var key := c.jobs[j].key;
            now < c.jobs[j].signedAt + s.reuseMs && s.reuseMs > 0 ==> Lookup(d, key, now, signedAt, false).1 == Hit(url)
  {
    RunKeeps(s, actions);
    var c := Run(s, EMPTY_CACHE, actions);
    var d := Complete(s, c, j, Some(url));
    CompleteKeeps(s, c, j, Some(url));
    CompletionEffect(s, c, j, Some(url));
    hide Run, Complete, LastUse;
    if s.reuseMs > 0 { OneEntryPerKey(d, c.jobs[j].key, |d.entries| - 1); }
  }

  /** The key is stuck on a settled signature: every lookup joins it and nothing frees it. */
  ghost predicate Stuck(c: Cache, key: string, j: nat) {
    && key in c.inFlight && c.inFlight[key] == j && j < |c.jobs| && c.jobs[j].settled
    && (forall e :: e in c.entries ==> e.key != key)
    && forall k: nat :: k < |c.jobs| && !c.jobs[k].settled ==> c.jobs[k].key != key
  }

  lemma StepKeepsStuck(s: Settings, c: Cache, key: string, j: nat, a: Action)
    requires Stuck(c, key, j)
    ensures Stuck(Step(s, c, a), key, j)
    ensures a.Get? && a.key == key ==> Lookup(c, key, a.now, a.signedAt, a.throwsAtOnce).1 == Joined(j)
  {
    match a
    case Get(k, now, signedAt, throwsAtOnce) =>
      WithoutMembers(c.entries, k);
      hide Without, Complete;
    case Settle(k, url) => hide Lookup;
  }

  /** Whatever is asked or settled later: every lookup of a stuck key joins the failed signature. */
  lemma {:induction false} StuckForGood(s: Settings, c: Cache, key: string, j: nat, actions: seq<Action>,
                                        now: int, signedAt: int, throwsAtOnce: bool)
    requires Stuck(c, key, j)
    ensures Stuck(Run(s, c, actions), key, j)
    ensures Lookup(Run(s, c, actions), key, now, signedAt, throwsAtOnce).1 == Joined(j)
  {
    if |actions| > 0 {
      StuckForGood(s, c, key, j, actions[..|actions| - 1], now, signedAt, throwsAtOnce);
      StepKeepsStuck(s, Run(s, c, actions[..|actions| - 1]), key, j, actions[|actions| - 1]);
    }
    StepKeepsStuck(s, Run(s, c, actions), key, j, Get(key, now, signedAt, throwsAtOnce));
  }

  /**
   * Why the signing function must be asynchronous: started from any sound cache, a signature is freed
   * by its completion when it does not throw at once, and is stuck from the start when it does.
   */
  lemma FreedUnlessThrownAtOnce(s: Settings, c: Cache, key: string, now: int, signedAt: int, throwsAtOnce: bool)
    requires CacheKept(s, c) && Lookup(c, key, now, signedAt, throwsAtOnce).1.Started?
    ensures var (d, answer) := Lookup(c, key, now, signedAt, throwsAtOnce);
            && (throwsAtOnce ==> Stuck(d, key, answer.job))
            && (!throwsAtOnce <==> forall url :: key !in Complete(s, d, answer.job, url).inFlight)
  {
    WithoutKeeps(c.entries, c.uses, key);
    hide Without, IndexOf, RecencyOrder, UrlsSigned, LastUse;
    var (d, answer) := Lookup(c, key, now, signedAt, throwsAtOnce);
    if throwsAtOnce { assert key in Complete(s, d, answer.job, None).inFlight; }
  }

  // ----- The cache object -----

  class SignedUrlCache {
    const settings: Settings
    var entries: seq<Entry>
    var inFlight: map<string, nat>
    var jobs: seq<Job>
    ghost var uses: seq<string>

    ghost function Contents(): Cache
      reads this
    {
      Cache(entries, inFlight, jobs, uses)
    }

    constructor (settings: Settings)
      ensures this.settings == settings && Contents() == EMPTY_CACHE
    {
      this.settings := settings;
      entries, inFlight, jobs, uses := [], map[], [], [];
    }

    method Get(key: string, now: int, signedAt: int) returns (answer: Answer)
      modifies this
      ensures (Contents(), answer) == Lookup(old(Contents()), key, now, signedAt, false)
    {
      var cached := IndexOf(entries, key);
      if cached.Some? {
        var entry := entries[cached.value];
        entries := Without(entries, key);
        if entry.reusableUntil > now {
          entries := entries + [entry];
          uses := uses + [key];
          return Hit(entry.url);
        }
      } else {
        WithoutAbsent(entries, key);
      }
      if key in inFlight { return Joined(inFlight[key]); }
      inFlight := inFlight[key := |jobs|];
      jobs := jobs + [Job(key, signedAt, false, None)];
      answer := Started(|jobs| - 1);
    }

    method Evict()
      modifies this`entries
      ensures entries == Trimmed(old(entries), settings.maxEntries)
    {
      while |entries| > settings.maxEntries
        invariant Trimmed(entries, settings.maxEntries) == Trimmed(old(entries), settings.maxEntries)
        decreases |entries|
      {
        entries := entries[1..];
      }
    }

    method Settle(job: nat, url: Option<string>)
      requires job < |jobs| && !jobs[job].settled
      modifies this
      ensures Contents() == Complete(settings, old(Contents()), job, url)
    {
      var key := jobs[job].key;
      if url.Some? && settings.reuseMs > 0 {
        entries := Stored(entries, Entry(key, url.value, jobs[job].signedAt + settings.reuseMs));
        Evict();
        uses := uses + [key];
      }
      jobs := jobs[job := jobs[job].(settled := true, url := url)];
      inFlight := inFlight - {key};
    }
  }

  lemma {:induction false} WithoutAbsent(entries: seq<Entry>, key: string)
    requires forall e :: e in entries ==> e.key != key
    ensures Without(entries, key) == entries
  {
    if |entries| > 0 {
      assert entries[|entries| - 1] in entries;
      WithoutAbsent(entries[..|entries| - 1], key);
    }
  }
}
