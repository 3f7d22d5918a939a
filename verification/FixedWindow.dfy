/**
 * Quotas counted in restarting windows: a window opens at its first event, lasts `length` and admits
 * `limit` events. Two services count this way; what the scheme guarantees is proved here once.
 */
module FixedWindow {
  import opened Options

  datatype Window = Window(startedAt: int, count: nat)

  /** The window a request sees: an expired one is as good as none. */
  function Current(w: Option<Window>, now: int, length: int): Option<Window> {
    if w.Some? && now - w.value.startedAt >= length then None else w
  }

  /** The window after admitting an event, or `None` when the quota refuses it. */
  function Admit(w: Option<Window>, now: int, length: int, limit: nat): Option<Window> {
    match Current(w, now, length)
    case None => Some(Window(now, 1))
    case Some(open) => if open.count >= limit then None else Some(Window(open.startedAt, open.count + 1))
  }

  // ----- The log of admitted events -----

  /** Times of the admitted events, and for each the index of the first event of its window. */
  datatype Log = Log(times: seq<int>, heads: seq<nat>)

  const EMPTY_LOG := Log([], [])

  ghost predicate Ordered(times: seq<int>) {
    forall i, j :: 0 <= i <= j < |times| ==> times[i] <= times[j]
  }

  /** Event i is in the window of its head: of the previous event's, or one that i opens. */
  ghost predicate Placed(log: Log, i: nat, length: int, limit: nat)
    requires |log.times| == |log.heads| && i < |log.heads|
  {
    var h := log.heads[i];
    && h <= i < h + limit
    && log.times[i] < log.times[h] + length
    && (i == 0 ==> h == 0)
    && (i > 0 && h != log.heads[i - 1] ==>
          h == i && log.heads[i - 1] < i && log.times[i] >= log.times[log.heads[i - 1]] + length)
  }

  ghost predicate Kept(log: Log, length: int, limit: nat) {
    && |log.times| == |log.heads|
    && Ordered(log.times)
    && forall i: nat :: i < |log.heads| ==> Placed(log, i, length, limit)
  }

  /** `w` is what remains of the log at time `clock`. */
  ghost predicate Tracks(w: Option<Window>, log: Log, clock: int, length: int)
  {
    var n := |log.times|;
    && |log.heads| == n
    && (n > 0 ==> log.heads[n - 1] < n)
    && (n > 0 ==> log.times[n - 1] <= clock)
    && (w.None? && n > 0 ==> clock >= log.times[log.heads[n - 1]] + length)
    && (w.Some? ==> n > 0 && w.value == Window(log.times[log.heads[n - 1]], n - log.heads[n - 1]))
  }

  function Extended(log: Log, w: Window, now: int): Log {
    Log(log.times + [now],
        log.heads + [if w.count == 1 || |log.heads| == 0 then |log.times| else log.heads[|log.heads| - 1]])
  }

  lemma AdmitKeeps(w: Option<Window>, log: Log, clock: int, now: int, length: int, limit: nat)
    requires length > 0 && limit >= 1 && clock <= now
    requires Kept(log, length, limit) && Tracks(w, log, clock, length)
    requires Admit(w, now, length, limit).Some?
    ensures var v := Admit(w, now, length, limit).value;
            Kept(Extended(log, v, now), length, limit) && Tracks(Some(v), Extended(log, v, now), now, length)
  {
    var n := |log.times|;
    if n > 0 { assert Placed(log, n - 1, length, limit); }
    if Current(w, now, length).None? {
      assert n > 0 ==> now >= log.times[log.heads[n - 1]] + length;
      ExtendKeeps(log, n, now, length, limit);
    } else {
      ExtendKeeps(log, log.heads[n - 1], now, length, limit);
    }
  }

  lemma StillOrdered(times: seq<int>, now: int)
    requires Ordered(times) && (|times| > 0 ==> times[|times| - 1] <= now)
    ensures Ordered(times + [now])
  {
    forall i | 0 <= i < |times| ensures times[i] <= now {
      assert times[i] <= times[|times| - 1];
    }
  }

  lemma StillPlaced(log: Log, head: nat, now: int, length: int, limit: nat, i: nat)
    requires Kept(log, length, limit) && i < |log.times|
    ensures Placed(Log(log.times + [now], log.heads + [head]), i, length, limit)
  {
    assert Placed(log, i, length, limit);
    if i > 0 { assert Placed(log, i - 1, length, limit); }
    hide Ordered;
  }

  /** One more event, in the window of the last one or at the head of a new one. */
  lemma ExtendKeeps(log: Log, head: nat, now: int, length: int, limit: nat)
    requires length > 0 && limit >= 1 && Kept(log, length, limit)
    requires |log.times| > 0 ==> log.times[|log.times| - 1] <= now && log.heads[|log.times| - 1] < |log.times|
    requires
      || (head == |log.times| && (head > 0 ==> now >= log.times[log.heads[head - 1]] + length))
      || (&& |log.times| > 0 && head == log.heads[|log.times| - 1]
          && |log.times| < head + limit && now < log.times[head] + length)
    ensures Kept(Log(log.times + [now], log.heads + [head]), length, limit)
  {
    var next := Log(log.times + [now], log.heads + [head]);
    var n := |log.times|;
    StillOrdered(log.times, now);
    forall i: nat | i < n + 1 ensures Placed(next, i, length, limit) {
      if i < n { StillPlaced(log, head, now, length, limit, i); }
      else if n > 0 { assert Placed(log, n - 1, length, limit); }
    }
    hide Ordered, Placed;
  }

  lemma WaitKeeps(w: Option<Window>, log: Log, clock: int, now: int, length: int, limit: nat)
    requires clock <= now && Kept(log, length, limit) && Tracks(w, log, clock, length)
    ensures Tracks(w, log, now, length) && Tracks(Current(w, now, length), log, now, length)
  {}

  /** An event is admitted exactly when the window of the last one is over, or has a place left. */
  lemma AdmitsExactly(w: Option<Window>, log: Log, clock: int, now: int, length: int, limit: nat)
    requires limit >= 1 && clock <= now && Kept(log, length, limit) && Tracks(w, log, clock, length)
    ensures var n := |log.times|;
            Admit(w, now, length, limit).Some? <==>
            n == 0 || now >= log.times[log.heads[n - 1]] + length || n - log.heads[n - 1] < limit
  {
    if |log.times| > 0 { assert Placed(log, |log.times| - 1, length, limit); }
  }

  // ----- What the scheme guarantees -----

  /** A window holds at most `limit` events and less than `length` of time. */
  lemma WindowHolds(log: Log, length: int, limit: nat, i: nat, j: nat)
    requires Kept(log, length, limit)
    requires i <= j < |log.heads| && log.heads[i] == log.heads[j]
    ensures j - i + 1 <= limit && log.times[j] - log.times[i] < length
  {
    assert Placed(log, i, length, limit) && Placed(log, j, length, limit);
    assert log.times[log.heads[i]] <= log.times[i];
  }

  /** Within `limit` events of any event, itself included, the window after its own has opened. */
  lemma {:induction false} NextHead(log: Log, length: int, limit: nat, i: nat, h: nat) returns (j: nat)
    requires Kept(log, length, limit)
    requires i < |log.heads| && h == log.heads[i] && h + limit < |log.heads|
    ensures i < j <= h + limit && log.heads[j] == j && log.times[j] >= log.times[h] + length
    decreases |log.heads| - i
  {
    assert Placed(log, i, length, limit) && Placed(log, i + 1, length, limit);
    if log.heads[i + 1] == h {
      j := NextHead(log, length, limit, i + 1, h);
    } else {
      j := i + 1;
    }
  }

  /** Any 2 * limit consecutive events span at least a full window. */
  lemma Spread(log: Log, length: int, limit: nat, i: nat)
    requires limit >= 1 && Kept(log, length, limit) && i + 2 * limit <= |log.times|
    ensures log.times[i + 2 * limit - 1] - log.times[i] >= length
  {
    var h := log.heads[i];
    assert Placed(log, i, length, limit);
    var j := NextHead(log, length, limit, i, h);
    var last := i + 2 * limit - 1;
    if h == i {
      assert log.times[j] <= log.times[last];
    } else {
      assert j + limit <= last;
      var k := NextHead(log, length, limit, j, j);
      assert log.times[i] <= log.times[j];
      assert log.times[k] <= log.times[last];
    }
  }

  /** How many of the times fall in the half-open interval [from, until). */
  function CountIn(times: seq<int>, from: int, until: int): nat {
    if |times| == 0 then 0
    else CountIn(times[..|times| - 1], from, until)
         + if from <= times[|times| - 1] < until then 1 else 0
  }

  /** In an ordered log whose last event is inside, the events inside are the last ones. */
  lemma {:induction false} CountedAreLast(times: seq<int>, from: int, until: int)
    requires Ordered(times)
    ensures CountIn(times, from, until) <= |times|
    ensures |times| > 0 && times[|times| - 1] < until && CountIn(times, from, until) > 0 ==>
            times[|times| - CountIn(times, from, until)] >= from
  {
    if |times| > 0 {
      var front := times[..|times| - 1];
      CountedAreLast(front, from, until);
      if |front| > 0 && times[|times| - 1] < until && CountIn(front, from, until) > 0 {
        assert front[|front| - 1] <= times[|times| - 1];
        var first := |front| - CountIn(front, from, until);
        assert times[first] == front[first] >= from;
        assert times[first] <= times[|times| - 1];
      }
    }
  }

  lemma {:induction false} SlidingBound(log: Log, length: int, limit: nat, n: nat, from: int)
    requires length > 0 && limit >= 1 && Kept(log, length, limit) && n <= |log.times|
    ensures CountIn(log.times[..n], from, from + length) <= 2 * limit - 1
  {
    if n > 0 {
      var times := log.times[..n];
      assert times[..n - 1] == log.times[..n - 1];
      SlidingBound(log, length, limit, n - 1, from);
      if from <= times[n - 1] < from + length {
        CountedAreLast(times, from, from + length);
        if CountIn(times, from, from + length) >= 2 * limit {
          var first := n - CountIn(times, from, from + length);
          assert log.times[first] <= log.times[n - 2 * limit];
          Spread(log, length, limit, n - 2 * limit);
          assert false;
        }
      }
    }
  }

  /** Any half-open interval as long as a window holds at most 2 * limit - 1 events. */
  lemma AnyInterval(log: Log, length: int, limit: nat, from: int)
    requires length > 0 && limit >= 1 && Kept(log, length, limit)
    ensures CountIn(log.times, from, from + length) <= 2 * limit - 1
  {
    SlidingBound(log, length, limit, |log.times|, from);
    assert log.times[..|log.times|] == log.times;
  }

  // ----- When the same limit also holds of a sliding window -----

  ghost predicate Fits(times: seq<int>, from: int, length: int, limit: nat) {
    CountIn(times, from, from + length) <= limit
  }

  /** Every half-open interval as long as a window holds at most `limit` events. */
  ghost predicate Sliding(times: seq<int>, length: int, limit: nat) {
    forall from :: Fits(times, from, length, limit)
  }

  /** Each event comes a full window after the one `limit` places before it. */
  ghost predicate SpreadOut(times: seq<int>, length: int, limit: nat) {
    forall i :: limit <= i < |times| ==> times[i] - times[i - limit] >= length
  }

  lemma {:induction false} CountAtLeast(times: seq<int>, from: int, until: int, a: nat, b: nat)
    requires a <= b <= |times| && forall i :: a <= i < b ==> from <= times[i] < until
    ensures CountIn(times, from, until) >= b - a
  {
    if |times| > 0 && a < b {
      var front := times[..|times| - 1];
      CountAtLeast(front, from, until, a, if b == |times| then b - 1 else b);
    }
  }

  lemma {:induction false} SpreadOutIsSliding(times: seq<int>, length: int, limit: nat, from: int)
    requires Ordered(times) && SpreadOut(times, length, limit)
    ensures Fits(times, from, length, limit)
  {
    if |times| > 0 {
      var n := |times|;
      var front := times[..n - 1];
      assert Ordered(front) && SpreadOut(front, length, limit);
      SpreadOutIsSliding(front, length, limit, from);
      CountedAreLast(times, from, from + length);
      if limit < n { assert times[n - 1] - times[n - 1 - limit] >= length; }
    }
  }

  lemma SlidingIsSpreadOut(times: seq<int>, length: int, limit: nat, i: nat)
    requires Ordered(times) && Sliding(times, length, limit) && limit <= i < |times|
    ensures times[i] - times[i - limit] >= length
  {
    var from := times[i - limit];
    assert Fits(times, from, length, limit);
    if times[i] - from < length {
      forall k | i - limit <= k < i + 1 ensures from <= times[k] < from + length {
        assert times[i - limit] <= times[k] <= times[i];
      }
      CountAtLeast(times, from, from + length, i - limit, i + 1);
    }
  }

  /**
   * The limit holds of every sliding window exactly when each event comes a full window after the one
   * `limit` places before it.
   */
  lemma SlidingExactly(times: seq<int>, length: int, limit: nat)
    requires Ordered(times)
    ensures Sliding(times, length, limit) <==> SpreadOut(times, length, limit)
  {
    if SpreadOut(times, length, limit) {
      forall from ensures Fits(times, from, length, limit) {
        SpreadOutIsSliding(times, length, limit, from);
      }
    }
    if Sliding(times, length, limit) {
      forall i | limit <= i < |times| ensures times[i] - times[i - limit] >= length {
        SlidingIsSpreadOut(times, length, limit, i);
      }
    }
  }

  /** One more event keeps the sliding limit exactly when it comes a window after the limit-th last. */
  lemma SlidingAfterOneMore(times: seq<int>, now: int, length: int, limit: nat)
    requires Ordered(times + [now]) && Sliding(times, length, limit) && limit >= 1
    ensures Sliding(times + [now], length, limit) <==> |times| < limit || now - times[|times| - limit] >= length
  {
    var after := times + [now];
    assert Ordered(times) by {
      assert forall i :: 0 <= i < |times| ==> after[i] == times[i];
    }
    SlidingExactly(times, length, limit);
    SlidingExactly(after, length, limit);
    hide Sliding;
    if |times| >= limit {
      assert after[|times|] == now && after[|times| - limit] == times[|times| - limit];
    }
  }
}
