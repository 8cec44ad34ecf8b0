/** Throughput counter: a running total of completed operations and a
    two-bucket window of per-second counts, oldest bucket first. The oldest
    bucket is the last second known to be complete and is what the counter
    reports as its rate.

    The specification side is a per-second history: the run-length record of
    every timestamp ever fed to the counter, starting from the two zero
    placeholder buckets a new counter holds. The counter's window is always the
    newest two buckets of that history. */
module Analytics {

  /** A Unix second together with the number of operations counted in it. */
  datatype TimeCountPair = TimeCountPair(ts: int, count: nat)

  /** The window of a fresh counter: two zero buckets for second 0. */
  function InitialWindow(): seq<TimeCountPair>
  {
    [TimeCountPair(0, 0), TimeCountPair(0, 0)]
  }

  /** Sum of the counts held in a run of buckets. */
  function CountSum(w: seq<TimeCountPair>): nat
  {
    if w == [] then 0 else w[0].count + CountSum(w[1..])
  }

  lemma {:induction false} CountSumAppend(a: seq<TimeCountPair>, b: seq<TimeCountPair>)
    ensures CountSum(a + b) == CountSum(a) + CountSum(b)
  {
    if a == [] {
      assert a + b == b;
    } else {
      assert (a + b)[1..] == a[1..] + b;
      CountSumAppend(a[1..], b);
    }
  }

  /** The newest n buckets of a history. */
  function Newest(h: seq<TimeCountPair>, n: nat): seq<TimeCountPair>
    requires n <= |h|
  {
    h[|h| - n..]
  }

  /** Records one operation at second t in a per-second history: the newest
      bucket grows when it is for second t; otherwise it is closed and a new
      bucket (t, 1) is opened after it. Buckets already closed never change. */
  function Record(h: seq<TimeCountPair>, t: int): (r: seq<TimeCountPair>)
    ensures |r| == |h| || |r| == |h| + 1
    ensures |r| > 0 && r[|r| - 1].ts == t
    ensures forall i :: 0 <= i < |h| - 1 ==> r[i] == h[i]
    ensures |r| == |h| <==> (|h| > 0 && h[|h| - 1].ts == t)
    ensures |r| == |h| ==> r[|h| - 1] == TimeCountPair(t, h[|h| - 1].count + 1)
    ensures |r| == |h| + 1 ==> r[|h|] == TimeCountPair(t, 1) && (|h| > 0 ==> r[|h| - 1] == h[|h| - 1])
  {
    if |h| > 0 && h[|h| - 1].ts == t then
      h[|h| - 1 := TimeCountPair(t, h[|h| - 1].count + 1)]
    else
      h + [TimeCountPair(t, 1)]
  }

  /** Recording an operation adds exactly one to the counts of a history. */
  lemma {:induction false} RecordCountsOne(h: seq<TimeCountPair>, t: int)
    ensures CountSum(Record(h, t)) == CountSum(h) + 1
  {
    if |h| > 0 && h[|h| - 1].ts == t {
      var last := |h| - 1;
      assert h == h[..last] + [h[last]];
      assert Record(h, t) == h[..last] + [TimeCountPair(t, h[last].count + 1)];
      CountSumAppend(h[..last], [h[last]]);
      CountSumAppend(h[..last], [TimeCountPair(t, h[last].count + 1)]);
    } else {
      CountSumAppend(h, [TimeCountPair(t, 1)]);
    }
  }

  /** The per-second history after the given timestamps have been fed, in
      order, to a fresh counter. */
  function History(seen: seq<int>): (h: seq<TimeCountPair>)
    ensures 2 <= |h| <= |seen| + 2
  {
    if seen == [] then InitialWindow()
    else Record(History(seen[..|seen| - 1]), seen[|seen| - 1])
  }

  /** Every operation fed to the counter is counted in exactly one bucket of
      the history: whatever order the timestamps arrive in, the counts add up
      to the number of operations. */
  lemma {:induction false} HistoryCounts(seen: seq<int>)
    ensures CountSum(History(seen)) == |seen|
  {
    if seen != [] {
      HistoryCounts(seen[..|seen| - 1]);
      RecordCountsOne(History(seen[..|seen| - 1]), seen[|seen| - 1]);
    }
  }

  /** Once a second's bucket has been superseded, its timestamp and count are
      final: feeding further timestamps leaves every closed bucket as it was. */
  lemma {:induction false} ClosedBucketsFinal(seen: seq<int>, more: seq<int>)
    ensures |History(seen)| <= |History(seen + more)|
    ensures History(seen)[..|History(seen)| - 1] == History(seen + more)[..|History(seen)| - 1]
  {
    if more == [] {
      assert seen + more == seen;
    } else {
      var front := more[..|more| - 1];
      assert (seen + more)[..|seen + more| - 1] == seen + front;
      ClosedBucketsFinal(seen, front);
      var h, g := History(seen), History(seen + front);
      var g' := History(seen + more);
      assert g' == Record(g, more[|more| - 1]);
      forall i | 0 <= i < |h| - 1
        ensures g'[i] == h[i]
      {
        assert g[..|h| - 1][i] == h[..|h| - 1][i];
      }
    }
  }

  /** The window update of setTimeCount: the newest |w| buckets of the history
      w extended by one operation at second t. When t is the newest bucket's
      second only that bucket's count rises; otherwise, whether t is later or
      earlier, the window slides: the oldest bucket is dropped, the others move
      down one place unchanged, and (t, 1) becomes the newest. */
  function Advance(w: seq<TimeCountPair>, t: int): (r: seq<TimeCountPair>)
    requires |w| >= 1
    ensures |r| == |w|
    ensures w[|w| - 1].ts == t ==>
      r[..|w| - 1] == w[..|w| - 1] && r[|w| - 1] == TimeCountPair(t, w[|w| - 1].count + 1)
    ensures w[|w| - 1].ts != t ==> r == w[1..] + [TimeCountPair(t, 1)]
  {
    Newest(Record(w, t), |w|)
  }

  /** Keeping only the newest n buckets commutes with recording: the window
      evolves exactly as the newest n buckets of the full history. */
  lemma {:induction false} NewestRecord(h: seq<TimeCountPair>, n: nat, t: int)
    requires 1 <= n <= |h|
    ensures Advance(Newest(h, n), t) == Newest(Record(h, t), n)
  {
    var w, r := Newest(h, n), Record(h, t);
    assert w[n - 1] == h[|h| - 1];
    if h[|h| - 1].ts == t {
      var bumped := TimeCountPair(t, h[|h| - 1].count + 1);
      assert Record(w, t) == w[n - 1 := bumped];
      assert r == h[|h| - 1 := bumped];
      assert Record(w, t) == Newest(r, n);
    } else {
      assert Record(w, t) == w + [TimeCountPair(t, 1)];
      assert r == h + [TimeCountPair(t, 1)];
      assert Newest(r, n) == w[1..] + [TimeCountPair(t, 1)];
    }
  }

  /** The two window buckets together never count more than every bucket of
      the history they are the newest part of. */
  lemma {:induction false} NewestWithinSum(h: seq<TimeCountPair>)
    requires |h| >= 2
    ensures var w := Newest(h, 2); w[0].count + w[1].count <= CountSum(h)
  {
    var k := |h| - 2;
    var w := [h[k], h[k + 1]];
    assert h == h[..k] + w;
    assert w[1..] == [h[k + 1]];
    CountSumAppend(h[..k], w);
  }

  /** Whatever order the timestamps arrive in, the two window buckets of
      the history never count more than the number of operations fed. */
  lemma {:induction false} WindowWithinTotal(seen: seq<int>)
    ensures var w := Newest(History(seen), 2); w[0].count + w[1].count <= |seen|
  {
    NewestWithinSum(History(seen));
    HistoryCounts(seen);
  }

  /** Feeding one more timestamp records one more operation in the history;
      this is the step IncrForTime takes on its ghost history, so after the
      calls t1, ..., tn on a new counter that history is History([t1, ..., tn]). */
  lemma {:induction false} HistoryAppend(seen: seq<int>, t: int)
    ensures History(seen + [t]) == Record(History(seen), t)
  {
    assert (seen + [t])[..|seen|] == seen;
  }

  /** When a timestamp opens a new second, the rate reported afterwards is the
      bucket that timestamp superseded, with its second and count intact. */
  lemma {:induction false} SlideReportsSuperseded(seen: seq<int>, t: int)
    requires History(seen)[|History(seen)| - 1].ts != t
    ensures Newest(History(seen + [t]), 2)[0] == History(seen)[|History(seen)| - 1]
  {
    assert (seen + [t])[..|seen|] == seen;
  }

  class Analytics {
    var totalCount: nat
    var timeCount: seq<TimeCountPair>
    /** Whether callers asked for locking; the lock itself is not modelled. */
    var concurrencySafe: bool
    /** The per-second record of every operation counted so far, of which
        timeCount is the newest two buckets. */
    ghost var history: seq<TimeCountPair>

    ghost predicate Valid()
      reads this
    {
      && |history| >= 2
      && timeCount == Newest(history, 2)
      && totalCount == CountSum(history)
      && |timeCount| == 2
      && timeCount[0].count + timeCount[1].count <= totalCount
    }

    constructor (concurrencySafe: bool)
      ensures Valid() && history == History([])
      ensures totalCount == 0 && timeCount == [TimeCountPair(0, 0), TimeCountPair(0, 0)]
      ensures this.concurrencySafe == concurrencySafe
    {
      totalCount := 0;
      timeCount := [TimeCountPair(0, 0), TimeCountPair(0, 0)];
      this.concurrencySafe := concurrencySafe;
      history := InitialWindow();
      assert CountSum(InitialWindow()) == 0 by {
        assert InitialWindow()[1..][1..] == [];
      }
    }

    /** The number of operations counted so far. */
    method TotalCount() returns (n: nat)
      requires Valid()
      ensures n == totalCount && n == CountSum(history)
    {
      n := totalCount;
    }

    /** The count of the last complete second: the oldest bucket of the
        window, which is the newest closed bucket of the history (or the zero
        placeholder before any second has closed). */
    method CountPerSecond() returns (r: nat)
      requires Valid()
      ensures r == timeCount[0].count && r == history[|history| - 2].count
    {
      r := timeCount[0].count;
    }

    /** Counts one operation at second unixTime and returns the new total and
        the oldest bucket's count. */
    method IncrForTime(unixTime: int) returns (total: nat, rate: nat)
      requires Valid()
      modifies this
      ensures Valid() && history == Record(old(history), unixTime)
      ensures totalCount == old(totalCount) + 1 && total == totalCount
      ensures timeCount == Advance(old(timeCount), unixTime)
      ensures rate == timeCount[0].count
      ensures old(timeCount)[1].ts != unixTime ==> rate == old(timeCount)[1].count
      ensures concurrencySafe == old(concurrencySafe)
    {
      NewestRecord(history, 2, unixTime);
      RecordCountsOne(history, unixTime);
      NewestWithinSum(Record(history, unixTime));
      totalCount := totalCount + 1;
      SetTimeCount(unixTime);
      history := Record(history, unixTime);
      total, rate := totalCount, timeCount[0].count;
    }

    /** Moves the window to second unixTime if it is not the newest bucket's
        second, then counts one operation in the newest bucket. */
    method SetTimeCount(unixTime: int)
      requires |timeCount| >= 1
      modifies this`timeCount
      ensures timeCount == Advance(old(timeCount), unixTime)
      ensures totalCount == old(totalCount) && concurrencySafe == old(concurrencySafe) && history == old(history)
    {
      var latestIndex := |timeCount| - 1;
      if timeCount[latestIndex].ts != unixTime {
        timeCount := timeCount[1..];
        timeCount := timeCount + [TimeCountPair(unixTime, 0)];
      }
      timeCount := timeCount[latestIndex := timeCount[latestIndex].(count := timeCount[latestIndex].count + 1)];
    }
  }

  /** Feeds every timestamp of seen, in order, to a fresh counter and returns
      the final total and window: after n calls the total is n, and the window
      is the newest two buckets of History(seen). */
  method ReplayAll(seen: seq<int>) returns (total: nat, window: seq<TimeCountPair>)
    ensures total == |seen|
    ensures window == Newest(History(seen), 2)
  {
    var a := new Analytics(false);
    var i := 0;
    ghost var done: seq<int> := [];
    while i < |seen|
      invariant 0 <= i <= |seen| && done == seen[..i]
      invariant a.Valid() && a.history == History(done)
    {
      ghost var next := done + [seen[i]];
      assert next == seen[..i + 1];
      HistoryAppend(done, seen[i]);
      var _, _ := a.IncrForTime(seen[i]);
      done, i := next, i + 1;
    }
    assert done == seen;
    HistoryCounts(seen);
    total, window := a.totalCount, a.timeCount;
  }

  /** Feeds the seconds 10, 10, 10, 11, 11, 12 to a fresh counter and returns
      what each call reported and the final window. */
  method ReplaySampleTrace() returns (totals: seq<nat>, rates: seq<nat>, window: seq<TimeCountPair>)
    ensures totals == [1, 2, 3, 4, 5, 6]
    ensures rates == [0, 0, 0, 3, 3, 2]
    ensures window == [TimeCountPair(11, 2), TimeCountPair(12, 1)]
  {
    var a := new Analytics(true);
    totals, rates := [], [];
    var total, rate := a.IncrForTime(10);
    totals, rates := totals + [total], rates + [rate];
    total, rate := a.IncrForTime(10);
    totals, rates := totals + [total], rates + [rate];
    total, rate := a.IncrForTime(10);
    totals, rates := totals + [total], rates + [rate];
    total, rate := a.IncrForTime(11);
    totals, rates := totals + [total], rates + [rate];
    total, rate := a.IncrForTime(11);
    totals, rates := totals + [total], rates + [rate];
    total, rate := a.IncrForTime(12);
    totals, rates := totals + [total], rates + [rate];
    window := a.timeCount;
  }
}
