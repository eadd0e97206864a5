/** The consecutive failures counter of healthcheck/healthcheck.go, proved against a
    declarative reading of the whole history of checks. */
module FailureCounter {

  const WORD: nat := 0x1_0000_0000

  /** The source's uint32. */
  type uint32 = n: nat | n < WORD

  /** One completed check: its result, and whether the grace flag read 1 when the counter
      was managed. */
  datatype Check = Check(healthy: bool, graceOver: bool)

  predicate Counts(c: Check) {
    !c.healthy && c.graceOver
  }

  /** Length of the run of counted failures that ends the history. */
  function Streak(h: seq<Check>): (n: nat)
    ensures n <= |h|
  {
    if |h| == 0 || !Counts(h[|h| - 1]) then 0 else 1 + Streak(h[..|h| - 1])
  }

  /** `Streak` is what its name says: n is the streak exactly when the last n checks all
      count and the one before them, if any, does not. */
  lemma {:induction false} StreakIsLongestSuffix(h: seq<Check>, n: nat)
    ensures n == Streak(h) <==>
            && n <= |h|
            && (forall i :: |h| - n <= i < |h| ==> Counts(h[i]))
            && (n < |h| ==> !Counts(h[|h| - n - 1]))
  {
    if |h| > 0 && Counts(h[|h| - 1]) {
      var t := h[..|h| - 1];
      if n > 0 {
        StreakIsLongestSuffix(t, n - 1);
        if n == Streak(h) {
          forall i | |h| - n <= i < |h| ensures Counts(h[i]) {
            if i < |h| - 1 { assert h[i] == t[i]; }
          }
        } else if n <= |h| && (forall i :: |h| - n <= i < |h| ==> Counts(h[i])) {
          forall i | |t| - (n - 1) <= i < |t| ensures Counts(t[i]) { assert t[i] == h[i]; }
        }
      }
    }
  }

  /** The streak length at which the checker gives up. The counter is compared after being
      incremented modulo 2^32, so a threshold of 0 is met only after a full turn. */
  function Limit(threshold: uint32): (n: nat)
    ensures n > 0
  {
    if threshold == 0 then WORD else threshold
  }

  /** The streak after the first m checks. */
  function StreakAt(h: seq<Check>, m: nat): nat
    requires m <= |h|
  {
    Streak(h[..m])
  }

  ghost predicate NeverReached(h: seq<Check>, threshold: uint32) {
    forall m :: 0 <= m <= |h| ==> StreakAt(h, m) != Limit(threshold)
  }

  /** n is the number of checks after which the limit is met for the first time. */
  ghost predicate FirstReachedAt(h: seq<Check>, threshold: uint32, n: nat) {
    && n <= |h|
    && StreakAt(h, n) == Limit(threshold)
    && forall m :: 0 <= m < n ==> StreakAt(h, m) != Limit(threshold)
  }

  lemma StreakOfAll(h: seq<Check>)
    ensures StreakAt(h, |h|) == Streak(h)
  {
    assert h[..|h|] == h;
  }

  lemma StreakOfPrefix(h: seq<Check>, n: nat, m: nat)
    requires m <= n <= |h|
    ensures StreakAt(h[..n], m) == StreakAt(h, m)
  {
    assert h[..n][..m] == h[..m];
  }

  /** A streak grows by at most one per check, so it cannot jump over its limit. */
  lemma {:induction false} NeverReachedIsBelow(h: seq<Check>, threshold: uint32)
    requires NeverReached(h, threshold)
    ensures Streak(h) < Limit(threshold)
  {
    hide StreakAt;
    StreakOfAll(h);
    if |h| == 0 {
    } else {
      var t := h[..|h| - 1];
      forall m | 0 <= m <= |t| ensures StreakAt(t, m) != Limit(threshold) {
        StreakOfPrefix(h, |t|, m);
      }
      NeverReachedIsBelow(t, threshold);
    }
  }

  /** A history of a new check extends the verdict on the old one. */
  lemma ReachExtends(h: seq<Check>, c: Check, threshold: uint32)
    requires NeverReached(h, threshold)
    ensures Streak(h + [c]) == Limit(threshold) ==> FirstReachedAt(h + [c], threshold, |h| + 1)
    ensures Streak(h + [c]) != Limit(threshold) ==> NeverReached(h + [c], threshold)
  {
    hide Streak, StreakAt;
    var g := h + [c];
    StreakOfAll(g);
    assert g[..|h|] == h;
    forall m | 0 <= m <= |h| ensures StreakAt(g, m) != Limit(threshold) {
      StreakOfPrefix(g, |h|, m);
    }
  }

  lemma FirstReachedStays(h: seq<Check>, c: Check, threshold: uint32, n: nat)
    requires FirstReachedAt(h, threshold, n)
    ensures FirstReachedAt(h + [c], threshold, n)
  {
    hide Streak, StreakAt;
    var g := h + [c];
    assert g[..|h|] == h;
    forall m | 0 <= m <= n ensures StreakAt(g, m) == StreakAt(h, m) {
      StreakOfPrefix(g, |h|, m);
    }
  }

  /** What one completed check does to the counter and to the grace flag, and whether the
      checker now stops its ticker and attempts Done. */
  datatype Verdict = Verdict(failures: uint32, expired: bool, reached: bool)

  function Advance(failures: uint32, expired: bool, healthy: bool, threshold: uint32): Verdict {
    if healthy then
      Verdict(0, true, false)
    else if expired then
      var f := (failures + 1) % WORD;
      Verdict(f, true, f == threshold)
    else
      Verdict(failures, expired, false)
  }

  lemma StreakExtends(h: seq<Check>, c: Check)
    ensures Streak(h + [c]) == if Counts(c) then Streak(h) + 1 else 0
  {
    assert (h + [c])[..|h|] == h;
  }

  /** The counter keeps showing the streak modulo 2^32, whatever happened before. It needs
      the grace flag to be monotone: while it is unset nothing has been counted. */
  lemma AdvanceCounts(h: seq<Check>, failures: uint32, expired: bool, healthy: bool, threshold: uint32)
    requires failures == Streak(h) % WORD
    requires !expired ==> Streak(h) == 0
    ensures var v := Advance(failures, expired, healthy, threshold);
            var g := h + [Check(healthy, expired)];
            v.failures == Streak(g) % WORD && (!v.expired ==> Streak(g) == 0)
  {
    StreakExtends(h, Check(healthy, expired));
    hide Streak;
  }

  /** Until the limit has been met, the equality test of the source succeeds exactly when
      the streak meets its limit, and the counter is the streak itself: no overflow has
      happened unless the threshold is 0 and it is met right now. */
  lemma AdvanceReaches(h: seq<Check>, failures: uint32, expired: bool, healthy: bool, threshold: uint32)
    requires failures == Streak(h) % WORD
    requires !expired ==> Streak(h) == 0
    requires NeverReached(h, threshold)
    ensures var v := Advance(failures, expired, healthy, threshold);
            var g := h + [Check(healthy, expired)];
            && (v.reached <==> Streak(g) == Limit(threshold))
            && (v.reached ==> FirstReachedAt(g, threshold, |g|))
            && (!v.reached ==> NeverReached(g, threshold))
            && (threshold > 0 ==> v.failures == Streak(g))
  {
    StreakExtends(h, Check(healthy, expired));
    hide Streak;
    NeverReachedIsBelow(h, threshold);
    ReachExtends(h, Check(healthy, expired), threshold);
  }

  /** Once the limit has been met at the very last check, the next check cannot meet it
      again: the counter is one past it, or zero. */
  lemma NoSecondReach(threshold: uint32, healthy: bool)
    ensures !Advance(threshold, true, healthy, threshold).reached
  {
  }

  /** The grace flag after the first n checks. `timer[i]` says that the timer goroutine
      stored its 1 between the handling of check i-1 and that of check i. */
  predicate GraceOverBy(results: seq<bool>, timer: seq<bool>, n: nat)
    requires n <= |results| == |timer|
  {
    n > 0 && (GraceOverBy(results, timer, n - 1) || timer[n - 1] || results[n - 1])
  }

  /** The grace flag read by check i. */
  predicate GraceOverAt(results: seq<bool>, timer: seq<bool>, i: nat)
    requires i < |results| == |timer|
  {
    GraceOverBy(results, timer, i) || timer[i]
  }

  /** A check finds the grace period over exactly if the timer fired by then or an earlier
      check was healthy; so the flag is never lowered again. */
  lemma {:induction false} GraceOverMeans(results: seq<bool>, timer: seq<bool>, i: nat)
    requires i < |results| == |timer|
    ensures GraceOverAt(results, timer, i) <==>
            (exists j :: 0 <= j <= i && timer[j]) || (exists j :: 0 <= j < i && results[j])
  {
    if i == 0 {
    } else {
      GraceOverMeans(results, timer, i - 1);
      if GraceOverAt(results, timer, i - 1) {
        if j :| 0 <= j <= i - 1 && timer[j] {
          assert timer[j];
        } else {
          var j :| 0 <= j < i - 1 && results[j];
          assert results[j];
        }
      }
    }
  }

  ghost function History(results: seq<bool>, timer: seq<bool>, n: nat): (h: seq<Check>)
    requires n <= |results| == |timer|
    ensures |h| == n
    ensures forall i :: 0 <= i < n ==> h[i] == Check(results[i], GraceOverAt(results, timer, i))
  {
    seq(n, i requires 0 <= i < n <= |results| == |timer| => Check(results[i], GraceOverAt(results, timer, i)))
  }

  /** What the checker's variables say about the history so far. */
  ghost predicate Shows(h: seq<Check>, threshold: uint32, v: Verdict) {
    && v.failures == Streak(h) % WORD
    && (threshold > 0 ==> v.failures == Streak(h))
    && (!v.expired ==> Streak(h) == 0)
    && (if v.reached then FirstReachedAt(h, threshold, |h|) else NeverReached(h, threshold))
  }

  lemma ShowsNext(h: seq<Check>, threshold: uint32, v: Verdict, fired: bool, healthy: bool)
    requires Shows(h, threshold, v) && !v.reached
    ensures var expired := v.expired || fired;
            Shows(h + [Check(healthy, expired)], threshold, Advance(v.failures, expired, healthy, threshold))
  {
    AdvanceCounts(h, v.failures, v.expired || fired, healthy, threshold);
    AdvanceReaches(h, v.failures, v.expired || fired, healthy, threshold);
  }

  ghost predicate Tracks(results: seq<bool>, timer: seq<bool>, n: nat, threshold: uint32, v: Verdict)
    requires n <= |results| == |timer|
  {
    Shows(History(results, timer, n), threshold, v) && v.expired == GraceOverBy(results, timer, n)
  }

  lemma TracksFromStart(results: seq<bool>, timer: seq<bool>, threshold: uint32)
    requires |results| == |timer|
    ensures Tracks(results, timer, 0, threshold, Verdict(0, false, false))
  {
  }

  lemma TracksNext(results: seq<bool>, timer: seq<bool>, n: nat, threshold: uint32, v: Verdict)
    requires n < |results| == |timer|
    requires Tracks(results, timer, n, threshold, v) && !v.reached
    ensures Tracks(results, timer, n + 1, threshold, Advance(v.failures, v.expired || timer[n], results[n], threshold))
  {
    var h := History(results, timer, n);
    assert History(results, timer, n + 1) == h + [Check(results[n], v.expired || timer[n])];
    ShowsNext(h, threshold, v, timer[n], results[n]);
  }

  lemma TracksAll(results: seq<bool>, timer: seq<bool>, n: nat, threshold: uint32, v: Verdict)
    requires n <= |results| == |timer|
    requires Tracks(results, timer, n, threshold, v)
    ensures v.reached ==> FirstReachedAt(History(results, timer, |results|), threshold, n)
    ensures !v.reached ==> NeverReached(History(results, timer, n), threshold)
    ensures v.failures == Streak(History(results, timer, n)) % WORD
    ensures threshold > 0 ==> v.failures == Streak(History(results, timer, n))
  {
    var h := History(results, timer, n);
    var all := History(results, timer, |results|);
    assert all[..n] == h;
    hide StreakAt;
    StreakOfAll(h);
    forall m | 0 <= m <= n ensures StreakAt(all, m) == StreakAt(h, m) {
      StreakOfPrefix(all, n, m);
    }
  }

  class Counter {
    var ConsecutiveFailures: uint32
    var gracePeriodExpired: bool
    const threshold: uint32

    constructor (threshold: uint32)
      ensures this.threshold == threshold
      ensures ConsecutiveFailures == 0 && !gracePeriodExpired
    {
      this.threshold := threshold;
      ConsecutiveFailures := 0;
      gracePeriodExpired := false;
    }

    /** Manages the result of one check; `done` says that Done is attempted. */
    method Manage(healthy: bool) returns (done: bool)
      modifies this
      ensures Verdict(ConsecutiveFailures, gracePeriodExpired, done)
           == old(Advance(ConsecutiveFailures, gracePeriodExpired, healthy, threshold))
    {
      done := false;
      if healthy {
        ConsecutiveFailures := 0;
        gracePeriodExpired := true;
      } else if gracePeriodExpired {
        ConsecutiveFailures := (ConsecutiveFailures + 1) % WORD;
        if ConsecutiveFailures == threshold {
          done := true;
        }
      }
    }

    /** The loop of `Run` over the ticks that were taken, up to the first attempt at Done:
        it attempts Done after check n exactly when n is the first point of the history
        where the streak has its limit, and not at all when there is no such point. */
    method Run(results: seq<bool>, timer: seq<bool>) returns (done: bool, n: nat)
      requires |results| == |timer|
      requires ConsecutiveFailures == 0 && !gracePeriodExpired
      modifies this
      ensures n <= |results|
      ensures done ==> FirstReachedAt(History(results, timer, |results|), threshold, n)
      ensures !done ==> n == |results| && NeverReached(History(results, timer, |results|), threshold)
      ensures ConsecutiveFailures == Streak(History(results, timer, n)) % WORD
      ensures threshold > 0 ==> ConsecutiveFailures == Streak(History(results, timer, n))
    {
      hide Tracks, Advance, Streak, FirstReachedAt, NeverReached, History;
      done, n := false, 0;
      TracksFromStart(results, timer, threshold);
      while n < |results| && !done
        invariant n <= |results|
        invariant Tracks(results, timer, n, threshold, Verdict(ConsecutiveFailures, gracePeriodExpired, done))
        decreases |results| - n, !done
      {
        ghost var before := Verdict(ConsecutiveFailures, gracePeriodExpired, done);
        if timer[n] {
          gracePeriodExpired := true;
        }
        TracksNext(results, timer, n, threshold, before);
        done := Manage(results[n]);
        n := n + 1;
      }
      TracksAll(results, timer, n, threshold, Verdict(ConsecutiveFailures, gracePeriodExpired, done));
    }
  }
}
