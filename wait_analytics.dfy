/** The dashboard's wait-time arithmetic: the minutes shown on each card
    (`getWaitTime`) and the average wait over served tokens (`avgWaitTime`).
    Times are integer milliseconds, so every division below is exact
    rational arithmetic followed by `Math.round`. */
module WaitAnalytics {

  /** `1000 * 60`. */
  const MsPerMinute: int := 60000

  // ---------------------------------------------------------------------
  // Math.round of a quotient

  lemma MulMonotone(s: int, a: int, b: int)
    requires s > 0 && a <= b
    ensures s * a <= s * b
  {
    assert s * b - s * a == s * (b - a);
  }

  lemma MulStrict(s: int, a: int, b: int)
    requires s > 0 && a < b
    ensures s * a < s * b
  {
    assert s * b - s * a == s * (b - a);
  }

  /** `Math.round(n / d)` for a positive `d`: the integer nearest to `n / d`,
      a half rounded up, i.e. `r - 1/2 <= n/d < r + 1/2`. */
  function RoundDiv(n: int, d: int): (r: int)
    requires d > 0
    ensures d * (2 * r - 1) <= 2 * n < d * (2 * r + 1)
  {
    var q := (2 * n + d) / (2 * d);
    assert 2 * n + d == 2 * d * q + (2 * n + d) % (2 * d);
    assert d * (2 * q - 1) == 2 * d * q - d && d * (2 * q + 1) == 2 * d * q + d;
    q
  }

  /** The bounds of `RoundDiv` admit one integer only. */
  lemma RoundDivUnique(n: int, d: int, r: int)
    requires d > 0 && d * (2 * r - 1) <= 2 * n < d * (2 * r + 1)
    ensures r == RoundDiv(n, d)
  {
    var q := RoundDiv(n, d);
    if r < q {
      MulMonotone(d, 2 * r + 1, 2 * q - 1);
    } else if q < r {
      MulMonotone(d, 2 * q + 1, 2 * r - 1);
    }
  }

  /** Rounding is monotone in the numerator. */
  lemma RoundDivMonotone(n1: int, n2: int, d: int)
    requires d > 0 && n1 <= n2
    ensures RoundDiv(n1, d) <= RoundDiv(n2, d)
  {
    var r1, r2 := RoundDiv(n1, d), RoundDiv(n2, d);
    if r2 < r1 {
      MulMonotone(d, 2 * r2 + 1, 2 * r1 - 1);
    }
  }

  /** Scaling numerator and denominator alike does not change the rounding. */
  lemma RoundDivScaled(n: int, d: int, s: int)
    requires d > 0 && s > 0
    ensures RoundDiv(s * n, s * d) == RoundDiv(n, d)
  {
    var r := RoundDiv(n, d);
    MulMonotone(s, d * (2 * r - 1), 2 * n);
    MulStrict(s, 2 * n, d * (2 * r + 1));
    assert s * (d * (2 * r - 1)) == (s * d) * (2 * r - 1);
    assert s * (d * (2 * r + 1)) == (s * d) * (2 * r + 1);
    assert s * (2 * n) == 2 * (s * n);
    RoundDivUnique(s * n, s * d, r);
  }

  // ---------------------------------------------------------------------
  // getWaitTime

  /** `getWaitTime(addedAt)` read at clock `now`: whole minutes since the
      token was added, rounded to the nearest minute. */
  function WaitTime(addedAt: int, now: int): (r: int)
    ensures MsPerMinute * (2 * r - 1) <= 2 * (now - addedAt) < MsPerMinute * (2 * r + 1)
  {
    RoundDiv(now - addedAt, MsPerMinute)
  }

  /** A token added exactly `m` minutes ago shows a wait of `m`. */
  lemma WaitTimeWholeMinutes(addedAt: int, m: int)
    ensures WaitTime(addedAt, addedAt + m * MsPerMinute) == m
  {
    RoundDivUnique(m * MsPerMinute, MsPerMinute, m);
  }

  /** The wait shown is never negative exactly when the clock has not gone
      back more than half a minute past `addedAt`: there is no clamp at 0. */
  lemma WaitTimeSign(addedAt: int, now: int)
    ensures WaitTime(addedAt, now) >= 0 <==> now - addedAt >= -MsPerMinute / 2
  {
  }

  /** A later clock reading never shows a shorter wait. */
  lemma WaitTimeGrows(addedAt: int, now1: int, now2: int)
    requires now1 <= now2
    ensures WaitTime(addedAt, now1) <= WaitTime(addedAt, now2)
  {
    RoundDivMonotone(now1 - addedAt, now2 - addedAt, MsPerMinute);
  }

  // ---------------------------------------------------------------------
  // The analytics counters and avgWaitTime

  /** The dashboard's analytics counters; `totalWaitTime` is kept in
      milliseconds. */
  datatype Analytics = Analytics(totalQueues: nat, totalTokensServed: nat, totalWaitTime: int, servedTokens: nat)

  /** The counters after one serve of a token that waited `waitMs`: one
      more serve on both served counters, the wait added to the total, and
      the queue count left alone. */
  function RecordServe(a: Analytics, waitMs: int): (r: Analytics)
    ensures r.servedTokens == a.servedTokens + 1 && r.totalWaitTime == a.totalWaitTime + waitMs
    ensures r.totalTokensServed - r.servedTokens == a.totalTokensServed - a.servedTokens
    ensures r.totalQueues == a.totalQueues
  {
    a.(totalTokensServed := a.totalTokensServed + 1,
       totalWaitTime := a.totalWaitTime + waitMs,
       servedTokens := a.servedTokens + 1)
  }

  /** `avgWaitTime`: 0 while nothing has been served (the zero guard),
      otherwise the mean wait in minutes, rounded. */
  function AvgWaitTime(a: Analytics): (r: int)
    ensures a.servedTokens == 0 ==> r == 0
    ensures a.servedTokens > 0 ==>
      MsPerMinute * a.servedTokens * (2 * r - 1) <= 2 * a.totalWaitTime < MsPerMinute * a.servedTokens * (2 * r + 1)
  {
    if a.servedTokens == 0 then 0 else RoundDiv(a.totalWaitTime, MsPerMinute * a.servedTokens)
  }

  /** After the first serve the average is the served token's wait, as
      `getWaitTime` would show it at that moment. */
  lemma AverageAfterFirstServe(a: Analytics, addedAt: int, now: int)
    requires a.servedTokens == 0 && a.totalWaitTime == 0
    ensures AvgWaitTime(RecordServe(a, now - addedAt)) == WaitTime(addedAt, now)
  {
  }

  /** Recording a serve whose wait lies between `lo` and `hi` keeps the
      total within the served count times either bound. */
  lemma RecordServeKeepsBounds(a: Analytics, waitMs: int, lo: int, hi: int)
    requires a.servedTokens * lo <= a.totalWaitTime <= a.servedTokens * hi
    requires lo <= waitMs <= hi
    ensures var r := RecordServe(a, waitMs);
      r.servedTokens * lo <= r.totalWaitTime <= r.servedTokens * hi
  {
    var r := RecordServe(a, waitMs);
    assert r.servedTokens * lo == a.servedTokens * lo + lo;
    assert r.servedTokens * hi == a.servedTokens * hi + hi;
  }

  /** When every served token waited between `lo` and `hi` milliseconds, the
      average lies between the rounded minutes of `lo` and of `hi`. */
  lemma AverageBetweenExtremes(a: Analytics, lo: int, hi: int)
    requires a.servedTokens > 0
    requires a.servedTokens * lo <= a.totalWaitTime <= a.servedTokens * hi
    ensures RoundDiv(lo, MsPerMinute) <= AvgWaitTime(a) <= RoundDiv(hi, MsPerMinute)
  {
    var s := a.servedTokens;
    RoundDivMonotone(s * lo, a.totalWaitTime, s * MsPerMinute);
    RoundDivMonotone(a.totalWaitTime, s * hi, s * MsPerMinute);
    RoundDivScaled(lo, MsPerMinute, s);
    RoundDivScaled(hi, MsPerMinute, s);
    assert MsPerMinute * s == s * MsPerMinute;
  }
}
