/** The session statistics (components/Stats.tsx): the rounded average of
    the history's times, shown only when there is a history, and the newest
    attempt drawn highlighted. */
module Stats {
  import opened Types
  import opened JsBuiltins
  import App

  /** history.reduce((acc, curr) => acc + curr.time, 0). */
  function SumTimes(h: seq<Attempt>): int {
    if h == [] then 0 else h[0].time + SumTimes(h[1..])
  }

  /** The session average: Math.round(sum / length), absent for an empty
      history (the panel is not drawn then). The value is the integer nearest
      to the mean, a half rounded up. */
  function SessionAverage(h: seq<Attempt>): (avg: Option<int>)
    ensures avg.None? <==> h == []
    ensures avg.Some? ==> 2 * |h| * avg.value - |h| <= 2 * SumTimes(h) < 2 * |h| * avg.value + |h|
  {
    if h == [] then None else Some(RoundDiv(SumTimes(h), |h|))
  }

  /** The average of a single attempt is its time. */
  lemma AverageOfOne(a: Attempt)
    ensures SessionAverage([a]) == Some(a.time)
  {
    assert SumTimes([a]) == a.time by {
      assert [a][1..] == [];
    }
    RoundDivUnique(a.time, 1, a.time);
  }

  /** The fastest time of a non-empty history. */
  function MinTime(h: seq<Attempt>): (m: int)
    requires h != []
    ensures forall k :: 0 <= k < |h| ==> m <= h[k].time
    ensures exists k :: 0 <= k < |h| && h[k].time == m
  {
    if |h| == 1 then h[0].time
    else
      var rest := MinTime(h[1..]);
      assert forall k :: 1 <= k < |h| ==> h[k] == h[1..][k - 1];
      if h[0].time <= rest then h[0].time else rest
  }

  /** The slowest time of a non-empty history. */
  function MaxTime(h: seq<Attempt>): (m: int)
    requires h != []
    ensures forall k :: 0 <= k < |h| ==> h[k].time <= m
    ensures exists k :: 0 <= k < |h| && h[k].time == m
  {
    if |h| == 1 then h[0].time
    else
      var rest := MaxTime(h[1..]);
      assert forall k :: 1 <= k < |h| ==> h[k] == h[1..][k - 1];
      if h[0].time >= rest then h[0].time else rest
  }

  /** The sum lies between length times the least and length times the
      greatest time. */
  lemma {:induction false} SumBetween(h: seq<Attempt>, lo: int, hi: int)
    requires forall k :: 0 <= k < |h| ==> lo <= h[k].time <= hi
    ensures |h| * lo <= SumTimes(h) <= |h| * hi
  {
    if h != [] {
      assert forall k :: 0 <= k < |h| - 1 ==> h[1..][k] == h[k + 1];
      SumBetween(h[1..], lo, hi);
    }
  }

  /** The average never leaves the range of the times it averages. */
  lemma AverageWithinRange(h: seq<Attempt>)
    requires h != []
    ensures MinTime(h) <= SessionAverage(h).value <= MaxTime(h)
  {
    var lo, hi := MinTime(h), MaxTime(h);
    SumBetween(h, lo, hi);
    RoundDivWithin(SumTimes(h), |h|, lo, hi);
  }

  /** The entry drawn highlighted: the one at index 0, the newest. */
  function Highlighted(h: seq<Attempt>): (a: Option<Attempt>)
    ensures a.Some? <==> h != []
    ensures a.Some? ==> a.value == h[0]
  {
    if h == [] then None else Some(h[0])
  }

  /** Recording an attempt makes it the highlighted entry: the newest
      attempt is always the one drawn highlighted. */
  lemma NewestHighlighted(h: seq<Attempt>, a: Attempt)
    ensures Highlighted(App.Record(h, a)) == Some(a)
  {}
}
