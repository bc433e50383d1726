/** The pool of pre-computed stimulus delays (App.tsx): ten random delays per
    difficulty, and the choice of one of them when a round starts. */
module DelayPool {
  import opened Types
  import opened JsBuiltins

  const DelayPoolSize: nat := 10

  /** The delay used when the pool is empty (ms). */
  const FallbackDelay: int := 2000

  /** The smallest delay of a difficulty (ms). */
  function MinDelay(d: Difficulty): nat {
    match d
    case Easy => 1000
    case Medium => 1500
    case Hard => 1000
  }

  /** The width of the random part of a difficulty's delays (ms). */
  function MaxRandom(d: Difficulty): nat {
    match d
    case Easy => 1000
    case Medium => 1500
    case Hard => 3000
  }

  /** x is a delay the difficulty can produce: in [min, min + range). */
  predicate InWindow(d: Difficulty, x: int) {
    MinDelay(d) <= x < MinDelay(d) + MaxRandom(d)
  }

  /** The windows written out: Easy [1000, 2000), Medium [1500, 3000),
      Hard [1000, 4000). */
  lemma Windows(x: int)
    ensures InWindow(Easy, x) <==> 1000 <= x < 2000
    ensures InWindow(Medium, x) <==> 1500 <= x < 3000
    ensures InWindow(Hard, x) <==> 1000 <= x < 4000
  {}

  /** One delay: Math.floor(Math.random() * maxRandom) + minDelay. */
  function DrawDelay(d: Difficulty, u: RandomDraw): (x: int)
    ensures InWindow(d, x)
  {
    ScaleDraw(u, MaxRandom(d)) + MinDelay(d)
  }

  /** The pool built for a difficulty from the ten draws of Math.random. */
  function GeneratePool(d: Difficulty, draws: seq<RandomDraw>): (pool: seq<int>)
    requires |draws| == DelayPoolSize
    ensures |pool| == DelayPoolSize
    ensures forall i :: 0 <= i < |pool| ==> InWindow(d, pool[i])
  {
    seq(DelayPoolSize, i requires 0 <= i < DelayPoolSize => DrawDelay(d, draws[i]))
  }

  /** Every delay in the window is produced by some draw. */
  lemma EveryDelayDrawable(d: Difficulty, x: int)
    requires InWindow(d, x)
    ensures DrawDelay(d, Fraction(x - MinDelay(d), MaxRandom(d))) == x
  {
    var k: nat := x - MinDelay(d);
    ScaleDrawSlice(Fraction(k, MaxRandom(d)), MaxRandom(d), k);
  }

  /** The delay for a new round: a pool entry picked by
      Math.floor(Math.random() * pool.length), or the fallback. */
  function ChooseDelay(pool: seq<int>, u: RandomDraw): (delay: int)
    ensures |pool| == 0 ==> delay == FallbackDelay
    ensures |pool| > 0 ==> delay in pool
  {
    if |pool| > 0 then pool[ScaleDraw(u, |pool|)] else FallbackDelay
  }

  /** Every entry of the pool can be picked, each by an equal share of the
      draws: those in [i/n, (i+1)/n) pick entry i. */
  lemma EveryEntryChoosable(pool: seq<int>, u: RandomDraw, i: nat)
    requires i < |pool|
    requires i * u.den <= u.num * |pool| < (i + 1) * u.den
    ensures ChooseDelay(pool, u) == pool[i]
  {
    ScaleDrawSlice(u, |pool|, i);
  }

  /** A delay chosen from a generated pool lies in the difficulty's window. */
  lemma ChosenDelayInWindow(d: Difficulty, draws: seq<RandomDraw>, u: RandomDraw)
    requires |draws| == DelayPoolSize
    ensures InWindow(d, ChooseDelay(GeneratePool(d, draws), u))
  {
    var pool := GeneratePool(d, draws);
    var x := ChooseDelay(pool, u);
    var i :| 0 <= i < |pool| && pool[i] == x;
  }
}
