/** The texts the reaction area shows (components/ReactionArea.tsx): the
    verdict on a reaction time and the title, description and button label of
    each phase. Colours, icons and animations are presentation only. */
module ReactionArea {
  import opened Types
  import opened JsBuiltins

  /** The lower limits of the second to sixth band (ms), in increasing order. */
  const BandLimits: seq<int> := [150, 200, 250, 300, 400]

  /** The verdicts, best band first. */
  const Messages: seq<string> := [
    "Incredible! Are you a pro gamer?",
    "Excellent! Lightning fast.",
    "Great job! Faster than average.",
    "Good. Average human reaction.",
    "Not bad, keep practicing!",
    "A bit slow. Wake up!"
  ]

  /** How many of the limits the time has reached. */
  function LimitsReached(limits: seq<int>, time: int): (n: nat)
    ensures n <= |limits|
  {
    if limits == [] then 0
    else (if limits[0] <= time then 1 else 0) + LimitsReached(limits[1..], time)
  }

  /** The band of a time: 0 (best) to 5 (slowest). */
  function Band(time: int): (b: nat)
    ensures b < |Messages|
  {
    LimitsReached(BandLimits, time)
  }

  /** getReactionMessage: thresholds tested in increasing order. It gives
      the verdict of the time's band. */
  function ReactionMessage(time: int): (m: string)
    ensures m == Messages[Band(time)]
  {
    BandThresholds(time);
    if time < 150 then "Incredible! Are you a pro gamer?"
    else if time < 200 then "Excellent! Lightning fast."
    else if time < 250 then "Great job! Faster than average."
    else if time < 300 then "Good. Average human reaction."
    else if time < 400 then "Not bad, keep practicing!"
    else "A bit slow. Wake up!"
  }

  lemma {:induction false} LimitsReachedMonotone(limits: seq<int>, t1: int, t2: int)
    requires t1 <= t2
    ensures LimitsReached(limits, t1) <= LimitsReached(limits, t2)
  {
    if limits != [] {
      LimitsReachedMonotone(limits[1..], t1, t2);
    }
  }

  /** The band written out as the thresholds it lies between. */
  lemma BandThresholds(time: int)
    ensures Band(time) == if time < 150 then 0 else if time < 200 then 1
      else if time < 250 then 2 else if time < 300 then 3 else if time < 400 then 4 else 5
  {
    assert LimitsReached([400], time) == if 400 <= time then 1 else 0 by {
      assert [400][1..] == [];
    }
    assert LimitsReached([300, 400], time) == (if 300 <= time then 1 else 0) + LimitsReached([400], time) by {
      assert [300, 400][1..] == [400];
    }
    assert LimitsReached([250, 300, 400], time) == (if 250 <= time then 1 else 0) + LimitsReached([300, 400], time) by {
      assert [250, 300, 400][1..] == [300, 400];
    }
    assert LimitsReached([200, 250, 300, 400], time)
        == (if 200 <= time then 1 else 0) + LimitsReached([250, 300, 400], time) by {
      assert [200, 250, 300, 400][1..] == [250, 300, 400];
    }
    assert BandLimits[1..] == [200, 250, 300, 400];
  }

  /** A slower time never earns a better verdict than a faster one. */
  lemma BandMonotone(t1: int, t2: int)
    requires t1 <= t2
    ensures Band(t1) <= Band(t2)
  {
    LimitsReachedMonotone(BandLimits, t1, t2);
  }

  /** The six verdicts differ, so every time has exactly one of them. */
  lemma MessagesDistinct(i: nat, j: nat)
    requires i < |Messages| && j < |Messages| && Messages[i] == Messages[j]
    ensures i == j
  {}

  /** What the reaction area shows. */
  datatype Panel = Panel(title: string, desc: string, buttonText: string)

  /** A value in a template literal: a number's digits, or "null". */
  function ResultText(result: Option<int>): string {
    match result
    case Some(t) => IntToDecimal(t)
    case None => "null"
  }

  /** "<result> ms" reads back through parseInt as the result; "null ms" as
      no number. */
  lemma ResultTextParses(result: Option<int>)
    ensures ParseInt(ResultText(result) + " ms") == result
  {
    if result.Some? {
      DecimalPrefixParses(result.value, " ms");
    }
  }

  /** getStyles, restricted to its texts. In the result phase the title
      reads back as the result (a missing one as no number) and the
      description is the verdict on it, a missing result judged as 0. */
  function Styles(state: GameState, result: Option<int>): (p: Panel)
    ensures state == Result ==> ParseInt(p.title) == result && p.desc == ReactionMessage(result.GetOr(0))
  {
    match state
    case Idle => Panel("Reaction Pro", "Test your reflexes and visual response time.", "Click to Start")
    case Waiting => Panel("Wait for Color...", "Do not click yet. Stay focused.", "Ready...")
    case Active => Panel("CLICK NOW!", "AS FAST AS YOU CAN!", "CLICK!")
    case Result =>
      ResultTextParses(result);
      Panel(ResultText(result) + " ms", ReactionMessage(result.GetOr(0)), "Try Again")
    case TooSoon => Panel("Too Soon!", "You clicked before the color changed.", "Retry Attempt")
  }

  /** Every phase has a label of its own, whatever the result. */
  lemma ButtonTextIdentifiesPhase(s1: GameState, r1: Option<int>, s2: GameState, r2: Option<int>)
    requires Styles(s1, r1).buttonText == Styles(s2, r2).buttonText
    ensures s1 == s2
  {}

  /** A missing result is judged as a time of 0. */
  lemma MissingResultJudgedAsZero()
    ensures Styles(Result, None).title == "null ms"
    ensures Styles(Result, None).desc == Messages[0]
  {}
}
