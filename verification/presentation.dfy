/**
 * The presentation rules of the analytics report: the icon shown for each
 * pose, the width of its bar, the verdict on the session total, and the
 * movement score card with its defaults.
 */
module Presentation {
  import opened Wrappers

  /** The glyph printed before a pose row. */
  datatype Icon =
    | RaisedHand    // 🖐️ for "palm"
    | IndexPointing // ☝️ for "1"
    | Victory       // ✌️ for "2"
    | LoveYou       // 🤟 for "3"
    | RaisedFist    // ✊ for "fist"
    | WavingHand    // 👋 for every other pose name

  /** The fixed pose-name-to-icon table. */
  const PoseIcons: map<string, Icon> := map[
    "palm" := RaisedHand,
    "1" := IndexPointing,
    "2" := Victory,
    "3" := LoveYou,
    "fist" := RaisedFist
  ]

  /** The icon used for a pose name the table does not list. */
  const DefaultIcon: Icon := WavingHand

  /** Looks `name` up in the icon table, falling back to the default icon. */
  function IconFor(name: string): (icon: Icon)
    ensures name in PoseIcons ==> icon == PoseIcons[name]
    ensures icon == DefaultIcon <==> name !in PoseIcons
  {
    if name in PoseIcons then PoseIcons[name] else DefaultIcon
  }

  /** Different listed poses get different icons, so a listed pose's icon names it. */
  lemma IconTableInjective(n1: string, n2: string)
    requires n1 in PoseIcons && n2 in PoseIcons
    requires IconFor(n1) == IconFor(n2)
    ensures n1 == n2
  {
  }

  /** The icons of the five listed poses, as the report shows them. */
  lemma ListedIcons()
    ensures IconFor("palm") == RaisedHand && IconFor("1") == IndexPointing
    ensures IconFor("2") == Victory && IconFor("3") == LoveYou
    ensures IconFor("fist") == RaisedFist
    ensures IconFor("PALM") == WavingHand && IconFor("4") == WavingHand
  {
  }

  /** Conversion of a float to an integer by truncation toward zero, as `int(x)` does. */
  function TruncateToInt(x: real): (n: int)
    ensures 0.0 <= x ==> n as real <= x < n as real + 1.0
    ensures x < 0.0 ==> n as real - 1.0 < x <= n as real
  {
    if 0.0 <= x then x.Floor else -((-x).Floor)
  }

  /**
   * Number of bar characters drawn for a pose with the given percentage:
   * half the percentage, truncated; repeating a character a negative number
   * of times draws nothing.
   */
  function BarWidth(percentage: real): (width: nat)
    ensures 0.0 <= percentage ==> (2 * width) as real <= percentage < (2 * width + 2) as real
    ensures percentage < 2.0 ==> width == 0
  {
    var n := TruncateToInt(percentage / 2.0);
    if n < 0 then 0 else n
  }

  /** A percentage between 0 and 100 draws a bar of at most 50 characters. */
  lemma BarWithinChart(percentage: real)
    requires 0.0 <= percentage <= 100.0
    ensures BarWidth(percentage) <= 50
  {
  }

  /** A larger share never draws a shorter bar. */
  lemma BarWidthMonotone(p: real, q: real)
    requires p <= q
    ensures BarWidth(p) <= BarWidth(q)
  {
  }

  /** The widths drawn for a full share, for 3% and for 1%. */
  lemma BarWidthExamples()
    ensures BarWidth(100.0) == 50
    ensures BarWidth(3.0) == 1
    ensures BarWidth(1.0) == 0
  {
  }

  /** The interpretation printed under the session total. */
  datatype Verdict =
    | Good     // many poses detected, with variety
    | Moderate // poses should be held longer
    | Low      // poses are unclear

  /** Classifies a session by its total detection count. */
  function Classify(total: int): (v: Verdict)
    ensures v == Good <==> 20 < total
    ensures v == Moderate <==> 10 < total <= 20
    ensures v == Low <==> total <= 10
  {
    if total > 20 then Good
    else if total > 10 then Moderate
    else Low
  }

  /** Position of a verdict from worst to best. */
  function Rank(v: Verdict): nat
  {
    match v
    case Low => 0
    case Moderate => 1
    case Good => 2
  }

  /** More detections never give a worse verdict. */
  lemma ClassifyMonotone(t1: int, t2: int)
    requires t1 <= t2
    ensures Rank(Classify(t1)) <= Rank(Classify(t2))
  {
  }

  /** The verdict changes exactly between 10 and 11 and between 20 and 21. */
  lemma ClassifyBoundaries()
    ensures Classify(10) == Low && Classify(11) == Moderate
    ensures Classify(20) == Moderate && Classify(21) == Good
  {
  }

  /** The four movement scores printed after the pose statistics. */
  datatype ScoreCard = ScoreCard(
    smoothness: real,
    rom: real,
    trajectory: real,
    consistency: real)

  /** The score stored under `key`, or 0 when the key is missing. */
  function ScoreOr0(scores: map<string, real>, key: string): (value: real)
    ensures key in scores ==> value == scores[key]
    ensures key !in scores ==> value == 0.0
  {
    if key in scores then scores[key] else 0.0
  }

  /**
   * The score card, present exactly when the document has an
   * `overallScores` object; each missing score reads as 0.
   */
  function ScoreCardOf(overallScores: Option<map<string, real>>): (card: Option<ScoreCard>)
    ensures card.Some? <==> overallScores.Some?
    ensures card.Some? ==>
      var scores, c := overallScores.value, card.value;
      && c.smoothness == (if "smoothness" in scores then scores["smoothness"] else 0.0)
      && c.rom == (if "rom" in scores then scores["rom"] else 0.0)
      && c.trajectory == (if "trajectory" in scores then scores["trajectory"] else 0.0)
      && c.consistency == (if "consistency" in scores then scores["consistency"] else 0.0)
  {
    match overallScores
    case None => None
    case Some(scores) =>
      Some(ScoreCard(
        ScoreOr0(scores, "smoothness"),
        ScoreOr0(scores, "rom"),
        ScoreOr0(scores, "trajectory"),
        ScoreOr0(scores, "consistency")))
  }

  /** Keys other than the four scores have no effect on the score card. */
  lemma ScoreCardIgnoresOtherKeys(scores: map<string, real>, key: string, v: real)
    requires key !in {"smoothness", "rom", "trajectory", "consistency"}
    ensures ScoreCardOf(Some(scores[key := v])) == ScoreCardOf(Some(scores))
  {
  }

  /**
   * Storing a value under one of the four score keys changes that score to
   * the value and leaves the other three as they were.
   */
  lemma ScoreCardReadsOwnKey(scores: map<string, real>, key: string, v: real)
    ensures
      var before, after := ScoreCardOf(Some(scores)).value,
                           ScoreCardOf(Some(scores[key := v])).value;
      && (key == "smoothness" ==> after == before.(smoothness := v))
      && (key == "rom" ==> after == before.(rom := v))
      && (key == "trajectory" ==> after == before.(trajectory := v))
      && (key == "consistency" ==> after == before.(consistency := v))
  {
  }

  /** An empty `overallScores` object still prints all four scores, each 0. */
  lemma EmptyScoresReadZero()
    ensures ScoreCardOf(Some(map[])) == Some(ScoreCard(0.0, 0.0, 0.0, 0.0))
  {
  }
}
