/**
 * The analytics report for one session: the pose statistics section
 * (most frequent pose first, with icon and bar, the total and a verdict,
 * or one of two notices when there is nothing to show) followed by the
 * movement score card when the document has one.
 */
module AnalyticsReport {
  import opened Wrappers
  import opened PoseStatistics
  import opened CountSort
  import opened Presentation

  /**
   * The parsed analytics document. `poseStatistics` lists the entries of
   * that JSON object in key order; either key may be absent.
   */
  datatype AnalyticsDocument = AnalyticsDocument(
    poseStatistics: Option<seq<PoseEntry>>,
    overallScores: Option<map<string, real>>)

  /** One printed pose row: the entry itself with its icon and bar width. */
  datatype PoseRow = PoseRow(entry: PoseEntry, icon: Icon, bar: nat)

  /** The advice printed when the session recorded no pose at all. */
  datatype Tip =
    | ShowHandToCamera
    | MakeClearPoses
    | HoldEachPose

  const NoPoseTips: seq<Tip> := [ShowHandToCamera, MakeClearPoses, HoldEachPose]

  /** What the report shows about the detected poses. */
  datatype PoseSection =
    | StatisticsMissing
    | NoPosesDetected(tips: seq<Tip>)
    | Detected(rows: seq<PoseRow>, total: int, verdict: Verdict)

  datatype Report = Report(poses: PoseSection, scores: Option<ScoreCard>)

  /**
   * The row printed for one entry: the entry unaltered, the table icon of
   * a listed pose and the default icon for any other, and a bar of half
   * the percentage.
   */
  function RowFor(e: PoseEntry): (row: PoseRow)
    ensures row.entry == e
    ensures e.name in PoseIcons ==> row.icon == PoseIcons[e.name]
    ensures row.icon == DefaultIcon <==> e.name !in PoseIcons
    ensures 0.0 <= e.percentage ==>
      (2 * row.bar) as real <= e.percentage < (2 * row.bar + 2) as real
    ensures e.percentage < 2.0 ==> row.bar == 0
  {
    PoseRow(e, IconFor(e.name), BarWidth(e.percentage))
  }

  /**
   * The rows printed for `entries`, one per entry and in the same order,
   * each with its own pose's icon and bar.
   */
  function RowsOf(entries: seq<PoseEntry>): (rows: seq<PoseRow>)
    ensures EntriesOf(rows) == entries
    ensures RowsDecorated(rows)
  {
    seq(|entries|, i requires 0 <= i < |entries| => RowFor(entries[i]))
  }

  /** The entries the rows were printed from. */
  function EntriesOf(rows: seq<PoseRow>): (entries: seq<PoseEntry>)
    ensures |entries| == |rows|
  {
    seq(|rows|, i requires 0 <= i < |rows| => rows[i].entry)
  }

  /** Every row carries its own pose's icon and bar width. */
  ghost predicate RowsDecorated(rows: seq<PoseRow>)
  {
    forall i :: 0 <= i < |rows| ==>
      rows[i].icon == IconFor(rows[i].entry.name)
      && rows[i].bar == BarWidth(rows[i].entry.percentage)
  }

  /**
   * The pose statistics section for the `poseStatistics` value of a
   * document: a notice when the key is missing, the tips when the object
   * is empty, and otherwise the stably sorted rows with the total and
   * the verdict on it.
   */
  function PoseSectionOf(stats: Option<seq<PoseEntry>>): (section: PoseSection)
    ensures section.StatisticsMissing? <==> stats.None?
    ensures section.NoPosesDetected? <==> stats == Some([])
    ensures section.NoPosesDetected? ==> section.tips == NoPoseTips
    ensures section.Detected? ==>
      var entries, rows := stats.value, EntriesOf(section.rows);
      && |entries| > 0
      && IsStableSortOf(rows, entries)
      && multiset(rows) == multiset(entries)
      && RowsDecorated(section.rows)
      && section.total == TotalCount(entries)
      && section.verdict == Classify(TotalCount(entries))
  {
    match stats
    case None => StatisticsMissing
    case Some(entries) =>
      if |entries| == 0 then NoPosesDetected(NoPoseTips)
      else
        var sorted := SortByCount(entries);
        var total := TotalCount(sorted);
        SortByCountIsStableSort(entries);
        TotalCountPermutation(sorted, entries);
        Detected(RowsOf(sorted), total, Classify(total))
  }

  /**
   * The whole report: the pose statistics section, then the score card.
   * Pose rows, a total and a verdict appear exactly when the document has
   * a non-empty `poseStatistics` object, and the score card exactly when
   * it has `overallScores`.
   */
  function BuildReport(doc: AnalyticsDocument): (report: Report)
    ensures report.poses.Detected? <==>
      doc.poseStatistics.Some? && |doc.poseStatistics.value| > 0
    ensures report.poses.Detected? ==>
      |report.poses.rows| == |doc.poseStatistics.value|
    ensures report.scores.Some? <==> doc.overallScores.Some?
  {
    Report(PoseSectionOf(doc.poseStatistics), ScoreCardOf(doc.overallScores))
  }

  /**
   * The total and the verdict depend only on which entries the document
   * holds, not on the order of its keys.
   */
  lemma TotalIgnoresKeyOrder(a: seq<PoseEntry>, b: seq<PoseEntry>)
    requires multiset(a) == multiset(b)
    requires |a| > 0
    ensures PoseSectionOf(Some(b)).Detected?
    ensures PoseSectionOf(Some(a)).total == PoseSectionOf(Some(b)).total
    ensures PoseSectionOf(Some(a)).verdict == PoseSectionOf(Some(b)).verdict
  {
    assert |multiset(b)| == |multiset(a)|;
    TotalCountPermutation(a, b);
  }

  /** The palm and fist entries of the worked example below. */
  const Palm := PoseEntry("palm", 15, 0.92, 75.0)
  const Fist := PoseEntry("fist", 5, 0.81, 25.0)

  /** Palm, counted more often, already comes first; together they total 20. */
  lemma PalmFistSortAndTotal()
    ensures SortByCount([Palm, Fist]) == [Palm, Fist]
    ensures TotalCount([Palm, Fist]) == 20
  {
    assert [Palm, Fist][1..] == [Fist];
    assert [Fist][1..] == [];
    assert SortByCount([Fist]) == Insert(Fist, []) == [Fist];
    assert TotalCount([Fist]) == 5;
  }

  /** Palm's 75% draws 37 characters and fist's 25% draws 12. */
  lemma PalmFistRows()
    ensures RowsOf([Palm, Fist]) == [PoseRow(Palm, RaisedHand, 37), PoseRow(Fist, RaisedFist, 12)]
  {
    assert BarWidth(75.0) == 37;
    assert BarWidth(25.0) == 12;
    assert RowFor(Palm) == PoseRow(Palm, RaisedHand, 37);
    assert RowFor(Fist) == PoseRow(Fist, RaisedFist, 12);
  }

  /**
   * A session with 15 "palm" and 5 "fist" detections lists palm first,
   * totals 20 and is judged moderate; it has no score card.
   */
  lemma PalmFistExample()
    ensures BuildReport(AnalyticsDocument(Some([Palm, Fist]), None))
         == Report(Detected([PoseRow(Palm, RaisedHand, 37), PoseRow(Fist, RaisedFist, 12)], 20, Moderate), None)
  {
    PalmFistSortAndTotal();
    PalmFistRows();
  }
}
