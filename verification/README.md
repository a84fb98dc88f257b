# Pose analytics report

A model of the report that the FlowState diagnostic script
`test_pose_analytics.py` builds from a session's analytics document. The
script fetches the document from the analytics endpoint, then reads two
optional keys:

- `poseStatistics`: one entry per detected pose (count, average confidence, percentage);
- `overallScores`: four movement scores.

Here that step is a pure function from the parsed document to a structured
report. The report holds:

- the pose rows, sorted by count with most frequent first; ties keep the key order of the document;
- each row's icon and bar width;
- the total number of detections;
- a three-way verdict on that total;
- the score card, when the document has one.

Modules, one per concern:

- `Wrappers`: `Option`, for a key that may be absent.
- `PoseStatistics`: the pose entry, the total of counts and the group of entries that share a count.
- `CountSort`: the stable descending sort by count, as a recursive insertion sort. Lemmas prove it descending, a permutation and stable, and prove it is the only arrangement with those properties.
- `Presentation`: the icon table with its default, `int()` truncation, the bar width, the verdict thresholds and the score defaults.
- `AnalyticsReport`: the document, the report, and how the two sections are assembled.

Behaviours of the script worth noting:

- A document without `overallScores` prints no score lines. Zeros are printed only for keys missing inside a present `overallScores`.
- An absent `poseStatistics` and an empty one give two different notices. Only the empty one is followed by tips.
- The script does not validate `count`. A negative or otherwise malformed count raises no distinct error, so `count` is an unconstrained integer and the model has no error path for it.

## Model

| member | source | states |
|---|---|---|
| CountSort.Insert | test_pose_analytics.py:39-41 | inserting an entry into a descending sequence keeps it descending and adds exactly that entry |
| CountSort.SortByCount | test_pose_analytics.py:39-41 | the rows come out in non-increasing count order and are a permutation of the input entries |
| CountSort.InsertTies | test_pose_analytics.py:39-41 | an inserted entry lands in front of every entry with its count and leaves other counts' order untouched |
| CountSort.SortByCountTies | test_pose_analytics.py:39-41 | for every count, entries with that count keep their input (key) order |
| CountSort.SortByCountIsStableSort | test_pose_analytics.py:39-41 | the sort is descending and stable, as `sorted(..., reverse=True)` is |
| CountSort.StableSortUnique | test_pose_analytics.py:39-41 | two descending arrangements with the same order within every tie group are equal |
| CountSort.SortByCountCharacterized | test_pose_analytics.py:39-41 | a sequence is the stable descending sort of the input if and only if it equals the modelled sort |
| PoseStatistics.TotalCountAppend | test_pose_analytics.py:52 | the total of counts over a concatenation is the sum of the two totals |
| PoseStatistics.TotalCountPermutation | test_pose_analytics.py:52 | the total of counts is the same for every ordering of the same entries |
| Presentation.IconFor | test_pose_analytics.py:44-55 | a listed pose gets its table icon; the default icon is given exactly to pose names not in the table |
| Presentation.IconTableInjective | test_pose_analytics.py:44-50 | no two listed poses share an icon |
| Presentation.ListedIcons | test_pose_analytics.py:44-55 | palm, 1, 2, 3 and fist get their own icons; other names (including "PALM") get the default |
| Presentation.TruncateToInt | test_pose_analytics.py:61 | `int()` of a float truncates toward zero: the result is within one of the value, on the zero side |
| Presentation.BarWidth | test_pose_analytics.py:61-62 | for a non-negative percentage p the bar width w satisfies 2w <= p < 2w + 2; below 2% nothing is drawn |
| Presentation.BarWithinChart | test_pose_analytics.py:61 | a percentage in [0, 100] draws at most 50 characters |
| Presentation.BarWidthMonotone | test_pose_analytics.py:61-62 | a larger percentage never draws a shorter bar |
| Presentation.BarWidthExamples | test_pose_analytics.py:61-62 | 100% draws 50 characters, 3% draws 1, 1% draws none |
| Presentation.Classify | test_pose_analytics.py:74-79 | the verdict is good exactly above 20, moderate exactly in 11..20, low exactly at 10 or below |
| Presentation.ClassifyMonotone | test_pose_analytics.py:74-79 | more detections never give a worse verdict |
| Presentation.ClassifyBoundaries | test_pose_analytics.py:74-79 | 10 is low, 11 and 20 are moderate, 21 is good |
| Presentation.ScoreOr0 | test_pose_analytics.py:99-102 | a score is the stored value when its key is present and 0 otherwise |
| Presentation.ScoreCardOf | test_pose_analytics.py:96-102 | the score card exists exactly when `overallScores` is present; each of the four scores defaults to 0 |
| Presentation.ScoreCardIgnoresOtherKeys | test_pose_analytics.py:96-102 | keys of `overallScores` other than the four scores do not change the score card |
| Presentation.ScoreCardReadsOwnKey | test_pose_analytics.py:99-102 | storing a value under one of the four score keys sets exactly that score and leaves the other three unchanged |
| Presentation.EmptyScoresReadZero | test_pose_analytics.py:96-102 | an empty `overallScores` object still yields four scores, all 0 |
| PoseStatistics.TotalCount | test_pose_analytics.py:52 | the total of all counts; with no negative count it is non-negative and at least every single count |
| AnalyticsReport.RowFor | test_pose_analytics.py:54-62 | a row carries its entry unaltered, the table icon for a listed pose and the default icon exactly for other names, and a bar w with 2w <= p < 2w + 2 for a non-negative percentage p |
| AnalyticsReport.RowsOf | test_pose_analytics.py:54-62 | one row per entry, in the same order, giving back exactly the entries, each with its own pose's icon and bar |
| AnalyticsReport.PoseSectionOf | test_pose_analytics.py:30-89 | absent statistics give the not-found notice and empty statistics give the three tips. Otherwise the rows are the stable descending sort of the entries with icon and bar, the total is the sum of counts, and the verdict is on that total |
| AnalyticsReport.BuildReport | test_pose_analytics.py:30-102 | rows, total and verdict appear exactly for a non-empty `poseStatistics`, one row per entry; the score card appears exactly when `overallScores` is present |
| AnalyticsReport.TotalIgnoresKeyOrder | test_pose_analytics.py:52-79 | reordering the document's pose keys changes neither the total nor the verdict |
| AnalyticsReport.PalmFistExample | test_pose_analytics.py:30-79 | 15 palm and 5 fist detections list palm first, total 20 and are judged moderate |

## Left out

- The HTTP request, the 200/404/other status branches and the connection and generic exception handlers (test_pose_analytics.py:18-24, 106-127). These are network I/O; the model starts from the parsed document.
- Console rendering: the banner lines, f-string field widths, `.1f`/`.2f` number formatting, upper-casing of the pose name, the glyphs of the icons and the bar character. Rows are data; the icon is a datatype value and the bar is its width.
- `averageConfidence` is carried through as an opaque `real`.
- Float semantics: percentages and scores are exact `real`s. NaN and infinite percentages, on which `int()` raises, are not modelled.
- Entries missing `count`, `averageConfidence` or `percentage`, a `null` value for either top-level key, and non-integer counts. In the script these raise inside the generic handler or take Python's truthiness; the model's types rule them out.
- `null` or non-numeric values inside `overallScores`: `scores.get(key, 0)` replaces only a missing key, so such a value is printed as it is (`None/100`). Scores are `real`s here, so the model cannot represent them.
- Duplicate JSON keys: the document is given as already parsed, one entry per key in key order.
- test_camera_api.py: camera capture, sleeps and wall-clock latency timing, with no logic of its own.
