/**
 * The per-label pose statistics of one session, as read from the
 * `poseStatistics` object of an analytics document, and the two
 * aggregate views of them the report uses: the total detection count
 * and the sub-sequence of entries that share one count.
 */
module PoseStatistics {

  /**
   * One `poseStatistics` entry: the pose name (the JSON key) with its
   * detection count, mean detector confidence and share of all detections.
   * The confidence is carried through unchanged; the percentage only feeds
   * the bar width. The count is not validated by the report, so it is any
   * integer here.
   */
  datatype PoseEntry = PoseEntry(
    name: string,
    count: int,
    averageConfidence: real,
    percentage: real)

  /**
   * Sum of the `count` fields of `entries`. When no count is negative the
   * total is too, and it bounds every single count.
   */
  function TotalCount(entries: seq<PoseEntry>): (total: int)
    ensures (forall i :: 0 <= i < |entries| ==> entries[i].count >= 0) ==>
      total >= 0 && forall i :: 0 <= i < |entries| ==> entries[i].count <= total
  {
    if |entries| == 0 then 0 else entries[0].count + TotalCount(entries[1..])
  }

  /** The entries whose count is `c`, in their original order. */
  function WithCount(entries: seq<PoseEntry>, c: int): (r: seq<PoseEntry>)
    ensures |r| <= |entries|
    ensures forall e :: e in r ==> e in entries && e.count == c
    ensures forall e :: e in entries && e.count == c ==> e in r
  {
    if |entries| == 0 then []
    else if entries[0].count == c then [entries[0]] + WithCount(entries[1..], c)
    else WithCount(entries[1..], c)
  }

  /** The total of a concatenation is the sum of the totals. */
  lemma {:induction false} TotalCountAppend(a: seq<PoseEntry>, b: seq<PoseEntry>)
    ensures TotalCount(a + b) == TotalCount(a) + TotalCount(b)
    decreases |a|
  {
    if |a| == 0 {
      assert a + b == b;
    } else {
      assert (a + b)[1..] == a[1..] + b;
      TotalCountAppend(a[1..], b);
    }
  }

  /** Removing the entry at index `i` takes exactly its count off the total. */
  lemma TotalCountRemove(b: seq<PoseEntry>, i: int)
    requires 0 <= i < |b|
    ensures TotalCount(b) == b[i].count + TotalCount(b[..i] + b[i + 1..])
  {
    assert b == b[..i] + b[i..];
    assert b[i..][1..] == b[i + 1..];
    TotalCountAppend(b[..i], b[i..]);
    TotalCountAppend(b[..i], b[i + 1..]);
  }

  /** Position of the first occurrence of `x` in `b`. */
  function IndexOf(b: seq<PoseEntry>, x: PoseEntry): (i: nat)
    requires x in b
    ensures i < |b| && b[i] == x
  {
    if b[0] == x then 0 else IndexOf(b[1..], x) + 1
  }

  /**
   * Matching the first entry of `a` with an equal entry of `b` leaves two
   * rearrangements of each other.
   */
  lemma PermutationTails(a: seq<PoseEntry>, b: seq<PoseEntry>, i: nat)
    requires multiset(a) == multiset(b)
    requires |a| > 0 && i < |b| && b[i] == a[0]
    ensures multiset(a[1..]) == multiset(b[..i] + b[i + 1..])
  {
    assert a == [a[0]] + a[1..];
    assert b == b[..i] + [b[i]] + b[i + 1..];
    assert multiset(b[..i] + b[i + 1..]) == multiset(b) - multiset{b[i]};
  }

  /**
   * The total detection count does not depend on the order of the entries:
   * any rearrangement of the same entries has the same total.
   */
  lemma {:induction false} TotalCountPermutation(a: seq<PoseEntry>, b: seq<PoseEntry>)
    requires multiset(a) == multiset(b)
    ensures TotalCount(a) == TotalCount(b)
    decreases |a|
  {
    if |a| == 0 {
      assert |multiset(b)| == 0;
    } else {
      assert a[0] in multiset(a);
      var i := IndexOf(b, a[0]);
      PermutationTails(a, b, i);
      TotalCountPermutation(a[1..], b[..i] + b[i + 1..]);
      TotalCountRemove(b, i);
    }
  }
}
