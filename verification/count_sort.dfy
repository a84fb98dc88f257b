/**
 * Ordering of the pose rows: most frequent pose first. The report uses a
 * stable sort, descending by count, so poses with the same count keep the
 * order in which their keys appear in the document.
 */
module CountSort {
  import opened PoseStatistics

  /** No entry is followed by one with a larger count. */
  ghost predicate Descending(s: seq<PoseEntry>)
  {
    forall i, j :: 0 <= i < j < |s| ==> s[i].count >= s[j].count
  }

  /** Entries with equal count appear in `r` in the same order as in `s`. */
  ghost predicate PreservesTies(r: seq<PoseEntry>, s: seq<PoseEntry>)
  {
    forall c :: WithCount(r, c) == WithCount(s, c)
  }

  /** `r` is what a stable descending sort by count makes of `s`. */
  ghost predicate IsStableSortOf(r: seq<PoseEntry>, s: seq<PoseEntry>)
  {
    Descending(r) && PreservesTies(r, s)
  }

  /**
   * An entry whose count is at least that of every entry of `t` and of `x`
   * is at least that of every entry of any rearrangement of `t` plus `x`.
   */
  lemma LeadsRearrangement(h: PoseEntry, t: seq<PoseEntry>, x: PoseEntry, r: seq<PoseEntry>)
    requires forall j :: 0 <= j < |t| ==> h.count >= t[j].count
    requires h.count >= x.count
    requires multiset(r) == multiset(t) + multiset{x}
    ensures forall k :: 0 <= k < |r| ==> h.count >= r[k].count
  {
    forall k | 0 <= k < |r|
      ensures h.count >= r[k].count
    {
      assert r[k] in multiset(r);
      if r[k] != x {
        assert r[k] in t;
      }
    }
  }

  /**
   * Places `x` into the descending sequence `t` in front of every entry
   * whose count is not larger than its own.
   */
  function Insert(x: PoseEntry, t: seq<PoseEntry>): (r: seq<PoseEntry>)
    requires Descending(t)
    ensures Descending(r)
    ensures multiset(r) == multiset(t) + multiset{x}
  {
    if |t| == 0 || x.count >= t[0].count then
      [x] + t
    else
      assert Descending(t[1..]);
      var rest := Insert(x, t[1..]);
      assert t == [t[0]] + t[1..];
      LeadsRearrangement(t[0], t[1..], x, rest);
      [t[0]] + rest
  }

  /** The pose entries sorted by count, most frequent first, ties in input order. */
  function SortByCount(s: seq<PoseEntry>): (r: seq<PoseEntry>)
    ensures Descending(r)
    ensures multiset(r) == multiset(s)
    ensures |r| == |s|
  {
    if |s| == 0 then []
    else
      var r := Insert(s[0], SortByCount(s[1..]));
      assert s == [s[0]] + s[1..];
      assert |multiset(r)| == |multiset(s)|;
      r
  }

  /** Inserting `x` adds it in front of the entries that share its count. */
  lemma {:induction false} InsertTies(x: PoseEntry, t: seq<PoseEntry>, c: int)
    requires Descending(t)
    ensures WithCount(Insert(x, t), c)
         == if x.count == c then [x] + WithCount(t, c) else WithCount(t, c)
    decreases |t|
  {
    if |t| == 0 || x.count >= t[0].count {
      assert ([x] + t)[1..] == t;
    } else {
      assert Descending(t[1..]);
      InsertTies(x, t[1..], c);
      assert ([t[0]] + Insert(x, t[1..]))[1..] == Insert(x, t[1..]);
    }
  }

  /** Sorting keeps, for every count, the input order of the entries with that count. */
  lemma {:induction false} SortByCountTies(s: seq<PoseEntry>, c: int)
    ensures WithCount(SortByCount(s), c) == WithCount(s, c)
    decreases |s|
  {
    if |s| > 0 {
      SortByCountTies(s[1..], c);
      InsertTies(s[0], SortByCount(s[1..]), c);
    }
  }

  /** `SortByCount` is a stable descending sort. */
  lemma SortByCountIsStableSort(s: seq<PoseEntry>)
    ensures IsStableSortOf(SortByCount(s), s)
  {
    forall c
      ensures WithCount(SortByCount(s), c) == WithCount(s, c)
    {
      SortByCountTies(s, c);
    }
  }

  /** A non-empty descending sequence starts with the largest count. */
  lemma HeadIsLargest(a: seq<PoseEntry>, c: int)
    requires Descending(a) && |a| > 0
    requires WithCount(a, c) != []
    ensures c <= a[0].count
  {
    var e := WithCount(a, c)[0];
    assert e in WithCount(a, c);
    var k :| 0 <= k < |a| && a[k] == e;
  }

  /** Dropping a common first entry keeps the order of every group of ties. */
  lemma TailsPreserveTies(a: seq<PoseEntry>, b: seq<PoseEntry>)
    requires |a| > 0 && |b| > 0 && a[0] == b[0]
    requires PreservesTies(a, b)
    ensures PreservesTies(a[1..], b[1..])
  {
    forall c
      ensures WithCount(a[1..], c) == WithCount(b[1..], c)
    {
      assert WithCount(a, c) == WithCount(b, c);
      if a[0].count == c {
        assert WithCount(a[1..], c) == WithCount(a, c)[1..];
        assert WithCount(b[1..], c) == WithCount(b, c)[1..];
      }
    }
  }

  /** The first entry of `b` also occurs in any `a` with the same ties. */
  lemma SharedFirstEntry(a: seq<PoseEntry>, b: seq<PoseEntry>)
    requires |b| > 0
    requires PreservesTies(a, b)
    ensures b[0] in a
  {
    assert b[0] in WithCount(b, b[0].count);
    assert WithCount(a, b[0].count) == WithCount(b, b[0].count);
  }

  /** Two descending arrangements with the same ties start with the same entry. */
  lemma HeadsAgree(a: seq<PoseEntry>, b: seq<PoseEntry>)
    requires Descending(a) && Descending(b)
    requires |a| > 0 && |b| > 0
    requires PreservesTies(a, b)
    ensures a[0] == b[0]
  {
    var ca, cb := a[0].count, b[0].count;
    assert WithCount(a, ca) == [a[0]] + WithCount(a[1..], ca);
    assert WithCount(b, cb) == [b[0]] + WithCount(b[1..], cb);
    HeadIsLargest(b, ca);
    HeadIsLargest(a, cb);
  }

  /**
   * Two descending arrangements that agree on the order of every group of
   * equal counts are the same sequence.
   */
  lemma {:induction false} StableSortUnique(a: seq<PoseEntry>, b: seq<PoseEntry>)
    requires Descending(a) && Descending(b)
    requires PreservesTies(a, b)
    ensures a == b
    decreases |a|
  {
    if |b| > 0 {
      SharedFirstEntry(a, b);
    }
    if |a| > 0 {
      SharedFirstEntry(b, a);
    }
    if |a| > 0 {
      HeadsAgree(a, b);
      TailsPreserveTies(a, b);
      assert Descending(a[1..]) && Descending(b[1..]);
      StableSortUnique(a[1..], b[1..]);
      assert a == [a[0]] + a[1..];
      assert b == [b[0]] + b[1..];
    }
  }

  /**
   * `SortByCount(s)` is exactly the stable descending sort of `s`: it is
   * one, and no other arrangement is.
   */
  lemma SortByCountCharacterized(s: seq<PoseEntry>, r: seq<PoseEntry>)
    ensures IsStableSortOf(r, s) <==> r == SortByCount(s)
  {
    SortByCountIsStableSort(s);
    if IsStableSortOf(r, s) {
      forall c
        ensures WithCount(r, c) == WithCount(SortByCount(s), c)
      {
        assert WithCount(r, c) == WithCount(s, c);
      }
      StableSortUnique(r, SortByCount(s));
    }
  }
}
