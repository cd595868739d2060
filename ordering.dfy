/** Descending order by creation time, as imposed on every listing. */
module Ordering {
  import opened Models

  /** Newest first: no record is followed by a strictly newer one. */
  predicate SortedByCreatedAtDesc(s: seq<Record>)
  {
    forall i, j :: 0 <= i < j < |s| ==> s[i].createdAt >= s[j].createdAt
  }

  /** A record no older than every element of a newest-first sequence may
      be put in front of it. */
  lemma PrependSorted(y: Record, t: seq<Record>)
    requires SortedByCreatedAtDesc(t)
    requires forall k :: 0 <= k < |t| ==> t[k].createdAt <= y.createdAt
    ensures SortedByCreatedAtDesc([y] + t)
  {
    var r := [y] + t;
    forall i, j | 0 <= i < j < |r| ensures r[i].createdAt >= r[j].createdAt {
      assert r[j] == t[j - 1];
      if i > 0 { assert r[i] == t[i - 1]; }
    }
  }

  /** Inserts `x` into a newest-first sequence just before the first element
      that is not newer than it, so `x` precedes the ties that follow it. */
  function InsertByCreatedAtDesc(x: Record, s: seq<Record>): (r: seq<Record>)
    requires SortedByCreatedAtDesc(s)
    ensures SortedByCreatedAtDesc(r)
    ensures multiset(r) == multiset(s) + multiset{x}
    ensures |r| == |s| + 1
  {
    if s == [] || s[0].createdAt <= x.createdAt then
      assert forall k :: 0 <= k < |s| ==> s[k].createdAt <= s[0].createdAt;
      PrependSorted(x, s);
      [x] + s
    else
      var tail := InsertByCreatedAtDesc(x, s[1..]);
      assert s == [s[0]] + s[1..];
      forall k | 0 <= k < |tail| ensures tail[k].createdAt <= s[0].createdAt {
        assert tail[k] in multiset(s[1..]) + multiset{x};
      }
      PrependSorted(s[0], tail);
      [s[0]] + tail
  }

  /** The stable descending sort by `createdAt` (records with equal
      timestamps keep their relative input order). */
  function SortByCreatedAtDesc(s: seq<Record>): (r: seq<Record>)
    ensures SortedByCreatedAtDesc(r)
    ensures multiset(r) == multiset(s)
    ensures |r| == |s|
  {
    if s == [] then []
    else
      assert s == [s[0]] + s[1..];
      InsertByCreatedAtDesc(s[0], SortByCreatedAtDesc(s[1..]))
  }
}
