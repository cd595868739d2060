/** The query tier: pure views over the list of records fetched from the
    storage tier (an empty list when that fetch failed). */
module ReaderApi {
  import opened Models
  import opened Ordering

  const NoNumbersStoredYet := "No numbers stored yet"

  /** The values of the records, in order. */
  function Values(s: seq<Record>): (vs: seq<int>)
    ensures |vs| == |s| && forall i :: 0 <= i < |s| ==> vs[i] == s[i].value
  {
    seq(|s|, i requires 0 <= i < |s| => s[i].value)
  }

  /** The creation times of the records, in order. */
  function Times(s: seq<Record>): (ts: seq<Ticks>)
    ensures |ts| == |s| && forall i :: 0 <= i < |s| ==> ts[i] == s[i].createdAt
  {
    seq(|s|, i requires 0 <= i < |s| => s[i].createdAt)
  }

  /** The least element of a non-empty list. */
  function Min(xs: seq<int>): (m: int)
    requires xs != []
    ensures m in xs
    ensures forall i :: 0 <= i < |xs| ==> m <= xs[i]
  {
    if |xs| == 1 then xs[0]
    else
      var rest := Min(xs[1..]);
      assert forall i :: 1 <= i < |xs| ==> xs[i] == xs[1..][i - 1];
      if xs[0] <= rest then xs[0] else rest
  }

  /** The greatest element of a non-empty list. */
  function Max(xs: seq<int>): (m: int)
    requires xs != []
    ensures m in xs
    ensures forall i :: 0 <= i < |xs| ==> xs[i] <= m
  {
    if |xs| == 1 then xs[0]
    else
      var rest := Max(xs[1..]);
      assert forall i :: 1 <= i < |xs| ==> xs[i] == xs[1..][i - 1];
      if xs[0] >= rest then xs[0] else rest
  }

  function Sum(xs: seq<int>): int
  {
    if xs == [] then 0 else xs[0] + Sum(xs[1..])
  }

  /** A sum lies between length times the least and length times the
      greatest element. */
  lemma {:induction false} SumBounds(xs: seq<int>, lo: int, hi: int)
    requires forall i :: 0 <= i < |xs| ==> lo <= xs[i] <= hi
    ensures |xs| * lo <= Sum(xs) <= |xs| * hi
  {
    if xs != [] {
      SumBounds(xs[1..], lo, hi);
      assert |xs| * lo == lo + (|xs| - 1) * lo;
      assert |xs| * hi == hi + (|xs| - 1) * hi;
    }
  }

  /** The mean of a non-empty list, exactly. */
  function Average(xs: seq<int>): (a: real)
    requires xs != []
    ensures a == Sum(xs) as real / |xs| as real
    ensures Min(xs) as real <= a <= Max(xs) as real
  {
    var n, lo, hi, total := |xs|, Min(xs), Max(xs), Sum(xs);
    MeanBounds(xs, n, lo, hi, total);
    total as real / n as real
  }

  lemma MeanBounds(xs: seq<int>, n: nat, lo: int, hi: int, total: int)
    requires n == |xs| > 0 && total == Sum(xs)
    requires forall i :: 0 <= i < |xs| ==> lo <= xs[i] <= hi
    ensures lo as real <= total as real / n as real <= hi as real
  {
    SumBounds(xs, lo, hi);
    ScaledBoundsToReal(n, lo, total, hi);
    QuotientBounds(total as real, n as real, lo as real, hi as real);
  }

  /** Scaling commutes with the conversion to real. */
  lemma ScaledToReal(n: nat, x: int)
    ensures (n * x) as real == n as real * x as real
  {
  }

  /** Bounds n * lo <= total <= n * hi carry over to the reals. */
  lemma ScaledBoundsToReal(n: nat, lo: int, total: int, hi: int)
    requires n * lo <= total <= n * hi
    ensures n as real * lo as real <= total as real <= n as real * hi as real
  {
    ScaledToReal(n, lo);
    ScaledToReal(n, hi);
  }

  /** Dividing bounds n * lo <= sum <= n * hi by a positive n. */
  lemma QuotientBounds(sum: real, n: real, lo: real, hi: real)
    requires n > 0.0 && n * lo <= sum <= n * hi
    ensures lo <= sum / n <= hi
  {
  }

  /** The body of GET: every record newest first, with the total. */
  function GetAll(numbers: seq<Record>): (r: Response<NumbersPage>)
    ensures r.Ok? && r.body.totalCount == |numbers|
    ensures SortedByCreatedAtDesc(r.body.numbers)
    ensures multiset(r.body.numbers) == multiset(numbers)
  {
    Ok(NumbersPage(|numbers|, SortByCreatedAtDesc(numbers)))
  }

  /** GET {id}: the storage tier's answer, or not-found when it had none. */
  function GetById(id: Id, found: Option<Record>): (r: Response<Record>)
    ensures r.NotFound? <==> found.None?
    ensures found.None? ==> r.missing == id
    ensures found.Some? ==> r == Ok(found.value)
  {
    if found.None? then NotFound(id) else Ok(found.value)
  }

  /** The stats body: just a message for an empty store, the extremes and
      the mean otherwise. */
  datatype Stats =
    | NoStats(totalCount: nat, message: string)
    | Summary(totalCount: nat, minValue: int, maxValue: int, averageValue: real,
              oldestEntry: Ticks, newestEntry: Ticks)

  /** GET stats. */
  function GetStats(numbers: seq<Record>): (r: Response<Stats>)
    ensures r.Ok?
    ensures numbers == [] ==> r.body == NoStats(0, NoNumbersStoredYet)
    ensures numbers != [] ==>
              && r.body.Summary?
              && r.body.totalCount == |numbers|
              && (exists i :: 0 <= i < |numbers| && numbers[i].value == r.body.minValue)
              && (exists i :: 0 <= i < |numbers| && numbers[i].value == r.body.maxValue)
              && (forall i :: 0 <= i < |numbers| ==> r.body.minValue <= numbers[i].value <= r.body.maxValue)
              && r.body.averageValue == Sum(Values(numbers)) as real / |numbers| as real
              && r.body.minValue as real <= r.body.averageValue <= r.body.maxValue as real
              && (exists i :: 0 <= i < |numbers| && numbers[i].createdAt == r.body.oldestEntry)
              && (exists i :: 0 <= i < |numbers| && numbers[i].createdAt == r.body.newestEntry)
              && (forall i :: 0 <= i < |numbers| ==> r.body.oldestEntry <= numbers[i].createdAt <= r.body.newestEntry)
              && r.body.oldestEntry <= r.body.newestEntry
  {
    if |numbers| == 0 then Ok(NoStats(0, NoNumbersStoredYet))
    else
      var vs, ts := Values(numbers), Times(numbers);
      Ok(Summary(|numbers|, Min(vs), Max(vs), Average(vs), Min(ts), Max(ts)))
  }

  /** The records of `s` whose value is at least `lo`, in their order. */
  function WhereAtLeast(s: seq<Record>, lo: int): (r: seq<Record>)
    ensures forall x :: multiset(r)[x] == if x.value >= lo then multiset(s)[x] else 0
  {
    if s == [] then []
    else
      assert s == [s[0]] + s[1..];
      (if s[0].value >= lo then [s[0]] else []) + WhereAtLeast(s[1..], lo)
  }

  /** The records of `s` whose value is at most `hi`, in their order. */
  function WhereAtMost(s: seq<Record>, hi: int): (r: seq<Record>)
    ensures forall x :: multiset(r)[x] == if x.value <= hi then multiset(s)[x] else 0
  {
    if s == [] then []
    else
      assert s == [s[0]] + s[1..];
      (if s[0].value <= hi then [s[0]] else []) + WhereAtMost(s[1..], hi)
  }

  /** The echoed search criteria. */
  datatype SearchCriteria = SearchCriteria(minValue: Option<int>, maxValue: Option<int>)

  /** The search body: the filtered count, the criteria and the records. */
  datatype SearchResult = SearchResult(count: nat, criteria: SearchCriteria, numbers: seq<Record>)

  /** A record meets the criteria when it respects each supplied bound,
      both inclusive; an absent bound constrains nothing. */
  predicate Matches(x: Record, minValue: Option<int>, maxValue: Option<int>)
  {
    (minValue.None? || x.value >= minValue.value) && (maxValue.None? || x.value <= maxValue.value)
  }

  /** The records of `numbers` that meet the criteria, in their order: the
      lower-bound filter if a lower bound is given, then the upper-bound
      filter if an upper bound is given. */
  function Filtered(numbers: seq<Record>, minValue: Option<int>, maxValue: Option<int>): (r: seq<Record>)
    ensures forall x :: multiset(r)[x] == if Matches(x, minValue, maxValue) then multiset(numbers)[x] else 0
  {
    var atLeast := if minValue.Some? then WhereAtLeast(numbers, minValue.value) else numbers;
    if maxValue.Some? then WhereAtMost(atLeast, maxValue.value) else atLeast
  }

  /** GET search: the filtered records, newest first, with their count and
      the criteria echoed back. */
  function Search(numbers: seq<Record>, minValue: Option<int>, maxValue: Option<int>): (r: Response<SearchResult>)
    ensures r.Ok?
    ensures r.body.criteria == SearchCriteria(minValue, maxValue)
    ensures r.body.count == |r.body.numbers|
    ensures SortedByCreatedAtDesc(r.body.numbers)
    ensures forall x :: multiset(r.body.numbers)[x] ==
                          if Matches(x, minValue, maxValue) then multiset(numbers)[x] else 0
    ensures multiset(r.body.numbers) <= multiset(numbers)
  {
    var filtered := Filtered(numbers, minValue, maxValue);
    assert multiset(filtered) <= multiset(numbers);
    var result := SortByCreatedAtDesc(filtered);
    Ok(SearchResult(|result|, SearchCriteria(minValue, maxValue), result))
  }

  /** An element is in the search result exactly when it is in the input
      and meets the criteria. */
  lemma SearchMembership(numbers: seq<Record>, minValue: Option<int>, maxValue: Option<int>, x: Record)
    ensures x in Search(numbers, minValue, maxValue).body.numbers <==> x in numbers && Matches(x, minValue, maxValue)
  {
    var r := Search(numbers, minValue, maxValue).body.numbers;
    assert x in r <==> x in multiset(r);
    assert x in numbers <==> x in multiset(numbers);
  }

  /** Without bounds the search keeps everything. */
  lemma SearchWithoutBoundsKeepsAll(numbers: seq<Record>)
    ensures multiset(Search(numbers, None, None).body.numbers) == multiset(numbers)
    ensures Search(numbers, None, None).body.count == |numbers|
  {
  }

  /** Values 5, 10, 15, 20, 25 searched with bounds 10 and 20 give exactly
      the records holding 10, 15 and 20. */
  lemma SearchTenToTwenty(a: Record, b: Record, c: Record, d: Record, e: Record)
    requires a.value == 5 && b.value == 10 && c.value == 15 && d.value == 20 && e.value == 25
    ensures forall x :: x in Search([a, b, c, d, e], Some(10), Some(20)).body.numbers <==> x in [b, c, d]
  {
    forall x ensures x in Search([a, b, c, d, e], Some(10), Some(20)).body.numbers <==> x in [b, c, d] {
      SearchMembership([a, b, c, d, e], Some(10), Some(20), x);
    }
  }
}
