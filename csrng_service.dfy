/** The producer's draw loop against the external generator. Each draw's
    outcome is an input; each request and each pause is a trace event. */
module CsrngApi {
  import opened Models

  const DelayBetweenRequestsMs := 1000

  /** What one call to the generator gave: an exception (transport error,
      non-success status, timeout, unreadable body), or a parsed body that
      may be null. */
  datatype DrawOutcome = Throws | Returned(body: Option<seq<CsrngResponse>>)

  /** What the loop does observably: a request for draw `draw`, or a pause
      of `ms` milliseconds after it. */
  datatype Event = Request(draw: nat, min: int, max: int) | Wait(draw: nat, ms: int)

  /** A draw produces a value when it returned a non-null, non-empty list. */
  predicate Productive(o: DrawOutcome)
  {
    o.Returned? && o.body.Some? && o.body.value != []
  }

  /** How many times the loop body runs for a requested `count`. */
  function Iterations(count: int): (n: nat)
    ensures count <= 0 ==> n == 0
    ensures count > 0 ==> n == count
  {
    if count > 0 then count else 0
  }

  /** What one draw contributes to the result: the first element of a
      productive draw, nothing otherwise. */
  function Contribution(o: DrawOutcome): (r: seq<CsrngResponse>)
    ensures |r| <= 1
    ensures r != [] <==> Productive(o)
    ensures r != [] ==> r[0] == o.body.value[0]
  {
    match o
    case Throws => []
    case Returned(body) => if body.Some? && |body.value| > 0 then [body.value[0]] else []
  }

  /** The results after the first `n` draws, in draw order. */
  function Fetched(draws: seq<DrawOutcome>, n: nat): (r: seq<CsrngResponse>)
    requires n <= |draws|
    ensures |r| <= n
  {
    if n == 0 then [] else Fetched(draws, n - 1) + Contribution(draws[n - 1])
  }

  /** The events of iteration `i`: its request, then a pause unless the
      draw threw or it is the last iteration. */
  function StepEvents(i: nat, o: DrawOutcome, count: int, min: int, max: int): seq<Event>
  {
    [Request(i, min, max)] + if o.Returned? && i < count - 1 then [Wait(i, DelayBetweenRequestsMs)] else []
  }

  /** The events of the first `n` iterations. */
  function Trace(draws: seq<DrawOutcome>, n: nat, count: int, min: int, max: int): seq<Event>
    requires n <= |draws|
  {
    if n == 0 then [] else Trace(draws, n - 1, count, min, max) + StepEvents(n - 1, draws[n - 1], count, min, max)
  }

  /** Makes `count` sequential draws within [min, max]. A failing draw is
      skipped and the loop goes on; the first element of each productive
      draw is kept. */
  method GetRandomNumbers(count: int, min: int, max: int, draws: seq<DrawOutcome>)
    returns (results: seq<CsrngResponse>, trace: seq<Event>)
    requires Iterations(count) <= |draws|
    ensures results == Fetched(draws, Iterations(count))
    ensures trace == Trace(draws, Iterations(count), count, min, max)
    ensures |results| <= Iterations(count)
  {
    results := [];
    trace := [];
    var i := 0;
    while i < count
      invariant 0 <= i <= Iterations(count)
      invariant results == Fetched(draws, i)
      invariant trace == Trace(draws, i, count, min, max)
    {
      trace := trace + [Request(i, min, max)];
      match draws[i] {
        case Throws =>
        case Returned(body) =>
          if body.Some? && |body.value| > 0 {
            results := results + [body.value[0]];
          }
          if i < count - 1 {
            trace := trace + [Wait(i, DelayBetweenRequestsMs)];
          }
      }
      i := i + 1;
    }
  }

  /** An element is fetched exactly when it heads the list of some
      productive draw among the first `n`. */
  lemma {:induction false} FetchedMembership(draws: seq<DrawOutcome>, n: nat, x: CsrngResponse)
    requires n <= |draws|
    ensures x in Fetched(draws, n) <==>
            exists i :: 0 <= i < n && Productive(draws[i]) && draws[i].body.value[0] == x
  {
    if n > 0 {
      FetchedMembership(draws, n - 1, x);
      var c := Contribution(draws[n - 1]);
      assert x in Fetched(draws, n) <==> x in Fetched(draws, n - 1) || x in c;
    }
  }

  /** The number of productive draws among the first `n`. */
  function ProductiveCount(draws: seq<DrawOutcome>, n: nat): (k: nat)
    requires n <= |draws|
    ensures k <= n
  {
    if n == 0 then 0 else ProductiveCount(draws, n - 1) + if Productive(draws[n - 1]) then 1 else 0
  }

  /** One result per productive draw. */
  lemma {:induction false} FetchedLength(draws: seq<DrawOutcome>, n: nat)
    requires n <= |draws|
    ensures |Fetched(draws, n)| == ProductiveCount(draws, n)
  {
    if n > 0 {
      FetchedLength(draws, n - 1);
    }
  }

  /** When every draw is productive, every draw contributes. */
  lemma {:induction false} AllProductiveFetchesAll(draws: seq<DrawOutcome>, n: nat)
    requires n <= |draws|
    requires forall i :: 0 <= i < n ==> Productive(draws[i])
    ensures |Fetched(draws, n)| == n
    ensures forall i :: 0 <= i < n ==> [Fetched(draws, n)[i]] == Contribution(draws[i])
  {
    if n > 0 {
      AllProductiveFetchesAll(draws, n - 1);
    }
  }

  /** When no draw is productive, nothing is fetched. */
  lemma {:induction false} NoneProductiveFetchesNothing(draws: seq<DrawOutcome>, n: nat)
    requires n <= |draws|
    requires forall i :: 0 <= i < n ==> !Productive(draws[i])
    ensures Fetched(draws, n) == []
  {
    if n > 0 {
      NoneProductiveFetchesNothing(draws, n - 1);
    }
  }

  /** Every iteration issues its request, in order: failures never stop the
      loop. */
  lemma {:induction false} EveryDrawIsRequested(draws: seq<DrawOutcome>, n: nat, count: int, min: int, max: int)
    requires n <= |draws|
    ensures forall i :: 0 <= i < n ==> Request(i, min, max) in Trace(draws, n, count, min, max)
  {
    if n > 0 {
      EveryDrawIsRequested(draws, n - 1, count, min, max);
      assert Trace(draws, n, count, min, max)[|Trace(draws, n - 1, count, min, max)|] == Request(n - 1, min, max);
    }
  }

  /** A pause follows draw `i` exactly when that draw did not throw and it
      is not the last one; every pause lasts the configured delay. */
  lemma {:induction false} WaitRule(draws: seq<DrawOutcome>, n: nat, count: int, min: int, max: int, i: nat, ms: int)
    requires n <= |draws|
    ensures Wait(i, ms) in Trace(draws, n, count, min, max) <==>
            i < n && draws[i].Returned? && i < count - 1 && ms == DelayBetweenRequestsMs
  {
    if n > 0 {
      WaitRule(draws, n - 1, count, min, max, i, ms);
      var step := StepEvents(n - 1, draws[n - 1], count, min, max);
      assert Wait(i, ms) in step <==> i == n - 1 && draws[n - 1].Returned? && i < count - 1 && ms == DelayBetweenRequestsMs;
    }
  }

  /** The number of pauses in a trace. */
  function WaitCount(t: seq<Event>): nat
  {
    if t == [] then 0 else WaitCount(t[..|t| - 1]) + if t[|t| - 1].Wait? then 1 else 0
  }

  lemma {:induction false} WaitCountAppend(a: seq<Event>, b: seq<Event>)
    ensures WaitCount(a + b) == WaitCount(a) + WaitCount(b)
    decreases |b|
  {
    if b != [] {
      assert (a + b)[..|a + b| - 1] == a + b[..|b| - 1];
      WaitCountAppend(a, b[..|b| - 1]);
    } else {
      assert a + b == a;
    }
  }

  /** When no draw throws, the first `n` iterations pause once each,
      except for an iteration that is the last one. */
  lemma {:induction false} WaitCountWithoutFailures(draws: seq<DrawOutcome>, n: nat, count: int, min: int, max: int)
    requires n <= |draws| && n <= Iterations(count)
    requires forall i :: 0 <= i < n ==> draws[i].Returned?
    ensures WaitCount(Trace(draws, n, count, min, max)) == if 0 < n == count then n - 1 else n
  {
    if n > 0 {
      WaitCountWithoutFailures(draws, n - 1, count, min, max);
      assert WaitCount(Trace(draws, n - 1, count, min, max)) == n - 1;
      var step := StepEvents(n - 1, draws[n - 1], count, min, max);
      assert Trace(draws, n, count, min, max) == Trace(draws, n - 1, count, min, max) + step;
      WaitCountAppend(Trace(draws, n - 1, count, min, max), step);
      WaitCountAppend([Request(n - 1, min, max)], step[1..]);
      assert step == [Request(n - 1, min, max)] + step[1..];
      assert [Request(n - 1, min, max)][..0] == [];
      assert WaitCount([Request(n - 1, min, max)]) == 0;
      if n - 1 < count - 1 {
        assert step[1..] == [Wait(n - 1, DelayBetweenRequestsMs)];
        assert step[1..][..0] == [];
        assert WaitCount(step[1..]) == 1;
      } else {
        assert step[1..] == [];
        assert WaitCount(step[1..]) == 0;
      }
    }
  }

  /** A full run in which every draw succeeds pauses max(count - 1, 0)
      times, and asks for `count` values. */
  lemma AllSucceedWaitCount(draws: seq<DrawOutcome>, count: int, min: int, max: int)
    requires Iterations(count) <= |draws|
    requires forall i :: 0 <= i < Iterations(count) ==> draws[i].Returned?
    ensures WaitCount(Trace(draws, Iterations(count), count, min, max)) == if count > 0 then count - 1 else 0
  {
    WaitCountWithoutFailures(draws, Iterations(count), count, min, max);
  }

  /** Five draws of which the second and fourth fail yield three values. */
  lemma TwoOfFiveFail(a: CsrngResponse, b: CsrngResponse, c: CsrngResponse)
    ensures Fetched([Returned(Some([a])), Throws, Returned(Some([b])), Throws, Returned(Some([c]))], 5) == [a, b, c]
  {
    var draws := [Returned(Some([a])), Throws, Returned(Some([b])), Throws, Returned(Some([c]))];
    assert Fetched(draws, 1) == [a];
    assert Fetched(draws, 3) == [a, b];
  }
}
