/** The producer's fetch-then-store endpoint. The generator's per-draw
    outcomes, the fresh ids, the clock readings and the storage tier's
    answer are inputs. */
module WriterApi {
  import opened Models
  import opened CsrngApi
  import Storage

  const DefaultCount := 5
  const DefaultMin := 1
  const DefaultMax := 1000

  const FetchFailed := "Failed to fetch random numbers from external API"
  const StoreFailed := "Failed to store numbers in Storage API"

  /** The success body: how many records were stored, and the records. */
  datatype FetchedBody = FetchedBody(count: nat, numbers: seq<Record>)

  /** One response becomes one record, with the i-th fresh id and the i-th
      clock reading. */
  function ToRecords(responses: seq<CsrngResponse>, ids: seq<Id>, clock: seq<Ticks>): (rs: seq<Record>)
    requires |responses| <= |ids| && |responses| <= |clock|
    ensures |rs| == |responses|
    ensures forall i :: 0 <= i < |rs| ==>
              && rs[i].value == responses[i].random
              && rs[i].min == responses[i].min
              && rs[i].max == responses[i].max
              && rs[i].id == ids[i]
              && rs[i].createdAt == clock[i]
  {
    seq(|responses|, i requires 0 <= i < |responses| =>
      Record(ids[i], responses[i].random, responses[i].min, responses[i].max, clock[i]))
  }

  /** Distinct fresh ids give records with distinct ids. */
  lemma ToRecordsDistinct(responses: seq<CsrngResponse>, ids: seq<Id>, clock: seq<Ticks>)
    requires |responses| <= |ids| && |responses| <= |clock|
    requires forall i, j :: 0 <= i < j < |ids| ==> ids[i] != ids[j]
    ensures Storage.DistinctIds(ToRecords(responses, ids, clock))
  {
  }

  /** POST fetch: draws `count` values, rejects an empty harvest without
      calling storage, submits the mapped records otherwise, and answers
      500 when the storage tier reports failure. `submitted` is the batch
      handed to the storage tier, absent when it was never called. */
  method FetchAndStoreNumbers(draws: seq<DrawOutcome>, ids: seq<Id>, clock: seq<Ticks>, storeSucceeds: bool,
                              count: int := DefaultCount, min: int := DefaultMin, max: int := DefaultMax)
    returns (r: Response<FetchedBody>, submitted: Option<seq<Record>>)
    requires Iterations(count) <= |draws|
    requires Iterations(count) <= |ids| && Iterations(count) <= |clock|
    ensures Fetched(draws, Iterations(count)) == [] ==>
              r == BadRequest(FetchFailed) && submitted == None
    ensures Fetched(draws, Iterations(count)) != [] ==>
              && submitted == Some(ToRecords(Fetched(draws, Iterations(count)), ids, clock))
              && (storeSucceeds ==> r == Ok(FetchedBody(|submitted.value|, submitted.value)))
              && (!storeSucceeds ==> r == ServerError(500, StoreFailed))
  {
    var responses, _ := GetRandomNumbers(count, min, max, draws);
    if |responses| == 0 {
      return BadRequest(FetchFailed), None;
    }
    var numbers := ToRecords(responses, ids, clock);
    submitted := Some(numbers);
    if !storeSucceeds {
      return ServerError(500, StoreFailed), submitted;
    }
    r := Ok(FetchedBody(|numbers|, numbers));
  }

  /** The harvested records never collide with each other, and when their
      ids are new to the store the batch grows it by exactly its length. */
  lemma FetchedBatchGrowsStore(m: map<Id, Record>, draws: seq<DrawOutcome>, n: nat, ids: seq<Id>, clock: seq<Ticks>)
    requires n <= |draws| && n <= |ids| && n <= |clock|
    requires forall i, j :: 0 <= i < j < |ids| ==> ids[i] != ids[j]
    requires forall i :: 0 <= i < |ids| ==> ids[i] !in m
    ensures |Storage.AddAll(m, ToRecords(Fetched(draws, n), ids, clock))| == |m| + |Fetched(draws, n)|
  {
    var batch := ToRecords(Fetched(draws, n), ids, clock);
    ToRecordsDistinct(Fetched(draws, n), ids, clock);
    Storage.AddAllDistinctFresh(m, batch);
  }
}
