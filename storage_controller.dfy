/** The storage tier's endpoints: the only way the other tiers reach the
    store. */
module StorageApi {
  import opened Models
  import opened Ordering
  import opened Storage

  const NoNumbersProvided := "No numbers provided"
  const AllNumbersCleared := "All numbers cleared"

  /** The body of a successful write: how many records were SUBMITTED. */
  datatype StoredBody = StoredBody(count: nat)

  /** The body of the stats endpoint. */
  datatype StorageStats = StorageStats(totalNumbers: nat)

  class StorageController {
    const storage: InMemoryRandomNumberStorage

    constructor (storage: InMemoryRandomNumberStorage)
      ensures this.storage == storage
    {
      this.storage := storage;
    }

    /** POST numbers: rejects an absent or empty batch, otherwise inserts it
        and reports the size of the batch (duplicates included). */
    method StoreNumbers(numbers: Option<seq<Record>>) returns (r: Response<StoredBody>)
      requires storage.Valid()
      modifies storage
      ensures storage.Valid()
      ensures (numbers.None? || numbers.value == []) ==>
                r == BadRequest(NoNumbersProvided) && storage.numbers == old(storage.numbers)
      ensures (numbers.Some? && numbers.value != []) ==>
                r == Ok(StoredBody(|numbers.value|))
                && storage.numbers == AddAll(old(storage.numbers), numbers.value)
    {
      if numbers.None? || |numbers.value| == 0 {
        return BadRequest(NoNumbersProvided);
      }
      storage.AddNumbers(numbers.value);
      r := Ok(StoredBody(|numbers.value|));
    }

    /** GET numbers: every stored record, newest first, with the total. */
    method GetAllNumbers() returns (r: Response<NumbersPage>)
      requires storage.Valid()
      ensures r.Ok?
      ensures r.body.totalCount == |storage.numbers|
      ensures IsSnapshot(r.body.numbers, storage.numbers)
      ensures SortedByCreatedAtDesc(r.body.numbers)
    {
      var snapshot := storage.GetAllNumbers();
      var ordered := SortByCreatedAtDesc(snapshot);
      SnapshotPermutation(snapshot, ordered, storage.numbers);
      r := Ok(NumbersPage(|snapshot|, ordered));
    }

    /** GET numbers/{id}: the stored record, or not-found. */
    method GetNumberById(id: Id) returns (r: Response<Record>)
      requires storage.Valid()
      ensures id !in storage.numbers ==> r == NotFound(id)
      ensures id in storage.numbers ==> r == Ok(storage.numbers[id]) && r.body.id == id
    {
      var number := storage.GetNumberById(id);
      if number.None? {
        return NotFound(id);
      }
      r := Ok(number.value);
    }

    /** GET stats: the number of stored records. */
    method GetStats() returns (r: Response<StorageStats>)
      ensures r == Ok(StorageStats(|storage.numbers|))
    {
      var count := storage.GetCount();
      r := Ok(StorageStats(count));
    }

    /** DELETE numbers: always succeeds and leaves the store empty. */
    method ClearAll() returns (r: Response<string>)
      modifies storage
      ensures storage.Valid()
      ensures storage.numbers == map[]
      ensures r == Ok(AllNumbersCleared)
    {
      storage.ClearAll();
      r := Ok(AllNumbersCleared);
    }

    /** Clearing twice answers and leaves the store exactly as clearing once. */
    method ClearAllTwice() returns (first: Response<string>, second: Response<string>)
      modifies storage
      ensures first == second == Ok(AllNumbersCleared)
      ensures storage.numbers == map[]
    {
      first := ClearAll();
      second := ClearAll();
    }
  }

  /** A batch of two records sharing an id that is new to the store keeps
      only the first of them and grows the store by one, while StoreNumbers
      reports the batch size, 2, for it. */
  lemma {:induction false} DuplicatePairGrowsStoreByOne(m: map<Id, Record>, a: Record, b: Record)
    requires a.id == b.id && a != b && a.id !in m
    ensures AddAll(m, [a, b]) == m[a.id := a]
    ensures |AddAll(m, [a, b])| == |m| + 1
  {
    var m1 := TryAdd(m, a);
    assert [a, b][1..] == [b];
    assert [b][1..] == [];
    assert AddAll(m1, [b]) == AddAll(TryAdd(m1, b), []);
    assert AddAll(m, [a, b]) == AddAll(m1, [b]);
  }
}
