# DataExchange: a Dafny model of the record store and its three tiers

DataExchange moves random numbers between three services. The **writer** draws values one at a time from an external generator (CSRNG), turns each into a record, and posts the batch to the **storage** tier. The storage tier keeps every record in one process-wide in-memory map keyed by id. The **reader** tier lists, looks up, summarises and searches the records it reads from the storage tier.

This project models that core in Dafny and proves properties of the model:

- `models.dfy` (module `Models`): the `Record` and `CsrngResponse` values, `Option`, and the endpoint `Response` shapes (Ok, BadRequest, NotFound, a status-code error).
- `storage.dfy` (module `Storage`): the store as a class over a `map<Id, Record>`. It specifies first-write-wins insertion (`TryAdd`) and the batch insert as a left fold (`AddAll`), and proves lemmas about lookup, duplicates, counts and snapshots.
- `storage_controller.dfy` (module `StorageApi`): the storage tier's endpoints, as methods of a controller over one store.
- `ordering.dfy` (module `Ordering`): the stable newest-first sort used by every listing.
- `csrng_service.dfy` (module `CsrngApi`): the writer's draw loop. Each draw's outcome is an input. Requests and pauses are recorded as trace events.
- `writer_controller.dfy` (module `WriterApi`): the fetch-then-store decision sequence and the mapping from responses to records.
- `reader_controller.dfy` (module `ReaderApi`): the reader's list, lookup, stats and search, as pure functions of the list it fetched.

Modelling choices:

- A Guid is a `nat` and a DateTime is an `int` tick count. The generator's `Status` text is never read, so it is dropped.
- The source keeps the map in a `static` field, so every storage instance shares it. The model has one store object, and the storage controller is handed it at construction.
- `Guid.NewGuid()` and `DateTime.UtcNow` become input sequences. The i-th mapped record takes the i-th id and the i-th clock reading, as the lazy `Select` evaluates them.
- Calls between tiers become inputs. The writer's storage client gives a `bool` (`storeSucceeds`). The reader's client gives a list of records or an `Option<Record>`; on failure that is the empty list or `None`.
- A draw that the generator answers with a `null` body is `Returned(None)`. An exception raised while requesting or parsing a draw, before its first element is kept (DataExchange.WriterApi/Services/CsrngApiService.cs:34-43), is `Throws`.
- The writer's method also returns `submitted`: the batch it handed to the storage tier, or `None` when it never called the storage tier.

## Behaviour worth noting

- The writer's success answer carries the records it fetched and their number (DataExchange.WriterApi/Controllers/RandomNumbersController.cs:63-67). It reports neither the requested count nor the count the storage tier newly accepted.
- A request with `count <= 0` runs the draw loop zero times. It gets the same BadRequest as a harvest where every draw failed (DataExchange.WriterApi/Controllers/RandomNumbersController.cs:38-41).

## Model

| member | source | states |
|---|---|---|
| `Storage.TryAdd` | DataExchange.Storage/Implementations/InMemoryRandomNumberStorage.cs:13 | a single insert adds exactly the record's id to the key set and keeps every key mapped to a record with that id |
| `Storage.AddAll` | DataExchange.Storage/Implementations/InMemoryRandomNumberStorage.cs:17-24 | a batch insert adds exactly the batch's ids to the key set and keeps keys and record ids in agreement |
| `Storage.FirstWithId` | DataExchange.Storage/Implementations/InMemoryRandomNumberStorage.cs:19-22 | finds a record with the id exactly when the batch holds one, and it is the earliest such record |
| `Storage.AddAbsentThenLookup` | DataExchange.Storage/Implementations/InMemoryRandomNumberStorage.cs:11-15 | inserting a record whose id is absent makes that id map to exactly that record and grows the count by one |
| `Storage.AddPresentIsNoOp` | DataExchange.Storage/Implementations/InMemoryRandomNumberStorage.cs:13 | inserting a record whose id is present leaves the map unchanged (first write wins) |
| `Storage.AddAllSnoc` | DataExchange.Storage/Implementations/InMemoryRandomNumberStorage.cs:17-24 | a batch followed by one more record equals the batch, then a single insert of that record |
| `Storage.AddAllFirstWins` | DataExchange.Storage/Implementations/InMemoryRandomNumberStorage.cs:17-24 | after a batch, a key is present iff it was before or the batch holds it; an old key keeps its record, a new key holds the batch's first record with that id |
| `Storage.AddAllDistinctFresh` | DataExchange.Storage/Implementations/InMemoryRandomNumberStorage.cs:17-24 | a batch of k distinct absent ids grows the count by k, and each record becomes retrievable by its id |
| `Storage.RepeatedIdShrinksIdSet` | DataExchange.Storage/Implementations/InMemoryRandomNumberStorage.cs:9 | a sequence with a repeated id has fewer distinct ids than elements |
| `Storage.SnapshotHasDistinctIds` | DataExchange.Storage/Implementations/InMemoryRandomNumberStorage.cs:32-35 | a snapshot lists each stored record once: its ids are pairwise distinct |
| `Storage.SnapshotPermutation` | DataExchange.StorageApi/Controllers/StorageController.cs:57-65 | any reordering of a snapshot is still a snapshot of the same store |
| `Storage.InMemoryRandomNumberStorage.constructor` | DataExchange.Storage/Implementations/InMemoryRandomNumberStorage.cs:9 | the store starts empty |
| `Storage.InMemoryRandomNumberStorage.AddNumber` | DataExchange.Storage/Implementations/InMemoryRandomNumberStorage.cs:11-15 | the new map is `TryAdd` of the old map and the record |
| `Storage.InMemoryRandomNumberStorage.AddNumbers` | DataExchange.Storage/Implementations/InMemoryRandomNumberStorage.cs:17-24 | the loop of single inserts leaves the map equal to the left fold `AddAll` of the old map and the batch |
| `Storage.InMemoryRandomNumberStorage.GetNumberById` | DataExchange.Storage/Implementations/InMemoryRandomNumberStorage.cs:26-30 | returns a record iff the id is stored, and then the stored record with that id; the store is not modified |
| `Storage.InMemoryRandomNumberStorage.GetAllNumbers` | DataExchange.Storage/Implementations/InMemoryRandomNumberStorage.cs:32-35 | returns a snapshot: as many records as stored, each stored under its id, every stored record present; the store is not modified |
| `Storage.InMemoryRandomNumberStorage.GetCount` | DataExchange.Storage/Implementations/InMemoryRandomNumberStorage.cs:37-40 | returns the number of stored records; the store is not modified |
| `Storage.InMemoryRandomNumberStorage.ClearAll` | DataExchange.Storage/Implementations/InMemoryRandomNumberStorage.cs:42-46 | the map is empty afterwards, whatever it held |
| `StorageApi.StorageController.constructor` | DataExchange.StorageApi/Controllers/StorageController.cs:14-18 | the controller works on the store it is given |
| `StorageApi.StorageController.StoreNumbers` | DataExchange.StorageApi/Controllers/StorageController.cs:28-40 | an absent or empty batch gives BadRequest and changes nothing; otherwise the store becomes `AddAll` of the batch and the reported count is the batch size |
| `StorageApi.StorageController.GetAllNumbers` | DataExchange.StorageApi/Controllers/StorageController.cs:57-66 | Ok with the store's count as total and a newest-first snapshot of the store |
| `StorageApi.StorageController.GetNumberById` | DataExchange.StorageApi/Controllers/StorageController.cs:83-90 | an absent id gives NotFound for that id; a present id gives Ok with the stored record |
| `StorageApi.StorageController.GetStats` | DataExchange.StorageApi/Controllers/StorageController.cs:107-112 | Ok with the store's count; the store is not modified |
| `StorageApi.StorageController.ClearAll` | DataExchange.StorageApi/Controllers/StorageController.cs:129-131 | always Ok with the cleared message, and the store is empty afterwards |
| `StorageApi.StorageController.ClearAllTwice` | DataExchange.StorageApi/Controllers/StorageController.cs:129-131 | clearing twice answers the same and leaves the same empty store as clearing once |
| `StorageApi.DuplicatePairGrowsStoreByOne` | DataExchange.StorageApi/Controllers/StorageController.cs:33-40 | a two-record batch whose shared id is new to the store keeps only the first record and grows the store by 1, while `StoreNumbers` reports the batch size 2 |
| `Ordering.PrependSorted` | DataExchange.StorageApi/Controllers/StorageController.cs:65 | a record no older than every element of a newest-first sequence can lead it |
| `Ordering.InsertByCreatedAtDesc` | DataExchange.StorageApi/Controllers/StorageController.cs:65 | inserting into a newest-first sequence keeps it newest-first and adds exactly that record |
| `Ordering.SortByCreatedAtDesc` | DataExchange.ReaderApi/Controllers/RandomNumbersController.cs:34 | the result is newest-first and a permutation of the input |
| `CsrngApi.Contribution` | DataExchange.WriterApi/Services/CsrngApiService.cs:43-47 | a draw contributes at most one value; it contributes iff it returned a non-null, non-empty list, and then its first element |
| `CsrngApi.Fetched` | DataExchange.WriterApi/Services/CsrngApiService.cs:24-47 | the results of n draws, in draw order, number at most n |
| `CsrngApi.GetRandomNumbers` | DataExchange.WriterApi/Services/CsrngApiService.cs:22-71 | the loop returns exactly `Fetched` of its max(count, 0) draws, at most that many values (none for count <= 0), and issues exactly the `Trace` of requests and pauses |
| `CsrngApi.FetchedMembership` | DataExchange.WriterApi/Services/CsrngApiService.cs:43-47 | a value is fetched iff it heads the list of some productive draw |
| `CsrngApi.ProductiveCount` | DataExchange.WriterApi/Services/CsrngApiService.cs:43 | the number of productive draws is at most the number of draws |
| `CsrngApi.FetchedLength` | DataExchange.WriterApi/Services/CsrngApiService.cs:43-47 | there is one result per productive draw |
| `CsrngApi.AllProductiveFetchesAll` | DataExchange.WriterApi/Services/CsrngApiService.cs:26-47 | when every draw is productive, the i-th result is the first element of the i-th draw |
| `CsrngApi.NoneProductiveFetchesNothing` | DataExchange.WriterApi/Services/CsrngApiService.cs:26-67 | when every draw throws or returns nothing, the result is empty |
| `CsrngApi.EveryDrawIsRequested` | DataExchange.WriterApi/Services/CsrngApiService.cs:26-67 | every one of the draws is requested, even after failures |
| `CsrngApi.WaitRule` | DataExchange.WriterApi/Services/CsrngApiService.cs:49-54 | a pause follows draw i iff the draw did not throw and i < count - 1; its length is the configured 1000 ms |
| `CsrngApi.WaitCountAppend` | DataExchange.WriterApi/Services/CsrngApiService.cs:53 | pauses in a concatenated trace add up |
| `CsrngApi.WaitCountWithoutFailures` | DataExchange.WriterApi/Services/CsrngApiService.cs:26-54 | without failures, each of the first n iterations pauses except the last iteration of the run |
| `CsrngApi.AllSucceedWaitCount` | DataExchange.WriterApi/Services/CsrngApiService.cs:49-54 | a full run in which no draw throws pauses exactly max(count - 1, 0) times |
| `CsrngApi.TwoOfFiveFail` | DataExchange.WriterApi/Services/CsrngApiService.cs:26-67 | five draws where the second and fourth throw yield the three other values, in order |
| `WriterApi.ToRecords` | DataExchange.WriterApi/Controllers/RandomNumbersController.cs:44-51 | one record per response, in order, with value, min and max copied and the i-th fresh id and clock reading |
| `WriterApi.ToRecordsDistinct` | DataExchange.WriterApi/Controllers/RandomNumbersController.cs:46 | distinct fresh ids give records with pairwise distinct ids |
| `WriterApi.FetchAndStoreNumbers` | DataExchange.WriterApi/Controllers/RandomNumbersController.cs:29-67 | an empty harvest gives BadRequest and storage is never called; otherwise the mapped batch is submitted, and a failed submission gives 500 while a successful one gives Ok with the batch and its length; defaults are count 5, min 1, max 1000 |
| `WriterApi.FetchedBatchGrowsStore` | DataExchange.WriterApi/Controllers/RandomNumbersController.cs:44-54 | a harvested batch with fresh ids grows a store by exactly the number of values fetched |
| `ReaderApi.Min` | DataExchange.ReaderApi/Controllers/RandomNumbersController.cs:86 | the minimum is an element and bounds every element from below |
| `ReaderApi.Max` | DataExchange.ReaderApi/Controllers/RandomNumbersController.cs:87 | the maximum is an element and bounds every element from above |
| `ReaderApi.SumBounds` | DataExchange.ReaderApi/Controllers/RandomNumbersController.cs:88 | a sum of n values within [lo, hi] lies within [n * lo, n * hi] |
| `ReaderApi.Average` | DataExchange.ReaderApi/Controllers/RandomNumbersController.cs:88 | the mean is the sum divided by the length, as a real, and lies between the minimum and the maximum |
| `ReaderApi.GetAll` | DataExchange.ReaderApi/Controllers/RandomNumbersController.cs:31-35 | Ok with the input's length as total and a newest-first permutation of the input |
| `ReaderApi.GetById` | DataExchange.ReaderApi/Controllers/RandomNumbersController.cs:51-58 | NotFound for the id iff the storage tier had no record, otherwise Ok with that record |
| `ReaderApi.GetStats` | DataExchange.ReaderApi/Controllers/RandomNumbersController.cs:74-91 | an empty list gives count 0 and the message; otherwise min and max value are elements bounding all values, the mean is sum over length and lies between them, oldest and newest are element timestamps bounding all timestamps (so oldest <= newest), and the count is the length |
| `ReaderApi.WhereAtLeast` | DataExchange.ReaderApi/Controllers/RandomNumbersController.cs:111-114 | the lower-bound filter keeps every record with value at least the bound, with its multiplicity, and drops all others |
| `ReaderApi.WhereAtMost` | DataExchange.ReaderApi/Controllers/RandomNumbersController.cs:116-119 | the upper-bound filter keeps every record with value at most the bound, with its multiplicity, and drops all others |
| `ReaderApi.Filtered` | DataExchange.ReaderApi/Controllers/RandomNumbersController.cs:109-119 | the two optional filters together keep each record that meets both bounds, with its multiplicity, and drop all others |
| `ReaderApi.Search` | DataExchange.ReaderApi/Controllers/RandomNumbersController.cs:108-131 | echoes the criteria, the count is the result's length, the result is newest-first, and each record occurs as often as in the input if it meets both optional inclusive bounds and not at all otherwise |
| `ReaderApi.SearchMembership` | DataExchange.ReaderApi/Controllers/RandomNumbersController.cs:109-119 | a record is in the result iff it is in the input and meets the criteria |
| `ReaderApi.SearchWithoutBoundsKeepsAll` | DataExchange.ReaderApi/Controllers/RandomNumbersController.cs:109-121 | with both bounds absent the result is a permutation of the input |
| `ReaderApi.SearchTenToTwenty` | DataExchange.ReaderApi/Controllers/RandomNumbersController.cs:109-121 | with values 5, 10, 15, 20, 25 and bounds 10 and 20, exactly the records holding 10, 15 and 20 are kept |

## Left out

- The HTTP clients (DataExchange.ReaderApi/Services/StorageApiClient.cs, DataExchange.WriterApi/Services/StorageApiClient.cs) are JSON and `HttpClient` plumbing. Their rule is to give an empty list, null, 0 or `false` when a call fails. Their results appear only as inputs to the controllers.
- The three `Program.cs` files (hosting, dependency injection, Swagger) and the interface-only files are not part of this model.
- Thread safety of `ConcurrentDictionary` and the concurrent 100-writer test are not modelled: every operation is sequential.
- The generic `catch (Exception)` branches that answer 500 guard against runtime faults that the model cannot raise, so they are not modelled.
- Log messages are not modelled. Interpolated answer texts ("Stored {n} numbers", "Number with ID {id} not found") appear only through the number or id they carry.
- The time that `Task.Delay` and HTTP timeouts take is not modelled. A pause is a `Wait` event with its configured length.
- A generator reply whose first element is JSON null is not modelled: the service keeps the null and then skips the pause, because logging its value throws, and the writer's mapping then fails with the generic 500.
- The request URL is not built; a `Request` event records the bounds it would carry.
- `ReaderApi.Average`: the mean is an exact `real`, not a `double`, so floating-point rounding is not modelled.
- `Ordering.SortByCreatedAtDesc`: it keeps ties in input order, as `OrderByDescending` does, but its contract does not state this stability.
- `Storage.InMemoryRandomNumberStorage.GetAllNumbers`: the map's enumeration order is chosen nondeterministically, and the contract fixes the contents, not the order.
