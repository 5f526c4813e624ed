# DatastoreDb and Follower, modelled in Dafny

This project models the object-database facade of twitter-fetch.
`DatastoreDb` saves, finds and deletes application objects in a key-value
store, and `Follower` is the follower-graph edge it stores under a
composite key. The store is a table from keys (kind, identifier) to
records (property name to value). A `DatastoreDb` object holds that table
as a field, and its save and delete methods update it in place.

The modules follow the program's layers:

- `Decimal` (decimal.dfy) covers the decimal text of a Java `long` and
  `Long.parseLong` on ASCII text. Java also accepts the decimal digits of
  other scripts; the model reads only '0'-'9'.
- `Follower` (follower.dfy) covers the `Follower` record, its two
  constructors and its composite `id()`.
- `Entities` (entities.dfy) covers the object-to-entity mapping the facade
  calls: the kind of a class, the identifier of an object, and `toEntity`
  and `fromEntity`. `EntityMapper` is not part of this model. These
  functions state what the facade relies on from it.
- `Store` (store.dfy) covers the store gateway as pure functions over the
  table: filtered query with a limit, batch lookup, batch upsert and batch
  delete. `DatastoreUtil` is not part of this model.
- `ObjectDb` (objectdb.dfy) is the facade: class `DatastoreDb` with
  `table` as its state.
- `Scenarios` (scenarios.dfy) holds the facade's test cases as client
  methods. Each one states the answers the tests expect and derives them
  from the facade's contracts alone.

The store returns query results in an order it chooses. Every query
therefore takes that order as a parameter `order`, constrained by
`ScanOrder`: it lists every stored key exactly once. A batch lookup
likewise takes the order the store answers in as a parameter `answer`,
constrained by `AnswerOrder`. Every contract holds for any such order.

Two points about the code as it stands:

- `DatastoreDb.java` has no `saveFields` and no `findChildren`, so neither
  is modelled.
- `saveAll` and `deleteAll` map the whole list before the single store
  call, so a mapping failure writes nothing. The model returns
  `mapped == false` and leaves the table unchanged.

## Model

| member | source | states |
|---|---|---|
| Follower.Follower.Id | src/main/java/org/draff/Follower.java:16-19 | the composite id holds exactly one ':' |
| Follower.IdRoundTrip | src/main/java/org/draff/Follower.java:16-19 | splitting the id at its ':' and parsing both halves as `long` gives back `userId` and `followerId` |
| Follower.IdInjective | src/main/java/org/draff/Follower.java:16-19 | two followers have the same id exactly when they are the same (user, follower) pair, so no two edges share a key |
| Follower.DefaultFollower | src/main/java/org/draff/Follower.java:10 | the no-argument constructor leaves both ids at 0, so the id is "0:0" |
| Follower.NewFollower | src/main/java/org/draff/Follower.java:11-14 | the two-argument constructor stores its arguments, and its id parses back to them |
| Decimal.NatText | src/main/java/org/draff/Follower.java:18 | the decimal text of a natural number is a non-empty string of digits with no leading zero, and starts with '0' exactly for 0 |
| Decimal.LongText | src/main/java/org/draff/Follower.java:18 | the decimal text of a `long` is non-empty, is all digits apart from a leading '-', and holds no ':' |
| Decimal.NatTextRoundTrip | src/main/java/org/draff/Follower.java:18 | reading the digits of a natural number's text gives the number back |
| Decimal.LongTextRoundTrip | src/main/java/org/draff/Follower.java:18 | `Long.parseLong` of a `long`'s decimal text gives the `long` back |
| Entities.ToEntity | src/main/java/org/draff/objectdb/DatastoreDb.java:34-36 | an object maps to an entity exactly when it has a usable identifier; the key is the class's kind and the object's identifier |
| Entities.EntityRoundTrip | src/main/java/org/draff/objectdb/DatastoreDb.java:34-36 | decoding a saved object's entity as its class gives back the same object |
| Entities.FollowerObject | src/main/java/org/draff/Follower.java:16-19 | a follower object is mappable, and its identifier is the string `id()` |
| Entities.FollowerKeysUnique | src/main/java/org/draff/Follower.java:16-19 | two followers are saved under the same key exactly when they are equal |
| ObjectDb.Saved | src/main/java/org/draff/objectdb/DatastoreDb.java:34-36 | after an upsert the object's key is present and decodes to the object; every other key keeps its presence and its record |
| ObjectDb.SaveOverwrites | src/main/java/org/draff/objectdb/DatastoreDb.java:34-36 | saving twice under one key keeps only the second save |
| ObjectDb.DatastoreDb.Save | src/main/java/org/draff/objectdb/DatastoreDb.java:34-36 | the save succeeds exactly when the object has a usable identifier; the table becomes `Saved` or stays as it was; `findById` then returns the object |
| ObjectDb.ToEntities | src/main/java/org/draff/objectdb/DatastoreDb.java:39-40 | a batch maps exactly when every object does, giving one entity per object in order |
| Store.LastFor | src/main/java/org/draff/objectdb/DatastoreDb.java:41 | a key written by a batch gets the record of the last entity in the batch with that key |
| Store.UpsertAll | src/main/java/org/draff/objectdb/DatastoreDb.java:41 | after a batch upsert the keys are the old keys plus the batch's keys |
| Store.UpsertAllSnoc | src/main/java/org/draff/objectdb/DatastoreDb.java:41 | upserting a batch with one more entity at the end equals upserting that entity afterwards |
| ObjectDb.SaveAllIsSaveEach | src/main/java/org/draff/objectdb/DatastoreDb.java:38-42 | the one-request batch upsert leaves the same table as saving each object in turn |
| ObjectDb.DatastoreDb.SaveAll | src/main/java/org/draff/objectdb/DatastoreDb.java:38-42 | the batch succeeds exactly when every object maps; then the table is the sequential saves of the batch, otherwise unchanged |
| ObjectDb.SaveEachKeepsLast | src/main/java/org/draff/objectdb/DatastoreDb.java:38-42 | after a batch save each object reads back as itself unless a later object of the batch has its key |
| Store.Scan | src/main/java/org/draff/objectdb/DatastoreDb.java:76-79 | a scan returns only stored keys of the kind that the filter admits, with their stored records; every such key in the order appears in it; with a repetition-free order, no key appears twice; it is empty exactly when no key in the order qualifies |
| Store.ScanConcat | src/main/java/org/draff/objectdb/DatastoreDb.java:76-79 | a scan keeps the order it visits keys in: scanning `a + b` gives the scan of `a` followed by the scan of `b` |
| Store.ScanCount | src/main/java/org/draff/objectdb/DatastoreDb.java:76-79 | in a scan order of the store, a scan finds as many entities as there are stored keys qualifying, so each exactly once |
| Store.Query | src/main/java/org/draff/objectdb/DatastoreDb.java:76-79 | a query is a prefix of the scan of the store's order, of length exactly the smaller of `limit` and the number of qualifying keys; each result qualifies, with its stored record; no key appears twice; below the limit every qualifying key is in it; empty exactly when the limit is 0 or no stored key qualifies |
| Store.QueryPrefix | src/main/java/org/draff/objectdb/DatastoreDb.java:76-79 | a smaller limit gives a prefix of a larger limit's result |
| ObjectDb.DatastoreDb.FindByFilter | src/main/java/org/draff/objectdb/DatastoreDb.java:76-79 | the first `limit` objects, in scan order, decoding stored records of the class's kind that the filter admits: exactly the smaller of `limit` and the number of such records, each decoding the matching scan entry, all of them below the limit; empty exactly when the limit is 0 or no such record exists |
| ObjectDb.DatastoreDb.Find | src/main/java/org/draff/objectdb/DatastoreDb.java:44-47 | the first `limit` objects of the class's kind in scan order: exactly the smaller of `limit` and the number stored, all of them below the limit; empty exactly when the limit is 0 or nothing of that kind is stored |
| ObjectDb.DatastoreDb.FindOne | src/main/java/org/draff/objectdb/DatastoreDb.java:54-57 | `None` exactly when nothing of the class's kind is stored; otherwise a stored object of that kind |
| ObjectDb.FindOneIsFirstFound | src/main/java/org/draff/objectdb/DatastoreDb.java:54-57 | `findOne` is the first element of `find` for any positive limit, and `None` exactly when `find` is empty |
| ObjectDb.DatastoreDb.ConstraintFilters | src/main/java/org/draff/objectdb/DatastoreDb.java:69-72 | one equality filter per constraint entry, and nothing else |
| ObjectDb.AllOfMatchesConstraints | src/main/java/org/draff/objectdb/DatastoreDb.java:69-73 | the AND of the equality filters admits exactly the records that satisfy every constraint |
| Store.ScanSameFilter | src/main/java/org/draff/objectdb/DatastoreDb.java:69-73 | two filters that admit the same records give the same scan, so the order a constraint map is walked in does not matter |
| ObjectDb.DatastoreDb.FindByConstraints | src/main/java/org/draff/objectdb/DatastoreDb.java:49-52 | the objects of the kind whose records satisfy every constraint (the constraints are ANDed): exactly the smaller of `limit` and the number of such records, all of them below the limit; empty exactly when the limit is 0 or none exists; the same result for every order of the filters |
| ObjectDb.SameSelection | src/main/java/org/draff/objectdb/DatastoreDb.java:69-73 | the AND of a constraint map's equality filters selects exactly the stored keys whose records satisfy every constraint |
| ObjectDb.DatastoreDb.FindOneByConstraints | src/main/java/org/draff/objectdb/DatastoreDb.java:59-62 | `None` exactly when no stored record of the kind satisfies every constraint; otherwise one that does |
| Store.Lookup | src/main/java/org/draff/objectdb/DatastoreDb.java:101-103 | a point lookup is `None` exactly when the key is absent; otherwise it returns the key and its stored record |
| Store.LookupAll | src/main/java/org/draff/objectdb/DatastoreDb.java:85-87 | a batch lookup returns no more entities than keys, each one a requested key that is stored, with its record |
| Store.LookupAllCount | src/main/java/org/draff/objectdb/DatastoreDb.java:85-87 | a batch lookup returns exactly one entity per position of a stored key |
| Store.LookupAllComplete | src/main/java/org/draff/objectdb/DatastoreDb.java:85-87 | every requested key that is stored is in the result, with its record |
| Store.LookupAllStored | src/main/java/org/draff/objectdb/DatastoreDb.java:85-87 | when every key is stored, one entity per key, in the order of the keys |
| Store.LookupAllDistinct | src/main/java/org/draff/objectdb/DatastoreDb.java:85-87 | looking up pairwise different keys returns no key twice |
| Store.ArrangePermutes | src/main/java/org/draff/objectdb/DatastoreDb.java:85-87 | whatever order the store answers in, it answers the same results, each as often |
| Store.ArrangeMembers | src/main/java/org/draff/objectdb/DatastoreDb.java:85-87 | whatever order the store answers in, it answers exactly the results it was given |
| Store.ArrangeReaches | src/main/java/org/draff/objectdb/DatastoreDb.java:85-87 | every reordering of the results is an order the store may answer in, so the answer orders are exactly the permutations |
| Store.ArrangeInOrder | src/main/java/org/draff/objectdb/DatastoreDb.java:85-87 | answering the first remaining result each time leaves the results in their order |
| Store.ArrangeDistinct | src/main/java/org/draff/objectdb/DatastoreDb.java:85-87 | reordering results that are pairwise different keeps them pairwise different |
| ObjectDb.DecodeArranged | src/main/java/org/draff/objectdb/DatastoreDb.java:81-88 | decoding the entities the store answers, in its order, gives the decoded objects in that same order |
| ObjectDb.InOrderDecoded | src/main/java/org/draff/objectdb/DatastoreDb.java:81-88 | each object decoded from the in-order lookup is the object stored under one of the requested ids |
| ObjectDb.LookedUpDecoded | src/main/java/org/draff/objectdb/DatastoreDb.java:81-88 | in any answer order, the decoded results are as many as the entities found, and each is the object stored under one of the requested ids |
| ObjectDb.LookedUpComplete | src/main/java/org/draff/objectdb/DatastoreDb.java:81-88 | in any answer order, the object of every requested id that has one stored is among the decoded results |
| ObjectDb.LookedUpAllStored | src/main/java/org/draff/objectdb/DatastoreDb.java:81-88 | when every id is stored, the decoded results are the objects of the ids reordered by the store's answer order, the same objects as many times each, and in the order of the ids when the store answers in order |
| ObjectDb.InOrderDistinct | src/main/java/org/draff/objectdb/DatastoreDb.java:81-88 | for a class keyed by its `id` member, the in-order lookup of different ids gives different objects |
| ObjectDb.LookedUpDistinct | src/main/java/org/draff/objectdb/DatastoreDb.java:81-88 | for a class keyed by its `id` member, different ids give different objects in any answer order |
| ObjectDb.DatastoreDb.FindByIds | src/main/java/org/draff/objectdb/DatastoreDb.java:81-88 | in the order the store answers in: one object per id that has a stored object, and no more objects than ids; each result is the object stored under one of the ids; the object of every stored id is in the result; when every id is stored, the objects of the ids reordered by the store, as a multiset exactly those objects, and in the order of the ids when the store answers in order; for a class keyed by its `id` member, different ids give different objects |
| ObjectDb.FindByIdsSkipsMissing | src/main/java/org/draff/objectdb/DatastoreDb.java:81-88 | looking up one stored id and one missing id returns exactly the stored object |
| ObjectDb.DatastoreDb.FindById | src/main/java/org/draff/objectdb/DatastoreDb.java:91-103 | `None` exactly when nothing is stored under the id; otherwise the decoding of the stored record |
| ObjectDb.DatastoreDb.ObjectKey | src/main/java/org/draff/objectdb/DatastoreDb.java:113-115 | an object has a key exactly when it maps to an entity, and that key is the one saving it writes to |
| ObjectDb.Deleted | src/main/java/org/draff/objectdb/DatastoreDb.java:105-107 | after a delete the object's key is gone; every other key keeps its presence and its record |
| ObjectDb.DatastoreDb.Delete | src/main/java/org/draff/objectdb/DatastoreDb.java:105-107 | the delete succeeds exactly when the object has a usable identifier; the table becomes `Deleted` or stays as it was; `findById` then answers `None` |
| ObjectDb.FindOneAfterDelete | src/test/java/org/draff/objectdb/DatastoreDbTest.java:90-93 | once the only object of its kind is deleted, `findOne` for that kind answers `None` |
| ObjectDb.ObjectKeys | src/main/java/org/draff/objectdb/DatastoreDb.java:110 | a batch has keys exactly when every object maps, giving one key per object in order |
| Store.DeleteAll | src/main/java/org/draff/objectdb/DatastoreDb.java:110 | a batch delete removes exactly the listed keys and keeps every other record |
| ObjectDb.DeleteAllIsDeleteEach | src/main/java/org/draff/objectdb/DatastoreDb.java:109-111 | the one-request batch delete leaves the same table as deleting each object in turn |
| ObjectDb.DatastoreDb.DeleteAll | src/main/java/org/draff/objectdb/DatastoreDb.java:109-111 | the batch succeeds exactly when every object maps; then the table is the sequential deletes and no object's key remains, otherwise unchanged |
| Scenarios.SaveFindOneAndDelete | src/test/java/org/draff/objectdb/DatastoreDbTest.java:68-94 | `findOne` is null on an empty store, returns the saved cursor, and is null again after the delete |
| Scenarios.SaveTwoFollowers | src/test/java/org/draff/objectdb/DatastoreDbTest.java:98-106 | a batch save of two different followers stores exactly their two records under two different keys |
| Scenarios.UserConstraint | src/test/java/org/draff/objectdb/DatastoreDbTest.java:109-112 | a follower satisfies a user-id constraint exactly when its user id is that one |
| Scenarios.PairConstraint | src/test/java/org/draff/objectdb/DatastoreDbTest.java:117-125 | a follower satisfies constraints on both ids exactly when it is that pair |
| Scenarios.FindByUserId | src/test/java/org/draff/objectdb/DatastoreDbTest.java:109-115 | constraining the user id finds the follower with that user id, in either scan order |
| Scenarios.FindByBothIds | src/test/java/org/draff/objectdb/DatastoreDbTest.java:117-120 | constraining both ids finds that follower |
| Scenarios.FindByOtherIds | src/test/java/org/draff/objectdb/DatastoreDbTest.java:122-125 | constraining both ids to a pair that was not saved finds nothing |
| Scenarios.TwoUsersFound | src/test/java/org/draff/objectdb/DatastoreDbTest.java:128-139 | after a batch save of users 1 and 2, looking up both ids answers both users, in id order or swapped as the store answers |
| Scenarios.OrderTwoFound | src/test/java/org/draff/objectdb/DatastoreDbTest.java:140-144 | for either answer order the corrected reordering gives user 1 then user 2; the reordering as written agrees for the in-order answer and gives user 2 twice for the swapped one |
| Scenarios.FindByIds | src/test/java/org/draff/objectdb/DatastoreDbTest.java:128-150 | after a batch save of two users, looking up both ids returns both users in the store's answer order; the corrected reordering gives user 1 then user 2 for both answer orders, and the reordering as written gives user 2 twice when the store answers user 2 first |
| Scenarios.OrderByIdAsWrittenLosesUser | src/test/java/org/draff/objectdb/DatastoreDbTest.java:140-144 | as written, the reordering turns users 2 and 1 into user 2 twice, which is not the pair it was given |
| Scenarios.OrderById | src/test/java/org/draff/objectdb/DatastoreDbTest.java:140-144 | the corrected reordering puts the smaller id first and keeps both users |
| Scenarios.OrderByIdEitherOrder | src/test/java/org/draff/objectdb/DatastoreDbTest.java:140-144 | whichever order the store answers the two users in, the corrected reordering gives user 1 then user 2 |
| Scenarios.FindById | src/test/java/org/draff/objectdb/DatastoreDbTest.java:152-164 | `findById` is null before the save and returns the saved user after it |

## Findings

| source | as written | input that shows it | evidently intended | confidence | as-written member | corrected member |
|---|---|---|---|---|---|---|
| src/test/java/org/draff/objectdb/DatastoreDbTest.java:140-144 | when `found1.id() > found2.id()`, the test sets `temp = found1; found2 = found1; found1 = temp`, so both variables hold the first user | the store answers `[User(2, 1), User(1, 2)]`: both variables become user 2, and the checks of user 1 fail | swap the two users (`found2 = temp` after `found1 = found2`), so the test holds whatever order the store answers in | not executed | Scenarios.OrderByIdAsWritten, Scenarios.OrderByIdAsWrittenLosesUser | Scenarios.OrderById, Scenarios.OrderByIdEitherOrder |

The test as written passes only when the store answers in id order.
`Scenarios.FindByIds` drives the facade with the store answering in id
order and swapped: the reordering as written gives user 2 twice from the
swapped answer, and the corrected reordering gives user 1 then user 2 from
both.

## Left out

- The store client, network access and authentication are left out. The store is the `table` field, and each of the facade's requests is one atomic update of it.
- Eventual consistency and the tests' polling for it are left out. A save or delete is visible to the next read.
- Reflection and the type-descriptor cache behind `EntityMapper` are left out. An object is a class descriptor plus a map of field values. Only `long`, string and boolean values are modelled: no doubles, nested objects or parent references.
- Ancestor keys and `findChildren` are left out. They are not in this version of `DatastoreDb.java`. The test at DatastoreDbTest.java:166-193 calls a method the facade does not have.
- `ObjectDb.DatastoreDb.FirstOrNull` carries no contract of its own. Its behaviour is stated through `FindOne` and `FindOneByConstraints`.
- `ObjectDb.DatastoreDb.Find`: its limit is a `nat`. A negative `int` limit depends on the store client, which is not part of this model.
- `ObjectDb.DatastoreDb.FindByConstraints`: an empty constraint map is modelled as the AND of no filters, which admits every record of the kind. The store library's handling of an empty composite filter is not part of this model.
- `ObjectDb.DatastoreDb.FindByIds`: the store chooses the order of a batch lookup's results. The model takes that choice as a parameter, an answer order applied to the results listed in the order of the ids with missing ids left out. `Store.ArrangeReaches` shows that every reordering is such an answer order. Which order a real store picks is not modelled.
- `ObjectDb.DatastoreDb.FindById`: the two Java overloads (a `long` id and a `String` id) are one method taking an `Ident` (`LongId` or `NameId`).
- `ObjectDb.DatastoreDb.Save`: a class with an `id` member keeps that member only in the key. Its record holds the other fields, and decoding sets `id` back from the key.
- `ObjectDb.DatastoreDb.SaveAll`: a batch that writes one key twice keeps the last record for that key, matching sequential saves.
- A mapping failure is the result `mapped == false` rather than an exception. Store failures and the retries around them are left out.
- The `ObjectDb` interface, `Main`, the Guice wiring and `FollowersTracker` are callers or declarations, not behaviour of the core, and are left out.
