# CityInfo points of interest, modelled in Dafny

CityInfo is an ASP.NET Core web API. It serves cities and the points of
interest that belong to them. This project models the part that handles
points of interest:

- the two controllers that read, create, replace, patch and delete points of
  interest. One works on a process-wide in-memory store of cities. The other
  works through a repository over an Entity Framework database context;
- the `City` and `PointOfInterest` entities with their validation
  annotations;
- the start-up routine that seeds an empty database with three sample
  cities.

Modules, following the program's structure:

- `Primitives`: `Option`, 32-bit `int` as `Int32`, checked and unchecked
  `++`, LINQ `FirstOrDefault` as `FirstIndex`, and decimal rendering of an
  integer.
- `Entities`: `City` and `PointOfInterest`, the `[Required]` and
  `[MaxLength]` rules, and how the identity column assigns keys.
- `Views`: the DTOs, the AutoMapper maps registered at start-up, the
  validation errors, and the action results (`Response`).
- `JsonPatch`: the patch document as the controllers apply it. It supports
  `add`, `replace` and `remove` on `/name` and `/description`. A bad path is
  reported as an error.
- `Mail`: the mail service, as a log of the mails it was asked to send.
- `PointsOfInterestInMemory`: the in-memory data store and its controller.
- `Repository`: the repository and its unit of work. The PointsOfInterest
  table is a map from primary key to row. The module keeps the stored
  rows, the rows as this unit of work changed them, the rows added since the
  last save, and the identity column's next value.
- `PointsOfInterest`: the repository-backed controller.
- `Seeding`: `EnsureSeedDataForContext` over a context holding the Cities
  table.

Each controller is a class. Its actions are methods whose `ensures` give the
response for every input and the new state of the store or the database.
Every action also keeps the store's invariant: keys are unique in memory,
and in the database every row sits under its own positive key and belongs to
an existing city. Database faults are parameters of the actions
(`readFails`, `saveFails`): a read that throws, or a `SaveChanges` that
refuses the changes.

Three choices in the code shape the model:

- The `PUT` actions of both controllers check that the description differs
  from the name (`PointsOfInterestControllerInMemory.cs:131-134`,
  `PointsOfInterestController.cs:176-179`), and both models do.
- An in-memory key is the largest key present plus one. A deleted largest key
  is therefore handed out again (`DeletedLargestKeyIsReissued`). The
  database's identity column never reissues a key (`DeleteThenCreate`).
- `Max` over no points of interest at all throws. The model gives it as an
  unhandled exception (status 500). It is not a precondition.

## Model

| member | source | states |
|---|---|---|
| Primitives.UncheckedIncrement | CityInfo.API/Controllers/PointsOfInterestControllerInMemory.cs:107 | `++` on `int` in an unchecked context: below `int.MaxValue` it adds one, at `int.MaxValue` it wraps to `int.MinValue` |
| Primitives.CheckedIncrement | CityInfo.API/Controllers/PointsOfInterestControllerInMemory.cs:102-107 | the increment succeeds exactly when the value is below `int.MaxValue`, and then its result is the value plus one |
| Primitives.FirstIndex | CityInfo.API/Controllers/PointsOfInterestControllerInMemory.cs:32 | `FirstOrDefault`: the index found matches and no earlier one does; nothing is found exactly when no element matches |
| Primitives.RemoveAt | CityInfo.API/Controllers/PointsOfInterestControllerInMemory.cs:238 | `List.Remove` of the item at index `j`: one element shorter, the elements before it kept, the elements after it shifted down one place |
| Primitives.NatString | CityInfo.API/Controllers/PointsOfInterestControllerInMemory.cs:240-241 | decimal rendering of a natural number: non-empty digits that read back as the number, with no leading zero unless the number is zero |
| Primitives.Utf16Length | CityInfo.API/Entities/PointOfInterest.cs:15-23 | the `Length` `[MaxLength]` measures: at least the number of characters and at most twice it, and equal to it exactly when no character lies outside the Basic Multilingual Plane |
| Primitives.IntString | CityInfo.API/Controllers/PointsOfInterestControllerInMemory.cs:240-241 | decimal rendering of the key in the mail: the text reads back as the key, has a leading minus sign exactly for negative keys, and has no leading zero |
| Entities.NewCity | CityInfo.API/Entities/City.cs:24-25 | a new city has no key yet, no name or description, and an empty list, so it counts no points of interest |
| Entities.NumberOfPointsOfInterest | CityInfo.API/Entities/City.cs:22 | the count of the city's list: zero exactly when the city has no points of interest |
| Entities.PendingCount | CityInfo.API/Entities/PointOfInterest.cs:12-14 | the rows still waiting for a key number at most all rows, and are none exactly when every row has a key |
| Entities.AssignIds | CityInfo.API/Entities/PointOfInterest.cs:12-14 | the identity column keys a city's list on insert: the list keeps its length and the counter advances by the number of rows waiting for a key |
| Entities.AssignIdsMeaning | CityInfo.API/Entities/PointOfInterest.cs:12-14 | each waiting row receives a key from the range handed out and names its owner, rows that had keys are kept, and new keys increase in list order |
| Views.AnnotationErrors | CityInfo.API/Entities/PointOfInterest.cs:15-23 | `[Required]` rejects a missing, empty or white-space name. `[MaxLength(50)]` and `[MaxLength(200)]` reject texts longer than that in UTF-16 code units and let a missing one through. There are no errors exactly when the fields are valid |
| Views.ValidationErrors | CityInfo.API/Controllers/PointsOfInterestControllerInMemory.cs:81-90 | the model state holds the annotation errors, plus a description error exactly when the description equals the name. It is valid exactly when the fields are valid and differ |
| Views.PatchValidationErrors | CityInfo.API/Controllers/PointsOfInterestController.cs:284-289 | the patch path records the cross-field rule before `TryValidateModel`, which then skips the already invalid description: the same verdict as `ValidationErrors`, with the length error on the description reported only when it differs from the name |
| Views.ToDto | CityInfo.API/Startup.cs:105 | the entity-to-DTO map copies the key, name and description |
| Views.ToDtos | CityInfo.API/Controllers/PointsOfInterestController.cs:41-44 | maps a list element by element, keeping its length and order |
| Views.FromCreationDto | CityInfo.API/Startup.cs:107 | the creation DTO becomes an entity with the same name and description, no key and no owner yet |
| Views.ToUpdateDto | CityInfo.API/Startup.cs:109 | the entity-to-update-DTO map copies the name and description |
| Views.MapOnto | CityInfo.API/Startup.cs:108 | mapping an update DTO onto an entity replaces its name and description and keeps its key and owner |
| Views.MapOntoRoundTrip | CityInfo.API/Controllers/PointsOfInterestController.cs:273-298 | mapping an entity's own update DTO back onto it changes nothing; mapping any DTO on and reading it off again gives that DTO |
| JsonPatch.Resolve | CityInfo.API/Controllers/PointsOfInterestController.cs:276 | a patch path names the name or the description exactly when it equals `/name` or `/description` ignoring ASCII case, and otherwise names nothing |
| JsonPatch.Written | CityInfo.API/Controllers/PointsOfInterestController.cs:276 | `remove` leaves null in the member; `add` and `replace` leave the operation's value |
| JsonPatch.ApplyOperation | CityInfo.API/Controllers/PointsOfInterestController.cs:276 | one operation: an unknown path is reported and changes nothing; otherwise the member named receives the written value, the other keeps its value, and nothing is reported |
| JsonPatch.ApplyAll | CityInfo.API/Controllers/PointsOfInterestController.cs:276 | the operations one after another, a failing one not stopping the rest; errors already reported stay reported |
| JsonPatch.ApplyTo | CityInfo.API/Controllers/PointsOfInterestController.cs:276 | `patchDoc.ApplyTo(view, ModelState)` on a clean model state reports exactly the path errors of the document |
| JsonPatch.PathErrors | CityInfo.API/Controllers/PointsOfInterestController.cs:276 | applying a patch reports no error exactly when every path resolves, and reports each path that does not |
| JsonPatch.LastWrittenUntouched | CityInfo.API/Controllers/PointsOfInterestController.cs:276 | a member no operation is aimed at keeps its value |
| JsonPatch.LastWrittenByLast | CityInfo.API/Controllers/PointsOfInterestController.cs:276 | a member ends with the value written by the last operation aimed at it, whatever earlier operations wrote |
| JsonPatch.LastWrittenFront | CityInfo.API/Controllers/PointsOfInterestController.cs:276 | operations apply from first to last: the rest of the patch continues from the first operation's result |
| JsonPatch.ApplyAllErrors | CityInfo.API/Controllers/PointsOfInterestController.cs:276 | applying operations adds exactly their path errors to the errors already reported |
| JsonPatch.ApplyAllMember | CityInfo.API/Controllers/PointsOfInterestController.cs:276 | after applying operations, each member holds the last value written to it, or its old value if nothing was written |
| JsonPatch.ApplyToMeaning | CityInfo.API/Controllers/PointsOfInterestController.cs:276-282 | `ApplyTo` reports exactly the path errors. The patched name and description are the last values written to each |
| JsonPatch.InvalidLastOperationFails | CityInfo.API/Controllers/PointsOfInterestController.cs:276-282 | a patch whose last operation names an unknown path is refused, even when every earlier operation succeeded |
| Mail.MailService.constructor | CityInfo.API/Services/CloudMailService.cs:5-16 | a new mail service has sent nothing |
| Mail.MailService.Send | CityInfo.API/Services/CloudMailService.cs:10-16 | sending appends the subject and message to what was sent |
| Mail.DeletionNotice | CityInfo.API/Controllers/PointsOfInterestControllerInMemory.cs:240-241 | the deletion mail has the fixed subject and the message "Point of interest {name} with id {id} was deleted.", from which the key reads back |
| PointsOfInterestInMemory.CitiesDataStore.constructor | CityInfo.API/Controllers/PointsOfInterestControllerInMemory.cs:32 | the store holds the cities it is given |
| PointsOfInterestInMemory.FindCity | CityInfo.API/Controllers/PointsOfInterestControllerInMemory.cs:32 | the first city with the key, or nothing exactly when no city has it |
| PointsOfInterestInMemory.FindPointOfInterest | CityInfo.API/Controllers/PointsOfInterestControllerInMemory.cs:60 | the first point of interest of a city with the key, or nothing exactly when none has it |
| PointsOfInterestInMemory.Locate | CityInfo.API/Controllers/PointsOfInterestControllerInMemory.cs:53-65 | the two lookups every item action makes: no city exactly when no city has the key, otherwise the first such city; the item is missing exactly when that city holds no item with the key |
| PointsOfInterestInMemory.LookupIsScopedByCity | CityInfo.API/Controllers/PointsOfInterestControllerInMemory.cs:53-65 | an item held only by other cities is not found through this city's key |
| PointsOfInterestInMemory.AllPointsOfInterest | CityInfo.API/Controllers/PointsOfInterestControllerInMemory.cs:103 | `SelectMany` over the cities holds every point of interest of every city, and nothing else |
| PointsOfInterestInMemory.MaxId | CityInfo.API/Controllers/PointsOfInterestControllerInMemory.cs:103 | `Max` has no value exactly for an empty list; otherwise it is one of the keys and at least every key |
| PointsOfInterestInMemory.NextIdAsWritten | CityInfo.API/Controllers/PointsOfInterestControllerInMemory.cs:102-107 | the key as written: none for a store without points of interest; the corrected key whenever the largest key is below `int.MaxValue`; `int.MinValue` when it is `int.MaxValue` |
| PointsOfInterestInMemory.NextIdAsWrittenRepeatsAKey | CityInfo.API/Controllers/PointsOfInterestControllerInMemory.cs:102-107 | with keys unique and `int.MaxValue` among them, the key computed as written is `int.MinValue`, which another item already holds |
| PointsOfInterestInMemory.NextId | CityInfo.API/Controllers/PointsOfInterestControllerInMemory.cs:102-107 | the next key exists exactly when there is a largest key below `int.MaxValue`, and it is that largest key plus one, above every key in the store |
| PointsOfInterestInMemory.AppendPointOfInterest | CityInfo.API/Controllers/PointsOfInterestControllerInMemory.cs:112 | adding to one city's list appends the item there and leaves every other city unchanged |
| PointsOfInterestInMemory.OverwriteFields | CityInfo.API/Controllers/PointsOfInterestControllerInMemory.cs:157-158 | writing the name and description changes that one item's fields and keeps its key, its city and everything else |
| PointsOfInterestInMemory.RemovePointOfInterest | CityInfo.API/Controllers/PointsOfInterestControllerInMemory.cs:238 | removing drops that item from its city's list and leaves every other city unchanged |
| PointsOfInterestInMemory.DeletedLargestKeyIsReissued | CityInfo.API/Controllers/PointsOfInterestControllerInMemory.cs:102-107 | after the item with the largest key is deleted, the next create hands out that same key again |
| PointsOfInterestInMemory.AppendFreshKeepsIdsUnique | CityInfo.API/Controllers/PointsOfInterestControllerInMemory.cs:102-112 | adding an item whose key is above every key keeps keys unique |
| PointsOfInterestInMemory.OverwriteKeepsIdsUnique | CityInfo.API/Controllers/PointsOfInterestControllerInMemory.cs:157-158 | overwriting the name and description keeps keys unique |
| PointsOfInterestInMemory.RemoveKeepsIdsUniqueAndForgets | CityInfo.API/Controllers/PointsOfInterestControllerInMemory.cs:238 | removing keeps keys unique, shortens the city's list by one, and the key is no longer found in that city |
| PointsOfInterestInMemory.CreatedRouteAsWritten | CityInfo.API/Controllers/PointsOfInterestControllerInMemory.cs:116 | the in-memory create names the database-backed controller's single-item route |
| PointsOfInterestInMemory.CreatedRouteAsWrittenMissesInMemoryRoute | CityInfo.API/Controllers/PointsOfInterestControllerInMemory.cs:116-117 | the route named by the in-memory create is not the in-memory item route |
| PointsOfInterestInMemory.PatchBase | CityInfo.API/Controllers/PointsOfInterestControllerInMemory.cs:188-192 | the patch starts from a copy of the item's name and description |
| PointsOfInterestInMemory.PatchToSameNameIsRefused | CityInfo.API/Controllers/PointsOfInterestControllerInMemory.cs:195-214 | a patch whose paths all resolve but that leaves the description equal to the name passes `ApplyTo` and is then refused by the description rule |
| PointsOfInterestInMemory.CentralParkDescriptionRefused | CityInfo.API/Controllers/PointsOfInterestControllerInMemory.cs:195-214 | replacing Central Park's description with its name is refused with the description error |
| PointsOfInterestInMemory.PointsOfInterestControllerInMemory.constructor | CityInfo.API/Controllers/PointsOfInterestControllerInMemory.cs:19-23 | the controller uses the store and mail service it is given |
| PointsOfInterestInMemory.PointsOfInterestControllerInMemory.GetPointsOfInterest | CityInfo.API/Controllers/PointsOfInterestControllerInMemory.cs:25-47 | not found exactly when no city has the key, otherwise the first such city's list |
| PointsOfInterestInMemory.PointsOfInterestControllerInMemory.GetPointOfInterest | CityInfo.API/Controllers/PointsOfInterestControllerInMemory.cs:51-68 | not found exactly when the city or the item is missing, otherwise the item found |
| PointsOfInterestInMemory.PointsOfInterestControllerInMemory.CreatePointOfInterest | CityInfo.API/Controllers/PointsOfInterestControllerInMemory.cs:71-118 | a missing body or a failed validation is a bad request, and an unknown city is not found, each leaving the store alone. With no key available it is an unhandled exception. Otherwise the item, keyed above every key, is appended to the city and returned with the in-memory item route. Keys stay unique |
| PointsOfInterestInMemory.PointsOfInterestControllerInMemory.UpdatePointOfInterest | CityInfo.API/Controllers/PointsOfInterestControllerInMemory.cs:120-162 | bad request, then not found, as the code checks them, leaving the store alone; otherwise the item's name and description are replaced and nothing else changes. Keys stay unique |
| PointsOfInterestInMemory.PointsOfInterestControllerInMemory.PartiallyUpdatePointOfInterest | CityInfo.API/Controllers/PointsOfInterestControllerInMemory.cs:165-220 | a missing document is a bad request and a missing item is not found. Patch errors are a bad request, and so are the validation errors `PatchValidationErrors` gives. Otherwise the item receives the patched name and description. Only success changes the store, and keys stay unique |
| PointsOfInterestInMemory.PointsOfInterestControllerInMemory.DeletePointOfInterest | CityInfo.API/Controllers/PointsOfInterestControllerInMemory.cs:222-244 | a missing city or item is not found with nothing changed. Otherwise the item is removed from its city and the deletion mail is sent; keys stay unique and the item is no longer found |
| Repository.Inserted | CityInfo.API/Entities/PointOfInterest.cs:12-14 | the added rows as the identity column keys them: the same rows in the same order, the `i`-th one keyed `next + i` |
| Repository.Insert | CityInfo.API/Services/ICityInfoRepository.cs:22 | `SaveChanges` keying the added rows into the table: every row already there is still there (the full meaning is `InsertMeaning`) |
| Repository.InsertMeaning | CityInfo.API/Entities/PointOfInterest.cs:12-14 | inserting keeps every existing row, stores each added row under its new key, and stores nothing else |
| Repository.CityInfoRepository.constructor | CityInfo.API/Startup.cs:71-73 | a unit of work starts with nothing changed over the stored table |
| Repository.CityInfoRepository.CityExists | CityInfo.API/Services/ICityInfoRepository.cs:9 | true exactly when the Cities table holds the key |
| Repository.CityInfoRepository.GetPointsOfInterestForCity | CityInfo.API/Services/ICityInfoRepository.cs:18 | every stored row of the city, only those, in increasing key order |
| Repository.CityInfoRepository.GetPointOfInterestForCity | CityInfo.API/Services/ICityInfoRepository.cs:19 | the stored row with the key, found exactly when it exists and belongs to the city |
| Repository.CityInfoRepository.AddPointOfInterestForCity | CityInfo.API/Services/ICityInfoRepository.cs:21 | the row joins the unit of work's added rows, owned by the city; the tables do not change |
| Repository.CityInfoRepository.MapOntoTracked | CityInfo.API/Controllers/PointsOfInterestController.cs:217 | the tracked row's name and description are replaced, its key and owner kept; nothing is stored yet |
| Repository.CityInfoRepository.DeletePointOfInterest | CityInfo.API/Services/ICityInfoRepository.cs:23 | the row is deleted from the unit of work; nothing is stored yet |
| Repository.CityInfoRepository.Save | CityInfo.API/Services/ICityInfoRepository.cs:22 | succeeds exactly when the database accepts and the identity column can key every added row. Then the tracked rows plus the added rows, keyed in order, become the stored table. Otherwise nothing changes |
| Repository.CityInfoRepository.EndRequest | CityInfo.API/Startup.cs:71-73 | the request's unit of work is dropped with whatever it did not save |
| PointsOfInterest.PointsOfInterestController.constructor | CityInfo.API/Controllers/PointsOfInterestController.cs:23-28 | the controller uses the repository and mail service it is given |
| PointsOfInterest.PointsOfInterestController.GetPointsOfInterest | CityInfo.API/Controllers/PointsOfInterestController.cs:30-64 | a failed read is a 500 with the fixed message, and an unknown city is not found. Otherwise the city's stored rows as DTOs, all and only them |
| PointsOfInterest.PointsOfInterestController.GetPointOfInterest | CityInfo.API/Controllers/PointsOfInterestController.cs:68-92 | not found exactly when the city is unknown or holds no row with the key, otherwise that row as a DTO |
| PointsOfInterest.PointsOfInterestController.CreatePointOfInterest | CityInfo.API/Controllers/PointsOfInterestController.cs:94-163 | bad request, not found and a failed save as the code checks them, the first two changing nothing. A failed save keeps the row pending and moves no counter. Created exactly when the body is valid, the city exists and the save succeeds. Then the new row gets the next identity key, which was not used before, and is stored and found under it; the counter moves on by one and the unit of work is clean |
| PointsOfInterest.PointsOfInterestController.UpdatePointOfInterest | CityInfo.API/Controllers/PointsOfInterestController.cs:165-227 | bad request and not found leave everything alone. On success the stored row's name and description are replaced and the unit of work is clean. On a failed save the change is tracked but not stored. No row is added and the identity counter does not move |
| PointsOfInterest.PointsOfInterestController.PartiallyUpdatePointOfInterest | CityInfo.API/Controllers/PointsOfInterestController.cs:230-310 | like the in-memory patch, validation errors as `PatchValidationErrors` gives them. On success the stored row receives the patched name and description and the unit of work is clean; a failed save leaves it tracked, not stored. No row is added and the identity counter does not move |
| PointsOfInterest.PointsOfInterestController.DeletePointOfInterest | CityInfo.API/Controllers/PointsOfInterestController.cs:312-354 | not found leaves everything alone. A failed save tracks the deletion without storing it and sends no mail. Success removes the row, which is then not found, sends the deletion mail and leaves the unit of work clean. No row is added and the identity counter does not move |
| PointsOfInterest.PointsOfInterestController.DeleteThenCreate | CityInfo.API/Controllers/PointsOfInterestController.cs:94-354 | a create in the request after a delete hands out a key the table never held, so never the deleted key |
| Seeding.InsertCities | CityInfo.API/CityInfoContextExtensions.cs:77-81 | saving added cities gives them consecutive keys in order, keeps their names, descriptions and list lengths, and advances both identity columns by the number of new records |
| Seeding.InsertCitiesAssigns | CityInfo.API/CityInfoContextExtensions.cs:77-81 | the new points of interest of every saved city receive keys from the point counter's range and name that city as their owner |
| Seeding.StoredAppend | CityInfo.API/CityInfoContextExtensions.cs:77-81 | stored cities stay correctly keyed when the identity columns move on, and newly keyed cities can be stored after them |
| Seeding.CityInfoContext.constructor | CityInfo.API/Entities/CityInfoContext.cs:15 | a freshly migrated database has no cities and both identity columns start at 1 |
| Seeding.CityInfoContext.AddRangeAndSave | CityInfo.API/CityInfoContextExtensions.cs:77-81 | `AddRange` then `SaveChanges`: stores the keyed cities and advances both identity columns when the save succeeds, and otherwise changes nothing |
| Seeding.NewPoint | CityInfo.API/CityInfoContextExtensions.cs:27-31 | a seed point of interest has only its name and description set |
| Seeding.NewCityWith | CityInfo.API/CityInfoContextExtensions.cs:21-38 | a seed city has only its name, description and points of interest set |
| Seeding.SeedCities | CityInfo.API/CityInfoContextExtensions.cs:19-75 | the seed list: three new cities, each with two points of interest |
| Seeding.FieldsFit | CityInfo.API/CityInfoContextExtensions.cs:19-75 | a name starting with a non-white-space character and texts short enough even at two UTF-16 units per character meet the constraints |
| Seeding.SampleCityOf | CityInfo.API/CityInfoContextExtensions.cs:19-75 | a city built from fitting texts with two points whose descriptions differ from their names is a sample city |
| Seeding.SeedCitiesAreSamples | CityInfo.API/CityInfoContextExtensions.cs:19-75 | the seed list is New York City, Antwerp and Paris, in that order, each with two points of interest that have valid names and descriptions |
| Seeding.SamplesPending | CityInfo.API/CityInfoContextExtensions.cs:19-75 | cities of two new points each wait for twice as many point keys as there are cities |
| Seeding.SampleKeys | CityInfo.API/CityInfoContextExtensions.cs:77-81 | the `j`-th point of the `i`-th seeded city receives the key `next + 2i + j` |
| Seeding.SeededCitiesAreValid | CityInfo.API/CityInfoContextExtensions.cs:77-81 | every seeded city is valid after saving and counts two points of interest, each valid and owned by it |
| Seeding.EnsureSeedDataForContext | CityInfo.API/CityInfoContextExtensions.cs:12-84 | a database with cities is left alone. An empty one receives exactly the three sample cities, with three city keys and six point keys issued, when the save succeeds |
| Seeding.SeedTwice | CityInfo.API/Startup.cs:97 | seeding again after a successful seed changes nothing |

## Left out

- `CityInfo.API/Services/CityInfoRepository.cs` is not part of this model. The repository's behaviour is taken from its interface and from how the controllers use it.
- The DTO classes (`Models/*.cs`) and `CitiesDataStore.cs` are not part of this model. Their annotations are taken to be the entity's: `[Required]` name of at most 50 characters, description of at most 200.
- The cities controllers and the cities DTOs: only points of interest are modelled.
- JSON Patch `move`, `copy` and `test`, and paths other than `/name` and `/description`: the model's patch has three operations on two members. A path written without its leading slash (`name`) is treated as naming no member; the library's own path parser may accept that form.
- Case-insensitive path matching folds ASCII letters only; `[Required]`'s white-space test is `char.IsWhiteSpace`'s set written out (the space separators, the line and paragraph separators, U+0009 to U+000D, U+0085 and U+00A0), fixed at the Unicode version it lists.
- Logging, the HTTP pipeline, model binding and the JSON serialiser: a body that does not bind is `None`.
- Concurrent requests: each request runs alone on its own unit of work (the context and repository are registered per request).
- Object references and their aliasing are replaced by values. In particular the in-memory store is one list of cities, and changes through a found item are changes to that list.
- `PointsOfInterestInMemory.PointsOfInterestControllerInMemory.GetPointsOfInterest`: does not model its catch branch, because nothing in its body can throw.
- `PointsOfInterest.PointsOfInterestController.GetPointsOfInterest`: a database read fault is a parameter; faults in the other reads (`CityExists`, `GetPointOfInterestForCity`) are not modelled.
- `Views.AnnotationErrors`: measures lengths in UTF-16 code units, with two units for a character outside the Basic Multilingual Plane; a .NET string holding an unpaired surrogate cannot be represented, because Dafny characters are Unicode scalar values.
- `Repository.Inserted`: keys added rows consecutively, in the order they were added, from the identity counter on. SQL Server promises only new, increasing keys and may skip values (after a failed insert or a restart). `Repository.CityInfoRepository.Save`, `Seeding.InsertCities` and `Seeding.SampleKeys` rely on the same choice, so the exact keys they state are the model's.
- `Repository.CityInfoRepository.GetPointsOfInterestForCity`: returns rows in key order. The source promises no order, so the model chooses one.
- `Repository.CityInfoRepository.AddPointOfInterestForCity`: requires the city to exist; its one caller, `CreatePointOfInterest` (`PointsOfInterestController.cs:140-148`), checks `CityExists` first.
- `Repository.CityInfoRepository.Save`: database refusal is a parameter. Running out of identity values is modelled as a refused save rather than as an exception.
- `Seeding.EnsureSeedDataForContext`: a `SaveChanges` that throws at start-up is modelled as nothing stored; the start-up failure itself is not modelled.
- `Seeding.CityInfoContext`: models only the Cities table used by seeding. It is kept apart from the repository's PointsOfInterest table.
- Which mail service runs (`LocalMailService` in debug builds, `CloudMailService` otherwise) and the mail addresses from configuration: the mail service only records what it was asked to send.

## Findings

| source | as written | input that shows it | evidently intended | confidence | as-written member | corrected member |
|---|---|---|---|---|---|---|
| CityInfo.API/Controllers/PointsOfInterestControllerInMemory.cs:102-107 | the new key is `++` of the largest key, which wraps in an unchecked context | a store holding keys `int.MaxValue` and `int.MinValue`: the new key is `int.MinValue`, which is already taken | keys stay unique; no key is handed out when the largest key is `int.MaxValue` | not executed | PointsOfInterestInMemory.NextIdAsWrittenRepeatsAKey | PointsOfInterestInMemory.NextId |
| CityInfo.API/Controllers/PointsOfInterestControllerInMemory.cs:116-117 | the created response names the route `GetPointOfInterest`, which belongs to the database-backed controller | any successful in-memory create: its location points into the database, not the in-memory store | the route `GetPointOfInterestIM`, which is named at lines 49-50 for exactly this use | not executed | PointsOfInterestInMemory.CreatedRouteAsWrittenMissesInMemoryRoute | PointsOfInterestInMemory.PointsOfInterestControllerInMemory.CreatePointOfInterest |
