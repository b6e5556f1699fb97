# Local persistence layer of the incident-reporting dashboard, in Dafny

This project models `lib/storage.ts`. That file is the browser-local store the
dashboard uses in place of a backend. It keeps four collections, each a JSON
array under its own `localStorage` key:

- incidents (`urgences_incidents`)
- public alerts (`urgences_alerts`)
- prevention guides (`urgences_guides`)
- regional administrators (`urgences_regional_admins`)

Each of the four repositories (`incidentStorage`, `alertStorage`,
`regionalAdminStorage`, `guideStorage`) works the same way. It loads the whole
array, scans or changes it, and writes the whole array back. The routine
`initializeStorage` seeds the three reference guides when there are none.

Layout:

- `array_ops.dfy`, module `ArrayOps`: the JavaScript primitives the
  repositories are built from (`find`, `findIndex`, `filter`, and one field of
  an object spread). It also holds their laws.
- `repository.dfy`, module `Repository`: the id-keyed pattern all four
  repositories repeat (`getById`, the `findIndex` of `update`, the `filter` of
  `delete`). It is written once, over any record type and its `id` accessor.
  It also states what appending and in-place replacement do to lookups.
- `incidents.dfy`, `alerts.dfy`, `regional_admins.dfy`, `guides.dfy`: the
  record shapes and everything computed from them. That covers the record
  built by each `create`, the merge done by each `update` (`Partial<T>` is a
  record of `Option`s), alert scope derivation, and the read-side filters.
- `storage.dfy`, module `Storage`: the substrate as the class `LocalStore`,
  with one `seq` field per key. The class has the mutating operations as
  methods whose postconditions relate the new collection to `old(...)`. The
  module also holds the seeding routine and its specification.
- `scenarios.dfy`, module `Scenarios`: client methods that use only those
  contracts, each on a fresh store. They cover create/find/resolve, comment
  order, delete twice, global and regional alert views, and seeding twice.

A `getAll()` of incidents, administrators or guides is a read of the
corresponding field of `LocalStore`. `alertStorage.getAll(actifOnly)` is
`Alerts.GetAll`. The identifier (`Date.now()` and `Math.random()`) and every
ISO timestamp (`new Date().toISOString()`) are parameters of the operation
that reads them (`freshId`, `now`, `commentDate`, `ids`, `stamps`).
`addComment` reads the clock twice: once for the comment's date, once for
`dateMiseAJour`. Nothing requires identifiers to be unique. Uniqueness
appears only as a hypothesis of the lemmas that need it.

On these points the model follows the code of `lib/storage.ts`, not its comments
(line 31 calls an alert regional when its region is defined):

- Alert scope is `REGIONAL` when the region is truthy. An empty-string region
  therefore gives `GLOBAL`.
- `alertStorage.update` is a plain merge. It can set `scope` or `region`
  without recomputing the other (`Alerts.UpdateCanBreakScope`).
- `delete` removes every record carrying the id. "Shorter by exactly one"
  holds only when exactly one record has it (`Repository.WithoutUniqueId`).
- Only incidents get a `dateMiseAJour`. The `create` argument of an incident
  may itself carry one, and it is kept.

## Model

| member | source | states |
|---|---|---|
| `ArrayOps.Find` | lib/storage.ts:91-94 | `find` returns absent exactly when no element matches; otherwise it returns a matching element of the array |
| `ArrayOps.FindIndex` | lib/storage.ts:141-144 | `findIndex` returns -1 exactly when no element matches; otherwise the index of a match with no match before it |
| `ArrayOps.Filter` | lib/storage.ts:96-109 | `filter` keeps only matching elements, drops no matching element, and is never longer than its input |
| `ArrayOps.SpreadTwice` | lib/storage.ts:146-150 | two successive merges of one key act as one: the later update's value wins when it has the key, otherwise the earlier one's stands |
| `ArrayOps.SpreadRepeat` | lib/storage.ts:204 | merging the same update a second time changes nothing |
| `ArrayOps.FindAgreesWithFindIndex` | lib/storage.ts:91-94 | `find` (line 93) returns exactly the element at the index `findIndex` (line 143) reports, so `getById` and `update` see the same record |
| `ArrayOps.FindAppend` | lib/storage.ts:128-139 | after a `push`, `find` still returns an earlier match if there is one, else the pushed element if it matches, else absent |
| `ArrayOps.FindIndexAfterReplace` | lib/storage.ts:141-153 | replacing the first match by another matching element leaves `findIndex` unchanged |
| `ArrayOps.FilterConcat` | lib/storage.ts:96-109 | filtering distributes over concatenation, so kept elements keep their relative order |
| `ArrayOps.FilterSingleton` | lib/storage.ts:96-109 | a one-element array is kept exactly when it matches; with `FilterConcat` this pins `filter` down completely |
| `ArrayOps.FilterMultiset` | lib/storage.ts:96-109 | every matching element is kept as often as it occurs; every other element is dropped |
| `ArrayOps.FilterShorter` | lib/storage.ts:159-164 | the filtered array is strictly shorter exactly when some element fails the predicate |
| `ArrayOps.FilterComplement` | lib/storage.ts:159-164 | a predicate and its negation split the array: the two filtered lengths add up to the whole |
| `ArrayOps.FilterUnique` | lib/storage.ts:159-164 | when exactly one position matches, the filter is that one element |
| `ArrayOps.FilterNone` | lib/storage.ts:159-164 | when nothing matches, the filter is empty |
| `Repository.IndexOfId` | lib/storage.ts:141-144 | `findIndex(r => r.id === id)` is -1 exactly when no record has the id; otherwise it is the first position with that id |
| `Repository.GetById` | lib/storage.ts:91-94 | `find(...) || null` is absent exactly when the index is -1; otherwise it is the record at that first index (same pattern at lines 176-179, 225-228, 273-276) |
| `Repository.WithoutId` | lib/storage.ts:159-164 | the array `delete` writes has no record with the id, and every other record keeps its multiplicity; it is shorter exactly when some record had the id (same at 209-214, 257-262) |
| `Repository.GetByIdAfterAppend` | lib/storage.ts:128-139 | after `create` appends `x`, looking up `x.id` finds `x` when no earlier record had that id, and finds the earlier record otherwise |
| `Repository.GetByIdAfterReplace` | lib/storage.ts:141-153 | after `update` replaces the first record with the id by one keeping the id, that record sits at the same index and the lookup returns it |
| `Repository.WithoutUniqueId` | lib/storage.ts:159-164 | deleting an id that exactly one record carries shortens the collection by exactly one |
| `Repository.WithoutIdKeepsOrder` | lib/storage.ts:159-164 | deletion distributes over any split of the collection, so survivors keep their order |
| `Incidents.FromDraft` | lib/storage.ts:130-135 | the created incident has the fresh id and time and status `ALERTE_RECUE`; every other key is the caller's, unchanged |
| `Incidents.Merge` | lib/storage.ts:146-150 | `dateMiseAJour` is always the fresh time, whatever the patch says about it; id, creation date and status change only when the patch names them |
| `Incidents.AppendComment` | lib/storage.ts:115-119 | the new thread is the old one (empty when absent), unchanged, followed by exactly one comment `{auteur, message, date}` |
| `Incidents.GetByUserId` | lib/storage.ts:96-99 | returns exactly the incidents whose `utilisateurId` equals the argument, each as often as stored; an absent user id never matches |
| `Incidents.GetByType` | lib/storage.ts:101-104 | returns exactly the incidents of that type, each as often as stored |
| `Incidents.GetByRegion` | lib/storage.ts:106-109 | returns exactly the incidents of that region, each as often as stored; an incident without a region never matches |
| `Incidents.DraftRoundTrip` | lib/storage.ts:128-135 | dropping the three store-supplied keys from a created incident gives back the draft, and a fresh incident is rebuilt from its draft, id and date |
| `Incidents.UpdateStatusOnlySetsStatus` | lib/storage.ts:155-157 | `updateStatus` sets the status to any value with no transition check, sets the update time, and changes nothing else |
| `Incidents.AssignOnlySetsAssignee` | lib/storage.ts:124-126 | `assign` sets `assigne` and the update time and changes nothing else |
| `Incidents.AddCommentOnlySetsThread` | lib/storage.ts:111-122 | the update made by `addComment` changes only the comment thread and the update time |
| `Incidents.CommentsKeepOrder` | lib/storage.ts:115-121 | two comments added in turn follow the existing thread in the order they were added |
| `Incidents.MergeTwice` | lib/storage.ts:146-150 | two consecutive updates equal one update with the two patches spread together (later keys win), stamped with the later time |
| `Incidents.MergeIdempotent` | lib/storage.ts:146-150 | applying the same patch again at the same time changes nothing |
| `Alerts.ScopeOf` | lib/storage.ts:190 | the scope is `REGIONAL` exactly when the region is present and non-empty (JavaScript truthiness) |
| `Alerts.FromDraft` | lib/storage.ts:186-193 | the created alert has the fresh id and time, and its scope is regional exactly when its region is truthy; the other keys are the caller's |
| `Alerts.Merge` | lib/storage.ts:204 | the alert update is a plain merge: an empty patch changes nothing, and the scope changes only when the patch names it (no recomputation) |
| `Alerts.GetAll` | lib/storage.ts:169-174 | without `actifOnly` it returns everything; with it, exactly the active alerts, each as often as stored |
| `Alerts.GetByRegion` | lib/storage.ts:181-184 | returns exactly the alerts whose region equals the argument or whose scope is global, each as often as stored |
| `Alerts.CreateIgnoresCallerScope` | lib/storage.ts:188-190 | the scope the caller passes to `create` has no effect on the created alert |
| `Alerts.RegionVisibility` | lib/storage.ts:181-184 | a stored global alert is listed for every region; a stored regional alert is listed for a region exactly when it is its own |
| `Alerts.TwoRegionViews` | lib/storage.ts:181-184 | with one global and one "North" alert, the "North" view is both in stored order and the "South" view is the global one |
| `Alerts.UpdateCanBreakScope` | lib/storage.ts:199-207 | clearing the region of a created regional alert leaves it regional, against the record's scope rule, and then no region lists it |
| `RegionalAdmins.FromDraft` | lib/storage.ts:237-241 | the created administrator has the fresh id and time; all other keys are the caller's, unchanged |
| `RegionalAdmins.Merge` | lib/storage.ts:252 | an empty patch changes nothing; a patch naming `permissions` replaces the whole triple (the merge is shallow) |
| `RegionalAdmins.GetByRegion` | lib/storage.ts:230-233 | returns exactly the administrators of that region who are active, each as often as stored |
| `RegionalAdmins.InactiveNeverListed` | lib/storage.ts:230-233 | an inactive administrator is never listed for any region, their own included |
| `Guides.FromDraft` | lib/storage.ts:285-289 | the created guide has the fresh id and time and the caller's title, text and category |
| `Guides.FromDrafts` | lib/storage.ts:342 | a run of `create` calls over a list of drafts yields one guide per draft, in order, the k-th with the k-th id and time |
| `Guides.GetByCategorie` | lib/storage.ts:278-281 | returns exactly the guides of that category, each as often as stored |
| `Storage.LocalStore.constructor` | lib/storage.ts:85-89 | a key that was never written reads as the empty collection |
| `Storage.LocalStore.CreateIncident` | lib/storage.ts:128-139 | appends exactly the returned incident, with status `ALERTE_RECUE`, keeping all earlier incidents in place; with a fresh id, looking it up returns that record |
| `Storage.LocalStore.UpdateIncident` | lib/storage.ts:141-153 | on a missing id: result absent, collection unchanged; otherwise only the first incident with the id is replaced by its stamped merge, which is returned; when the patch keeps the id, a lookup then finds that record |
| `Storage.LocalStore.UpdateStatus` | lib/storage.ts:155-157 | like `UpdateIncident`; the replaced record differs from the old one only in status and update time |
| `Storage.LocalStore.Assign` | lib/storage.ts:124-126 | like `UpdateIncident`; the replaced record differs from the old one only in `assigne` and update time |
| `Storage.LocalStore.AddComment` | lib/storage.ts:111-122 | on a missing id: result absent, no write; otherwise the first incident with the id gets its thread extended by one comment at the end, plus the update time |
| `Storage.LocalStore.DeleteIncident` | lib/storage.ts:159-164 | writes the collection without every incident carrying the id; returns true exactly when some incident had it |
| `Storage.LocalStore.CreateAlert` | lib/storage.ts:186-197 | appends exactly the returned alert, whose scope is regional exactly when the draft's region is truthy |
| `Storage.LocalStore.UpdateAlert` | lib/storage.ts:199-207 | on a missing id: result absent, no write; otherwise only the first alert with the id is replaced by the plain merge, which is returned; when the patch keeps the id, a lookup then finds that record |
| `Storage.LocalStore.DeleteAlert` | lib/storage.ts:209-214 | writes the collection without every alert carrying the id; returns true exactly when some alert had it |
| `Storage.LocalStore.CreateAdmin` | lib/storage.ts:235-245 | appends exactly the returned administrator, keeping earlier ones in place |
| `Storage.LocalStore.UpdateAdmin` | lib/storage.ts:247-255 | on a missing id: result absent, no write; otherwise only the first administrator with the id is replaced by the merge, which is returned; when the patch keeps the id, a lookup then finds that record |
| `Storage.LocalStore.DeleteAdmin` | lib/storage.ts:257-262 | writes the collection without every administrator carrying the id; returns true exactly when some had it |
| `Storage.LocalStore.CreateGuide` | lib/storage.ts:283-293 | appends exactly the returned guide, keeping earlier ones in place |
| `Storage.Seed` | lib/storage.ts:301-343 | an empty guide collection becomes the three reference guides; a non-empty one is unchanged |
| `Storage.CreateEach` | lib/storage.ts:342 | the `forEach` of `create` calls appends the drafts' guides, in order, to whatever was there |
| `Storage.InitializeStorage` | lib/storage.ts:297-344 | the guide collection afterwards is `Seed` of the one before |
| `Storage.SeedCategories` | lib/storage.ts:303-340 | seeding an empty collection gives exactly three guides, INCENDIE, SEISME, PREMIERS_SECOURS in that order, with the given ids and times |
| `Storage.SeedIdempotent` | lib/storage.ts:301-302 | seeding twice gives the same guide collection as seeding once, whatever the second run's ids and times |

## Left out

- The `typeof window === 'undefined'` branch (no browser): there `getAll` would return an empty array and `initializeStorage` would return at once. The model always has a store.
- JSON serialisation: `JSON.stringify`/`JSON.parse` are taken as the identity on the collections. Malformed stored data is out of scope.
- The format of identifiers (`inc_`, `alert_`, `admin_`, `guide_` prefixes with `Date.now()` and a base-36 random suffix) and of ISO timestamps: both are opaque string parameters.
- The order of timestamps: whether `dateMiseAJour` is later than `dateCreation` depends on the clock and cannot be stated about opaque strings.
- Latitude and longitude: floating-point numbers, modelled as `real` values that are only copied.
- `nombreVictimes` and `niveauDanger` (JavaScript `number`, lib/storage.ts:11-12): modelled as `int`. The store only copies them, so neither fractions nor floating-point limits are captured.
- Storage.LocalStore.CreateIncident, UpdateIncident, UpdateStatus, Assign, AddComment, DeleteIncident, CreateAlert, UpdateAlert, DeleteAlert, CreateAdmin, UpdateAdmin, DeleteAdmin, CreateGuide, Storage.CreateEach, Storage.InitializeStorage: the write to `localStorage` (`setItem`, lib/storage.ts:137, 151, 162, 195, 205, 212, 243, 253, 260, 291) is assumed never to fail. In the source, `setItem` can throw (a full quota, which base64 attachments at line 15 make reachable, or storage being disabled), and nothing catches it. The operation then throws to its caller and writes nothing. A seeding run that fails on its second or third guide leaves a partly seeded collection, which every later run takes as already seeded. Every `ensures` of these methods describes the state after a successful write.
- The `REGIONS` constant list: nothing in the store reads it.
- Lost updates between two browser tabs: the read-modify-write of a whole collection is a concurrency hazard outside one synchronous call.
- Incidents.Merge, Alerts.Merge, RegionalAdmins.Merge: a patch that gives a REQUIRED key as `undefined` (which `Partial<T>` allows) would leave a record without that key. The patches model required keys only as absent or present with a value. So the model does not capture that an alert updated with `{scope: undefined}` is then never listed as global by `getByRegion` (line 183), or that one updated with `{actif: undefined}` drops out of `getAll(true)` (line 173).
- Keys a JavaScript caller could add beyond the declared record shapes (the spreads would copy them) are not modelled.
- The four repository objects are methods of one `LocalStore` class here. They share the one substrate, as in the source.
- `lib/api.ts`, `contexts/AuthContext.tsx`, the pages, `components/*` and `types/index.ts` are not part of this model.
