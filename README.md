# Spares catalog storage, modelled in Dafny

A parts dealership's app keeps its data in an on-device database with four
collections: cars (repair jobs), parts (what each car needs), offers
(suppliers' quotes for a part) and contacts (a supplier directory keyed by
phone number). One `Database` object guards all access. It must be opened
(`init`) before anything else works. It offers generic reads, upserts and
deletes. It deletes a car's or a part's dependants before the parent
(the cascades). It saves a quote together with the supplier's contact in
one atomic transaction. The contact takes the phone number reduced to
digits as its key. It is created or merged, and its tag lists of car
makes, models and years grow without repeats.

Files:

- `types.dfy` (module `Types`): the record shapes (Car, Part, Offer,
  Contact). An optional property becomes an `Option`.
- `merge.dfy` (module `Merge`): the pure computations of `saveOffer`. These
  are phone normalisation, ASCII upper-casing, the repeat-free tag union
  that `Array.from(new Set(...))` computes, and the merged contact record.
  The module also holds their properties and the two-quote scenario.
- `db.dfy` (module `Db`): the `Database` class. Its fields are the
  readiness flag, the schema version, the set of provisioned collections
  and one map per collection. The operations that write (`Init`, `Put`,
  `Delete`, the cascades, `SaveOffer`) are methods with `modifies this`;
  the reads (`GetAll`, `GetById`) change nothing. Every method states its
  outcome, including which error it returns. `Init`, `Put`, `Delete` and
  `SaveOffer` state their new state exactly, and so do the cascades when
  they succeed. A cascade that stops part-way is bounded instead: only
  the parent's own dependants can be missing. Which of them are missing
  depends on the deletion order, and the model leaves that order open.
  Every method keeps the invariant `Valid()`: records sit under their own
  key, an unprovisioned collection is empty, and a ready handle is at the
  current version. Beside the class sit the lemmas about the collection
  algebra and about referential integrity across the cascades, and two
  client methods that read back what a put and a car deletion leave.

The storage subsystem's answers are parameters:

- `available` for `Init`;
- `commits` for a single-request operation;
- a `Fault` for a cascade. It names the one delete request (collection and
  key) that the subsystem rejects, or none.

The clock (`Date.now()`) and `crypto.randomUUID()` are parameters of
`SaveOffer` (`now` and `freshId`).

Behaviour of the code that is easy to miss:

- A location or coordinate in an offer replaces the contact's known one
  only when it is JavaScript-truthy, so an empty string or a coordinate
  of 0 keeps the old value.
- `init` may run again on an open database; nothing guards it.
- `new Set([...existing, tag])` also removes repeats from the stored
  list, so the merged list is the de-duplicated stored list plus the new
  tag.
- An empty stored contact id is replaced by a fresh one
  (`existing?.id || randomUUID()`).

## Model

| member | source | states |
|---|---|---|
| Types.Car | types.ts:1-9 | a repair job: id, make, model, free-text year, optional VIN and photos, creation time (a record shape, no contract) |
| Types.Part | types.ts:11-17 | a part of the car `carId`, with its status and reference photos (a record shape, no contract) |
| Types.PartStatus | types.ts:15 | the two part states `active` and `found` (no contract) |
| Types.Offer | types.ts:19-30 | a supplier's quote for the part `partId`, with optional location and coordinates (a record shape, no contract) |
| Types.Contact | types.ts:32-44 | a supplier directory entry keyed by phone, with tag lists and optional last location (a record shape, no contract) |
| Db.KeyOf | db.ts:15-18 | the key path of each collection: `id`, and `phone` for contacts (no contract) |
| Db.Tables.Stored | db.ts:61 | `store.put`: the record under its key (no contract; its properties are in Db.StoredTable) |
| Db.Tables.Without | db.ts:92 | `store.delete` (no contract; its properties are in Db.WithoutTable) |
| Db.Persisted | db.ts:13-19 | what the device holds between sessions: a database at version 3 has all four collections, a missing collection is empty, and every record sits under its key (the invariant, no contract) |
| Db.Database.Valid | db.ts:21-24 | `Persisted`, and an open handle is at version 3 (the invariant kept by every method, no contract) |
| Db.OfferIdsFor | db.ts:79 | the `partId` filter over what `getAll` read (no contract; see Db.OfferIdsOfTable) |
| Db.PartIdsFor | db.ts:70 | the `carId` filter over what `getAll` read (no contract; see Db.PartIdsOfTable) |
| Db.OfferIdsOfTable | db.ts:78-79 | the filter over the offers read by `getAll` gives exactly the keys of the part's offers |
| Db.PartIdsOfTable | db.ts:69-70 | the filter over the parts read by `getAll` gives exactly the keys of the car's parts |
| Db.Lookup | db.ts:111-113 | `contactStore.get`: the stored contact or none (no contract) |
| Db.Database.constructor | db.ts:6-7 | a new handle over what the device already holds is not ready, and the invariant holds |
| Db.Database.Init | db.ts:9-28 | an unavailable database, or one at a newer version, fails with nothing changed; otherwise the handle is ready at version 3; only the missing collections are created (empty); no record changes |
| Db.Database.GetAll | db.ts:30-44 | before init it fails with NotInitialized; after init it returns exactly the records of the collection |
| Db.Database.GetById | db.ts:46-55 | before init it fails; otherwise it returns the record stored under the key, of the collection's kind and with that key, or None when the key is absent |
| Db.Database.Put | db.ts:57-66 | before init, or when the write is refused, it fails and nothing changes; otherwise the record is stored under its key, replacing what was there |
| Db.Database.Delete | db.ts:86-97 | before init, or when the transaction fails, nothing changes; otherwise exactly that key leaves exactly that collection, and a missing key is no error |
| Db.Database.DeletePart | db.ts:77-84 | success iff ready and no delete of the part's offers or of the part is rejected; a rejected delete gives TransactionFailure, an unopened handle NotInitialized; on success exactly the part and its offers are gone; on failure the part is still there and only some of its offers are gone; cars and contacts never change; referential integrity is kept |
| Db.Database.DeleteCar | db.ts:68-75 | success iff ready and no delete among the car's parts, their offers and the car is rejected; a rejected delete gives TransactionFailure, an unopened handle NotInitialized; on success exactly the car, its parts and their offers are gone; on failure the car stays and only its own parts and their offers are missing; contacts never change; referential integrity is kept |
| Db.Database.DeleteParts | db.ts:69-73 | the loop over a car's parts: success iff no delete of a part or its offers is rejected, failure with TransactionFailure; on success all those parts and offers are gone; otherwise only some of them are |
| Db.Database.SaveOffer | db.ts:99-137 | before init it fails; a failed transaction changes nothing; on commit the offer is stored with its phone reduced to digits, and the contact under that phone becomes the merge of the stored one with the offer and car; nothing else changes |
| Db.SavedPersisted | db.ts:105-131 | storing the offer and the contact, each under its own key, keeps every record under its key |
| Db.StoredTable | db.ts:61 | after a put the collection maps the record's key to the record and every other key as before; the other collections do not change |
| Db.WithoutTable | db.ts:92 | a delete removes exactly the key from exactly its collection; deleting a missing key leaves everything as it was |
| Db.CarCascadeLinked | db.ts:68-75 | removing a car, its parts and their offers keeps every part's car and every offer's part stored |
| Db.PartCascadeLinked | db.ts:77-84 | removing a part and its offers keeps every offer's part stored |
| Db.CascadePrefix | db.ts:71-73 | after any prefix of a car's part deletions, only that car's parts and their offers are missing, and integrity still holds |
| Db.TrimmedAcrossParts | db.ts:71-73 | a car's cascade stopped inside a part's cascade has removed only offers of the car's parts |
| Db.StoppedCascade | db.ts:71-73 | a car's cascade stopped inside one part's cascade: only the car's parts and their offers are missing, integrity holds, and the rejected request was one of the car's |
| Db.PutThenGet | db.ts:46-66 | a committed put followed by `getById` on the record's key returns the record |
| Db.DeleteCarThenRead | db.ts:68-75 | after deleting a car with no storage fault, the car is absent, no part refers to it, no offer refers to one of its parts, and the contacts are as they were |
| Db.CascadeStep | db.ts:71-73 | one more part deletion in a car's cascade removes exactly that part's offers |
| Merge.NormalizePhone | db.ts:101 | the result has only ASCII digits and is no longer than the input |
| Merge.NormalizeKeepsDigits | db.ts:101 | each digit occurs in the result as often as in the input, and no other character occurs |
| Merge.NormalizeConcat | db.ts:101 | normalising a concatenation is the concatenation of the normalised halves, so the digits keep their order |
| Merge.NormalizeDigits | db.ts:101 | a string of digits is left exactly as it is |
| Merge.NormalizeIdempotent | db.ts:101 | normalising twice equals normalising once |
| Merge.PhoneExample | db.ts:101 | "+971501234567" becomes the key "971501234567" |
| Merge.Dedup | db.ts:114-116 | the enumeration of a Set built from a list has no repeats and the same members as the list; its order is fixed by Merge.DedupPrefix |
| Merge.DedupPrefix | db.ts:114-116 | extending a list only appends to its enumeration, so values are listed in the order of their first occurrence |
| Merge.DedupOfNoDup | db.ts:114-116 | a list without repeats enumerates as itself, in its order |
| Merge.NoDupOccursOnce | db.ts:114-116 | in a list without repeats every member occurs exactly once |
| Merge.MergeTags | db.ts:114-116 | the tag list after a quote has no repeats, holds exactly the prior tags and the new one, and is the de-duplicated prior list with the new tag at the end when it is new |
| Merge.MergeTagsIdempotent | db.ts:114-116 | merging the same tag a second time changes nothing |
| Merge.FirstTag | db.ts:114-116 | a contact's first quote starts each tag list with the car's tag alone |
| Merge.SameTag | db.ts:114-116 | a tag already in a one-tag list leaves the list unchanged |
| Merge.OtherTag | db.ts:114-116 | a new tag goes after the one already listed |
| Merge.Upper | db.ts:114-116 | `toUpperCase`, on ASCII letters only (no contract; see Merge.UpperIdempotent) |
| Merge.UpperIdempotent | db.ts:114-116 | upper-casing keeps the length, leaves no ASCII lower-case letter, changes no other character, and a second pass changes nothing |
| Merge.TextTruthy | db.ts:123 | JavaScript truthiness of an optional string: absent and "" are falsy (no contract) |
| Merge.NumberTruthy | db.ts:124-125 | JavaScript truthiness of an optional coordinate: absent and 0 are falsy (no contract) |
| Merge.PriorMakes | db.ts:114 | `existing?.makes \|\| []` (no contract) |
| Merge.PriorModels | db.ts:115 | `existing?.models \|\| []` (no contract) |
| Merge.PriorYears | db.ts:116 | `existing?.years \|\| []` (no contract) |
| Merge.MergeContact | db.ts:111-131 | a stored non-empty id survives, else the fresh id is used; the name and timestamp come from this quote; the phone is the digits key; a truthy location or coordinate replaces the known one, otherwise the known one stays; the gallery is carried over |
| Merge.MergedTags | db.ts:113-129 | the merged makes, models and years have no repeats; each holds exactly the stored tags plus the car's upper-cased tag; a repeat-free stored list survives as their prefix |
| Merge.RepeatedSaveKeepsTags | db.ts:111-131 | a second quote for the same car to the same supplier leaves tags and gallery as the first left them, and the id too when the first fresh id is non-empty; name and timestamp follow the second |
| Merge.SavedTagsOccurOnce | db.ts:114-116 | after a merge, the car's make, model and year each occur exactly once in their lists |
| Merge.TwoQuotesOneSupplier | db.ts:99-137 | two quotes from one supplier, for a Camry and then for a Corolla, give one contact under "971501234567", renamed by the second quote, with makes [TOYOTA], models [CAMRY, COROLLA], years [2019, 2020] |
| Merge.FirstQuote | db.ts:111-130 | the first of those quotes creates the contact with one tag in each list |
| Merge.SecondQuote | db.ts:111-130 | the second quote keeps the make and appends the new model and year |

## Left out

- The screens and the arithmetic around prices are not part of this model. The core does no arithmetic.
- IndexedDB's callback plumbing is modelled as one atomic state transition per request. Promise scheduling and interleaved concurrent calls are left out; operations that are awaited in sequence are modelled in sequence.
- Db.Database.GetAll: returns the records as a set. IndexedDB's key order is not modelled. The cascades loop with an arbitrary deletion order, so by-set iteration covers every order.
- Db.Database.DeletePart, Db.Database.DeleteCar, Db.Database.DeleteParts: a cascade that stops at a rejected delete bounds its new state rather than fixing it. Only the parent's own dependants can be missing, and the parent is still there. Which of them are gone depends on the order `getAll` returned them, and that order is not modelled.
- Collection names are an enumeration of the four collections. A misspelt name, which makes IndexedDB throw `NotFoundError`, is not modelled.
- Db.Database.Put: requires the record's kind to match the collection. The TypeScript callers always pass the matching type. A foreign or out-of-line-keyed record is not modelled.
- Reads never fail once the handle is open. The request error paths of `getAll`, `getById` and the first read of a cascade are not modelled; a write or delete can fail (`commits`, `Fault`).
- Db.Database.Put: the promise resolves when the request succeeds, not when the transaction commits. The model folds the two into one `commits` answer.
- Merge.Upper: upper-casing is modelled on ASCII letters only. Unicode case mapping (for example `ß` to `SS`) is not modelled.
- Merge.IsDigit: `\D` without the `u` flag removes everything but the ASCII digits, and so does the model. Strings are sequences of `char` and UTF-16 surrogate pairs are not distinguished.
- Coordinates are `real`, so `NaN` and the infinities are not modelled. `NaN` is falsy in JavaScript and would behave like an absent coordinate.
- `crypto.randomUUID()` and `Date.now()` are parameters of `SaveOffer`. Their uniqueness and monotonicity are not modelled.
- Merge.MergeContact: `...existing` also copies properties outside the `Contact` type. Records here have exactly the typed fields, so only `media` is carried over.
