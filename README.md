# Movie Store — a verified Dafny model

The service keeps a process-wide list of movie records in memory. It answers
five requests over that list: list all, get by id, create, patch and delete.
Each record is a JSON object with the fields `id`, `title`, `year`, `director`,
`length` and `rating`. Before create and patch change anything, a validator
checks the payload field by field. The repository holds two copies of the
service. `flask/app.py` seeds ten records. `flask/app_test.py` seeds two and
words two refusals differently. The validator and the handlers are the same
code in both, so they are modelled once and shared.

Modules:

- `Values` (values.dfy): decoded JSON values (`VInt`, `VBool`, `VStr`, `VOther`) and
  records as `map<string, Value>`. Python counts `True`/`False` as integers:
  `IsInt` models the `isinstance(_, int)` test, which holds of them, and `AsInt`
  gives the value 1/0 that `==` and `<=` compare.
- `Validation` (validation.dfy): `Validate` follows the source's chain of checks.
  It has three outcomes: `Ok` (the source returns `None`), `Invalid(field)` (the
  field's message) and `Fault` (an exception escapes). A table-driven schema
  (`KindOf`, `FieldOk`) and a generic first-failure rule (`FirstFailing` over
  `CheckOrder`) form an independent reference, and the lemmas prove that `Validate`
  agrees with it.
- `Movies` (movies.dfy): the handlers as functions from the list to a response
  and a new list (`Add`, `Patch`, `Delete`), the scan `Find`, and Python's
  `list.remove` as `RemoveFirst`. The lemmas here state what each handler promises.
- `Handlers` (handlers.dfy): class `MovieStore`. Its field `movies` is the
  module-level list. Its methods are the five handlers plus the shared linear scan
  `FindIndex`, a `while` loop. Each state-changing method is proved to leave exactly
  the response and list of its function in `Movies`.
- `App` (app.dfy) and `AppTest` (app_test.dfy): each copy's seed list and refusal
  texts. Client methods (`CreateSession`, `PatchSession`, `DeleteSession`,
  `AppTest.Session`) replay typical request sequences against a freshly seeded
  store, using only the class contracts.

Behaviour the model keeps, as the code has it:

- The `length` field is looked at only when it is absent or is not a string. In
  that case `data['length']` raises `KeyError` (before `strptime` is called) or
  `strptime` raises `TypeError`.
  Neither is caught by `except ValueError`, so the request ends in a server error
  (`Fault`). A string `length` is never parsed, so a value like `"abc"` is
  accepted, and the "HH:MM:SS" message can never be returned. That message shows
  that an "HH:MM:SS" check was meant; the model follows the code as written.
- Patch runs the full validator on its payload, so a patch payload must carry all
  six fields. It checks the payload before it looks up the id. The payload's
  `id` replaces the matched record's id. So patch can leave two records with the
  same id, although create refuses duplicate ids. The model proves both that create
  keeps ids distinct and that patch can break them.
- Path ids use Flask's `<int:id>` converter, which matches only unsigned decimal
  numbers, so the handlers take a `nat`. A record created with a negative id is
  stored but can never be fetched, patched or deleted.
- The 404 reason is "Not Found" in `flask/app.py` and "Не найдено" in
  `flask/app_test.py`; the duplicate-id reason likewise differs between the copies.

Rows that cite `flask/app.py` for the shared modules (`Validation`, `Movies`,
`Handlers`) model the identical code in `flask/app_test.py` too: `validate` at
lines 28-44 and the handlers at lines 47-91.

## Model

| member | source | states |
|---|---|---|
| Values.IsInt | flask/app.py:91-105 | `isinstance(v, int)`: holds of an integer and of `True` and `False` |
| Values.AsInt | flask/app.py:95-149 | the integer that `==` and `<=` compare for an int-like value (the year and rating bounds at lines 95 and 104, the id comparisons at lines 116, 128, 140 and 149): the integer itself, 1 for `True`, 0 for `False` |
| Validation.FieldMessageText | flask/app.py:92-105 | the message the validator returns for each field, word for word; the `length` text is kept although it is never returned |
| Validation.Validate | flask/app.py:90-106 | the length message is never returned; "no message" is returned only for a payload whose `id` is an integer |
| Validation.FirstFailing | flask/app.py:91-105 | the field it returns fails its check and every field before it in the order passes; it returns nothing exactly when every field passes |
| Validation.ValidateIsFirstFailure | flask/app.py:90-106 | the verdict is set by the first field, in the order id, title, year, director, length, rating, that breaks the schema: a bad length is a fault, any other field gives its message, and no failing field gives "no message" |
| Validation.ValidateOkIffConforming | flask/app.py:90-106 | no message exactly when id is an int, title and director are strings of at most 100 characters, year is an int in [1900, 2100] inclusive, length is a string and rating is an int in [0, 10] inclusive |
| Validation.InvalidMeansFirstWrongField | flask/app.py:91-105 | a returned field message names a field that is wrong while every field checked before it is right |
| Validation.BooleansAreIntegers | flask/app.py:91-105 | a boolean passes the id and rating checks (as 1 or 0) and fails the year range |
| Validation.LengthStringNotInspected | flask/app.py:99-103 | any two strings in `length` give the same verdict: the format is never checked |
| Validation.LengthNotStringFaults | flask/app.py:99-103 | after four good fields, an absent or non-string length raises an uncaught exception instead of returning the length message |
| Validation.MovieValidates | flask/app.py:90-106 | a full record within the bounds passes, whatever its length string |
| Movies.Find | flask/app.py:116 | the position found carries the id and no earlier record does; nothing is found exactly when no record carries the id |
| Movies.FindIsFirstMatch | flask/app.py:116 | the scan returns the first position carrying the id |
| Movies.TrueIdAnswersToOne | flask/app.py:116 | a record stored with id `True` is found by id 1 |
| Movies.FindUniqueUnderDistinctIds | flask/app.py:116 | with distinct ids, the scan finds the only record carrying the id |
| Movies.Add | flask/app.py:122-131 | the list changes only when the answer is 200, and every stored record keeps an integer id |
| Movies.AddRefusesInvalid | flask/app.py:125-127 | a refused payload gives 400 with the field's message, or 500 when the validator raises; the list is unchanged |
| Movies.AddDuplicateOrAppend | flask/app.py:128-131 | a valid payload with a stored id gives 400 "already exists" and the list is unchanged; otherwise the payload is appended at the end and returned with 200 |
| Movies.AddKeepsIdsDistinct | flask/app.py:128-130 | if the ids were distinct before a create, they are distinct after it |
| Movies.Patch | flask/app.py:134-144 | the list keeps its length, changes only on 200, and every record keeps an integer id |
| Movies.PatchValidatesBeforeLookup | flask/app.py:137-142 | an invalid payload gets the same answer for every path id, known or unknown, and changes nothing |
| Movies.PatchUnknownIdNotFound | flask/app.py:140-142 | a valid payload for an unknown id gives 404 and changes nothing |
| Movies.PatchOverlaysMatchedRecord | flask/app.py:140-144 | on success the matched record gets every payload key's value and keeps its other keys; all other records and their order are unchanged; the merged record is returned with 200 |
| Movies.PatchWithFullPayload | flask/app.py:143-144 | a payload holding all of the record's keys replaces the record and is returned |
| Movies.PatchTakesPayloadId | flask/app.py:137-143 | after a patch the matched record carries the payload's id, not necessarily the path id |
| Movies.PatchKeepsIdsDistinctWhenIdFree | flask/app.py:140-143 | ids stay distinct when the payload keeps the path id or brings an id no record has |
| Movies.PatchCanDuplicateId | flask/app.py:137-143 | a valid payload carrying another record's id leaves two records with that id |
| Movies.Delete | flask/app.py:147-153 | the list changes only on 202, and the remaining records keep integer ids |
| Movies.RemoveFirst | flask/app.py:152 | `list.remove(x)`: drops the first element equal to `x` and keeps the rest in order, so the list is one shorter when `x` is in it and unchanged when it is not |
| Movies.RemoveFirstAtFirstMatch | flask/app.py:149-152 | `remove` of the first record carrying the id drops exactly that position |
| Movies.RemoveFirstTakesOneOccurrence | flask/app.py:152 | `remove` takes away one occurrence of the element and nothing else |
| Movies.DeleteRemovesMatched | flask/app.py:147-153 | deleting a known id answers 202 with no body and removes exactly the first record carrying it, keeping the others in order |
| Movies.DeleteUnknownNotFound | flask/app.py:149-151 | deleting an unknown id gives 404 and changes nothing |
| Movies.DeleteKeepsIdsDistinct | flask/app.py:149-152 | if the ids were distinct before a delete, they are distinct after it |
| Movies.CutRemovesId | flask/app.py:149-152 | with distinct ids, removing the record carrying an id leaves no record with that id |
| Movies.DeleteTwiceNotFound | flask/app.py:147-153 | with distinct ids, deleting a stored id answers 202 and a second delete of the same id gives 404 |
| Handlers.MovieStore.constructor | flask/app.py:6-87 | the store starts with the seed list |
| Handlers.MovieStore.FindIndex | flask/app.py:116 | the loop returns the first position whose id matches, or nothing when no record matches |
| Handlers.MovieStore.GetMovies | flask/app.py:109-111 | 200 with the whole list in its current order |
| Handlers.MovieStore.GetMovie | flask/app.py:114-119 | 200 with the first record carrying the id, or 404 when none does; the store is not modified |
| Handlers.MovieStore.AddMovie | flask/app.py:122-131 | the response and new list are those of `Movies.Add`; ids distinct before stay distinct |
| Handlers.MovieStore.PatchMovie | flask/app.py:134-144 | the response and new list are those of `Movies.Patch` |
| Handlers.MovieStore.DeleteMovie | flask/app.py:147-153 | the response and new list are those of `Movies.Delete`; it answers 202 exactly when the id was stored; ids distinct before stay distinct |
| App.Seed | flask/app.py:6-87 | the ten records the store starts with, field for field, carrying the ids 1 to 10 in order |
| App.ReasonText | flask/app.py:90-158 | the `reason` text of each refusal: the field's message, "Movie with this ID already exists" (line 129) or "Not Found" (line 158); the last two differ from every field message |
| App.SeedIdsDistinct | flask/app.py:6-87 | the seed holds ten records with ids 1 to 10 in order, all distinct |
| App.SeedValidates | flask/app.py:6-87 | every seed record passes the validator |
| App.ReasonTextsDistinct | flask/app.py:90-158 | different refusals (each field, duplicate id, not found) carry different texts |
| App.SeedPatchDuplicatesId | flask/app.py:134-144 | patching record 1 of the seed with a valid payload carrying id 2 leaves two records with id 2 |
| AppTest.Seed | flask/app_test.py:8-25 | the two records the store starts with, carrying the ids 1 and 2 in order |
| AppTest.ReasonText | flask/app_test.py:28-96 | the `reason` text of each refusal: the field's message, "Фильм с таким ID уже существует" (line 67) or "Не найдено" (line 96); the last two differ from every field message |
| AppTest.SeedIdsDistinct | flask/app_test.py:8-25 | the seed holds two records with ids 1 and 2, distinct |
| AppTest.SeedIsPrefixOfAppSeed | flask/app_test.py:8-25 | the two seed records are the first two of the other copy's seed |
| AppTest.ReasonTextsDistinct | flask/app_test.py:28-96 | different refusals carry different texts |
| AppTest.TextsAgainstApp | flask/app_test.py:28-96 | the two copies share every field message and differ on the duplicate-id and not-found texts |

## Left out

- Flask routing, `request.json` extraction, `jsonify`, `abort` and the error handlers are not modelled. A response is a status code and a body datatype.
- A `request.json` that is None is not modelled: `.get` then fails in the framework glue, before the store logic runs. A missing `movie` entry gives the empty payload, which the model covers.
- Payloads are JSON objects only (`Record`), although `request.json.get('movie', {})` is passed to `validate` whatever its type. In the source a list or string that does not contain `'id'` (such as `[]` or `"abc"`) gets the id message and 400. A number, `null` or a boolean makes the `in` test raise `TypeError`. A list or string that contains `"id"` makes `data['id']` raise `TypeError`. Both of those raises happen inside `validate`, so the answer is 500. The model does not cover these non-object payloads.
- The text of a 500 response (`str(error)` of the escaped exception) is not modelled. `ServerError` stands for it.
- `datetime.strptime` is not modelled: from this code it is only ever called with a non-string, where it raises `TypeError` before parsing; a missing key raises `KeyError` before the call.
- The key order of records and of JSON output is not modelled; records are maps.
- `list.remove` compares with Python's `==`, which equates `True` with 1; the model compares records exactly. The removed position is the same either way: a record equal to the matched one would carry the same id, and the matched record is the first with that id.
- Records are held as values. In the source the stored dict is the request's own payload object, and nothing else keeps a reference to it, so sharing cannot be observed.
- Concurrent requests, `app.run` and the process lifetime are not modelled. The list has no synchronisation and no persistence.
