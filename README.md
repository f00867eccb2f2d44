# FedEx tracker: the `/api/track` handler

This is a model of the logic of `server.js`. The server takes a batch of FedEx tracking
numbers and answers `{count, results}`, with one entry per distinct number. The model has
three parts, one Dafny module each: how the numbers are cleaned, how one carrier reply
becomes a tracking record, and the loop that builds the batch. Two small modules support
them. `Wrappers` holds `Option` and `Result`. `Text` holds ECMAScript's `trim`,
`Array.prototype.join` and the decimal text of a number.

- `Sanitization` models the `numbers` request field. A value that is not an array gives
  `[]`. An array has every element trimmed, the empty strings dropped, and the duplicates
  removed by putting the list through a `Set` and spreading it back (`Dedup`).
- `Carrier` models `fetchFedEx` from the point where the reply is in hand.
  - A thrown network error, a status outside 200-299 ("HTTP <status>"), a parse error and a
    missing first package ("Sin datos del paquete") are failures.
  - Otherwise the package is turned into a record through its `||` fallback chains.
  - JavaScript values that the carrier sends as text are `Field = Undefined | Null | Text(s)`.
    Only a non-empty `Text` is truthy.
  - `${x}` shows `undefined` and `null` by those names.
- `Batch` models the loop. `LookUpAll` is a `for` loop that appends an `ok: true` or
  `ok: false` entry for each number, in order. `Track` sanitises the field, runs the loop
  and builds the envelope.

The outbound request is not modelled; what it returns is an input. The call for the
i-th sanitised number is answered by `replies[i]`, which is a `Reply`: either a thrown
error, or a status and a parsed (or unparsable) body. `Track` therefore requires one
reply per sanitised number, and this requirement comes from the model, not from the
handler.

Two consequences of the code are worth spelling out:
- In `${last.date} ${last.time}` there is always a space, so the text is always truthy.
  Whenever there is a first event, `lastUpdateLocal` is that text, even when it reads
  `"undefined undefined"`. The delivery dates are read only when there is no event
  (`Carrier.LastUpdateLocal`).
- The errors `fetchFedEx` throws itself are plain `Error`s carrying the message
  `"HTTP <status>"` or `"Sin datos del paquete"`. The entry's `error` is that message
  (`Batch.ErrorText`).

## Model

| member | source | states |
|---|---|---|
| Text.LeadingSpaces | server.js:106 | the count of leading spaces: all of them are spaces, and the character after them is not |
| Text.TrailingSpaces | server.js:106 | the count of trailing spaces: all of them are spaces, and the character before them is not |
| Text.Trim | server.js:106 | the trim has no space at either end, is no longer than its input, and is empty exactly when the input is all spaces |
| Text.TrimSplits | server.js:106 | the input is leading spaces, then its trim, then trailing spaces |
| Text.TrimOfPadded | server.js:106 | any trimmed text padded with spaces on both sides trims back to itself (the converse of TrimSplits) |
| Text.TrimIdempotent | server.js:106 | trimming twice equals trimming once |
| Text.TrimFixedPoint | server.js:106 | a text is its own trim exactly when neither end is a space (IsTrimmed) |
| Text.Join | server.js:87-88 | joining nothing gives "", one part gives that part, and the result starts with the first part |
| Text.JoinSnoc | server.js:87-88 | joining one more part puts the separator between the earlier parts' join and it, so the separator sits between each pair of consecutive parts |
| Text.JoinEmptyIff | server.js:87-88 | joining non-empty parts gives "" exactly when there are no parts |
| Text.Decimal | server.js:63 | the decimal text of a status is non-empty digits, with a leading 0 only for zero |
| Text.DecimalRoundTrip | server.js:63 | reading the decimal text back gives the number |
| Text.DecimalInjective | server.js:63 | different numbers have different decimal texts |
| Sanitization.Raw | server.js:102 | an array field gives its items, anything else gives [] |
| Sanitization.TrimAll | server.js:106 | one output per input, in place, and each output is the trim of its input |
| Sanitization.TrimAllConcat | server.js:106 | the map works element by element: a concatenation is mapped part by part |
| Sanitization.DropEmpty | server.js:107 | the result is no longer than the input and holds exactly the non-empty inputs |
| Sanitization.DropEmptyConcat | server.js:107 | the filter keeps order and repetitions: a concatenation is filtered part by part |
| Sanitization.DropEmptyOfNonEmpty | server.js:107 | a list with no empty string passes the filter unchanged |
| Sanitization.Candidates | server.js:106-107 | every trimmed non-empty input is non-empty and its own trim (IsTrimmed) |
| Sanitization.CandidatesConcat | server.js:106-107 | the candidates of a concatenation are those of its parts, in input order |
| Sanitization.Dedup | server.js:103-104 | the Set spread as insertion: append each value not seen yet; its promises are stated by DedupSpec |
| Sanitization.DedupSpec | server.js:103-109 | the Set spread has no duplicates, holds exactly the input values, has one entry per distinct value, and keeps first-occurrence order |
| Sanitization.Sanitize | server.js:102-109 | each number is non-empty and its own trim (IsTrimmed); no duplicates; exactly the trimmed non-empty inputs, in first-occurrence order, as many as there are distinct ones; a non-array field gives [] |
| Sanitization.SanitizeElements | server.js:102-109 | x is a sanitised number exactly when x is non-empty and is the trim of some input |
| Sanitization.DedupOfDistinct | server.js:103-109 | the Set spread leaves a list without duplicates unchanged |
| Sanitization.FirstOccurrenceOrderUnique | server.js:103-109 | "no duplicates, the same values, first-occurrence order" determines the list, so Sanitize's contract pins down its result |
| Sanitization.SanitizeWithoutDuplicates | server.js:103-109 | when the trimmed non-empty inputs are all different, sanitising keeps them all in input order |
| Sanitization.SanitizeIdempotent | server.js:102-109 | sanitising a sanitised list gives it back |
| Sanitization.DuplicateAfterTrim | server.js:103-109 | [a, " " + a + " ", b] sanitises to [a, b] |
| Sanitization.DuplicateAfterTrimExample | server.js:103-109 | ["123", " 123 ", "456"] sanitises to ["123", "456"] |
| Sanitization.BlankEntries | server.js:106-107 | ["", s, a] with s all spaces sanitises to [a] |
| Sanitization.BlankEntriesExample | server.js:106-107 | ["", "  ", "789"] sanitises to ["789"] |
| Carrier.Truthy | server.js:70-74 | JavaScript truthiness of a text value: only a non-empty string is truthy |
| Carrier.Shown | server.js:76 | what a template string shows for a value: "undefined", "null" or the string |
| Carrier.IsOk | server.js:63 | `res.ok`: the status is in 200-299 |
| Carrier.HttpMessage | server.js:63 | the message is "HTTP " followed by the decimal text of the status |
| Carrier.FirstPackage | server.js:66 | a package exactly when every level down to a non-null entry 0 of packageList is present, and then it is that entry |
| Carrier.FirstTruthy | server.js:70-74 | a fallback chain of `or` operators gives the fallback or the text of one of its truthy links |
| Carrier.FirstTruthyPicks | server.js:70-74 | the chain gives the first truthy link when earlier links are falsy |
| Carrier.FirstTruthyFallback | server.js:70-74 | with no truthy link the chain gives its fallback |
| Carrier.LastEvent | server.js:68-69 | a scanEventList that is not an array, or an empty array, gives no event; otherwise the event is entry 0 (none when it is null) |
| Carrier.EventStatus | server.js:71 | `last && last.status`: the event's status, or null with no event |
| Carrier.LocalizationMessage | server.js:73 | `pkg.localization?.message`: missing when there is no localization |
| Carrier.LastStatus | server.js:68-74 | lastStatus is the event status, else keyStatus, else localization.message, else "Sin información", and is never empty |
| Carrier.Stamp | server.js:76 | the event's date-and-time text is never empty |
| Carrier.LastUpdateLocal | server.js:68-79 | with a first event it is date + " " + time; otherwise displayActDeliveryDt, else displayEstDeliveryDt, else "" |
| Carrier.Kept | server.js:87 | what the filter keeps of one value: its text when truthy, else nothing |
| Carrier.Present | server.js:82-87 | `filter(Boolean)` keeps no empty text, and gives [] exactly when no field is truthy |
| Carrier.PresentConcat | server.js:82-87 | the filter keeps order: a concatenation is filtered part by part |
| Carrier.PresentSingle | server.js:82-87 | on one value the filter keeps exactly what Kept says |
| Carrier.CompositeLocation | server.js:82-88 | the joined city, state and country is "" exactly when none of the three is truthy |
| Carrier.CompositeLocationParts | server.js:82-88 | the composite is the ", "-join of whichever of city, state and country are truthy, in that order |
| Carrier.CompositeLocationAll | server.js:82-88 | with all three present the composite is "city, state, country" |
| Carrier.CompositeLocationSkipsMissing | server.js:82-88 | a missing state is skipped with its separator: "city, country" |
| Carrier.EventLocation | server.js:81 | `last && last.scanLocation`: the event's scan location, or null with no event |
| Carrier.Location | server.js:80-89 | location is the event's scanLocation if truthy, else the composite; it is "" exactly when neither has anything |
| Carrier.Delivered | server.js:95 | delivered is true exactly when isDelivered is true |
| Carrier.Service | server.js:96 | service is serviceTypeDesc, else serviceCommitMessage, else "" |
| Carrier.Normalize | server.js:90-97 | the record echoes the tracking number, its status is never empty, and delivered is true exactly when isDelivered is true |
| Carrier.FetchFedEx | server.js:63-97 | errors: a network error propagates, a non-2xx status gives "HTTP <status>", a parse error propagates, no first package gives "Sin datos del paquete"; it succeeds exactly otherwise, and the record echoes the tracking number and normalises the first package |
| Carrier.HttpMessageInjective | server.js:63 | different statuses give different "HTTP <status>" messages |
| Carrier.NoPackageDataIsNotHttp | server.js:63-67 | the missing-package message differs from every HTTP status message |
| Batch.ErrorText | server.js:116 | the entry's error is the thrown message, or the error's name when the message is empty |
| Batch.EntryFor | server.js:112-117 | the entry carries the number; it is ok exactly when the fetch returned; an ok entry holds the record and a failed one holds the error text |
| Batch.Results | server.js:110-119 | one result per sanitised number, and result i is the entry for number i and its reply |
| Batch.ResultsSnoc | server.js:111-119 | handling one more number appends exactly its entry |
| Batch.ResultsEchoNumbers | server.js:111-117 | results[i].trackingNumber == numbers[i], whether the lookup succeeded or failed |
| Batch.ResultsOkIff | server.js:112-117 | results[i].ok holds exactly when the fetch of numbers[i] returned normally |
| Batch.FailureIsolation | server.js:111-117 | changing the reply for number j changes entry j alone |
| Batch.HttpFailureEntry | server.js:112-116 | a non-2xx reply gives {ok: false, trackingNumber, error: "HTTP <status>"} at that position |
| Batch.NoPackageEntry | server.js:112-116 | a reply without a first package gives the "Sin datos del paquete" failure at that position |
| Batch.LookUpAll | server.js:110-119 | the loop's results are the result sequence of the numbers and their replies: one entry per number, in order |
| Batch.Track | server.js:100-120 | count equals the number of results; the results are those of the sanitised numbers; count is the number of distinct trimmed non-empty inputs; a missing or non-array field gives {count: 0, results: []} |
| Batch.DeliveredRecord | server.js:90-97 | the delivered Memphis package normalises to the expected record |
| Batch.DeliveredExample | server.js:90-120 | the end-to-end delivered example gives {ok: true, "000000000000", "Delivered", "2024-01-01 10:00", "Memphis, TN, US", true, ""} |
| Batch.EmptyPackageListExample | server.js:66-67 | an empty package list gives the failure entry "Sin datos del paquete", not a crash |
| Batch.MixedBatchExample | server.js:111-117 | a 404 for the first number gives "HTTP 404" and the second number still succeeds |

## Left out

- Express set-up, CORS, the JSON body limit, static hosting and `app.listen` (server.js:1-9, 126-128) are framework plumbing and are not modelled.
- Building and sending the request (server.js:20-61) is a network call to a third-party service. Its outcome, a thrown error or a status with a body, is the `Reply` input.
- `res.json()` (server.js:65) is modelled by its outcome: `Parsed` with the decoded fields, or `Malformed` with the error thrown.
- `sleep(800)` and `async`/`await` (server.js:11, 118) only pace the calls in time and leave the results unchanged.
- The outer 500 path (server.js:121-123), when request handling itself throws, is not modelled.
- `String(x)` coercion (server.js:106): the elements of `numbers` are taken to be strings already. Numbers, objects and `null` in the array are not modelled.
- Sanitization.Sanitize: JavaScript strings are UTF-16 and the model's are sequences of Unicode scalar values. A lone surrogate is not representable, but surrogates are never whitespace, so trimming is unaffected.
- The carrier fields are modelled as missing, `null` or strings. Numbers, booleans and objects in the text fields are not modelled, and neither are non-boolean values of `isDelivered`.
- Carrier.FirstPackage: a `packageList` that is present but not an array, and non-object values at the intermediate levels of the reply, are not modelled.
- Carrier.LastEvent: an event entry that is a non-object truthy value, such as a number, is not modelled.
- Batch.ErrorText: an error that has no `message` (a thrown non-`Error` value) is not modelled. An empty message is modelled as printing the error's name.
- Batch.Track: the model requires exactly one reply per sanitised number. This is how the fetch outcomes are supplied, not a demand the handler makes.
