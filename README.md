# Items CRUD service: request handler and store

A Dafny model of the request handler in `server.js`. The handler serves one
collection of items `{id, name}` kept in `items.json`:

- `GET /items` lists the collection;
- `POST /items` appends an item;
- `PUT /items/<id>` renames the first item with that id;
- `DELETE /items/<id>` removes every item with that id;
- everything else is refused with 400, 404 or 405.

Each request that lists or changes the collection loads the whole file
first. Requests refused for their route, method, missing name or invalid id
answer without reading it; PUT and DELETE read the file before answering
404 "Item not found". The file's absence
counts as the empty list. A request that changes the collection writes the
whole list back.

Layout:

- `wrappers.dfy`: `Option`.
- `js_text.dfy` (module `JsText`): the JavaScript string operations the
  handler uses to read an id. `Split` models `split('/')` and `ParseInt`
  models `parseInt` with no radix, as section 19.2.5 of the ECMAScript 2024
  Language Specification defines it. That means leading white space and line
  terminators are skipped, then an optional sign is read, then a `0x`/`0X`
  prefix selects radix 16, then the longest digit prefix is read, and an
  empty prefix gives NaN (`None`). For partners there are `Join` and the
  decimal rendering `ShowInt`.
- `items.dfy` (module `Items`): the `Item` record and the array operations
  the handler applies to the loaded list: `find` by id (`FindIndex`),
  `filter` by id (`RemoveId`) and the `name || item.name` rename (`Rename`).
- `server.dfy` (module `Server`):
  - `Dispatch` is the whole decision table as a function. It takes the
    pathname, the method, the body's `name` field, the id a creation would
    use, and the loaded list. It returns an `Outcome`: the response (status
    and JSON body) and the list passed to `writeItems`, or `None` when
    nothing is written.
  - The `Store` class holds the file as `file: Option<seq<Item>>`, where
    `None` means the file does not exist. `ReadItems`, `WriteItems` and
    `Handle` perform a request step by step against that field, and
    `Handle` is proved to do what `Dispatch` describes.
- `properties.dfy` (module `ServerProperties`): what every route promises,
  as lemmas over `Dispatch`.
- `scenarios.dfy` (module `StoreScenarios`): request sequences against a fresh
  `Store`, proved from `Handle`'s contract.

The id that `Date.now()` would give a new item is a parameter (`freshId`).
The body's already-parsed `name` field is a parameter (`Option<string>`;
`None` for an absent field). JavaScript truthiness of `name` is `Truthy`: the
field is present and is not the empty string.

Points where the code's behaviour is easy to misread:

- A malformed request body makes `JSON.parse` throw inside the `end`
  callback, and so does a `null` body, whose `name` cannot be destructured.
  No 400 response is produced, and this path is not modelled.
- An id segment counts as valid whenever `parseInt` finds a digit prefix.
  So `/items/12abc` addresses id 12, `/items/0x1f` addresses id 31, and
  `/items/abc/5` addresses id 5.
- PUT on a present id with a falsy `name` still writes the file, with the
  same content, and answers 200.
- The id of a created item is unique only if the supplied id was unused
  (`PostFreshIdUnique`). Nothing in the handler checks that.

## Model

| member | source | states |
|---|---|---|
| `Server.Dispatch` | server.js:28-119 | the whole routing table; no response with status 400 or above writes the file; the route lemmas below and `WritesOnlyOnMutatingSuccess` state what each route does |
| `Server.PathId` | server.js:66-67 | the id is parseInt of the last `/`-separated piece of the pathname; `ItemPathId` and `ItemPathIdOfNumber` state it for `/items/<segment>` and `/items/<n>` |
| `Items.Truthy` | server.js:47 | the `!name` test: `name` is truthy when present and not the empty string; used by `PostWithoutName`, `PostAppends` and `PutKnownId` |
| `Items.Rename` | server.js:90 | the rename keeps the item's id; `PutKnownId` states the name rule (the new name if truthy, the old one otherwise) |
| `Server.Store.constructor` | server.js:17-18 | a new store has no file, so it holds the empty collection |
| `Server.Store.ReadItems` | server.js:12-22 | reading gives the stored list, and gives `[]` when the file does not exist |
| `Server.Store.WriteItems` | server.js:24-26 | writing replaces the whole file with the given list |
| `Server.Store.Handle` | server.js:28-119 | the response is the one `Dispatch` gives for the collection in the file; the file is replaced by the written list exactly when `Dispatch` writes, and is untouched otherwise |
| `JsText.Split` | server.js:66 | `split('/')` gives at least one piece, and no piece contains the separator |
| `JsText.JoinSplit` | server.js:66 | joining the pieces of a split with the separator gives back the original pathname |
| `JsText.SplitJoin` | server.js:66 | splitting a join of separator-free pieces gives back exactly those pieces |
| `JsText.LastPieceIsTail` | server.js:66-67 | `urlParts[urlParts.length - 1]` is the suffix after the last `/`, has no `/`, and is the whole string when there is no `/` |
| `JsText.LastPiece` | server.js:66-67 | `urlParts[urlParts.length - 1]` holds no separator; `LastPieceIsTail` states that it is the suffix after the last `/` |
| `JsText.ParseInt` | server.js:67 | `parseInt` with no radix; `ParseIntShowInt`, `ParseIntNoDigits` and `ParseIntSkipsSpace` state what it reads; `ParseIntHexPrefix`, `ParseIntPlusLeadingZeros` and `ParseIntEmptyHex` show the hex prefix, the `+` sign, leading zeros and an empty hex run |
| `JsText.TrimStart` | server.js:67 | parseInt's white-space skip removes exactly the leading white-space characters and stops at the first other character |
| `JsText.DigitRun` | server.js:67 | the digits parseInt reads are the longest prefix of digits in the radix |
| `JsText.ParseIntShowInt` | server.js:67 | parseInt reads back the decimal rendering of every integer, including negatives, whatever non-digit text follows it, except `x` or `X` after `0`, which makes a hex prefix (`0x1` reads as 1) |
| `JsText.ParseIntSkipsSpace` | server.js:67 | leading white space does not change the parsed id |
| `JsText.ParseIntHexPrefix` | server.js:67 | a `0x` prefix switches to radix 16: `parseInt("0x1f")` is 31 |
| `JsText.ParseIntPlusLeadingZeros` | server.js:67 | a `+` sign and leading zeros are accepted: `parseInt("+007")` is 7 |
| `JsText.ParseIntEmptyHex` | server.js:67-69 | a `0x` prefix with no hex digit after it is NaN, so `/items/0xg` is an invalid id |
| `JsText.ParseIntNoDigits` | server.js:67-69 | a segment without any decimal digit parses to NaN |
| `Items.FindIndex` | server.js:83 | `find` by id gives the first position holding the id, or nothing when no item has it |
| `Items.CountId` | server.js:98-101 | the number of items with the id is zero exactly when no item has it |
| `Items.RemoveId` | server.js:99 | `filter` by id drops exactly the items carrying the id, so the length shrinks by their number and no kept item has the id |
| `Items.RemoveIdKeepsOthers` | server.js:99 | every item with another id is kept as many times as it occurred |
| `Items.RemoveIdAppend` | server.js:99 | filtering distributes over concatenation, so the kept items stay in their relative order |
| `Items.RemoveIdNoMatch` | server.js:99-101 | filtering a list that lacks the id returns the same list |
| `Items.RemoveIdIdempotent` | server.js:99 | filtering the same id twice removes nothing more |
| `ServerProperties.ItemPathId` | server.js:66-67 | for `/items/<segment>` with no `/` in the segment, the id is parseInt of the segment |
| `ServerProperties.ItemPathIdOfNumber` | server.js:66-67 | `/items/<n>` addresses id n for every integer n |
| `ServerProperties.UnknownRoute` | server.js:115-118 | a pathname that is neither `/items` nor under `/items/` gets 404 "Route not found" and no write |
| `ServerProperties.CollectionMethodNotAllowed` | server.js:60-62 | any method other than GET or POST on `/items` gets 405 "Method not allowed" and no write |
| `ServerProperties.ItemMethodNotAllowed` | server.js:110-113 | any method other than PUT or DELETE on a valid `/items/<id>` gets 405 and no write |
| `ServerProperties.InvalidIdBeforeMethod` | server.js:65-72 | an id segment that does not parse gets 400 "Invalid ID" and no write, whatever the method (so POST on `/items/abc` is 400, not 405) |
| `ServerProperties.NonNumericIdRefused` | server.js:66-72 | `/items/<segment>` where the segment has no decimal digit, such as `DELETE /items/abc`, gets 400 "Invalid ID" |
| `ServerProperties.GetListsCollection` | server.js:35-38 | GET `/items` answers 200 with exactly the stored collection and writes nothing |
| `ServerProperties.PostWithoutName` | server.js:46-50 | POST with a falsy name answers 400 "Name is required" and writes nothing |
| `ServerProperties.PostAppends` | server.js:52-58 | POST with a truthy name writes the old collection unchanged and in order, followed by exactly one item `{freshId, name}`, and answers 201 with that item |
| `ServerProperties.PostFreshIdUnique` | server.js:53-54 | if the supplied id is unused, the created item is the only one with that id afterwards |
| `ServerProperties.PostThenGet` | server.js:35-58 | a GET after a successful POST lists the previous collection with the new item at the end |
| `ServerProperties.PutUnknownId` | server.js:83-88 | PUT on an id no item has answers 404 "Item not found" and writes nothing |
| `ServerProperties.PutKnownId` | server.js:83-94 | PUT on a present id changes only the first item with it: its name becomes the new name if truthy and stays otherwise; the length, all ids and all other items are unchanged; answers 200 with the updated item |
| `ServerProperties.DeleteRemovesAll` | server.js:97-109 | DELETE leaves the collection filtered of the id; it writes nothing and answers 404 exactly when no item had the id, and answers 200 "Item deleted" otherwise |
| `ServerProperties.DeleteTwice` | server.js:97-104 | a second DELETE of the same id always answers 404 and writes nothing |
| `ServerProperties.WritesOnlyOnMutatingSuccess` | server.js:28-119 | every status is 200, 201, 400, 404 or 405; no refusal writes; the file is written exactly on a 201, or on a 200 that is not a GET |
| `StoreScenarios.CreateThenList` | server.js:34-58 | on a fresh store, POST "apple" answers 201 with the item, and the next GET lists just that item |
| `StoreScenarios.RefusalsLeaveStoreEmpty` | server.js:28-119 | on a fresh store, a nameless POST is 400, a PUT of an id never created is 404, and `DELETE /items/abc` is 400; the file is still absent and GET lists `[]` |

## Left out

- HTTP plumbing is not modelled: server creation, `listen`, the
  `Content-Type` header, and `writeHead`/`end`. Responses are plain values
  with a status and a JSON body.
- Body accumulation from `data`/`end` events and `JSON.parse` of the body are
  not modelled. The parsed `name` is an input.
- A `name` that is a JSON value other than a string is not modelled. That
  covers numbers, `true`, objects and arrays, which the source would accept
  when truthy.
- A body that is not valid JSON, or is `null`, makes the source throw inside
  the callback.
  That crash is not modelled.
- File I/O and JSON formatting are abstracted to a field holding the list or
  nothing. Read errors other than a missing file are left out, because they
  are foreign I/O failures that the source rethrows. So is a file whose
  content is not a JSON array.
- `Date.now()` is replaced by the `freshId` parameter, because it reads the
  wall clock. No uniqueness is claimed unconditionally.
- Concurrency is not modelled. Each request runs to completion alone. The
  lost update between overlapping requests, which have no locking, is
  therefore not represented.
- `url.parse` is not modelled: the pathname is taken as given, with the
  query string already stripped.
- `JsText.ParseInt`: ids are mathematical integers, not IEEE doubles. So
  parseInt's rounding of digit strings beyond 2^53 is not modelled, and
  neither is `-0`, which compares equal to `0` under `===` anyway.
