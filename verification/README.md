# Live app catalog fetcher: a Dafny model

A Node script fetches a remote JSON catalog of applications and caches it in
`live-app-catalog.json`. It keeps the server's ETag in `etag.txt` and sends it back as
`If-None-Match`, so unchanged content gets a 304. When the server sends fresh content
(a 200) and a catalog is already cached, the script normalizes the Unicode strings of
both documents. It then walks the two trees with a structural comparator, and any
difference is fatal: the script prints the differences, writes nothing and exits
with 1.

This project models the two parts of the script that hold logic:

- the **structural comparator**: `normalizeJson`, and `findDifferences` with its inner
  `compare`. These are in the modules `Normalization` and `Differences`, over the JSON
  datatype of `JsonValue`;
- the **fetch controller**: `fetchLiveAppCatalog`, as the pure function
  `FetchController.Run`. It maps the files on disk (a map from file name to
  contents) and the HTTP client's answer (a resolved `Ok` response, or a `Thrown`
  error) to the files after the run, the exit code and the `If-None-Match` header.

`Scenarios` works through small catalogs and whole runs.

Modelling choices:

- JSON objects are `map<string, Json>`, so lodash's `_.isEqual` is Dafny equality.
  Object key order carries no meaning, and an array is never equal to an object.
- `compare` reads `obj[key]`, which is `undefined` when the key is missing. Values
  met during the walk therefore have the type `Value = Undefined | Defined(Json)`.
- Arrays have `typeof 'object'`, so `compare` descends into them like objects. Their
  keys are the canonical index strings `"0"`, `"1"`, … (`JsonValue.IndexKey`). Reading
  a name from an array gives an element only for a canonical index in range. For
  `"length"` it gives the array's length, and for anything else `undefined`
  (`JsonValue.Get`).
- `findDifferences` returns the **set** of its records. The source builds a list in
  JavaScript key-enumeration order. The script decides only on whether that list is empty; it prints every record
  (see console output under "Left out").
- NFC normalization, `JSON.parse` and `JSON.stringify(_, null, 2)` are the functions
  of `FetchController.Env`. Properties that need NFC to be idempotent, or the
  serialiser to round-trip, take that as a precondition.

Two consequences of walking arrays like objects:

- Arrays are walked by index, so a changed id inside an array is reported at
  `apps.0.id` (`Scenarios.ChangedIdReported`), not as one whole-array mismatch.
- No record does not imply deep equality. `[]` against `{}` gives none, and so does
  any array against the object holding its elements under "0", "1", …
  (`Differences.ArrayMatchesIndexObject`). Once no array faces an object, no record
  does mean deeply equal (`Differences.NoDifferencesIffEqual`), for documents without
  a member named `__proto__` (see `JsonValue.Get` under "Left out").

## Model

| member | source | states |
|---|---|---|
| JsonValue.OwnKeys | fetch-live-app-catalog.js:103 | `Object.keys` of an object is its key set; an array's keys are exactly its in-range index strings, and never "length" |
| JsonValue.Get | fetch-live-app-catalog.js:105 | `obj[key]` on an object is the member under `key`, or `undefined` when there is none; on any container `x[key]` is defined for every listed key, is `undefined` exactly for unlisted names other than an array's "length", gives the element at that index for an array index key, and gives the length for "length" |
| JsonValue.IndexKey | fetch-live-app-catalog.js:103 | the name `Object.keys` lists for an array position is a non-empty string of decimal digits with no leading zero |
| JsonValue.ParseIndex | fetch-live-app-catalog.js:105 | a name that reads as an array index is a non-empty digit string with no leading zero; with `IndexKeyOfParse`, exactly the canonical index names do |
| JsonValue.ParseIndexKey | fetch-live-app-catalog.js:103-105 | an array's index key reads back as that index |
| JsonValue.IndexKeyOfParse | fetch-live-app-catalog.js:103-105 | every name that reads as an array index is that index's canonical key, so "07" or "+7" reach no element |
| JsonValue.IndexKeyInjective | fetch-live-app-catalog.js:103-105 | distinct array positions are listed under distinct keys |
| Normalization.Normalize | fetch-live-app-catalog.js:80-93 | strings become their NFC form; numbers, booleans and null are unchanged; arrays stay arrays of the same length, objects stay objects with the same key set; with strings erased, input and output are identical |
| Normalization.NormalizeAt | fetch-live-app-catalog.js:80-93 | normalization commutes with property access: along every path of keys, the normalized document holds the normalized value of the original, `undefined` where the original has nothing |
| Normalization.NormalizeInNormalForm | fetch-live-app-catalog.js:80-93 | if NFC is idempotent, every string of a normalized document is in normal form |
| Normalization.NormalizeFixesNormalForm | fetch-live-app-catalog.js:80-93 | normalization leaves a document unchanged exactly when all its strings are already in normal form |
| Normalization.NormalizeIdempotent | fetch-live-app-catalog.js:80-93 | if NFC is idempotent, normalizing twice equals normalizing once |
| Differences.ChildPath | fetch-live-app-catalog.js:105 | a child's path lies at or below its parent's path (the key itself below the root, `path.key` otherwise) |
| Differences.UnionKeyDefined | fetch-live-app-catalog.js:103-105 | every key the walk visits is listed by one side, which reads a value there, so `compare` never meets `undefined` against `undefined` |
| Differences.Compare | fetch-live-app-catalog.js:97-107 | every record has two sides that are not deeply equal and not both arrays/objects, and its path is the starting path or lies below it (`path.` prefix) |
| Differences.FindDifferences | fetch-live-app-catalog.js:95-110 | deeply equal documents give no record; every record is well formed as above |
| Differences.CompareSymmetric | fetch-live-app-catalog.js:97-107 | comparing b with a gives exactly the records of comparing a with b, sides swapped |
| Differences.FindDifferencesSymmetric | fetch-live-app-catalog.js:95-110 | `findDifferences(b, a)` is the swapped `findDifferences(a, b)`, so one is empty exactly when the other is |
| Differences.MissingKeyRecorded | fetch-live-app-catalog.js:103-105 | a key listed by one container only is reported at its child path with `undefined` on the other side (unless it is "length" read from an array) |
| Differences.MissingMemberRecorded | fetch-live-app-catalog.js:103-105 | for two objects, a member only the first has is reported against `undefined` at its child path |
| Differences.ArrayMatchesIndexObject | fetch-live-app-catalog.js:98-105 | an array and the object holding its elements under "0", "1", … are not deeply equal, yet give no record |
| Differences.EmptyArrayMatchesEmptyObject | fetch-live-app-catalog.js:98-105 | `[]` and `{}` differ but give no record |
| Differences.LengthMemberMatchesArray | fetch-live-app-catalog.js:103-105 | `[]` and `{"length": 0}` give no record, because reading "length" from the array yields 0 |
| Differences.UnequalHasDifference | fetch-live-app-catalog.js:98-106 | two unequal documents in which no array faces an object give at least one record, from any starting path |
| Differences.NoDifferencesIffEqual | fetch-live-app-catalog.js:95-110 | when no array faces an object, no record means deeply equal and deeply equal means no record |
| Differences.SingleKeyCompare | fetch-live-app-catalog.js:103-106 | two differing containers that list one key between them give that key's records one level down |
| FetchController.SaveEtag | fetch-live-app-catalog.js:59-62 | only the token file can change, no file disappears and the catalog is kept; a truthy ETag header (present and not "") becomes the token's contents, a changed token always comes from one, and otherwise the files are unchanged |
| FetchController.Reconcile | fetch-live-app-catalog.js:33-40 | a cached catalog identical to the fetched one never diverges |
| FetchController.ReconcileUpToNormalization | fetch-live-app-catalog.js:35-40 | documents equal after normalization never diverge; when no array faces an object after normalization, no divergence means equal after normalization |
| FetchController.Run | fetch-live-app-catalog.js:8-78 | `If-None-Match` is sent exactly when `etag.txt` exists, carrying its contents; exit code 0 or 1; a fatal run changes no file; no file other than the catalog and the token changes; an existing catalog is never overwritten and an existing token never removed; the token changes only on a 200 with a truthy ETag, which becomes its contents, with a catalog on disk |
| FetchController.NotModifiedWritesNothing | fetch-live-app-catalog.js:63-65 | a 304, resolved or thrown, writes nothing and exits 0 |
| FetchController.FirstFetchSaves | fetch-live-app-catalog.js:52-62 | a 200 with no cached catalog writes the rendered document, then the ETag only if truthy, and exits 0 |
| FetchController.SameDataKeepsCatalog | fetch-live-app-catalog.js:49-62 | a 200 agreeing with the cached catalog after normalization leaves the catalog as is, writes the ETag only if truthy, exits 0 |
| FetchController.FatalExactly | fetch-live-app-catalog.js:41-76 | the run exits 1 exactly for a diverging or unparsable cached catalog on a 200, a resolved status other than 200/304, or a thrown error without a 304 response, and then writes nothing |
| FetchController.DivergenceIsFatal | fetch-live-app-catalog.js:40-48 | a diverging 200 exits 1, writes nothing and reports the full set of differences |
| FetchController.AcceptedCatalogAgrees | fetch-live-app-catalog.js:29-62 | after a successful 200 the catalog on disk parses and agrees with the fetched document after normalization, given that rendering then parsing gives the document back |
| FetchController.RunSettles | fetch-live-app-catalog.js:8-78 | after a successful run, a second run with the same answer succeeds and changes nothing, given the same round-trip |
| Scenarios.ChangedIdReported | fetch-live-app-catalog.js:95-110 | `{"apps":[{"id":1}]}` against `{"apps":[{"id":2}]}` gives exactly one record, at `apps.0.id`, holding 1 and 2 |
| Scenarios.AddedMemberReported | fetch-live-app-catalog.js:95-110 | `{"a":1}` against `{"a":1,"b":2}` gives exactly one record, at `b`, with `undefined` against 2 |
| Scenarios.ChangedIdMember | fetch-live-app-catalog.js:99-105 | `{"id":1}` against `{"id":2}` below `apps.0` gives exactly the record at `apps.0.id` holding 1 and 2 |
| Scenarios.SingletonArrays | fetch-live-app-catalog.js:103-105 | two different one-element arrays compare as their elements below key "0" |
| Scenarios.OneAppNormalized | fetch-live-app-catalog.js:80-93 | the one-app catalog `OneApp(id)`, which holds no strings, is unchanged by normalization, whatever NFC does |
| Scenarios.FirstRunWritesBoth | fetch-live-app-catalog.js:52-62 | on an empty disk a 200 with ETag "v1" writes the catalog and `etag.txt` = "v1", sends no header, exits 0 |
| Scenarios.NotModifiedKeepsFiles | fetch-live-app-catalog.js:70-72 | with a cached catalog and token, a thrown 304 sends the token and leaves both files, exit 0 |
| Scenarios.DecomposedNameAgrees | fetch-live-app-catalog.js:29-51 | a cached "café" written decomposed and a fetched one written composed agree once normalized: only the token is written, exit 0 |
| Scenarios.ChangedIdIsFatal | fetch-live-app-catalog.js:29-48 | a fetched catalog whose id changed is fatal, reports the one difference and writes nothing |
| Scenarios.ServerErrorIsFatal | fetch-live-app-catalog.js:66-76 | a 500, thrown or resolved, exits 1 and writes nothing |

## Left out

- HTTP transport: the axios request, the URL, TLS, and which statuses axios turns into
  thrown errors. The answer is an input (`Ok` or `Thrown`). Both a resolved and a
  thrown 304 are modelled.
- File I/O: the disk is a map from file name to contents. A write that throws is not
  modelled. In the source such an error would reach the `catch` and exit 1 after a
  partial write. A read that throws is not modelled either; the read of `etag.txt`
  at line 17 is outside the `try`, so there the returned promise would reject
  unhandled instead of reaching the `catch`.
- `JSON.parse` and `JSON.stringify(…, null, 2)`: they are functions of `Env`, with
  parse failure as `None`. The text format is not modelled.
- The NFC algorithm (`String.prototype.normalize`): it is the function `Env.nfc`.
  Its idempotence is a precondition, not a proved fact.
- Console output, the text of the messages and of the printed values, the
  `process.exit` mechanics, and the top-level call at line 112.
- Differences.FindDifferences: returns a set, not the source's ordered list. The
  record order and any repeated identical records are not modelled. Records can only
  repeat when keys containing dots, or empty keys, make two paths coincide.
- JsonValue.Get: `x[key]` for names inherited from the prototype is `undefined`
  here, except an array's "length". In JavaScript, names such as "toString" or
  "constructor" yield functions. A record is still emitted there, since a function
  never equals a JSON value, but its value is not `undefined`. The exception is
  `__proto__`, which reads the prototype object. On a raw document holding a
  `__proto__` member the source can then emit no record where the model emits one
  against `undefined`: `{"__proto__": {}}` against `{}` compares `{}` with
  `Object.prototype`, which lodash finds equal. For such documents
  `Differences.MissingKeyRecorded` and `Differences.NoDifferencesIffEqual` do not
  describe the source. Documents normalized by the source never hold that key as
  their own member.
- Normalization.Normalize: keeps a member named `__proto__`. In the source, the
  assignment at line 88 goes through the `__proto__` setter instead, so
  `{"__proto__": 1}` normalizes to `{}`. That key is the one case where the source
  does not keep the key set. A `__proto__` member holding an object becomes the
  normalized object's prototype, and later reads at line 105 see its members. So the
  source accepts a cached `{"__proto__": {"a": 1}}` against a fetched `{"a": 1}`
  (exit 0), where `FetchController.Run` exits 1.
- JavaScript strings are sequences of UTF-16 code units; a Dafny `string` is a
  sequence of Unicode scalar values. A string or key holding an unpaired surrogate,
  which `JSON.parse` accepts and `normalize()` keeps, has no counterpart in the model.
- JavaScript numbers are IEEE doubles; the model uses unbounded integers (no floating point).
- Two instances running at once (concurrency) are not modelled.
