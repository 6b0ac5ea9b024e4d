# seshat-be pipeline and query core, in Dafny

seshat-be is a batch pipeline. It turns text files into JSON records with
a chat completion, gives each record an embedding, gives it a key
`<prefix>:<uuid>`, and stores it as a Redis hash that a vector index
covers. The `/api/query` endpoint answers a text query with the indexed
documents nearest to it. The repository has two generations of scripts:
the stages under `bin/`, and the older root scripts (`000-md-010-json.js`,
`011-add-embeddings.js`, `011-json-020-redis.js`, `importRedis.js`,
`exportRedis.js`, `importdoc.js`).

This project models what those scripts decide and change:

- **The record validator** (`Validation`). It is a method with the source's
  local variables, proved equal to the functions `Record` and `Errors`.
  Lemmas about those functions cover completeness, shape and idempotence.
  The aggregate error is built but never thrown, so the validator always
  returns the record. It returns the error list next to it.
- **The directory walker** (`Walker`). A recursive method is proved equal
  to a depth-first visit-order function. Lemmas state what that order
  holds: only files of the tree, each once, in listing order.
- **Every per-file stage step and every stage's `main`.** Each is an
  imperative method over three mutable objects:
  - a filesystem object (`Disk.FileSystem`: a map from path to content,
    and a set of directories);
  - a store object (`Redis.Store`: hashes and indexes);
  - the shared counter context (`Tally.Context`).

  Each per-file step is also a function on a snapshot of the files and
  folders (or of the hashes). Its contract states which outcome the file
  gets, what is written and where, and that nothing else changes. The
  method that performs the step is proved equal to that function, and it
  moves the matching counter, and only that counter.

  A run is proved equal to the fold of its step over the items in visit
  or listing order, each item starting from the state the one before it
  left. The legacy scripts with their own recursive `processFolder` are
  proved equal to a recursive run function of the same shape instead.
  A run's counters are the tally of the outcomes. Lemmas about the fold
  state what a whole run may change.
- **The float32 vector codec** (`Vectors`). It encodes and decodes
  little-endian 4-byte words, with round trips both ways.
  `bufferToArrayOfFloats` is a loop proved against the decoder.
- **Index creation** (`getIndex`), **the KNN window** (`retrieve`) and **the
  query handler** of `index.js` (`Redis`, `Query`).

The outside world is modelled as follows:

- **Services.** The chat completion, the embedding service, `JSON.parse`,
  `JSON.stringify`, the ISO date parser, `String()` of composite values,
  `randomUUID`, the clock and the Redis key pattern matcher are given
  functions, bundled in `Services.Services`.
- **The input tree.** The tree a stage walks is a `Walker.Dir` value. It is
  given next to the filesystem object, as the listing `readdir` returns.
- **Values.** JavaScript values are the `Js.Value` datatype. Numbers are
  integers or `NaN`, and float32 elements are opaque 32-bit words.
  Property reads and `delete` throw exactly where JavaScript does, on
  `null` and `undefined`. Strict-mode property writes also throw on every
  other primitive.

## Model

| member | source | states |
|---|---|---|
| Js.Get | src/validate-dataset.js:4-17 | reading `v.k` throws exactly on null/undefined; a missing property of an object reads as undefined |
| Js.Set | bin/add-embeddings.js:88 | a strict-mode property write succeeds exactly on objects (arrays, buffers, dates included) and throws on primitives; on an object it sets `k` and keeps every other field |
| Js.Delete | importdoc.js:73 | `delete v.k` throws exactly on null/undefined, removes `k` from an object and leaves any other value as it is |
| Js.Spread | bin/txt2json.js:137-140 | `{...v}` copies an object's fields and a string's characters under their decimal indices, and nothing from a number, boolean, null or undefined |
| Js.IndexFieldsAt | bin/txt2json.js:137-140 | element i of a spread sequence sits under the decimal numeral of i |
| Js.NatToString | index.js:173 | the decimal numeral of a natural number is a non-empty string of digits |
| Js.LeadingDigits | index.js:173 | the longest prefix of digits, where the character after it is not a digit |
| Js.ParseIntString | index.js:173 | parseInt(s, 10) skips leading white space and one optional sign, then reads the longest run of digits: NaN exactly when there is no digit there, and the digits' value, negated after a '-', otherwise |
| Js.ParseIntSkipsSpace | index.js:173 | white space ahead of the text does not change what parseInt reads |
| Js.ParseIntOfNegative | index.js:173 | a '-' followed by digits reads as the negated value of the digits |
| Js.ParseIntOfDigits | index.js:173 | a string of digits reads as its value |
| Js.NatToStringInjective | src/redis.js:19 | distinct numbers have distinct decimal numerals |
| Js.NatToStringValue | index.js:173 | reading back the numeral of n gives n |
| Js.ParseIntOfIntToString | index.js:173 | parseInt(String(n), 10) == n for every integer String writes in decimal, negative ones included |
| Js.ParseIntOfNumber | index.js:173 | a number stored in a field and read back with parseInt is itself |
| Js.TimeClip | bin/import-redis.js:74 | `new Date(n)` is a valid instant with time value n exactly when abs(n) <= 8.64e15 |
| Js.NewDate | src/validate-dataset.js:20-22 | `new Date(v)` copies a Date's instant, reads any other object through its string, parses a string, clips a number, and is Invalid for undefined and NaN |
| Js.PrimitiveDate | src/validate-dataset.js:20-22 | `new Date` of a string parses it, of a number clips it, and of undefined or NaN is Invalid |
| Js.GetTime | bin/import-redis.js:74 | `getTime` throws on anything but a Date, and gives the time value of a valid one |
| Js.Plus | src/redis.js:19 | `a + b` is the sum of two numbers, and the concatenation of the two strings exactly when either operand is a string or an object |
| Js.Numeral | src/redis.js:19 | a string stands for a number exactly when it is made of decimal digits |
| Js.NumeralOfNat | src/redis.js:27-30 | the numeral of a natural number stands for that number |
| Js.NumeralConcat | src/redis.js:19 | two numerals written one after the other make a numeral that stands for at least their sum |
| Js.NumeralToNumber | src/redis.js:98-100 | ToNumber of a string of digits is the number it writes |
| Paths.LastDot | bin/txt2json.js:92 | the index found is a '.' with no '.' after it; none means the name has no '.' |
| Paths.Extname | bin/txt2json.js:92 | the extension is a suffix of the name that is empty or starts with '.' |
| Paths.ExtnameOfJson | bin/txt2json.js:92 | the extension of `s.json` is `.json` |
| Paths.JsonNameSpec | bin/txt2json.js:92 | the new name keeps everything before the last extension and ends in `.json` |
| Paths.JsonNameNoDot | bin/txt2json.js:92 | a name without a dot gets `.json` appended |
| Paths.LastDotBefore | bin/txt2json.js:92 | the last '.' of `s.t` is the one after `s` when `t` has none |
| Paths.Underscored | bin/json2redis.js:77 | every ':' becomes '_', and every other character stays at its place |
| Paths.KeyFileName | bin/json2redis.js:77 | the flat name is the underscored key plus `.json` and holds no ':' |
| Paths.Segments | bin/json2redis.js:76-78 | `join` cuts a relative name at each '/' and keeps only proper components, never empty or '.' |
| Paths.SegmentsOfPlainName | bin/json2redis.js:76-78 | a name without '/' that is not empty or '.' is one component |
| Paths.SegmentsNonEmpty | bin/json2redis.js:76-78 | a name with a character other than '/' and '.' gives at least one component |
| Paths.NormalisePrefix | bin/json2redis.js:45 | the prefix loses exactly one trailing ':' when it has one, and is otherwise unchanged |
| Paths.NormaliseStripsOneColon | 011-json-020-redis.js:39 | `p::` becomes `p:`; normalising twice is normalising once on `p:` |
| Paths.MintKey | bin/json2redis.js:74 | the key is the prefix, then ':', then the uuid |
| Paths.DropPrefix | index.js:133 | `id.slice(n + 1)` drops the first n + 1 characters, or gives "" for a short id |
| Paths.DropPrefixOfKey | index.js:133 | slicing `prefix.length + 1` characters off `prefix:rest` gives `rest` |
| Paths.StripJson | importdoc.js:70 | `basename(name, '.json')` strips a `.json` suffix unless the name is `.json` itself |
| Disk.Ancestors | bin/txt2json.js:95 | the folders `mkdir -p` makes: the path itself and each prefix of it |
| Disk.Read | bin/txt2json.js:103 | readFile succeeds exactly on a file, with its content; a folder fails with EISDIR and a missing path with ENOENT |
| Disk.MakeDirs | bin/txt2json.js:95 | mkdir -p succeeds exactly when no prefix of the path is a file, adding every prefix as a folder; it never changes a file and a failure changes nothing |
| Disk.Write | bin/txt2json.js:108 | writeFile succeeds exactly when the parent is a folder and the path is not one, setting only that file; a failure changes nothing; folders never change |
| Disk.MakeDirsIdempotent | bin/txt2json.js:95 | making the same folders twice is making them once |
| Disk.ReadAfterWrite | bin/txt2json.js:103-108 | reading after a write gives the written content at that path and what was there before elsewhere |
| Disk.ChangedTrans | src/createWalker.js:17-19 | a path changed over two steps changed in one of them |
| Disk.FileSystem.constructor | bin/txt2json.js:95 | a file system starts valid, with the given files and folders and the root folder |
| Disk.FileSystem.ReadFile | bin/txt2json.js:103 | readFile gives what Read gives on the current files and folders |
| Disk.FileSystem.Mkdir | bin/txt2json.js:95 | mkdir -p succeeds exactly when no prefix of the path is a file, and then adds every prefix as a folder; files never change |
| Disk.FileSystem.WriteFile | bin/txt2json.js:108 | writeFile succeeds exactly when the parent is a folder and the path is not one, and then sets only that file |
| Tally.Counts.Add | bin/txt2json.js:99-114 | one outcome moves exactly its own counter by one |
| Tally.AddAll | bin/txt2json.js:99-114 | a run of n outcomes adds n to the total |
| Tally.AddAllSnoc | bin/txt2json.js:99-114 | one more file moves the counters as one Add does |
| Tally.AddAllAppend | src/createWalker.js:17-19 | counting two stretches of a run one after the other is counting the whole run |
| Tally.AddAllCounts | bin/txt2json.js:99-114 | each counter equals the number of outcomes of its kind |
| Tally.Fold | src/createWalker.js:17-19 | the loop over the items gives one outcome per item |
| Tally.CountOf | bin/txt2json.js:99-114 | no more outcomes of a kind than outcomes |
| Tally.FoldStep | src/createWalker.js:17-19 | handing on one more item runs the step from the state the items before it left |
| Tally.FoldAt | src/createWalker.js:17-19 | the outcome of item i depends only on the items before it, never on those after |
| Tally.Context.constructor | bin/txt2json.js:70-72 | the context starts at 0, 0, 0 |
| Tally.Context.Record | bin/txt2json.js:99-114 | `++context.x` moves the counters as Add does |
| Vectors.EncodeWord | src/redis.js:99 | one float32 element becomes 4 bytes |
| Vectors.WordRoundTrip | src/redis.js:98-109 | the word read back from its little-endian bytes is the word |
| Vectors.BytesRoundTrip | src/redis.js:98-109 | 4 bytes read as a word and written back are the same bytes |
| Vectors.Encode | src/redis.js:98-100 | ar2Float32Array gives exactly 4 bytes per element |
| Vectors.DecodeWords | src/redis.js:103-109 | a buffer of length 4n, or 4n plus a tail, reads as n words |
| Vectors.DecodeEncode | src/redis.js:98-109 | decoding an encoded vector gives back the same words |
| Vectors.EncodeDecode | src/redis.js:98-109 | encoding the words of a buffer whose length is a multiple of 4 gives back the buffer |
| Vectors.EncodeAt | src/redis.js:99-106 | element i occupies bytes 4i to 4i+3 |
| Vectors.EncodeAppend | src/redis.js:99 | encoding distributes over concatenation |
| Vectors.Decoded | src/redis.js:103-109 | bufferToArrayOfFloats succeeds exactly on lengths that are multiples of 4, with length/4 words |
| Vectors.ReadPastEnd | src/redis.js:105-106 | the iteration at offset 4i of a buffer with 1 to 3 bytes left throws |
| Vectors.BufferToArrayOfFloats | src/redis.js:103-109 | the loop gives the decoded words on a length that is a multiple of 4, and throws RangeError otherwise |
| Vectors.Float32Array | src/redis.js:98-100 | `new Float32Array(v)` throws exactly where its element list does, and otherwise gives 4 little-endian bytes per element, which decode back to the elements |
| Vectors.Float32Elements | src/redis.js:98-100 | the elements of `new Float32Array(v)`: a float vector's words; one per entry of an array and per byte of a Buffer; for another object as many as its `length` says, read from its indexed fields; none for a Date; a primitive is a length of zeros, and a negative or too large one throws |
| Vectors.TypedLength | src/redis.js:98-100 | a length from 0 to 2^53 - 1 is allowed and any other number throws RangeError; NaN is length 0 |
| Vectors.Float32ArrayOfVector | src/redis.js:98-100 | a float vector is encoded word by word |
| Vectors.Float32ArrayOfNumeralString | src/redis.js:98-100 | a numeral string is the length it writes: that many zero elements, as for the number |
| Vectors.ZerosOfLength | src/redis.js:98-100 | a primitive whose number is a valid length gives that many zeros |
| Validation.CoerceDate | src/validate-dataset.js:20-22 | a string or number date goes through `new Date`, and any other value stays |
| Validation.Validate | src/validate-dataset.js:2-45 | validate throws exactly on a null/undefined record, and otherwise returns the allow-list record and the collected errors, even when there are errors |
| Validation.ErrorsComplete | src/validate-dataset.js:4-25 | each check adds its own error exactly when its field is falsy, or when the date does not coerce; at most 4 errors |
| Validation.AbsentDateTwoErrors | src/validate-dataset.js:10-25 | an absent date gives both "Date missing or empty." and the invalid-date TypeError |
| Validation.RecordShape | src/validate-dataset.js:14-42 | the record has exactly title, body, date and those of embedding/image/type that are truthy; all but the date are copied unchanged |
| Validation.RecordIdempotent | src/validate-dataset.js:14-42 | validating a validated record gives the same record |
| Validation.ErrorsOfRecordShrink | src/validate-dataset.js:4-25 | a second validation reports no error the first did not |
| Validation.EmptyDateErrorLostOnRevalidation | src/validate-dataset.js:10-25 | a date "" is reported missing once, and not again once it has become a Date |
| Walker.VisitEntriesUnfold | src/createWalker.js:14-24 | the loop from entry i is entry i followed by the rest |
| Walker.RunFolder | src/createWalker.js:11-25 | runFolder hands on the files of its folder in the depth-first visit order, and stops the walk when a folder cannot be listed |
| Walker.RunWalker | src/createWalker.js:10-28 | the walk starts at the root with the empty relative path |
| Walker.FileSetUnder | src/createWalker.js:15 | every file of a folder's listing lies below the folder, in the entry it is named by |
| Walker.VisitFindsFiles | src/createWalker.js:14-24 | only files of the tree are handed on, and on a fully readable tree all of them are |
| Walker.VisitOnce | src/createWalker.js:14-24 | with unique names per folder, each file is handed on exactly once |
| Walker.VisitAppend | src/createWalker.js:14-24 | siblings are walked in listing order: the walk of `a + b` is the walk of `a`, then that of `b` |
| Walker.VisitUnder | src/createWalker.js:15 | every path handed on is the folder's path followed by an entry name and more |
| Walker.WalkPathNonEmpty | src/createWalker.js:15 | no path handed on is empty |
| Walker.WalkPathsNonEmpty | src/createWalker.js:15 | no path a walk from the root hands on is empty |
| Walker.SubFoldersAppend | src/createWalker.js:14-24 | the folders listed by `a + b` are those of `a` and those of `b` |
| Redis.DocumentIndex | src/redis.js:46-64 | the created index covers keys starting with `prefix:` and declares title and body TEXT, date NUMERIC SORTABLE, and embedding VECTOR FLAT FLOAT32 of 512 dimensions with COSINE distance |
| Redis.IndexLookup | src/redis.js:37-67 | an existing index is returned and nothing is created; a missing one gives null without the flag and is created with it |
| Redis.IndexLookupIdempotent | src/redis.js:37-67 | a second getIndex finds what the first left, and changes nothing, whatever its flag |
| Redis.IndexLookupFrame | src/redis.js:37-67 | only the named index can appear, and an existing index is never replaced |
| Redis.Projection | src/redis.js:26 | a hit returns exactly the stored fields among title, body and date, plus its vectorScore |
| Redis.Window | src/redis.js:19-30 | hits `lo` to `hi` of the ranking, the window clipped to the ranking's end |
| Redis.WindowsCompose | src/redis.js:19-30 | the window of size1 hits from `from` followed by the next size2 is the window of size1 + size2 |
| Redis.Store.constructor | src/redis.js:84-95 | the store holds the given hashes and indexes |
| Redis.Store.GetIndex | src/redis.js:37-67 | getIndex returns and leaves what IndexLookup says, and never touches a hash |
| Redis.Store.HSet | bin/import-redis.js:80 | hSet answers and leaves the hashes as SetHash says, and never touches an index |
| Redis.HSetCommand | bin/import-redis.js:80 | node-redis accepts `hSet(key, value)` exactly when the key is a string or Buffer and the value is a non-empty object whose fields are strings, numbers or Buffers, or a list that flattens to a non-empty even run of those; a null or undefined value fails as not an object, an unsendable field with Invalid argument type, and a boolean, Date or float vector under a good key with wrong arity |
| Redis.SetHash | bin/import-redis.js:80 | a rejected hSet changes no hash; an accepted one sets the hash under its key to the old fields overwritten by the new |
| Redis.SetHashOfRecord | bin/import-redis.js:80 | an object of strings and numbers under a string key is stored over the fields the hash had |
| Redis.SetHashOfPairs | importdoc.js:78 | an array of two strings is stored as one field-value pair |
| Redis.Flatten | importdoc.js:78 | nested lists of hSet arguments are flattened, so no argument is a list |
| Redis.Pairs | importdoc.js:78 | every even argument names a field, and the last pair wins |
| Redis.Store.HGetAll | bin/export-redis.js:64 | hGetAll gives a key's fields, and none for a missing key |
| Redis.Store.Keys | bin/export-redis.js:39 | keys(pattern) lists every key that matches, each once, and only those |
| Redis.Store.Retrieve | src/redis.js:16-34 | from and size default to 0 and 2; when node-redis can send them and the server reads them as numbers, an existing index returns the ranking window `[from, from + size)` in ranking order, at most size documents, and a missing index fails; any other argument fails as Served says; no document has an `id` field |
| Redis.Served | src/redis.js:19-30 | a null from or size fails in node-redis; otherwise the search runs exactly when String(from), String(size) and String(from + size) are numerals, and LIMIT reads from and size as those numerals |
| Redis.NumeralOfInt | src/redis.js:27-30 | String(n) is a numeral exactly when n >= 0, and then stands for n |
| Redis.KnnCoversWindow | src/redis.js:19-30 | the KNN count always reaches the end of the LIMIT window, whether from + size adds or concatenates |
| Redis.KnnWindow | src/redis.js:19-30 | LIMIT within the first KNN hits is LIMIT over the ranking |
| Redis.ServedNumbers | src/redis.js:19-30 | numbers not below zero are sent as themselves |
| Redis.ServedNumerals | src/redis.js:19-30 | two numeral strings are sent as the numbers they write |
| Redis.NumeralPrimitive | src/redis.js:19-30 | of the primitives other than strings, only numbers convert to numerals |
| Redis.RetrieveNumbers | src/redis.js:16-34 | numbers not below zero on an existing index give the window of count hits from rank start |
| Redis.RetrieveServed | src/redis.js:16-34 | on an existing index the search returns the window Served computes |
| Redis.RetrieveMissingIndex | src/redis.js:16-34 | arguments that can be sent fail on a missing index |
| Redis.NumeralStringsServed | src/redis.js:16-34 | numeric strings retrieve what the numbers do |
| Redis.DocumentsWithoutId | src/redis.js:26-33 | no returned document has an `id` field |
| Redis.HashAfterSet | bin/import-redis.js:80 | the hash after hSet has the new fields and the old ones it did not set |
| Redis.Found | src/redis.js:26-33 | a returned document has the hit's key as id and only the requested fields |
| Redis.Documents | src/redis.js:33 | one document per hit, in hit order |
| Query.Answer | index.js:131-174 | an answer has the document's fields, its id without the first `documents`.length + 1 characters, and the date rebuilt with parseInt |
| Query.Answers | index.js:131-134 | one answer per document, in order |
| Query.AnswerRoundTrip | index.js:131-174 | a document stored under `documents:rest` with date n is answered with id `rest` and the Date of n |
| Query.QueryDb | index.js:167-175 | a failing embedding fails the query with its error; otherwise the answer is the search of the document index with `count` and `start` as the request gave them, on the ranking of the embedding's bytes |
| Query.NumeralStringsQueried | index.js:122-130 | a body that writes start and count as decimal strings is answered as the numbers would be |
| Query.NonNumeralFails | index.js:122-130 | a null start or count fails in node-redis, and one that is not a numeral is refused by the server |
| Query.Handle | index.js:118-141 | an empty query gets 400 'Empty query' before any service call; `start` and `count` default to 0 and 5; a success sends the answers; every other failure gets 500 with the error's message and name |
| Query.AnswersFollowRanking | index.js:130-175 | answer i carries the id of the hit at rank start + i, and there are at most count answers |
| Query.AnswersOfWindow | index.js:131-134 | the answers to a window are in window order, at most count of them, and answer i has the id of rank start + i |
| Query.Startup | index.js:50 | at start-up the document index exists afterwards; it is created with the `documents` prefix only when it was missing, and no hash changes |
| TxtToJson.Txt2JsonOfObject | bin/txt2json.js:120-141 | for an object reply, the record keeps every reply field, its body is the original text whatever the reply said, and its date is the reply's truthy date through `new Date`, or now |
| TxtToJson.Txt2JsonFails | bin/txt2json.js:120-141 | txt2json fails exactly when the completion fails, the reply is not JSON, or the reply is a primitive |
| TxtToJson.Destination | bin/txt2json.js:92-94 | the output keeps the input's relative folder, under the output root, with the name's last extension replaced by `.json` |
| TxtToJson.Step | bin/txt2json.js:89-117 | mkdir of the output folder first; skipped exactly when the output exists without force; succeeds when the text can be read and, unless simulating, converted and written; only a real success writes, the record of txt2json at the destination |
| TxtToJson.ProcessFile | bin/txt2json.js:89-117 | the output folder is made first; an existing output without force is skipped before the input is read; simulate reads but writes nothing and succeeds; otherwise the record is written; exactly one counter moves |
| TxtToJson.Run | bin/txt2json.js:46-76 | the walk is the depth-first visit of the tree; the outcomes and the files and folders after the run are processFile applied to each file of the walk in visit order, each from the state the one before it left; the counters tally the outcomes |
| TxtToJson.SimulateWritesNothing | bin/txt2json.js:104-110 | a simulated run writes no file and only adds folders |
| AddEmbeddings.Dataset | bin/add-embeddings.js:76-78 | the record is `json.value` when that is truthy, and otherwise the file object itself |
| AddEmbeddings.WithEmbeddingChangesOnlyEmbedding | bin/add-embeddings.js:76-89 | only `embedding` is added or replaced: in a keyed file on its `value`, with `key` and every other field kept; on a bare record on the record |
| AddEmbeddings.ParseRecord | bin/add-embeddings.js:75-76 | a file is readable as a record exactly when it parses and is not null |
| AddEmbeddings.Embedded | bin/add-embeddings.js:88-89 | the written object is the file object with the embedding of `<h1>title</h1>\nbody` set, and a failing embedding fails it |
| AddEmbeddings.Step | bin/add-embeddings.js:68-98 | mkdir of the output folder first; skipped exactly when the record has a truthy embedding without force; succeeds when it parses and, unless simulating, embeds and writes; only a real success writes the whole file object |
| AddEmbeddings.ProcessFile | bin/add-embeddings.js:68-98 | a truthy embedding without force is skipped with no service call and no write; simulate writes nothing and succeeds; otherwise the whole file object is written to the same relative path under dest; exactly one counter moves |
| AddEmbeddings.StepChangesOnlyOutput | bin/add-embeddings.js:68-98 | one file changes at most its own output, and none under simulate |
| AddEmbeddings.Run | bin/add-embeddings.js:26-65 | the outcomes and the files and folders after the run are processFile applied to each file of the walk in visit order, each from the state the one before it left; the counters tally the outcomes |
| AddEmbeddings.OnlyOutputsChange | bin/add-embeddings.js:26-65 | every file a run changes is the output of a file handed on, and a simulated run changes none |
| JsonToRedis.Keyed | bin/json2redis.js:91-94 | the written object is exactly `{key, value}` |
| JsonToRedis.Output | bin/json2redis.js:76-78 | the output lies below the output root; with flatten its components are those `join` makes of `<key with '_' for ':'>.json`; otherwise it mirrors the input path |
| JsonToRedis.FlatOutputOfPlainKey | bin/json2redis.js:76-78 | a key without '/' is flattened to one file directly in the output root |
| JsonToRedis.FlatOutputNests | bin/json2redis.js:76-78 | a prefix `a/b` puts the flat file in the folder `a` of the output root |
| JsonToRedis.FlatNamesDistinct | bin/json2redis.js:77 | two distinct keys without '_' never share a flattened file name |
| JsonToRedis.ParseValid | bin/json2redis.js:73 | the input fails exactly when it is not JSON or is null, and otherwise is the validator's record |
| JsonToRedis.Step | bin/json2redis.js:69-103 | read and validate first, then the key and mkdir of the output's folder; skipped exactly when the output exists without force; only a real success writes `{key, value}` |
| JsonToRedis.ProcessFile | bin/json2redis.js:69-103 | the input is read and validated before the exists check; the key is `<prefix>:<uuid>`; an existing output without force is skipped; simulate still makes the folder but writes nothing; a write holds `{key, value}`; exactly one counter moves |
| JsonToRedis.Run | bin/json2redis.js:26-66 | the prefix loses one trailing ':'; the outcomes and the files and folders after the run are processFile applied to each file of the walk in visit order, the file at position i keyed with the uuid drawn at i; the counters tally the outcomes |
| JsonToRedis.UnparsableFails | bin/json2redis.js:71-101 | a file that is not JSON, or is null, fails and changes nothing |
| ImportRedis.HashFields | bin/import-redis.js:73-75 | the hash replaces date by `getTime()` and embedding by its float32 bytes, keeps every other field, and fails exactly when the date is not a Date or the embedding cannot be encoded |
| ImportRedis.Import | bin/import-redis.js:68-75 | a file that imports parses to a value with a truthy `key` and a non-null `value`; its hash is the validated record with the date as `getTime()` and the embedding as float32 bytes; the key is handed on as parsed |
| ImportRedis.Step | bin/import-redis.js:64-88 | no file is skipped; a file succeeds exactly when it imports and, unless simulating, hSet accepts it; a simulated file changes no hash; a real one leaves the hashes as hSet does |
| ImportRedis.NumericKeyFailsOnlyAtHSet | bin/import-redis.js:77-80 | a truthy numeric key passes under simulate and fails a real run with Invalid argument type |
| ImportRedis.TitleKept | bin/import-redis.js:73-75 | the record's title reaches hSet unchanged |
| ImportRedis.MissingTitleRefused | bin/import-redis.js:73-80 | a record without a title reaches hSet with an undefined field, which node-redis refuses |
| ImportRedis.MissingTitleFailsAtHSet | bin/import-redis.js:73-80 | a real run fails such a file and changes no hash |
| ImportRedis.StoredUnderItsKey | bin/import-redis.js:80 | a record of strings, numbers and Buffers under a string key is stored as its hash |
| ImportRedis.EmptyKeyFails | bin/import-redis.js:69-71 | a falsy key fails with 'Empty key' |
| ImportRedis.MissingDateFailsAtGetTime | bin/import-redis.js:73-74 | validate lets an absent or uncoercible date through, and the import then fails at `getTime` |
| ImportRedis.StoredEmbeddingDecodes | bin/import-redis.js:75 | the stored embedding decodes back to the record's vector |
| ImportRedis.ProcessFile | bin/import-redis.js:64-88 | the outcome and the hashes after processFile are Step's; exactly one counter moves; no index changes |
| ImportRedis.Run | bin/import-redis.js:26-61 | the index is looked up and created only when not simulating; the walk is the depth-first visit of the tree; the outcomes and the hashes after the run are Step applied to each file of the walk in visit order, each from the hashes the one before it left; the counters tally the outcomes |
| ImportRedis.SimulateChangesNothing | bin/import-redis.js:77-79 | a simulated run changes no hash |
| ExportRedis.Exported | bin/export-redis.js:64-68 | a hash without embedding is exported as it is; with one, the decoded float vector replaces it, and a byte count that is not a multiple of 4 fails |
| ExportRedis.ExportedEmbeddingRoundTrip | bin/export-redis.js:64-68 | an embedding stored as the bytes of a vector is exported as that vector |
| Paths.KeyFileUnder | bin/export-redis.js:56 | `join(root, <key with '_' for ':'>.json)` lies below `root`, one proper component per level |
| Paths.KeyFileOfPlainKey | bin/export-redis.js:56 | a key without '/' has its file directly in `root` |
| Paths.KeyFileNests | bin/export-redis.js:56 | a key minted from the prefix `a/b` has its file in the folder `a` of `root` |
| ExportRedis.ExportFiles | bin/export-redis.js:56 | the files of a list of keys are exactly the `join`ed files of those keys, '/' in a key nesting its file |
| ExportRedis.ExportStep | bin/export-redis.js:55-79 | skipped exactly when the file exists without force; succeeds exactly when it is not skipped, the hash exports and the file can be written; only a success writes, `{key, value}` at the key's `join`ed file, whose folder must exist; no folder changes |
| ExportRedis.ExportStepChanges | bin/export-redis.js:55-79 | one key changes at most its own `join`ed file |
| ExportRedis.ExportKey | bin/export-redis.js:55-79 | the outcome and the files after one key are ExportStep's; exactly one counter moves |
| ExportRedis.ExportAll | bin/export-redis.js:54-80 | the outcomes and the files after the loop are ExportStep applied to each key in listing order, each from the files the one before it left, a failure counted and the loop going on; the counters tally the outcomes |
| ExportRedis.OnlyExportFilesChange | bin/export-redis.js:54-80 | the loop changes only the files of the keys it is handed and makes no folder |
| ExportRedis.ForcedExportSucceeds | bin/export-redis.js:54-80 | forced, with every hash exportable and the folder of every key's file present, every key succeeds and no folder is made |
| ExportRedis.ForcedExportWritesAll | bin/export-redis.js:54-80 | ... and every key has its file afterwards |
| ExportRedis.ForcedStepSucceeds | bin/export-redis.js:55-79 | one forced, exportable key whose file's folder exists writes its file |
| ExportRedis.ForcedPlainExportSucceeds | bin/export-redis.js:36-80 | keys without '/' forced into the made `dest` all succeed |
| ExportRedis.NestedKeyNeedsItsFolder | bin/export-redis.js:55-79 | a key minted from the prefix `a/b` fails, forced or not, when `dest/a` was never made, and changes nothing |
| ExportRedis.Run | bin/export-redis.js:29-80 | the destination is made first, and a failing mkdir ends the run with nothing changed; the keys are exactly those the pattern matches; after the mkdir, the outcomes and the files are the per-key steps over those keys in listing order; the counters tally the outcomes |
| LegacyStructure.Step | 000-md-010-json.js:100-122 | skipped exactly when the output exists without force; succeeds exactly when the text is read, txt2json succeeds and the file can be written; only a success writes, the record at the `.json` name; no folder is made |
| LegacyStructure.ProcessFile | 000-md-010-json.js:100-122 | an existing output without force is skipped before the text is read; otherwise the record of txt2json is written to the `.json` name at the same relative path; there is no mkdir; exactly one counter moves |
| LegacyEmbed.ParseDataset | 011-add-embeddings.js:78-79 | a file is a record exactly when it parses and is not null; the record is the top-level object |
| LegacyEmbed.Step | 011-add-embeddings.js:73-93 | skipped exactly when the record has a truthy embedding without force; succeeds exactly when it parses, embeds and can be written back; only a success rewrites the same file; no folder is made |
| LegacyEmbed.Embedded | 011-add-embeddings.js:84 | the record gets the embedding of `<h1>title</h1>\nbody`, and fails when the embedding fails or the record is a primitive |
| LegacyEmbed.EmbeddedChangesOnlyEmbedding | 011-add-embeddings.js:84-85 | on an object record only `embedding` changes, and it becomes truthy |
| LegacyEmbed.ProcessFile | 011-add-embeddings.js:73-93 | the outcome and the files after processFile are Step's; exactly one counter moves |
| LegacyEmbed.RerunSkips | 011-add-embeddings.js:79-85 | a record this script wrote is skipped by the next run without force, when JSON.parse reads back what JSON.stringify wrote |
| LegacyEmbed.Run | 011-add-embeddings.js:42-70 | the walk is the depth-first visit of `<folder>/010-json`; the outcomes and the files after the run are Step applied to each file in visit order, each from the files the one before it left; the counters tally the outcomes |
| LegacyEmbed.OnlyHandedOnChange | 011-add-embeddings.js:42-70 | only files handed on are rewritten, and no folder is made |
| LegacyKeying.Step | 011-json-020-redis.js:79-104 | skipped exactly when the output exists without force, before the input is read; succeeds exactly when it parses and the file can be written; only a success writes `{key, value}` at the same relative path; no folder is made |
| LegacyKeying.ProcessFile | 011-json-020-redis.js:79-104 | the exists check comes before the input is read; a written file is `{key, value}` at the same relative path, with key `<prefix>:<uuid>` and the validator's record; exactly one counter moves |
| MirroredFolders.Target | 000-md-010-json.js:103-105 | the one output a file can have: the `.json` name for structuring, the same path for keying |
| MirroredFolders.Step | 000-md-010-json.js:100-122 | the script's per-file step keeps the state valid, makes no folder and changes at most the file's one output |
| MirroredFolders.StepsRealise | 000-md-010-json.js:91 | the run's step is the script's processFile, file by file |
| MirroredFolders.RealisesLocal | 000-md-010-json.js:91 | such a step keeps the state valid, makes no folder and changes only its file's output |
| MirroredFolders.ProcessFile | 000-md-010-json.js:91 | the outcome and the files after the script's processFile are Step's for the k-th file of the run; it makes no folder, changes at most the file's own output and moves exactly one counter |
| MirroredFolders.DestinationsAppend | 000-md-010-json.js:86-96 | the outputs of two stretches of a run are those of the whole |
| MirroredFolders.FolderRunFollows | 000-md-010-json.js:79-97 | a run of processFolder hands on a prefix of its folder's depth-first walk, one outcome per file, all of it and every folder mirrored unless it stopped, and changes only outputs of the files handed on |
| MirroredFolders.EntryRunFollows | 000-md-010-json.js:87-95 | the same for one entry |
| MirroredFolders.EntriesRunFollows | 000-md-010-json.js:86-96 | the same for the for..of loop over a listing |
| MirroredFolders.FollowsJoin | 000-md-010-json.js:86-96 | a stretch that ran all of one walk, then one that follows the next from where it left off, together follow both |
| MirroredFolders.FollowsStop | 000-md-010-json.js:86-96 | a stretch that stopped the run inside a walk follows that walk and anything after it |
| MirroredFolders.PrefixJoin | 000-md-010-json.js:86-96 | what a full stretch and a partial one hand on together is a prefix of the two walks |
| MirroredFolders.EntriesRunSnoc | 000-md-010-json.js:86-96 | the loop over one more entry runs that entry from where the loop before it left off, unless it had stopped |
| MirroredFolders.EntriesRunStopped | 000-md-010-json.js:86-96 | once the loop has stopped, the entries after it are never looked at |
| MirroredFolders.EntriesUpTo | 000-md-010-json.js:86-96 | the loop over the first n entries, by position, is the loop over that prefix |
| MirroredFolders.EntriesUpToStopped | 000-md-010-json.js:86-96 | a loop that stopped after n entries is the loop over all of them |
| MirroredFolders.JoinAssoc | 000-md-010-json.js:86-96 | joining stretches is associative |
| MirroredFolders.ProcessEntry | 000-md-010-json.js:87-95 | what one entry hands on, the outcomes its files get, whether it stops the run and the files and folders it leaves are EntryRun's; the counters move by the tally of those outcomes |
| MirroredFolders.ProcessFolder | 000-md-010-json.js:79-97 | what processFolder hands on, its outcomes, whether it stops and the state it leaves are FolderRun's: mkdir first, a folder that cannot be listed stops the run, the entries in listing order; what it hands on is a prefix of the depth-first walk, all of it and every folder mirrored unless it stopped, and only outputs of files handed on change |
| MirroredFolders.ProcessEntries | 000-md-010-json.js:86-96 | the for..of loop's files, outcomes, stop and state are EntriesRun's: each entry from the state the one before it left, until one stops the run; it hands on a prefix of the entries' walk, all of it unless it stopped |
| MirroredFolders.ProcessNext | 000-md-010-json.js:87-95 | one pass of the for..of loop extends the loop over the entries before it by entry i, and moves the counters by the tally of its outcomes |
| MirroredFolders.RunStructure | 000-md-010-json.js:44-97 | the run is FolderRun of the structuring processFile over `<folder>/000-md` into `<folder>/010-json`, from the first file on: each file's outcome and the records written are that file's Step; the counters tally the outcomes, and the output tree mirrors the input unless the run stopped |
| MirroredFolders.RunKeying | 011-json-020-redis.js:37-76 | the prefix loses one trailing ':', and the run is FolderRun of the keying processFile over `<folder>/010-json` into `<folder>/020-redis`: each file's outcome and the `{key, value}` written are that file's Step; the counters tally the outcomes |
| LegacyImport.FirstEntriesUnfold | importRedis.js:59-69 | the loop from entry i: a file ends the folder, a folder is walked and the loop goes on |
| LegacyImport.FirstFolder | importRedis.js:55-70 | processFolder with its live `return`: the files are handed on in the order FirstDir gives |
| LegacyImport.LaterEntriesIgnored | importRedis.js:63-67 | entries after a folder's first file are never looked at |
| LegacyImport.FirstFilesInTree | importRedis.js:55-70 | only files of the tree are handed on |
| LegacyImport.OneDirectFile | importRedis.js:63-67 | of the files directly in a folder, at most one is handed on |
| LegacyImport.DeeperFiles | importRedis.js:62 | the files of a sub-folder lie at least two levels below its parent |
| LegacyImport.Run | importRedis.js:27-42 | `getIndex(true)` creates no index; the files handed on are those of FirstDir; the outcomes and the hashes after the run are the import stage's real-run Step applied to each in order; the counters tally the outcomes, with none skipped |
| LegacyExport.Exported | exportRedis.js:60-62 | the embedding is decoded unconditionally: a hash without one fails on the null buffer, and a byte count that is not a multiple of 4 fails |
| LegacyExport.AgreesWithExportStage | exportRedis.js:60-62 | the two exporters agree on every hash with an embedding; on one without, the export stage writes it while this script fails |
| LegacyExport.ExportKey | exportRedis.js:51-73 | one key is the export stage's ExportStep with this script's decoding |
| LegacyExport.ExportAll | exportRedis.js:47-74 | the outcomes and the files after the loop are ExportStep with this script's decoding applied to each key in listing order; the loop-local counters tally the outcomes |
| LegacyExport.NoEmbeddingFails | exportRedis.js:58-62 | a hash without an embedding that is not skipped fails, and nothing is written |
| LegacyExport.Run | exportRedis.js:30-74 | the output folder is made first, and a failing mkdir ends the run with nothing changed; the keys are exactly those the pattern matches; after the mkdir, the outcomes and the files are the per-key steps over them in listing order |
| ImportDoc.DocKey | importdoc.js:70-77 | the key is `documents:heise:` and the name without `.json` |
| ImportDoc.DocKeyInjective | importdoc.js:70-77 | two `.json` names that are not `.json` itself get distinct keys |
| ImportDoc.DocKeyCollision | importdoc.js:70-77 | `.json` and `.json.json` share a key |
| ImportDoc.StoredDate | importdoc.js:74 | the stored date is the epoch milliseconds of `new Date(date)`, or NaN for an Invalid Date |
| ImportDoc.StoredHash | importdoc.js:73-78 | what reaches hSet is defined exactly when the record is an object and its embedding succeeds; an object loses `id` and gets the epoch-millisecond date and the embedding bytes; a failing embedding gives its error |
| ImportDoc.ObjectSteps | importdoc.js:73-74 | on an object, `delete dataset.id` and the date set succeed and keep the title and body the embedding is built from |
| ImportDoc.OtherSteps | importdoc.js:73-74 | `delete` and a property set leave a value that is not a plain object as it is |
| ImportDoc.Hash | importdoc.js:71-78 | a file's text reaches hSet exactly when it parses to an object whose embedding succeeds, as StoredHash of the parsed record |
| ImportDoc.HashOfObject | importdoc.js:73-75 | the stored hash drops `id`, sets `date` to the epoch milliseconds and `embedding` to the vector's bytes, and keeps every other field |
| ImportDoc.StoredEmbeddingDecodes | importdoc.js:75 | the stored embedding decodes back to the embedding of `<h1>title</h1>\nbody` |
| ImportDoc.FileHash | importdoc.js:71 | a missing file fails, and a present one goes through Hash |
| ImportDoc.FileImport | importdoc.js:69-80 | a failed read, parse or embedding gives its error and changes nothing; otherwise the answer and the hashes are hSet's under `documents:heise:<name>` |
| ImportDoc.UnsendableFieldFails | importdoc.js:78 | a parsed field node-redis cannot send, such as null or a nested object, fails at hSet and changes nothing |
| ImportDoc.PairArrayStored | importdoc.js:78 | an array of two strings is stored as one field-value pair |
| ImportDoc.PrepareDataset | importdoc.js:73-75 | the in-place steps on the parsed record give StoredHash |
| ImportDoc.ImportFile | importdoc.js:69-80 | the answer and the hashes after importFile are FileImport's: a failed read, parse or embedding changes nothing, and otherwise hSet of the record under the file's key decides; no index changes |
| ImportDoc.StoppedStays | importdoc.js:58-66 | once a file has failed, the entries after it are not looked at |
| ImportDoc.OnlyDocKeysChange | importdoc.js:58-66 | only the hashes of the keys of `.json` entries can appear or change |
| ImportDoc.JsonEntries | importdoc.js:61 | every entry kept ends in `.json` |
| ImportDoc.OnlyJsonEntries | importdoc.js:60-65 | names not ending in `.json` change nothing |
| ImportDoc.ImportAllStep | importdoc.js:60-65 | one more entry given to the loop, from one that has not stopped |
| ImportDoc.ImportAllFiles | importdoc.js:58-66 | an unlistable folder fails and changes nothing; otherwise the entries are imported in listing order and the run fails exactly when a file fails, which stops it |

## Quirks of the code the model keeps

The model follows the code in each of these cases:

- validate builds the aggregate `ErrorCollection` but neither throws nor
  returns it (src/validate-dataset.js:27-31). A record with errors is
  therefore returned, keyed and written like any other.
- The allow-list copies `embedding`, `image` and `type` when they are
  truthy, not merely present (src/validate-dataset.js:34-42).
- The walker has no try/catch. A folder that cannot be listed stops the
  whole walk, at any depth, not only at the root (src/createWalker.js:13).
  The per-file steps catch their own errors, so a file never stops it.
- The keying stage reads and validates before its exists check
  (bin/json2redis.js:73,82). In simulate mode it still creates the
  output folder (bin/json2redis.js:80). The bin/ embedding and structuring
  stages also run `mkdir` before they read or skip anything (bin/add-embeddings.js:73, bin/txt2json.js:95).
- `getIndex` returns any index of that name and never compares its schema
  (src/redis.js:38-44).
- The query handler does not reject a zero or negative `count`. The value
  is passed to the search as is (index.js:122-125,130).
- validate always copies `title` and `body`, even when they are
  undefined (src/validate-dataset.js:14-18). node-redis then refuses the
  whole hSet, so the import scripts fail a record without a title or body
  (bin/import-redis.js:80, importRedis.js:85). Under `--simulate`
  bin/import-redis.js never calls hSet, so the same record, or a truthy
  key that is not a string, succeeds there (bin/import-redis.js:77-79).
- importdoc.js hands the parsed JSON to hSet as it is, so a null, boolean
  or nested field stops the import (importdoc.js:78).
- The query handler hands `start` and `count` on as the JSON body gave
  them. For strings, `from + size` concatenates instead of adding
  (src/redis.js:19). Decimal strings still select the same window: the
  concatenation is never smaller than the sum.
- importRedis.js calls `getIndex(true)` (importRedis.js:33). node-redis
  refuses the boolean index name with Invalid argument type, the `catch`
  of src/redis.js:40 swallows the error, and getIndex returns null
  without looking up or creating any index. Its live `return`
  hands on at most the first file of each folder (importRedis.js:66).

## Left out

- Console output, colours, progress messages and `process.exit` are left
  out. They change no state the model has.
- Argument parsing (src/parseArgs.js and the legacy `parseArgs` copies) is
  left out. The parsed options are parameters of each `Run`.
- Redis connection set-up, the module-level client, `quit` and
  `disconnect` are left out. Each `Run` is given a `Store` object.
- The OpenAI calls are fields of `Services.Services`: the chat completion
  (`complete`) and `createEmbedding` (`embed`, which gives the vector as
  float32 words). `randomUUID` and the clock are indexed by the file's
  position in the run. Key uniqueness is therefore an assumption about
  `uuid`, and it is not proved.
- `JSON.parse`, `JSON.stringify`, `new Date(string)` and `String()` of
  compound values are given functions. The indentation argument of
  `JSON.stringify(json, null, 2)` is not modelled: one `stringify` serves
  every call.
- Float32 numerics are left out: the Float64 to Float32 rounding and the
  value `readFloatLE` reads. Vector elements are opaque 32-bit words, and
  bytes are laid out little-endian as on the hosts Node runs on.
- Numbers are left out except integers and NaN.
- IntToString: writes every integer in decimal. From 1e21 on, `String(n)`
  writes exponent notation, so Js.ParseIntOfIntToString and
  Redis.NumeralOfInt speak of the decimal form only.
- StringToInt: ToNumber of a string reads only optional white space, one
  sign and decimal digits. Hexadecimal, octal and binary literals,
  fractions, exponents and `Infinity` read as NaN here.
- Float32Array: the element conversion is the given `float32` function,
  which cannot throw. ToNumber of an element that throws, and the
  allocation failure of a huge typed array, are not modelled.
- NewDate: an object other than a Date is read through the `show`
  string. An object whose `valueOf` or `toString` is overridden is not
  modelled.
- Spread: a string is spread one `char` per index. JavaScript spreads a
  string by UTF-16 code unit, and the model does not separate those.
- KeyFile: `join` also resolves `..` components of a key's file name.
  The model drops only empty and `.` components. JsonToRedis.Output and
  every export file (ExportRedis.ExportStep, LegacyExport.ExportKey) are
  built on KeyFile, so a key with a `..` component is placed where
  `join` would not place it.
- The document prefix and the index name are fixed at their defaults,
  `documents` and `idx:documents`. Their environment overrides,
  SEMSE_DOCUMENT_PREFIX and SEMSE_DOCUMENT_INDEX (src/constants.js:6-10),
  are not modelled.
- Redis server semantics are left out.
  - Every field is kept as a `Js.Value`. Redis would keep field values as
    strings and hand them back as strings.
  - `ExportRedis.FieldBytes` reads a field that is not a byte buffer as no
    bytes.
  - The KNN ranking is the given function `rank` from query vector to
    ranked hits.
  - The search's "Search failed" error, for a `start`, `count` or KNN
    count whose string is not a decimal numeral, stands for whatever
    error the server reports.
- Disk.Ancestors: states only that the path and the root are ancestors,
  not the full set of prefixes. The set is its definition.
- The tree a stage walks is given as a `Walker.Dir` value, next to the
  filesystem object: a snapshot of what `readdir` would list. A stage
  whose outputs land inside its own input tree would see them in a real
  listing. The model does not.
- A `readdir` failure is reported as the Walk's `aborted` flag. The error
  object that would reach `main().catch` is not kept.
- Query.Handle: for a null or undefined request body, states only status
  500 and an error body, not the exact destructuring message.
- ImportDoc.ImportAllFiles: states whether the import failed, not which
  error it failed with. An unlistable folder fails with NotFound.
- HSetCommand: refuses a float vector (`Floats`, an array of fractional
  numbers) with the arity error. node-redis sends such an array through
  pushTuples as field-value pairs, each number as its string, and the
  server stores a non-empty one of even length. The model has no
  float-to-string conversion to name those fields. This can happen
  through ImportDoc: a file holding a top-level JSON array of fractional
  numbers stops ImportAllFiles in the model, while importdoc.js:78
  stores it. A boolean (no field sent) and a Date (no own fields) fail
  with the arity error in both. A Buffer
  key or field name is read one byte per character, not decoded as
  UTF-8.
- importdoc.js `main`, `query` and `shutdown` are debugging scaffolding.
  `query` calls `retrieve` with an out-of-date argument list, and nothing
  calls `importAllFiles`. They are left out, along with the signal
  handlers.
- The server plumbing of index.js is left out: Express set-up, the body
  size limit, `errorHandler`, `listen` and `cleanup`. The concurrent
  serving of requests is left out too. One request is one call of
  `Query.Handle`.
- Tally.Context models the counters of exportRedis.js's
  `succeeded/skipped/failed` locals as a `Counts` value local to
  `LegacyExport.ExportAll`.
- `await` is treated as sequential composition. No two calls overlap.
