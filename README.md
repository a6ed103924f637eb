# datacat record pipeline — a Dafny model

datacat moves records from one **source** to a **target**. On the way the records pass through a
chain of **adapters**, and a YAML configuration describes it all. A **task** names one source,
a set of adapters (each with a type tag, an `order` and free-form `arguments`) and one target.
`RunTask` wires the task: it builds and starts the source, then builds each adapter in ascending
`order` and chains it onto the stream, then starts two instances of the target on the final
stream, then waits. A record (`RowMap`) is a map from field names to untyped values. Every
adapter is one goroutine that reads a record, rewrites some fields in place and passes the
record on. Any error is `log.Fatal`, which halts the whole process.

The model covers:

- the configuration lookups of `core/config.go` (`Config`), with `GetAdapterNames` written as an
  imperative collect-and-sort method proved to return a permutation of the adapter names
  sorted by `order`;
- the source, adapter and target builders (`SourceBuilder`, `AdapterBuilder`, `TargetBuilder`),
  with their tag dispatch and error messages;
- the per-record transforms:
  - case conversion (`CaseAdapter`)
  - constant mapping (`MappingAdapter`)
  - null handling (`NullAdapter`)
  - cast to datatype (`CastAdapter`)
  - cast to boolean (`FieldsAdapter`, `Changers`)
  - AES-CBC with zero padding (`CryptoAdapter`)

  Each has a `ProcessRow` method (the inner loop over fields) and a `Run` method (the outer loop
  over the input channel). Both are proved equal to specification functions, and the source's
  promises are proved about those functions;
- `RunTask`'s wiring (`Tasks`): the order in which stages are built and started, where it
  aborts, the stream the targets receive, and how the two target instances share it.

Modelling conventions:

- A record is `map<string, Value>`. `Value` is `Null` (Go's `nil`), `Str`, `Bool`, `Int` or
  `Other(printed)`. `Show` stands for `fmt.Sprint`.
- `log.Fatal` and a runtime panic (nil dereference, failed type assertion, index out of range)
  become an `Err` result, which aborts the task.
- A channel is a `Stream(rows, closed)`. `Streams.Pass` models one adapter goroutine. It
  forwards one output record per input record, in order. At the first failing record it stops
  and does not close its output.
- Library code the program calls becomes a field of the `Library.Externals` value: AES-CBC,
  base64, UTF-8 conversion, float parsing, time formatting, reading the mapping file and the
  names randomizer. The laws the round-trip proofs rely on are stated as `requires`
  (`CryptoAdapter.CipherLaws`, `CryptoAdapter.TextLaws`).

Points where the model follows the code's order of events and leaves open what the code leaves
open:

- An unknown adapter type does not stop the task before its source runs. In
  `tasks/run.go:46-53` the source is built and started first, and then the adapters are built
  one by one. `Tasks.SourceStartsFirst` proves that the source has already started when an
  adapter build aborts.
- Adapters with equal `order` are not ordered by name. `core/config.go:166-168` uses an
  unstable `sort.Slice` with no tie-breaker. So `Config.GetAdapterNames` promises only a
  permutation sorted by `order`.
- `tasks/run.go:57` calls `BuildTarget(i, cfg, taskName)`, but `targets/builder.go:36` takes a
  wait group, a task name and a `TargetConfig`. It also reads `tgcfg.Output`, a field that
  `core.TargetConfig` does not declare. The model looks up the task's target configuration,
  passes the instance number `i` where the wait group goes, and gives `TargetConfig` an `output`
  field.
- `adapters/builder.go:57` and `:61` pass an id to the crypto and randomizer constructors,
  which take none (`adapters/crypto.go:64`). Likewise `sources/builder.go:42` and `:46` pass
  an id to source constructors that take none (`sources/database.go:64`, `sources/jsonl.go:51`).
  The model builds all of them without one.
- The `cast-to-boolean` adapter of `adapters/fields.go` cannot be built. Its constructor calls
  `GetAdaptersConfig`, which `Configurator` does not have, and `BuildAdapter` has no tag for it.
  Only its `Run` loop is modelled, over an adapter value given directly.

## Model

| member | source | states |
|---|---|---|
| Config.GetDatabaseConfig | core/config.go:125-132 | Ok exactly when the name is configured, and then it is that entry; otherwise "Missing configuration for database: " + name |
| Config.GetServiceConfig | core/config.go:135-142 | Ok exactly when the service is configured, and then it is that entry; otherwise the "Missing configuration for service" error |
| Config.GetSourceConfig | core/config.go:145-152 | Ok exactly when the task exists, and then it is the task's source; otherwise "Missing configuration for task: " + name |
| Config.GetAdapterConfig | core/config.go:174-185 | an unknown task gives the task error, which takes precedence over an unknown adapter's error; Ok exactly when both exist, with the configured adapter |
| Config.GetTargetConfig | core/config.go:188-195 | Ok exactly when the task exists, and then it is the task's target; otherwise the task error |
| Config.GetAdapterNames | core/config.go:155-171 | an unknown task gives the empty list; otherwise the result holds every adapter name of the task exactly once (as a multiset), sorted by ascending `order` |
| Config.SortByOrder | core/config.go:166-168 | the array ends as a permutation of its old contents, sorted by the adapters' `order` |
| Config.InsertByOrder | core/config.go:166-168 | one insertion step: the array stays a permutation and the sorted prefix grows by one name |
| Config.SwapAdjacent | core/config.go:166-168 | exchanges two neighbouring names and leaves the rest of the array as it was |
| Config.AdapterOrderNames | core/config.go:155-171 | any adapter order has as many entries as the task has adapters, every entry is an adapter name, every adapter name appears, and no name appears twice |
| Values.ArgString | adapters/mapping.go:71-76 | a missing argument reads as "<nil>", as `fmt.Sprint(nil)` prints; a present one reads as its printed value |
| Values.ArgFields | adapters/case.go:62-66 | Ok exactly when "fields" is a list, with each element printed; any other value is the failed type assertion |
| Values.ArgAsString | adapters/crypto.go:73-86 | Ok exactly when the argument is a string, and then it is that string |
| Values.Show | adapters/cast.go:112 | `fmt.Sprint` of one value: exact for nil, strings, booleans and integers (no contract of its own; `CastAdapter.CastValueSettled` shows that printed booleans and 64-bit integers cast back to themselves) |
| Text.ToLower | adapters/case.go:103 | same length; no upper-case letter remains, and every character that was not one is unchanged |
| Text.ToUpper | adapters/case.go:101 | same length; no lower-case letter remains, and every character that was not one is unchanged |
| Text.LowerUpperChar | adapters/case.go:101-105 | lowering gives no upper-case letter and raising gives no lower-case one; each is idempotent, and lowering after raising equals lowering |
| Text.CaseIdempotent | adapters/case.go:101-103 | `ToLower` and `ToUpper` are idempotent on strings |
| Text.DecimalRoundTrip | adapters/cast.go:116-117 | printing a natural number in decimal gives only digits, and parsing them gives the number back |
| Text.ParseBoolLowered | adapters/cast.go:114-115 | on lower-cased input, `strconv.ParseBool` accepts exactly "1", "t", "true" (as true) and "0", "f", "false" (as false) |
| Text.ParseInt64 | adapters/cast.go:116-117 | an accepted value lies within the signed 64-bit range |
| Text.ParseSignedDecimal | adapters/cast.go:116-117 | every signed 64-bit integer, printed in decimal, parses back to itself |
| Rows.UpdateFields | adapters/case.go:90-113 | the per-field loop keeps the record's set of keys and leaves unlisted fields unchanged |
| Rows.UpdateFieldsPerKey | adapters/case.go:91-113 | the loop succeeds exactly when, for every field, updating it as many times as it is listed succeeds, and each field ends as that repeated update of its old value |
| Rows.UpdateFieldsSettled | adapters/case.go:91-113 | for an update that leaves its own output alone, the loop succeeds exactly when every listed present field's update does, and each such field ends as one update of its old value however often it is listed |
| Rows.UpdateFieldsOnce | adapters/cast.go:104-130 | a field listed exactly once ends as one update of its old value |
| Rows.UpdateFieldsIdempotent | adapters/case.go:91-113 | with idempotent updates, running the field loop twice equals running it once |
| Rows.UpdateFieldsSameSet | adapters/fields.go:74-85 | with idempotent updates, two field lists with the same set of names give the same outcome |
| Rows.UpdateFieldsDistinct | adapters/mapping.go:101-113 | when the listed fields are distinct, the loop succeeds exactly when each visited field's update does, and each field ends as one update of its old value |
| Rows.UpdateFieldsKeepsSkipped | adapters/crypto.go:112-116 | a field the skip policy skips (missing, nil or not a string) keeps its value |
| Rows.UpdateFieldsTotal | adapters/fields.go:73-87 | an update that never fails makes the whole loop succeed |
| Rows.IterateSnoc | adapters/case.go:91-113 | a field's `n + 1` visits are its first `n` visits followed by one more |
| Rows.UpdateFieldsInverse | adapters/crypto.go:112-130 | two field loops over the same list undo each other when, field by field, the second loop's visits undo the first loop's |
| Streams.Apply | adapters/case.go:90-118 | one output record per input record up to the first failure; outputs in input order; stops at the first failing record |
| Streams.Pass | adapters/case.go:82-122 | the output closes exactly when the input is closed and no record failed |
| Streams.PassTotal | changers/fields.go:36-47 | a stage that never fails forwards every record and propagates closure |
| Streams.ApplyExtend | adapters/case.go:90-116 | processing one more input record appends its result |
| Streams.ApplyStopsAt | adapters/case.go:90-116 | a failing record stops the stage, and later records are never read |
| Streams.ApplyUnique | adapters/case.go:90-118 | any outcome with the four stream properties is the stage's outcome |
| Streams.PassExt | adapters/builder.go:36-70 | two stages that agree on every record produce the same stream |
| Streams.PassIdentity | tasks/run.go:49-53 | a task with no adapters hands the source stream straight to the targets |
| Streams.PassCompose | tasks/run.go:49-53 | chaining two goroutine stages equals one stage that runs the first and then the second on each record |
| SourceBuilder.BuildSource | sources/builder.go:35-51 | a missing task gives "Error getting source configuration for task ..." and an unknown type gives "Invalid source endpoint type " + type; a built source belongs to the task and is of the kind its type names |
| SourceBuilder.NewDatabaseQuerySource | sources/database.go:64-104 | Ok exactly when "database" is a string naming a configured database and "query" is a string; the source then holds that database's name and driver and the query; an unconfigured database gives "Can't get configuration of database ..." |
| SourceBuilder.NewJSONLFileSource | sources/jsonl.go:51-58 | Ok exactly when "filename" is a string, and the source then reads that file |
| SourceBuilder.BuildSourceOk | sources/builder.go:35-51 | a task's source builds exactly when the task exists and its type and arguments satisfy one of the two constructors |
| TargetBuilder.BuildTarget | targets/builder.go:36-45 | Ok exactly when the type is "jsonl-file", and then it is a JSON-lines target carrying the wait group, the task and `Output`; the tags "jsonl-file-target" and "http-request-target" are rejected |
| AdapterBuilder.TagsDistinct | adapters/builder.go:43-66 | adapters of different kinds have different type tags |
| AdapterBuilder.BuildAdapter | adapters/builder.go:36-70 | a missing configuration gives "Error getting adapters configuration for task ..."; a built adapter's kind is the configured type; any type other than the six known ones gives "Invalid adapter middlepoint type " + type |
| AdapterBuilder.BuildAdapterDispatch | adapters/builder.go:43-66 | each of the six type tags builds its adapter with that kind's constructor, and fails exactly when that constructor fails |
| AdapterBuilder.RunAdapter | adapters/builder.go:36-70 | running a built adapter is one goroutine stage over that adapter's per-record transform |
| CaseAdapter.NewCaseConversionAdapter | adapters/case.go:59-76 | Ok exactly when the adapter is configured and "fields" is a list; the adapter carries the task, the name, the printed fields and the printed "handling" |
| CaseAdapter.TitleCase | adapters/case.go:125-129 | an empty string panics; otherwise the first character is raised and the rest lowered |
| CaseAdapter.TitleCaseIdempotent | adapters/case.go:125-129 | title-casing a title-cased string changes nothing |
| CaseAdapter.ProcessRow | adapters/case.go:91-113 | the in-place loop over the fields computes the case-conversion specification |
| CaseAdapter.ConvertRow | adapters/case.go:91-113 | the field loop of one record: a converted record keeps its fields and leaves unlisted fields alone (its full meaning is `ConvertRowSpec`) |
| CaseAdapter.Run | adapters/case.go:82-122 | the adapter's output stream is the stage over `ConvertRow` |
| CaseAdapter.CaseSettled | adapters/case.go:99-105 | each of "upper", "lower" and "title" is idempotent on its own output |
| CaseAdapter.ConvertRowSpec | adapters/case.go:91-113 | "upper" and "lower" never abort; "title" aborts exactly when a converted field prints empty; any other handling aborts exactly when a listed field is present and non-nil; on success each such field is the upper, lower or title-cased printed value, and other fields are unchanged |
| CaseAdapter.ConvertRowIdempotent | adapters/case.go:91-113 | converting an already converted record gives the same record |
| MappingAdapter.NewConstantMappingAdapter | adapters/mapping.go:62-86 | Ok exactly when the adapter is configured, "fields" is a list and the named map loads from the file resolved against the configuration file's directory; "otherwise" is read with `fmt.Sprint` |
| MappingAdapter.Lookup | adapters/mapping.go:107-112 | a printed value found in the map gives its mapped string; any other value gives the "otherwise" string |
| MappingAdapter.ProcessRow | adapters/mapping.go:101-113 | the in-place loop over the fields computes the mapping specification |
| MappingAdapter.MapRow | adapters/mapping.go:101-113 | the field loop of one record: a mapped record keeps its fields and leaves unlisted fields alone (its full meaning is `MapRowSpec`) |
| MappingAdapter.Run | adapters/mapping.go:92-122 | the adapter's output stream is the stage over `MapRow` |
| MappingAdapter.MapRowSpec | adapters/mapping.go:101-113 | mapping never aborts and keeps the keys; nil, missing and unlisted fields are unchanged; every listed non-nil field ends as a map value or the "otherwise" string |
| MappingAdapter.MapRowDistinct | adapters/mapping.go:101-113 | with distinct fields, each listed non-nil field is exactly the lookup of its printed value |
| NullAdapter.NewNullHandlingAdapter | adapters/null.go:55-66 | Ok exactly when the adapter is configured; it carries the printed "handling" |
| NullAdapter.HandleNulls | adapters/null.go:80-91 | aborts exactly when the handling is not "remove" and the record holds a nil; otherwise the result is the record with its nil fields deleted and every other field kept |
| NullAdapter.ProcessRow | adapters/null.go:81-90 | deleting nil fields one at a time while iterating the record computes `HandleNulls` |
| NullAdapter.Run | adapters/null.go:72-98 | the adapter's output stream is the stage over `HandleNulls` |
| NullAdapter.HandleNullsIdempotent | adapters/null.go:80-91 | a handled record holds no nil, and handling it again returns it unchanged |
| NullAdapter.NilFreeUnchanged | adapters/null.go:80-91 | a record with no nil passes unchanged under any handling |
| CastAdapter.NewCastToDatatypeAdapter | adapters/cast.go:65-89 | Ok exactly when the adapter is configured and "fields" is a list; it carries the printed "datatype", "inlayout" and "outlayout" |
| CastAdapter.Cast | adapters/cast.go:112-129 | one printed value: an unknown datatype fails; "boolean" succeeds exactly on the lowered `ParseBool` spellings and gives true exactly for "1", "t", "true"; "int64" gives a 64-bit integer; "float64" succeeds exactly when the float parses and gives that float in its printed form; "datetime" always gives a string |
| CastAdapter.CastRow | adapters/cast.go:105-130 | the field loop of one record: a cast record keeps its fields and leaves unlisted fields alone (per datatype: `CastBooleanSpec`, `CastInt64Spec`, `CastDatetimeSpec`, `CastUnknownSpec`) |
| CastAdapter.ProcessRow | adapters/cast.go:105-130 | the in-place loop over the fields computes the cast specification |
| CastAdapter.Run | adapters/cast.go:96-138 | the adapter's output stream is the stage over `CastRow` |
| CastAdapter.CastSettled | adapters/cast.go:113-125 | the boolean and int64 casts are idempotent on their own output |
| CastAdapter.CastValueSettled | adapters/cast.go:113-125 | a boolean or int64 cast result is never nil and casts to itself |
| CastAdapter.CastBooleanSpec | adapters/cast.go:114-115 | "boolean" aborts exactly when a listed non-nil field, printed and lowered, is not a `ParseBool` word; on success each such field is the matching Bool |
| CastAdapter.CastInt64Spec | adapters/cast.go:116-117 | "int64" aborts exactly when a listed non-nil field does not print as a signed 64-bit decimal; on success each such field is that Int |
| CastAdapter.CastInt64KeepsIntegers | adapters/cast.go:116-117 | a record whose listed fields already hold 64-bit integers passes "int64" unchanged |
| CastAdapter.CastDatetimeSpec | adapters/cast.go:120-122 | "datetime" never aborts, because the parse error is discarded; with distinct fields each listed non-nil field is the formatted string |
| CastAdapter.CastUnknownSpec | adapters/cast.go:123-128 | any other datatype aborts exactly when some listed field is present and non-nil; otherwise the record is unchanged |
| CastAdapter.CastRowIdempotent | adapters/cast.go:104-130 | casting a cast record to boolean or int64 again changes nothing |
| FieldsAdapter.ProcessRow | adapters/fields.go:74-85 | the in-place loop over the fields computes `CastFields` |
| FieldsAdapter.CastFields | adapters/fields.go:74-85 | the field loop of one record: it keeps the record's fields and leaves unlisted fields alone (its full meaning is `CastFieldsSpec`) |
| FieldsAdapter.Run | adapters/fields.go:66-93 | the adapter's output stream is every input record cast, and it closes when the input does |
| FieldsAdapter.BooleanSettled | adapters/fields.go:79-84 | re-casting a cast value gives the same Bool |
| FieldsAdapter.CastFieldsSpec | adapters/fields.go:73-87 | keys are kept; each listed present field becomes true exactly when its lowered printed value is "1", "yes" or "true"; a nil field becomes false; unlisted fields are unchanged |
| FieldsAdapter.CastFieldsIdempotent | adapters/fields.go:73-87 | casting twice equals casting once |
| FieldsAdapter.CastFieldsSameSet | adapters/fields.go:73-87 | the outcome depends only on the set of listed fields, not on their order or repetition |
| Changers.CastGivenFieldsToBoolean | changers/fields.go:55-71 | the in-place loop computes the boolean cast of the given fields |
| Changers.CastToBoolean | changers/fields.go:36-47 | the output holds one cast record per input record, in order, and closes when the input does |
| CryptoAdapter.HexValue | adapters/crypto.go:78-86 | a hexadecimal digit's value is below 16 |
| CryptoAdapter.HexDecode | adapters/crypto.go:78-86 | Ok exactly when the length is even and every character is a hex digit; the result has half the length |
| CryptoAdapter.HexDigit | adapters/crypto.go:78-86 | the digit for a value below 16 is a hex digit of that value |
| CryptoAdapter.HexEncode | adapters/crypto.go:78-86 | the encoding has twice the length and only hex digits |
| CryptoAdapter.HexRoundTrip | adapters/crypto.go:78-86 | every byte string, hex-encoded, decodes back to itself |
| CryptoAdapter.NewCryptoAESCBCZeroAdapter | adapters/crypto.go:64-96 | Ok exactly when the adapter is configured, "fields" is a list, "direction" is a string that lowers to "encrypt" or "decrypt", and "key" and "iv" are valid hex strings; it carries the decoded bytes |
| CryptoAdapter.PadCount | adapters/crypto.go:163-166 | the padding is shorter than a block and completes the last block |
| CryptoAdapter.ZeroPad | adapters/crypto.go:163-168 | the padded text is a whole number of blocks, starts with the plaintext, adds fewer than a block of bytes, and every added byte is zero |
| CryptoAdapter.IndexByte | adapters/crypto.go:198-201 | the first position holding the byte, with no such byte before it, or -1 when there is none, as `bytes.IndexByte` returns |
| CryptoAdapter.ZeroUnpad | adapters/crypto.go:198-203 | the result is a prefix free of zero bytes, and it ends at the end of the text or just before a zero byte |
| CryptoAdapter.UnpadPad | adapters/crypto.go:163-203 | stripping the zero padding restores the plaintext exactly when the plaintext has no zero byte |
| CryptoAdapter.EncryptBytes | adapters/crypto.go:151-174 | encryption fails exactly when the key is not 16, 24 or 32 bytes, or the IV is not one block |
| CryptoAdapter.DecryptBytes | adapters/crypto.go:183-204 | decryption fails exactly on a bad key or IV, invalid base64, or a ciphertext that is not whole blocks; the plaintext has no zero byte |
| CryptoAdapter.BytesRoundTrip | adapters/crypto.go:151-204 | with a valid key and IV, decrypting the encryption of a zero-free byte string gives it back |
| CryptoAdapter.Crypt | adapters/crypto.go:117-129 | one string field: encryption fails exactly on a bad key or IV length; decryption fails exactly on a bad key, bad base64, a bad IV length or a text that is not whole blocks |
| CryptoAdapter.CryptRow | adapters/crypto.go:112-130 | the field loop of one record: it keeps the record's fields and leaves unlisted fields alone |
| CryptoAdapter.ProcessRow | adapters/crypto.go:112-130 | the in-place loop over string fields computes the encryption or decryption specification |
| CryptoAdapter.Run | adapters/crypto.go:101-142 | the adapter's output stream is the stage over `CryptRow` |
| CryptoAdapter.EncryptRowSpec | adapters/crypto.go:112-129 | with a valid key and IV, encryption never aborts; fields that are not strings are kept |
| CryptoAdapter.StringRoundTrip | adapters/crypto.go:117-129 | a string field without NUL, encrypted then decrypted under the same key and IV, is restored |
| CryptoAdapter.IterateRoundTrip | adapters/crypto.go:112-130 | a field listed `n` times is encrypted `n` times without a NUL appearing, and decrypting it `n` times restores it |
| CryptoAdapter.RowRoundTrip | adapters/crypto.go:111-134 | with the same key, IV and field list, and no NUL in a listed string field, decryption restores the encrypted record exactly, also when a field is listed more than once |
| Tasks.BuildAdapters | tasks/run.go:49-53 | Ok exactly when every named adapter builds, and then the list holds each built adapter in order |
| Tasks.BuildAdaptersSnoc | tasks/run.go:49-53 | building one more adapter that builds appends it to the built list |
| Tasks.Wiring | tasks/run.go:37-64 | the trace of stage starts a task produces: the source, then the adapters in order, then the targets, stopping at the first fatal error (no contract of its own; described by `WiringEnds`, `WiringComplete` and `SourceStartsFirst`) |
| Tasks.Thread | tasks/run.go:47-53 | the stream after the source's stream has passed each adapter's goroutine in turn (no contract of its own; described by `ThreadIsChain` and `ThreadTotal`) |
| Tasks.StartWellFormed | tasks/run.go:46-59 | starting one more stage in front of a well-formed trace keeps it well formed |
| Tasks.TargetEventsWellFormed | tasks/run.go:55-61 | the target loop starts instances until it waits or aborts |
| Tasks.AdapterEventsWellFormed | tasks/run.go:49-53 | the adapter loop starts adapters and then hands over to the target loop, or ends with one abort |
| Tasks.WiringEnds | tasks/run.go:37-64 | every task run starts stages until it reaches `wg.Wait` or its first fatal error, and nothing follows either |
| Tasks.ThreadIsChain | tasks/run.go:49-53 | threading the stream through the adapters one goroutine at a time equals one stage that runs the composed chain on each record |
| Tasks.ThreadTotal | tasks/run.go:49-53 | when the adapter chain succeeds on every source record, the final stream holds one chained record per source record, in order, and closes when the source's does |
| Tasks.TargetEventsSpec | tasks/run.go:55-59 | for a "jsonl-file" target, instances 0 and 1 start on the task's output and then the task waits; otherwise the loop aborts before starting any |
| Tasks.AdapterEventsBuilt | tasks/run.go:49-53 | when every adapter builds, they are started in order and the target wiring follows |
| Tasks.AdapterEventsFail | tasks/run.go:49-53 | the first adapter that fails to build aborts the wiring after the adapters before it were started |
| Tasks.WiringBuilt | tasks/run.go:46-59 | when the source and every adapter build, the trace starts the source, then the adapters in order, then follows the target wiring |
| Tasks.WiringComplete | tasks/run.go:37-64 | in the build sequence, the task reaches `wg.Wait` exactly when the source, every adapter and the "jsonl-file" target build; the trace is then source, adapters in order, target 0, target 1, wait |
| Tasks.FirstFailure | tasks/run.go:49-53 | if some adapter fails to build, there is a first such adapter and all before it build |
| Tasks.UnknownTaskAborts | tasks/run.go:46 | an unknown task aborts before anything starts, with "Error getting source configuration for task " + name + ": Missing configuration for task: " + name |
| Tasks.SourceStartsFirst | tasks/run.go:46-53 | when an adapter build fails, the source has already started and the task aborts without reaching the wait |
| Tasks.InterleavesSplits | tasks/run.go:55-59 | the two target instances together receive exactly the final stream's records, as a multiset |
| Tasks.Deliver | tasks/run.go:55-59 | each record of the final stream goes to exactly one of the two target instances, in stream order for each |
| Tasks.ThreadSnoc | tasks/run.go:52 | running one more adapter on the threaded stream is threading through the longer adapter list |
| Tasks.StartAdapter | tasks/run.go:51-52 | one loop turn builds the named adapter and, when it builds, extends the threaded stream by that adapter |
| Tasks.AdapterLoopStep | tasks/run.go:49-53 | one more name either aborts the adapter part of the trace or extends both the started events and the built list by that adapter |
| Tasks.StartAdapters | tasks/run.go:49-53 | the loop builds and starts the adapters in order and produces the adapter part of the wiring trace; on success the built list is every adapter and the stream is threaded through all of them; on failure the trace ends in an abort |
| Tasks.StartTargets | tasks/run.go:55-59 | the loop builds and starts target instances 0 and 1 and produces the target part of the trace |
| Tasks.RunTask | tasks/run.go:37-64 | the trace is the wiring of the sorted adapter order; on completion the targets share the stream threaded through every adapter; on abort no target receives anything |

## Left out

- Goroutines, channels and the `sync.WaitGroup` are not modelled as concurrency. Each stage is a function from the whole input stream to its output stream.
- Tasks.RunTask / Tasks.WiringComplete: the trace is the main goroutine's build sequence, and it assumes that no started stage aborts before the whole plan is built. The channels are unbuffered and each stage's goroutine starts as soon as it is built (`tasks/run.go:47`, `:52`). So a record-time `log.Fatal` can end the process before `wg.Wait` even when every build succeeds, for example a source file that cannot be opened (`sources/jsonl.go:72-75`) or an unknown case handling on the first record (`adapters/case.go:106-107`). On a record-level abort the model delivers to the targets every record produced before the failure (`final.rows`). Go may deliver only a prefix of those, because the process exits while later records are still in flight.
- Tasks.Deliver: how the Go scheduler splits the stream between the two target instances is not determined. The model picks each record's receiver arbitrarily and proves only that the two lists interleave to the stream.
- After a `log.Fatal` the process exits. The model returns the records sent before the failure, with the stream left open.
- `LoadConfig` (YAML reading through viper, environment files) is not modelled. A `Config` value is given directly, and `GetConfigFilename` is its `configFilename` field.
- Reading the sources (database query, JSON-lines file, Oracle) and writing the targets (JSON-lines file, HTTP) is I/O and is not modelled. A source's reading is represented by its record stream (`feed`), and a target's writing by the records it receives. The two source constructors are modelled with their failures, but the database source keeps the database's name and driver instead of the connection URI that `sources/database.go:73-95` assembles. The Oracle source is not built by `BuildSource` and is left out.
- The names-randomizer adapter (`adapters/random.go`) uses a seeded random generator and three names files. Its constructor's checks are the external function `newRandomizer`, whose `Err` stands for the aborts of `adapters/random.go:78-81` (a `"random"` argument that is not a map) and of `getNamesData` (a names file that cannot be opened). `BuildAdapter` builds the adapter exactly when that function succeeds. Its `Run` is the external function `randomize`. How it picks names is not modelled.
- `getMapData` reads and parses a YAML file. It is the external function `loadMapData`, whose failure is a task abort. `core.ResolveFilename` is folded into it.
- `float64` parsing and `time.Parse`/`Format` are external functions. Go's float formatting and layout semantics are not modelled.
- AES, base64 and the string/byte conversions are external functions. Only the laws that the round-trip lemmas require of them are stated.
- Case mapping is ASCII only. Go's `strings.ToUpper`/`ToLower` and `unicode.ToUpper` also map non-ASCII letters.
- `fmt.Sprint` is modelled exactly only for strings, booleans, integers and nil. Any other value carries its printed form.
- Log messages and timing output are not modelled. In the field loops the error text is a generic "cannot convert field" message, not the `log.Fatalf` text. Builders and constructors carry the source's messages.
- Go maps are references, and adapters mutate the record they forward. The model uses value semantics, which is equivalent because no stage touches a record after sending it.
- The `cast-to-boolean` adapter's constructor (`adapters/fields.go:51-59`) calls a configuration method that does not exist, and `BuildAdapter` never selects the adapter. The constructor is not modelled.
- MappingAdapter.MapRowDistinct: gives the exact mapped value only when the field list has no repeats. With repeats a field is mapped again, and `MapRowSpec` states only that it ends in the map's range.
- CastAdapter.CastDatetimeSpec: gives exact values only for distinct fields, because a repeated field would be formatted again.
- CryptoAdapter.StringRoundTrip: states the round trip only for text without NUL, because zero padding cannot tell a NUL from padding (`UnpadPad` gives the exact condition at the byte level).
