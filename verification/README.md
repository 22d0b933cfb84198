# Verified model of the component collection

A Dafny model of the parts of this ESP-IDF component collection whose behaviour is
hard to see from reading one function: a JSON tokenizer and a schema-to-parser
compiler, a crash-safe file rotation, interrupt dispatch, connection managers, a
bridge converter's driver, and the smaller calculations beside them. Each component
is modelled with the branches, limits and error results of its source, and what the
component is for is then proved about every input or every run.

Check everything with `dafny verify dfyconfig.toml`.

## What is modelled

**js2c.** `Jsmn` is the tokenizer as a function of the text, one character a step;
`JsmnParser` is the in-place parser with its position, next-slot and superior-token
fields and is proved equal to that function. `JsonDocument` is JSON with its
whitespace, `JsmnRoundTrip` proves that tokenizing a printed document gives its
preorder tokens, `JsmnForest` that every accepted text, well-formed JSON or not, gives a
forest with nested spans, and `JsmnStrict` what is refused: which strings and primitives,
and what each error says of the text. `Js2cRuntime`, `Js2cSchema` and `Js2cParser` are the
cursor runtime, the schemas the generator accepts and the emitted parser as an
interpreter; `Js2cEmitted` is the emitted code in its own step-by-step form.
`Js2cConformance` says what it means for a document to conform and what a parser must
then store; `Js2cEndToEnd` proves that the parser decides exactly that and that the
token buffer is large enough, `Js2cBudget` that it is no larger than it must be,
`Js2cDefaults` that leaving a field out stores what writing its default out would, and
`Js2cStrictness` exactly when accepting means meeting the schema literally. `Js2cSlices` and `Js2cSections` prove that a section recorded as a
slice and parsed alone gives what it gives in its place.

**Protocols and state machines.** `ConfigStore` with `ConfigStoreSurvival`,
`ConfigStoreRuns` and `ConfigStoreFiles` (file rotation, with a power loss possible
after every system call), `IntDispatch` (a wired-AND interrupt line, the interrupt
routine and the dispatcher), `WifiManager` (events and two one-shot timers, and the
reconnect backoff), `MqttManager` (session and link), `CliWeb` (who owns a chunk of
output) and `Ota` (a firmware upload in chunks). Where several tasks interleave, the
model is a state machine over their atomic steps; a class beside it carries the
source's own fields, and its methods are proved to take exactly those steps.

**Algorithms and arithmetic.** `MqttTopic` (filter matching), `HttpAuth` (Base64 and
the credential header), `Statistics` and `LoadCell` (one-pass averages, tare and
scale), `Nau7802` (registers, every bus transfer, and what may outlive a change) and
`InaCalibration` (current-monitor calibration). Floating point is modelled over the
reals; `sqrt` and `hypot` appear through their squares.

## Where the source does not do what it says

Each of these is a lemma with a concrete input or an exact condition.

* A write that cannot see the config it replaces (`stat` fails) can lose it:
  `ConfigStoreSurvival.OldSurvives` gives the exact condition.
* `a/+` does not match `a/`: a wildcard at an empty last topic level is missed, and
  nothing else is (`MqttTopic.MatchesMeansLevels`, `MqttTopic.EmptyLastLevelIsMissed`); and
  `#` takes `$SYS/x`, the rule of section 4.7.2 not being implemented
  (`MqttTopic.ReservedIsTaken`). `MqttTopic.AgreesWithStandard` gives both conditions exactly.
* The backoff stops doubling early for a cap near the top of its 32-bit range
  (`WifiManager.DelayDoubles`, `WifiManager.DoublingStopsShort`). Only a direct call of the
  initialisation can ask for that: the configuration schema stops at an hour, and within it
  the delay always doubles (`WifiManager.SchemaDoubles`).
* The network of the highest priority is promised, and priorities are never read
  (`wifi_manager/README.md:129-139`): `WifiManager.LowerPriorityWins` is an input,
  `WifiManager.ChoiceHasPriority` the condition for a scan, `WifiManager.PriorityAlwaysWins`
  that for all scans.
* Any connect timeout while subscribers believe the link is up, after a roam or after a
  second report of the same link, disconnects without telling them:
  `WifiManager.SilentStep` and `WifiManager.SilentLoss` say exactly when a station is left
  so, `WifiManager.SilentTraces` gives inputs.
* Starting the MQTT manager on a link that is already up does nothing on a first start, and
  after a stop it goes by a link last seen before it (`mqtt_manager/README.md:81-96`):
  `MqttManager.FirstStartWaits` and `MqttManager.StartMeetsPromise` say exactly when,
  `MqttManager.LateStart` and `MqttManager.StaleStart` give inputs.
* A filter registered while the session is up and the link down stays unsubscribed
  whatever follows until the next session (`MqttManager.RegisteredLinkDown`,
  `MqttManager.MissedUntilNextSession`), also with everything reporting a connection
  (`MqttManager.MissedThoughConnected`).
* A calibration without any spread accepts a move of nothing and stores a zero factor
  (`LoadCell.ZeroFactorReadings`); the HX711 driver can keep a scale across a mode
  change that failed to settle, even after a successful retry: `LoadCell.ScaleFollowsChanges`
  gives the exact condition over any calls, `LoadCell.RetryKeepsStaleScale` an input.
* At the end of the shunt slack the current monitors accept a range whose own reported
  full scale they refuse (`InaCalibration.RequestReproduces`,
  `InaCalibration.SlackIsNotReproducible`).
* A required name may be absent when its field has a default or when it is no property at
  all, and unknown keys are accepted by one global setting whatever the object says:
  `Js2cStrictness.DefaultExcusesRequired`, `Js2cStrictness.UndeclaredRequiredIsIgnored` and
  `Js2cStrictness.UnknownKeyIsAccepted` are inputs, `Js2cStrictness.StrictExactly` the exact
  condition, and `Js2cStrictness.TightExactly` says when it can be read off the schema.
* A section written as a string that holds a document is parsed as that document by its
  owner, though in its place it would be refused (`Js2cSections.StringHolds`,
  `Js2cSections.StringSection`); for an owner that wants an array or object, with a buffer
  that holds the section, the two differ exactly then (`Js2cSections.SectionsCompose`).
* After a refused header an upload that goes on is still written to flash, chunk by chunk
  (`Ota.RefusedImageKeepsWriting`, `Ota.RefusedForGood`); only the end of the session holds
  it back (`Ota.Session.InsistAndEnd`).

## Assumptions

* A rename is atomic, and a file closed without an error is on the disk.
* Event handlers, timer callbacks and the steps of a caller's scan are each atomic,
  starting a timer succeeds, and the station's start event comes before any link event.
* Notification counts, file sizes, document positions and buffer sizes do not reach
  their integer limits; where a 32-bit limit matters (the reconnect counter, the token
  skip counter, the millisecond arithmetic) it is modelled.
* A failed register write leaves the register as it was, and the same part stays on the bus.
* Work the web server has accepted is run; client subscribe calls succeed.

## Model

| member | source | states |
|---|---|---|
| JsmnParser.Parser.Parse | js2c/include/jsmn.h:268-456 | the in-place parser over a caller's array fails or fills it exactly as the character-by-character specification says, error, position and token count included |
| JsmnParser.Parser.ParsePrimitive | js2c/include/jsmn.h:135-188 | a primitive ends at a delimiter and leaves the position on its last character; a character outside printable ASCII, the end of the text or a missing slot leaves it where it began |
| JsmnParser.Parser.ParseString | js2c/include/jsmn.h:193-263 | a string ends at its first unescaped quote and its escapes are valid; otherwise, or with no slot left, the position stays at its opening quote |
| JsmnParser.Parser.CloseInnermost | js2c/include/jsmn.h:308-359 | a closing bracket closes the innermost open token, if of its kind, and makes the next open one the superior token |
| JsmnParser.Parser.Comma | js2c/include/jsmn.h:379-396 | after a comma the superior token is the innermost open container unless it already is a container |
| Jsmn.SameScan | js2c/include/jsmn.h:327-347 | the backward scan of a closing bracket and the one of a comma find the same token whenever the innermost open token is a container |
| Jsmn.NoneOpenAfterLast | js2c/include/jsmn.h:327-334 | the backward scan stops at the last open token: none after it is open |
| JsmnRoundTrip.RoundTrip | js2c/include/jsmn.h:268-453 | tokenizing any printed document, with enough slots, gives its preorder tokens: count, kinds, spans that slice out each element's text, and sizes |
| JsmnRoundTrip.ValueRuns | js2c/include/jsmn.h:275-433 | from any state, the tokenizer runs through one value, appending exactly that value's tokens and counting it to its container |
| JsmnRoundTrip.ScanStringStops | js2c/include/jsmn.h:193-263 | a valid string body is scanned exactly to its closing quote |
| JsmnRoundTrip.ScanPrimitiveStops | js2c/include/jsmn.h:135-188 | a primitive is scanned exactly to the delimiter after it |
| JsmnForest.AcceptedIsForest | js2c/include/jsmn.h:275-450 | every accepted text, JSON or not, leaves token sizes that encode a preorder forest, every token closed, spans inside the text and containers nested with matching brackets; no object has a child that is not a string, and no key a primitive after its first child |
| JsmnForest.StepKeepsForest | js2c/include/jsmn.h:275-433 | at every step all open tokens and the superior token lie on the rightmost path of the forest built so far, and a value directly in an object or a second primitive after a key is refused |
| JsmnForest.StepKeepsSpans | js2c/include/jsmn.h:275-433 | at every step spans are nested or disjoint and containers begin and end at matching brackets |
| JsmnStrict.ScanStringExactly | js2c/include/jsmn.h:193-263 | a string is scanned to the first quote no escape takes, exactly when all before it is a valid body; it is refused exactly for a backslash that begins no escape, and is otherwise unfinished |
| JsmnStrict.ScanPrimitiveExactly | js2c/include/jsmn.h:135-188 | a primitive is scanned to the first white space, comma or closing bracket, and refused exactly at a character outside printable ASCII before that |
| JsmnStrict.AcceptedIsRead | js2c/include/jsmn.h:268-453 | in every accepted text each string token is a valid body between its quotes, each primitive token a scalar with what ends it, and every other character is white space, a comma, a colon or a bracket of a container's own |
| JsmnStrict.BadEscapeIsRefused | js2c/include/jsmn.h:254-257 | an invalid escape refuses the text whatever follows |
| JsmnStrict.RefusalIsFinal | js2c/include/jsmn.h:268-456 | any error but that of an unfinished text stands whatever text is still to come, in the same place |
| JsmnStrict.PartIsUnfinished | js2c/include/jsmn.h:442-453 | a text is called unfinished only where it ends, where a string has no closing quote or where nothing ends a primitive |
| JsmnStrict.RefusedWithMoreSlots | js2c/include/jsmn.h:106-121 | any error but that of missing slots is the same with more slots |
| JsmnStrict.OneMoreSlotHelps | js2c/include/jsmn.h:106-121 | one slot more takes a text that ran out of slots past that place |
| Js2cRuntime.ParseState.SkipValue | js2c/include/js2c_builtins.h:239-260 | wherever a skip can end within the tokens, which after any accepted text is everywhere, the loop with its 32-bit counter does not wrap, does not fail and advances the cursor past exactly one subtree |
| Js2cRuntime.SkipIsTotal | js2c/include/js2c_builtins.h:239-260 | after any accepted text, a skip from any token ends after exactly that token's subtree: its failure branch is never taken |
| Js2cRuntime.SkipTrees | js2c/include/js2c_builtins.h:244-258 | skipping several values consumes exactly as many trees of the forest |
| Js2cParser.NeverOverruns | js2c/include/js2c_builtins.h:95-118 | whatever the text, tokenized successfully, the emitted parser never reads a token past the last |
| Js2cSchema.FieldIndex | js2c/tool/js2c/codegen/object.py:162-175 | the chain of key comparisons takes the first field of that name |
| Js2cConformance.ParserDecides | js2c/tool/js2c/codegen/object.py:183-212 | on any value's tokens the emitted parser succeeds if and only if the value conforms, then advances by exactly the value's tokens and stores what the schema says |
| Js2cConformance.ItemsDecide | js2c/tool/js2c/codegen/array.py:111-128 | the item loop accepts exactly the arrays whose items all conform, and stores them in order |
| Js2cConformance.OptionsDecide | js2c/tool/js2c/codegen/union.py:118-151 | a union takes the first option that accepts the value, from the same cursor, and fails only when none does |
| Js2cConformance.MembersDecide | js2c/tool/js2c/codegen/object.py:160-198 | the member loop accepts exactly members without duplicates whose values conform, unknown keys by the global setting, and collects each field once |
| Js2cConformance.DefaultsComplete | js2c/tool/js2c/codegen/object.py:114-122 | with no required field missing, setting defaults leaves every stored field assigned, by parse or by default |
| Js2cConformance.RequiredIsAbsent | js2c/tool/js2c/codegen/object.py:124-137 | the required check fires exactly when a field without a default that is required is absent |
| Js2cDefaults.LeavingOutIsWritingOut | js2c/tool/js2c/codegen/object.py:114-122 | leaving a field out is accepted like, and stores exactly, what writing its default out would: for a leaf a text its parser reads as the default, for an array without a default of its own `[]`, for such an object `{}` |
| Js2cDefaults.NamedDefaultIsStored | js2c/tool/js2c/codegen/object.py:217-225 | the default a leaf's schema names, and the `js2cDefault` of an array or object, is itself what is stored for an absent field |
| Js2cDefaults.OptionalHasDefault | js2c/tool/js2c/codegen/object.py:214-218 | what has a default, by recursion on the schema: a leaf, array or object that names one, an array that may be empty, an object that requires nothing and whose fields all have one |
| Js2cDefaults.RootRequires | js2c/tool/js2c/codegen/object.py:124-137 | an object is accepted exactly when it fits, its members conform, and every required name without a default in that sense is there |
| Js2cDefaults.StoredExactly | js2c/tool/js2c/codegen/object.py:124-137 | an accepted object stores exactly the declared names that are there or have a default and have a C type |
| Js2cStrictness.StrictExactly | js2c/tool/js2c/codegen/object.py:124-181 | a parser accepts only documents with every required name present and extra keys only where their object allows them exactly when the schema cannot be lax: no object that has documents requires a name that is undeclared or has a default, permits unknown keys by the global setting alone, or has a field or item that can be lax; a union is judged by its documents |
| Js2cStrictness.TightExactly | js2c/tool/js2c/codegen/object.py:124-181 | where every part has documents and every union option is tight, that is the schema's own words: no such name and no such object anywhere that an item can reach |
| Js2cStrictness.TightAcceptsOnlyStrict | js2c/tool/js2c/codegen/object.py:124-181 | that condition suffices for every schema, unions included |
| Js2cStrictness.LaxDocument | js2c/tool/js2c/codegen/object.py:124-181 | where a schema can be lax, a conforming document that is not strict is built |
| Js2cStrictness.LaxMeans | js2c/tool/js2c/codegen/object.py:124-181 | and any such document shows that it can |
| Js2cStrictness.DefaultExcusesRequired | js2c/tool/js2c/codegen/object.py:125-127 | a required field with a default, and `{}` accepted |
| Js2cStrictness.UndeclaredRequiredIsIgnored | js2c/tool/js2c/codegen/object.py:125-137 | a required name that is no property, and `{}` accepted |
| Js2cStrictness.UnknownKeyIsAccepted | js2c/tool/js2c/codegen/object.py:176-181 | an object that forbids other keys, and one accepted under the global setting |
| Js2cStrictness.StricterOptionHides | js2c/tool/js2c/codegen/union.py:118-151 | why unions need a condition of their own: a loose option whose documents another option takes strictly |
| Js2cConformance.SkipDoc | js2c/include/js2c_builtins.h:239-260 | skipping a document's tokens from its first leaves the cursor just after its last |
| Js2cEndToEnd.RootDecides | js2c/tool/js2c/codegen/root.py:66-81 | the generated root parser accepts a printed document if and only if its tokens fit the buffer and it conforms, and then stores what the schema says |
| Js2cEndToEnd.RootArray | js2c/tool/js2c/codegen/array.py:98-128 | an array is accepted exactly when it fits, has at least `minItems` and at most `maxItems` items, and each conforms |
| Js2cEndToEnd.RepeatedKeyIsRefused | js2c/tool/js2c/codegen/object.py:160-175 | a declared key that occurs twice is refused, whatever its values |
| Js2cEndToEnd.TooFewSlots | js2c/include/jsmn.h:106-121 | with fewer slots than tokens every printed document fails for want of tokens and for no other reason |
| Js2cEndToEnd.RunSlots | js2c/include/jsmn.h:106-121 | an accepted text gives the same tokens with any larger buffer |
| Js2cEndToEnd.PlainFits | js2c/tool/js2c/codegen/object.py:228-229 | a document without unknown keys, duplicates, surplus items or composite raw values has at most the generated number of tokens |
| Js2cEndToEnd.OptionFits | js2c/tool/js2c/codegen/union.py:156-158 | a union's bound covers each of its options |
| Js2cBudget.BudgetIsExact | js2c/tool/js2c/codegen/object.py:228-229 | for every schema the generated count is the largest number of tokens of any document it allows for: no such document needs more and one needs as many |
| Js2cBudget.OneSlotLess | js2c/tool/js2c/codegen/root.py:168-171 | with fewer slots than that, such a document is refused for want of tokens |
| Js2cEndToEnd.PlainIsAccepted | js2c/tool/js2c/codegen/root.py:168-171 | such a document that conforms is accepted with the generated buffer: never out of tokens |
| Js2cEndToEnd.ConformsIsPlain | js2c/tool/js2c/codegen/array.py:138-140 | without raw, void or unknown keys, conforming alone keeps a document within the bound |
| Js2cSlices.SliceRetokenizes | js2c/tool/js2c/codegen/alternate_storage.py:61-69 | tokenizing the slice of any container in a printed document gives exactly that container's tokens, shifted by its position |
| Js2cSections.RawRecorded | js2c/tool/js2c/codegen/alternate_storage.py:61-69 | a raw field's stored index and length are the span of its value's token |
| Js2cSections.SectionRecorded | js2c/tool/js2c/codegen/alternate_storage.py:61-69 | whatever document the derived parser accepts, every section is in it and its stored slice is the span of that section's token |
| Js2cSlices.TokensShift | js2c/tool/js2c/codegen/alternate_storage.py:61-69 | a value's tokens at another position are its tokens moved by the difference |
| Js2cSlices.DecodeShift | js2c/tool/js2c/codegen/alternate_storage.py:61-69 | what is stored for a value at another position differs only in its slices, moved by the difference |
| Js2cSections.SectionsFit | js2c/tool/js2c_sections.py:145-166 | the derived parser's buffer, its own count plus the inlined schema's, holds every document the inlined schema allows for |
| Js2cSections.SectionsAccept | js2c/tool/js2c_sections.py:224-238 | of the documents that conform to the inlined schema, the derived parser with its own buffer accepts exactly those that have every section and fit the buffer |
| Js2cSections.SectionsCompose | js2c/tool/js2c/codegen/alternate_storage.py:61-69 | in any document the derived parser accepts, the stored slice of a section, parsed alone by the section's own parser, gives the verdict, token count and values that parser gives at the section's token in the whole document, slices counted from the section's start; for an owner that wants an array or object and a section that fits its buffer, except exactly when the section is a string whose text the owner accepts |
| Js2cSections.StringHolds | js2c/tool/js2c/codegen/alternate_storage.py:61-69 | a section that is a string holding any printed document is accepted alone exactly when that document conforms and fits, and never conforms in its place |
| Js2cSections.StringSection | js2c/tool/js2c/codegen/alternate_storage.py:61-69 | such a string, holding an empty object |
| Js2cSections.SectionedGenerates | js2c/tool/js2c_sections.py:204-213 | when the sections are required, the derived schema is one the generator accepts |
| Js2cEmitted.Generated.Parse | js2c/tool/js2c/codegen/object.py:183-212 | the emitted parser, cursor and error returns included, does what the interpreter says, for every kind of schema |
| Js2cEmitted.ParseWithLen | js2c/tool/js2c/codegen/root.py:66-81 | the root, tokenizing into its own buffer and refusing errors and empty texts, accepts and stores exactly what the interpreter's root does, and never reads past the tokens |
| Js2cEmitted.Generated.ParseArrayValue | js2c/tool/js2c/codegen/array.py:111-128 | the emitted array body: type, range checks and item loop over the cursor |
| Js2cEmitted.Generated.ParseObjectValue | js2c/tool/js2c/codegen/object.py:183-212 | the emitted object body: member loop, required checks, defaults |
| Js2cEmitted.Generated.ParseField | js2c/tool/js2c/codegen/object.py:139-181 | one member: key with exactly one value, duplicates refused, unknown keys skipped or refused |
| Js2cEmitted.Generated.ParseUnion | js2c/tool/js2c/codegen/union.py:118-151 | options are tried on a copy of the cursor, which is taken over only from the one that succeeds |
| Js2cEmitted.Generated.RequiredCheck | js2c/tool/js2c/codegen/object.py:124-137 | the emitted check finds a missing required field if there is one |
| ConfigStoreRuns.RunsKeepAConfig | config_store/src/config_store.c:126-224 | over every run of writes and restores, any call failing and power lost after any step: path and backup, when present, hold the complete bytes of an accepted config, and once there is one there always is |
| ConfigStoreSurvival.OldSurvives | config_store/src/config_store.c:174-190 | the config in force survives every write byte for byte exactly when the check for it sees it, the write is refused, or the backup (or without one, the new data) is the same |
| ConfigStore.SuccessfulWrite | config_store/src/config_store.c:126-190 | a successful write puts the data in force, makes the config it saw the backup, leaves no temporary file and touches nothing else |
| ConfigStore.WriteStatus | config_store/src/config_store.c:126-190 | a write succeeds exactly when the data passes the size limit, the temporary file takes it, the config it sees can be moved aside and the new one into place; that the old backup was there or could be removed does not matter |
| ConfigStore.WriteTouchesOnly | config_store/src/config_store.c:126-190 | whatever fails, a write touches no file but the three, and removes its temporary file again if it can |
| ConfigStore.RestoreResult | config_store/src/config_store.c:204-224 | from any disk a restore succeeds exactly when it sees a backup and can move it into place, and each outcome's disk |
| ConfigStore.FailedWrite | config_store/src/config_store.c:174-190 | a failed write leaves the config it saw in force, or as the backup when putting it back failed too |
| ConfigStore.RestoreUndoesWrite | config_store/src/config_store.c:204-224 | restoring after a successful write brings the previous config back |
| ConfigStoreFiles.WriteThenRead | config_store/src/config_store.c:53-88 | what was written is what is read, if the buffer leaves room for the terminator; the size limit is the same both ways |
| ConfigStoreFiles.FileReadResult | config_store/src/config_store.c:53-88 | a file is read exactly when it is seen, passes both limits and can be opened and read; too large is told from not there |
| ConfigStoreFiles.NamesDiffer | config_store/src/config_store.c:8-26 | the three file names never coincide |
| ConfigStoreFiles.Store.Init | config_store/src/config_store.c:34-51 | a path is accepted exactly when it has between 1 and 123 characters, so that both suffixed names fit |
| ConfigStoreFiles.Store.Write | config_store/src/config_store.c:126-190 | the write passes through exactly the specified disk states, ends in the last and reports their status |
| ConfigStoreFiles.Store.RestoreBackup | config_store/src/config_store.c:204-224 | the restore passes through exactly the specified disk states |
| ConfigStoreFiles.Store.Read | config_store/src/config_store.c:90-124 | a read gives a whole file that fits or the exact error, and the override's errors are never hidden behind the built-in config |
| IntDispatch.NoLostInterrupt | int_dispatch/src/int_dispatch.c:29-68 | in every interleaving, after start-up a low line always has an interrupt to run, a notification to take or a dispatcher on its way to looking |
| IntDispatch.NeverBlockedWhileLow | int_dispatch/src/int_dispatch.c:38-68 | the dispatcher is never blocked without a notification while the line is low and no interrupt is latched |
| IntDispatch.QuietLineWakesNobody | int_dispatch/src/int_dispatch.c:38-68 | until a part asserts, whatever is started, stopped and registered, no notification is given and no round counted |
| IntDispatch.SecondLookIsNeeded | int_dispatch/src/int_dispatch.c:55-67 | without the second look at the line two parts can leave the dispatcher blocked for good with the line low |
| IntDispatch.DrainsAfterAnyRun | int_dispatch/src/int_dispatch.c:42-67 | after any run that has started up with a handler for every part on the line, when handlers clear their parts and nothing new asserts, every interleaving rests within four rounds' length with the line high, the unserviced count up by one at most |
| IntDispatch.RunSettles | int_dispatch/src/int_dispatch.c:38-68 | every such run ends where a drain can begin: the dispatcher within its handlers, the line attended to |
| IntDispatch.LineIsDrained | int_dispatch/src/int_dispatch.c:42-67 | the drain itself, from any state like that |
| IntDispatch.Dispatcher.DispatchRound | int_dispatch/src/int_dispatch.c:42-67 | one turn of the loop, with the parts and the interrupt routine moving in between, ends waiting only with the line attended to |
| IntDispatch.Dispatcher.Start | int_dispatch/src/int_dispatch.c:70-130 | start-up with an edge already gone by still leaves the line attended to; a failed start leaves nothing running |
| IntDispatch.Dispatcher.Stop | int_dispatch/src/int_dispatch.c:132-141 | stop succeeds exactly when started |
| IntDispatch.Dispatcher.RegisterHandler | int_dispatch/src/int_dispatch.c:143-155 | a handler is refused exactly when the table is full |
| WifiManager.NeverWedgedFromStart | wifi_manager/src/wifi_manager.c:324-408 | in every run: a connecting station has its timeout armed; a disconnected one its retry, a scan, or a caller's scan; a retry is between a second and the cap |
| WifiManager.StepKeeps | wifi_manager/src/wifi_manager.c:699-858 | every event keeps the station from being wedged |
| WifiManager.LateStartWouldWedge | wifi_manager/src/wifi_manager.c:705-708 | the station's start event, arriving late, would break it |
| WifiManager.EveryLossIsRetried | wifi_manager/src/wifi_manager.c:493-495 | at every position of every run, an event that leaves the station without the link it had or was making arms the retry with the delay for the scans attempted so far |
| WifiManager.ResultsAreFor | wifi_manager/src/wifi_manager.c:773-790 | scan results are used only by a disconnected station no caller's scan waits for: it connects, or its retry is armed |
| WifiManager.LossArms | wifi_manager/src/wifi_manager.c:717-769 | such an event is exactly a lost address, a timeout, or a disconnect other than a roam from a link that is up |
| WifiManager.RetryIsKept | wifi_manager/src/wifi_manager.c:536-565 | at every position of every run, an armed retry goes away only for a link that is up or a scan in flight, and one armed or armed anew has the delay for the scans attempted so far |
| WifiManager.TriesAgain | wifi_manager/src/wifi_manager.c:493-495 | after any run, a started station that was asked to connect and is not connected is at most five events nobody has to ask for from a connection attempt |
| WifiManager.SilentStep | wifi_manager/src/wifi_manager.c:526-534 | a station is newly left disconnected with its subscribers believing the link is up exactly by a timeout while they do |
| WifiManager.SilentLoss | wifi_manager/src/wifi_manager.c:699-858 | after any run the events alone tell whether the link is up, what the subscribers were last told, and whether the station is disconnected without their knowing: exactly after a timeout while they were told up, with no address, no word to them and no new attempt since |
| WifiManager.SilentTraces | wifi_manager/src/wifi_manager.c:709-767 | two ways there, by a roam and by a second report of the link, and the way out by a reported disconnect |
| WifiManager.NoOverflow | wifi_manager/src/wifi_manager.c:513-523 | the 64-bit shift and the conversion to microseconds lose nothing |
| WifiManager.DelayBounds | wifi_manager/src/wifi_manager.c:505-519 | a delay is never below a second nor above the cap |
| WifiManager.DelayDoubles | wifi_manager/src/wifi_manager.c:509-519 | the delay doubles from the base to the cap for all attempts exactly when the cap is at most the base shifted by 22 |
| WifiManager.DoublingStopsShort | wifi_manager/src/wifi_manager.c:513-516 | a configuration for which it does not, reachable only past the schema |
| WifiManager.SchemaDoubles | wifi_manager/wifi_manager_config_schema.json:75-90 | every configuration within the schema doubles for any number of attempts |
| WifiManager.DelayLaw | wifi_manager/src/wifi_manager.c:500-524 | within the schema the first delay is the configured one and each further attempt doubles it, until the scan interval is reached |
| WifiManager.DelaysOnlyGrow | wifi_manager/src/wifi_manager.c:536-565 | between two addresses the counter counts the reconnect scans attempted, and no retry is armed with a shorter delay than before |
| WifiManager.OutageSlowsDown | wifi_manager/src/wifi_manager.c:500-524 | in an outage, from its first event on, the counter is the number of reconnect scans attempted and of two armed retries the later is at least as long |
| WifiManager.OutageBegins | wifi_manager/src/wifi_manager.c:821-842 | a run starts, and every address leaves it, with no retry armed and the count at zero |
| WifiManager.RetriesSlowDown | wifi_manager/src/wifi_manager.c:500-524 | the same from any context whose retry is within its own count's delay |
| WifiManager.SelectBest | wifi_manager/src/wifi_manager.c:587-614 | the chosen network is that of the best heard known access point above the floor, the first of equals; none is chosen only when there is none |
| WifiManager.FaintestHeard | wifi_manager/src/wifi_manager.c:587-614 | a network is heard at anything above -100 dBm |
| WifiManager.ChoiceHasPriority | wifi_manager/README.md:129-139 | the choice is of the highest visible priority exactly when no network heard above the floor has a higher one than the loudest's |
| WifiManager.PriorityAlwaysWins | wifi_manager/README.md:129-139 | in every scan exactly when no entry's priority is above that of an entry that can be chosen |
| WifiManager.LowerPriorityWins | wifi_manager/README.md:129-139 | a scan in which a nearer network of lower priority is chosen |
| WifiManager.Manager.constructor | wifi_manager/src/wifi_manager.c:90-118 | the three intervals are raised to their minimums, and the recorded run starts empty |
| WifiManager.Manager.Sound | wifi_manager/src/wifi_manager.c:699-858 | whatever handlers, callbacks and calls a manager has been through, it is not wedged, its retry is between a second and the cap, and its last word to subscribers is what its events say |
| WifiManager.Manager.ScheduleReconnect | wifi_manager/src/wifi_manager.c:500-524 | arms the retry with the specified delay |
| WifiManager.Manager.ConnectFromScanResults | wifi_manager/src/wifi_manager.c:567-615 | connects to the best known network the scan heard, the one its driver is then configured for, or arms the retry |
| WifiManager.Manager.ConnectToBest | wifi_manager/src/wifi_manager.c:631-697 | a connect that starts arms the configured timeout and is to the network given; one that does not arms the retry |
| WifiManager.Manager.OnScanDone | wifi_manager/src/wifi_manager.c:773-790 | results are left to a caller's scan, used when disconnected, the network joined being the best heard, otherwise dropped |
| WifiManager.Manager.BeginCallerScan | wifi_manager/src/wifi_manager.c:352-381 | a second caller's scan is refused |
| MqttTopic.MatchesMeansLevels | mqtt_manager/src/mqtt_topic.c:5-57 | for every filter and topic: accepted exactly when the filter is well formed and matches level by level, except where a wildcard stands at an empty last topic level |
| MqttTopic.OrdinaryTopics | mqtt_manager/src/mqtt_topic.c:5-57 | for topics that do not end in a separator, exactly the level rules of section 4.7.1 of MQTT 3.1.1 |
| MqttTopic.AgreesWithStandard | mqtt_manager/src/mqtt_topic.c:5-57 | with the rule of section 4.7.2 as well, the code and the standard differ exactly on a reserved topic taken by a leading wildcard and on a wildcard at an empty last level |
| MqttTopic.ReservedIsTaken | mqtt_manager/src/mqtt_topic.c:14-18 | `#` takes a topic that begins with `$` |
| MqttTopic.EmptyLastLevelIsMissed | mqtt_manager/src/mqtt_topic.c:22-42 | a filter and topic the rules match and the code does not |
| MqttTopic.Matches | mqtt_manager/src/mqtt_topic.c:5-57 | the loop over both strings computes that verdict |
| MqttTopic.LevelsAreTheParts | mqtt_manager/src/mqtt_topic.c:15-49 | the levels are the parts between separators |
| MqttTopic.MatchByLevel | mqtt_manager/src/mqtt_topic.c:5-57 | the level rules, position by position: each level the topic's own or `+`, a final `#` for any number of further levels, and otherwise as many levels as the topic has |
| MqttTopic.WellFormedByLevel | mqtt_manager/src/mqtt_topic.c:14-34 | a filter is well formed exactly when every level is plain, a lone `+`, or a lone `#` at the end |
| MqttManager.ConnectedMeansBoth | mqtt_manager/src/mqtt_manager.c:57-60 | connected means the last client event was CONNECTED and the last link event seen was UP |
| MqttManager.SubscribedExceptMissed | mqtt_manager/src/mqtt_manager.c:78-90 | in a session every registered filter is subscribed except exactly those registered while the session was up and the link down |
| MqttManager.MissedUntilNextSession | mqtt_manager/src/mqtt_manager.c:316-322 | such a filter stays unsubscribed over every continuation without a new session, and a new session subscribes it |
| MqttManager.RegisteredLinkDown | mqtt_manager/src/mqtt_manager.c:316-322 | registering a filter misses it exactly in a session while the link is down |
| MqttManager.MissedThoughConnected | mqtt_manager/src/mqtt_manager.c:57-60 | the link's return reports a connection with the filter still unsubscribed |
| MqttManager.Manager.OnConnected | mqtt_manager/src/mqtt_manager.c:125-130 | a new session subscribes every registered filter |
| MqttManager.Manager.OnLinkUp | mqtt_manager/src/mqtt_manager.c:163-170 | a link that comes up starts a client that is not running |
| MqttManager.Manager.OnLinkDown | mqtt_manager/src/mqtt_manager.c:172-184 | a link that goes down leaves the session flag alone |
| MqttManager.Manager.StartClient | mqtt_manager/src/mqtt_manager.c:191-273 | a second start is refused; otherwise the client runs at once exactly when the last link event seen was UP and it can start, so never on a first start |
| MqttManager.StartFollowsLastSeen | mqtt_manager/src/mqtt_manager.c:262-269 | a start goes by the last link event seen, however old |
| MqttManager.FirstStartWaits | mqtt_manager/README.md:81-96 | after a first start nothing runs until a link comes up, even if it is up already |
| MqttManager.StartMeetsPromise | mqtt_manager/README.md:81-96 | over any history of the network, watched or not, a client that can start runs exactly when the link was up as last seen, so the start does what it is for exactly when the link is now as it was last seen |
| MqttManager.LateStart | mqtt_manager/README.md:81-93 | a first start on a link that is up runs nothing |
| MqttManager.StaleStart | mqtt_manager/README.md:92-96 | a start after a stop runs on a link that is gone |
| MqttManager.RunsSinceSetOff | mqtt_manager/src/mqtt_manager.c:155-290 | in every run the client runs exactly when a link that came up, or a start on a link last seen up, has started it and no stop has come since |
| MqttManager.StoppedIsQuiet | mqtt_manager/src/mqtt_manager.c:275-294 | from a stop to the next start nothing runs and no connection is reported, whatever happens |
| MqttManager.Manager.StopClient | mqtt_manager/src/mqtt_manager.c:275-294 | a stop is refused without a client, and otherwise leaves neither client nor session nor anything running, although no event says so |
| MqttManager.Manager.RegisterFilter | mqtt_manager/src/mqtt_manager.c:296-323 | a filter is kept when it and the table allow, and subscribed at once exactly when connected |
| MqttManager.Manager.Connectivity | mqtt_manager/src/mqtt_manager.c:57-60 | what is reported is the last word of both sources |
| MqttManager.Manager.Dispatch | mqtt_manager/src/mqtt_manager.c:104-115 | exactly the handlers whose filters match are called, in order of registration |
| CliWeb.EachChunkFreedOnce | cli_web/src/cli_web.c:69-199 | in every interleaving each chunk has one owner or has been freed once, and after a stop every one has been freed |
| CliWeb.DeliveredInOrder | cli_web/src/cli_web.c:147-199 | what is delivered is an in-order subsequence of the pieces of the text produced |
| CliWeb.NothingLostUncounted | cli_web/src/cli_web.c:147-199 | between two starts, while the counter of dropped text stands at zero and no call is under way, every piece of every text has its chunk, in order |
| CliWeb.ChunksAreTheText | cli_web/src/cli_web.c:176-198 | together the pieces are the text |
| CliWeb.ChunksFit | cli_web/src/cli_web.c:176-198 | no piece is empty or longer than the limit, and only the last may be shorter |
| CliWeb.Web.OutputSink | cli_web/src/cli_web.c:147-199 | the sink, with the broadcaster and the server moving in between, always returns holding nothing; text from the delivery path itself is dropped |
| CliWeb.Web.QueuePieces | cli_web/src/cli_web.c:176-198 | the chunking loop ends with the text queued or given up, and no chunk in hand |
| CliWeb.Web.CopyPiece | cli_web/src/cli_web.c:177-186 | the next piece of the text becomes a new chunk in hand, or the call gives up and is counted as dropped |
| CliWeb.Web.QueuePiece | cli_web/src/cli_web.c:190-198 | with room the chunk goes to the end of the queue and the other pieces remain; without, it is freed and the call gives up |
| CliWeb.Web.Broadcast | cli_web/src/cli_web.c:110-133 | one move of the broadcaster: the chunk it holds goes to the server or, refused, is freed; or the oldest item is taken from the queue |
| CliWeb.Web.Serve | cli_web/src/cli_web.c:69-100 | one move of the server: the chunk it has sent is freed, delivered if anyone was connected; or the oldest accepted chunk is taken up |
| CliWeb.Web.StopBroadcaster | cli_web/src/cli_web.c:267-290 | winding down ends, with the queue empty and everything freed that is not with the server |
| CliWeb.Web.Start | cli_web/src/cli_web.c:351-375 | a start that fails on the way winds down what it began |
| CliWeb.Web.Stop | cli_web/src/cli_web.c:390-399 | a stop leaves nothing queued and nothing unfreed but what the server has |
| CliWeb.StepIsOrderly | cli_web/src/cli_web.c:267-290 | the stop sentinel is the last thing queued, so a finished broadcaster leaves an empty queue |
| CliWeb.StepKeepsOwners | cli_web/src/cli_web.c:69-199 | every step keeps each chunk with one owner or freed once |
| CliWeb.StepKeepsText | cli_web/src/cli_web.c:176-198 | every step keeps each chunk's bytes those of its piece, in order |
| HttpAuth.DecodeEncode | http_server/src/http_auth.c:10-53 | decoding the output gives the input back, for every byte string |
| HttpAuth.EncodeDecode | http_server/src/http_auth.c:7-53 | the strict decoder accepts nothing but what the encoder produces |
| HttpAuth.Base64 | http_server/src/http_auth.c:10-53 | the encoding and its terminator are written, four characters for every three bytes, or refused exactly when they do not fit |
| HttpAuth.EncodeHasNoTerminator | http_server/src/http_auth.c:51 | the encoding contains no terminator of its own |
| HttpAuth.ExpectedHeader | http_server/src/http_auth.c:55-81 | the header is built exactly when the credentials have fewer than 128 bytes and the result fits its buffer |
| HttpAuth.HeaderMatches | http_server/src/http_auth.c:83-107 | the fixed pass over every byte decides string equality |
| HttpAuth.HeadersAgree | http_server/src/http_auth.c:55-81 | built headers agree exactly when the `user:password` strings do, and without a colon in a user's name exactly when both parts do |
| HttpAuth.ColonInUserIsAmbiguous | http_server/src/http_auth.c:62-66 | with one, two different pairs can share a header |
| HttpAuth.GroupIsNumber | http_server/src/http_auth.c:20-50 | a group is three bytes as one number, highest first, in four digits of the alphabet, a shorter one padded |
| HttpAuth.AlphabetIsPublished | http_server/src/http_auth.c:7-8 | the alphabet of RFC 4648: capitals, small letters, digits, `+` and `/` |
| HttpAuth.PublishedVectors | http_server/src/http_auth.c:10-53 | three test vectors of section 10 of RFC 4648, one for each padding |
| HttpAuth.KnownHeader | http_server/src/http_auth.c:55-81 | the header for the user `a` and the password `b`, character by character |
| Statistics.Average | hx711/src/hx711.c:349-396 | the one-pass loop reports the mean, the squared standard error, the extremes and the count that two passes over the batch would, or how far it got |
| Statistics.SquaresMove | hx711/src/hx711.c:370-373 | one step of the accumulated moment is the change of the summed squared distances |
| Statistics.MeanBetween | hx711/src/hx711.c:383-386 | the mean lies between the extremes |
| Statistics.ErrorVanishes | hx711/src/hx711.c:388-396 | the error is zero exactly for readings that are all the same |
| Statistics.ErrorIsSpread | hx711/src/hx711.c:388-396 | the squared error is what every two of the n readings differ by, squared and summed, over n * n * (n - 1): no mean in it |
| Statistics.TwoReadings | hx711/src/hx711.c:383-396 | of two readings the mean is half their sum and the error half their difference |
| LoadCell.CalibrationHolds | hx711/src/hx711_scale.c:93-144 | an accepted calibration with any spread is good to ten percent and converts its own batch back to the known mass |
| LoadCell.CalibrationExactly | hx711/src/hx711_scale.c:93-144 | in terms of the two batches: too few exactly when either has fewer than two readings, within the noise exactly when their means differ by less than ten times both errors together, otherwise the factor times the known mass is that difference |
| LoadCell.UnitsInProportion | nau7802/src/nau7802_scale.c:175-230 | so many factors of counts above the tare are so many units |
| LoadCell.TruncatedExactly | hx711/src/hx711_scale.c:69-71 | a truncated tare is the whole number next to the mean on the side of zero |
| LoadCell.ZeroFactor | hx711/src/hx711_scale.c:123-132 | an accepted factor is zero exactly when neither batch has any spread and nothing moved |
| LoadCell.ZeroFactorReadings | nau7802/src/nau7802_scale.c:117-167 | in terms of the readings, truncated tare or not |
| LoadCell.StuckGuard | hx711/src/hx711.c:406-417 | refusing batches of four or more identical readings leaves only batches of two or three |
| LoadCell.TareReadsZero | hx711/src/hx711_scale.c:69-71 | the tare's own batch reads zero, or with a truncated tare less than a count |
| LoadCell.ScaleFollowsMode | hx711/src/hx711.c:441-482 | a mode change leaves no scale of another mode than the one it was measured at exactly when there is none, that mode is asked for, or a real change settles |
| LoadCell.ChangesDropScale | hx711/src/hx711.c:441-482 | over any calls, settling or failing, the mode is the last asked for and the scale is gone exactly when one of them was a settled real change |
| LoadCell.ScaleFollowsChanges | hx711/src/hx711.c:426-440 | so over any calls a scale fits exactly when there was none, one of them was a settled real change, or the last mode asked for is the one it was measured at |
| LoadCell.RetryKeepsStaleScale | hx711/src/hx711.c:441-482 | asking again after a failed settling does not drop it |
| Nau7802.Driver.SetGain | nau7802/src/nau7802.c:889-897 | sets only the gain, every other configured bit and the regulator voltage kept, drops the scale when it does, and refuses exactly an undefined code; success is paid for as `SetField` says |
| Nau7802.Driver.SetRate | nau7802/src/nau7802.c:910-921 | sets only the rate, every other configured bit and the regulator voltage kept, drops the scale when it does, and refuses exactly the undefined codes; success is paid for as `SetField` says |
| Nau7802.Driver.SetChannel | nau7802/src/nau7802.c:934-939 | sets only the channel, every other configured bit and the regulator voltage kept, and drops the scale when it does; success is paid for as `SetField` says |
| Nau7802.Driver.SetLdomode | nau7802/src/nau7802.c:952-958 | sets only the compensation mode, every other configured bit and the regulator voltage kept, and drops the scale when it does; success is paid for as `SetField` says |
| Nau7802.Driver.SetPgaCap | nau7802/src/nau7802.c:971-976 | sets only the filter capacitor, every other configured bit and the regulator voltage kept, and drops the scale when it does; success is paid for as `SetField` says |
| Nau7802.Driver.SetField | nau7802/src/nau7802.c:850-865 | the register is changed with every other configured bit kept, or nothing is; success means the register read and written back, then a calibration without error, conversions running and four new conversions thrown away, in that order on the bus |
| Nau7802.Driver.UpdateReg | nau7802/src/nau7802.c:134-145 | read, clear, set and write back, or leave as it was; both transfers are on the bus or the last one failed |
| Nau7802.Driver.ApplyAnalogChange | nau7802/src/nau7802.c:526-566 | the scale is dropped whatever follows, no configured bit changes, and success means every cost was borne |
| Nau7802.Driver.RunCalibration | nau7802/src/nau7802.c:435-463 | a calibration changes no configured bit; success means it was asked for with the old error cleared, was polled to its end and showed no error, failure that it showed one |
| Nau7802.Driver.BringUp | nau7802/src/nau7802.c:669-841 | ready exactly on success, at the requested gain, the reset rate and channel, the chopper off and only a supplied factor; the regulator is never on at another voltage than the one asked for; on the bus the part answered, was reset, woke, was configured, calibrated and settled by three conversions, in that order |
| Nau7802.Driver.ReadRaw | nau7802/src/nau7802.c:324-353 | a reading is the last transfer's three bytes, highest first, as a signed number, and the part had just said that it was ready |
| Nau7802.Driver.WaitForBit | nau7802/src/nau7802.c:168-184 | a status bit is polled until it has the wanted value, for exactly one read more than the timeout has tens of milliseconds |
| Nau7802.SignedExactly | nau7802/src/nau7802.c:343-349 | a conversion is the one signed 24-bit number that agrees with its three bytes |
| Nau7802.OneMoreResult | nau7802/src/nau7802.c:316-353 | each conversion read after the part said that it was ready is one new result, whatever was polled before |
| Nau7802.Driver.Tare | nau7802/src/nau7802_scale.c:61-80 | the tare is the mean and error of the batch heard on the bus, each reading new, captured at the present setting, or nothing changes |
| Nau7802.Driver.CalibrateWith | nau7802/src/nau7802_scale.c:82-173 | the batch heard on the bus decides: too few, within the noise, or a factor measured at the present setting; otherwise nothing changes |
| Nau7802.Driver.SetScale | nau7802/src/nau7802_scale.c:31-59 | a supplied factor is taken exactly when not zero and the part is up |
| Nau7802.Driver.Weigh | nau7802/src/nau7802_scale.c:175-230 | a weight is of the batch heard on the bus and uses a tare and a measured factor of the present setting only |
| Nau7802.Driver.Session | nau7802/src/nau7802.c:526-566 | in any session, any transfer failing, no tare and no measured factor outlives the setting it was captured at |
| Nau7802.KeptFacts | nau7802/src/nau7802.c:134-145 | registers that agree in their configured bits agree in gain, rate, channel, modes and regulator |
| InaCalibration.FullScaleIsClose | ina219/src/ina219_calc.c:42-83 | the full scale is within a hundred-thousandth of the one asked for and above it by less than the last register step, on both parts |
| InaCalibration.ReportedIsRegister | ina219/src/ina219_calc.c:71-81 | every reported figure from the register value alone: the current step answers the part's equation, the full scale is 32768 of them, and a power count is worth 20 or 25 of them |
| InaCalibration.AcceptedExactly | ina226/src/ina226_calc.c:41-75 | a request is accepted exactly when both figures are positive and the shunt voltage it asks for is within the input's range and above what the register can answer |
| InaCalibration.WorkedExample | ina226/test/test_ina226_calc.c:212-220 | the data sheet's example: 32.768 A over 2 milliohms gives 2560, 1 mA and 25 mW a count |
| InaCalibration.RecomputeReproduces | ina226/src/ina226_calc.c:41-87 | computing again from the reported full scale gives the same result exactly from register value 4194 (INA219) or 2048 (INA226) on |
| InaCalibration.RequestReproduces | ina226/src/ina226_calc.c:41-87 | and in terms of the request, exactly up to a product of current and shunt of 320.0263 mV or 81.9208 mV |
| InaCalibration.MinimumNeverBinds | ina219/src/ina219_calc.c:13-21 | the shunt limit already keeps the register far above its minimum |
| InaCalibration.SlackIsNotReproducible | ina219/src/ina219_calc.c:56-59 | an accepted range whose own reported full scale is refused |
| Ota.SplitDoesNotMatter | ota/src/ota.c:161-195 | the verdict depends only on the bytes, an accepted image is written whole and in order, a refused one only up to the chunk that completed its header |
| Ota.VerdictExactly | ota/src/ota.c:115-159 | in terms of the decoded fields: no image exactly for a wrong magic, another project's exactly when it is an image and a required project is not its own |
| Ota.FeedIsVerdict | ota/src/ota.c:115-195 | feeding any split gives the header's verdict once the header is complete |
| Ota.Session.WriteChunk | ota/src/ota.c:161-195 | one chunk: header bytes taken and checked once complete, data written through |
| Ota.Session.TakeHeader | ota/src/ota.c:170-184 | the header is the first bytes handed over and is checked exactly once, against the verdict of its fields |
| Ota.Session.End | ota/src/ota.c:197-232 | the image is selected for boot exactly when the first bytes have both magics and no other project than the one required, and the platform agrees, whatever the caller ignored; each error exactly |
| Ota.Session.UploadAll | ota/src/ota.c:161-232 | over any split, a whole upload boots exactly when its header has both magics and no other project than the one required and the platform agrees, flash then holding it whole; each error exactly |
| Ota.RefusedImageKeepsWriting | ota/src/ota.c:172-189 | after any refused header a chunk still reaches flash exactly when it is not empty and the platform writes it, and only the platform's own error is reported |
| Ota.RefusedForGood | ota/src/ota.c:161-195 | however a caller goes on after a refusal, flash grows by exactly the later chunks the platform writes, and the verdict stays |
| Ota.Session.InsistAndEnd | ota/src/ota.c:197-232 | and the session then ends as truncated, never selecting the image |

## Left out

- Js2cStrictness.StrictExactly: a union's share of the condition speaks of its documents, since one option may take strictly what another takes loosely (`StricterOptionHides`).
- Js2cSections.SectionsCompose: values are compared up to slice positions where no default names a slice, since a raw value has no default; for an owner that wants a scalar, a scalar section is not compared.
- The text of leaf values: number, boolean, string and enum parsers accept or reject one token's text and are parameters; custom parser and default functions, C type declarations and error messages are not modelled.
- jsmn's counting mode without a token array, and `JSMN_PARENT_LINKS`, which this build does not use.
- Schema file loading, path authorization and `allOf` merging; a raw value as a union option or as the root, which the generated C would not compile.
- A derived sections parser accepts unknown keys at every level and drops an authored token headroom; the model states both but bounds no document with unknown keys.
- Js2cEndToEnd.PlainFits: does not bound documents with unknown keys or composite raw values; the source leaves those to a configured headroom.
- ConfigStore: a path that is not a regular file, and the scheduled restart.
- IntDispatch.NoLostInterrupt: notification counts do not wrap at 32 bits; a handler is any step that clears some parts.
- WifiManager: stop, access-point mode, reachability pings, link counters, stored networks, and non-atomic interleavings inside one handler.
- WifiManager.DelaysOnlyGrow: stated while the 32-bit attempt counter does not wrap, which would take over a century of retries.
- MqttManager: publishing, the will, and topic building (`mqtt_topic_build`); a filter arrives built or as not fitting.
- CliWeb: the web server itself, its pages, and the direction from the browser to the shell.
- HttpAuth.HeaderMatches: equality only, not the time taken; lengths stay below the size type's limit.
- LoadCell: NaN and infinities, saturation reports, and the uncertainty reported with a weight; rounding throughout.
- Nau7802: the DRDY pin, re-pointing the driver at another bus device, status reports and the register dump.
- Ota: the layout of the platform's image header, rollback and reboot.
- InaCalibration: rounding, non-finite arguments and the register conversions.
- The port expander, temperature, clock and other power-monitor drivers, the shell, serial, mDNS, time and page-serving components: short facts over unseen libraries.
