# EIP-712 type generation for multi-message payloads

This project is a Dafny model of the evmosjs generator that builds the
EIP-712 `types` table for a payload of Cosmos messages (`eip712Types`,
fed by `createEIP712Types` in the test suite). The payload holds messages
in slots `msg0`, `msg1`, … up to a declared count. For each message the
generator does four things:

- It walks the message object and builds one struct type per JSON object.
  Fields are sorted by key. Each value is typed: a string is `string`, a
  number is `int64`, a boolean is `bool`, `[]` is `string[]`, `[x, …]` is
  the type of `x` followed by `[]`, and a nested object is its own struct.
- It names each struct from its position. The message root is `Type`
  followed by the part of the `type` URL after its last `/`. The `value`
  object is `TypeValue`. The object under key `k` of a struct with path `P`
  is `P` followed by `k` with its first letter capitalised. An array of
  objects under key `k` is typed by its first element, so its element
  struct gets that same name `P` + capitalised `k` (plus suffix), followed
  by `[]`.
- It registers each struct in a dedup table under the first suffix
  `0, 1, …` below the duplicate ceiling `MAX_DUPL_TYPEDEFS` whose slot is
  free or already holds the identical definition.
- It appends `{name: "msg<i>", type: <root>}` to the base table's `Tx`
  type.

Failures abort the whole call:
- a slot that is missing or not a message (`MalformedPayload`);
- a null, or an array whose first element is an array, wherever the walk
  reaches; elements after an array's first are never inspected
  (`UnsupportedShape`);
- a base name whose suffixes are all taken by other definitions (`DuplicateCapacity`).

Modules, one concept each:

| file | module | what it holds |
|---|---|---|
| outcomes.dfy | `Outcomes` | `Option`, `Result` with `:-` support, the three errors |
| strings.dfy | `Strings` | code-point order `LexLess`, decimal `Dec`, `Capitalize`, `LastSegment` |
| json.dfy | `JsonValues` | the JSON datatype and property lookup |
| keysort.dfy | `KeySort` | sorting object entries by key |
| schema.dfy | `Eip712Schema` | fields, the types table, and what it means for a value to conform to a type |
| registry.dfy | `TypeRegistry` | the suffix search and dedup registration |
| messagetypes.dfy | `MessageTypes` | the recursive walk: value typing and struct building |
| payload.dfy | `PayloadTypes` | the per-slot driver and the merge into the base table |
| cases.dfy | `CreateTypesCases` | the suite's payload builder and MsgSend fixture, with reusable step lemmas |
| scenarios.dfy, variabletypes.dfy, errors.dfy, capacity.dfy | one module each | each test case of the suite, stated as the exact result |

The implementation modules (`./createTypes`, `./createTypes/parsePayload`,
`./createTypes/parseMessage`, `../common`) are not part of this model.
Its behaviour is taken from the test suite `createTypes.spec.ts`, and the
model reproduces exactly what that suite expects. Where the suite leaves a
choice open, the model's choice is listed under "## Left out".

The suite alone shows that the root struct is built from every key of the
message object, not only from `type` and `value`. The ceiling test (lines
343-355) makes its messages distinct only through an extra top-level key
`<i>`, so the call can reach the ceiling only if that key enters the root
struct. The nested-array test (lines 357-362) places `[[0]]` under an extra
top-level key `2DArray`, so the call can throw only if that key is walked.

## Model

| member | source | states |
|---|---|---|
| CreateTypesCases.PayloadOf | packages/eip712/src/payload/createTypes.spec.ts:9-24 | the payload stores message `i` under key `msg<i>` for every index of the list |
| PayloadTypes.MsgFieldInjective | packages/eip712/src/payload/createTypes.spec.ts:13-16 | distinct indices give distinct slot keys, so no message overwrites another |
| Strings.DecInjective | packages/eip712/src/payload/createTypes.spec.ts:124-132 | the decimal rendering used for `msg<i>` keys and type suffixes is injective |
| Strings.Capitalize | packages/eip712/src/payload/createTypes.spec.ts:265-310 | a key's first lower-case ASCII letter is raised by 32 code points; the length and the rest of the key are unchanged; any other key is returned unchanged (`object` gives `TypeValueObject0`) |
| Strings.LastSegment | packages/eip712/src/payload/createTypes.spec.ts:258-281 | the result is a suffix of the label with no `/`, and the character before it, if any, is `/` (`TestMsg` gives root `TypeTestMsg0`) |
| KeySort.SortByKey | packages/eip712/src/payload/createTypes.spec.ts:258-312 | the result is a permutation of the entries, in non-decreasing key order, strictly increasing when keys are unique |
| KeySort.SortByKeyOrderIndependent | packages/eip712/src/payload/createTypes.spec.ts:258-312 | two declaration orders of the same entries with unique keys sort to the same sequence |
| KeySort.SortByKeyIs | packages/eip712/src/payload/createTypes.spec.ts:291-312 | any strictly key-sorted permutation of the entries is exactly the sort's result |
| TypeRegistry.FindSlot | packages/eip712/src/payload/createTypes.spec.ts:171-255 | a returned suffix is below the ceiling and free or matching, and every suffix before it holds a different definition; with no result every suffix below the ceiling is taken |
| TypeRegistry.Register | packages/eip712/src/payload/createTypes.spec.ts:120-255 | fails exactly when every suffix below the ceiling holds a different definition, with `DuplicateCapacity` of the base; on success the name is the first free or matching slot, it now holds the definition, and every earlier entry is kept |
| TypeRegistry.RegisterAt | packages/eip712/src/payload/createTypes.spec.ts:222-251 | when slot `k` is the first free or matching one, registration lands exactly at `<base><k>` |
| TypeRegistry.RegisterIdempotent | packages/eip712/src/payload/createTypes.spec.ts:120-169 | registering a definition a second time returns the same name and leaves the table as it was |
| MessageTypes.BuildFields | packages/eip712/src/payload/createTypes.spec.ts:291-312 | one field per entry, in the entries' order and under their keys, and the table only grows |
| MessageTypes.TypeOfValueSound | packages/eip712/src/payload/createTypes.spec.ts:257-322 | the type returned for a value describes it under the resulting table (primitive, `T[]` from the first element, or a struct whose fields describe the object), it resolves, and the table stays closed and field-sorted |
| MessageTypes.BuildStructSound | packages/eip712/src/payload/createTypes.spec.ts:84-115 | the registered struct is in the table, is not an array type, and its fields describe the object one key each; the table stays closed and sorted |
| MessageTypes.TypeOfValueShape | packages/eip712/src/payload/createTypes.spec.ts:357-362 | a value holding a null, or an array whose first element is an array, wherever the walk reaches (elements after an array's first are never inspected) fails; a typing error is either `UnsupportedShape`, which only such a value causes, or `DuplicateCapacity` |
| MessageTypes.BuildStructShape | packages/eip712/src/payload/createTypes.spec.ts:357-362 | the same two-way link between such content and failure for a whole object |
| MessageTypes.BuildStructReuse | packages/eip712/src/payload/createTypes.spec.ts:120-169 | building an object again over any table that extends the first result returns the same name and adds nothing |
| MessageTypes.TypeOfValueReuse | packages/eip712/src/payload/createTypes.spec.ts:120-169 | the same reuse property for a single value |
| MessageTypes.BuildStructOrderIndependent | packages/eip712/src/payload/createTypes.spec.ts:258-268 | the generated types do not depend on the order in which the object declares its keys; this holds because the model walks children in sorted key order, its own choice listed under `MessageTypes.BuildStruct` in "## Left out" |
| MessageTypes.BuildStructNames | packages/eip712/src/payload/createTypes.spec.ts:84-115 | every name the walk registers starts with the prefix its base and path share |
| MessageTypes.BuildStructSlot | packages/eip712/src/payload/createTypes.spec.ts:84-115 | a registered struct's name is its base followed by a suffix below the ceiling, and the name is in the table |
| MessageTypes.BuildFieldsChildNames | packages/eip712/src/payload/createTypes.spec.ts:95-115 | the field of every object-valued entry is typed the path followed by the capitalised key and a suffix below the ceiling |
| MessageTypes.BuildStructChildNamed | packages/eip712/src/payload/createTypes.spec.ts:308-318 | for every object under key `k`, the built struct holds a field `k` typed the path followed by `k` capitalised and a suffix below the ceiling (`object` gives `TypeValueObject<n>`) |
| Eip712Schema.ConformsMonotone | packages/eip712/src/payload/createTypes.spec.ts:222-251 | registering later structs never breaks a description that already holds |
| PayloadTypes.AddMessage | packages/eip712/src/payload/createTypes.spec.ts:326-341 | a slot is accepted only if present and well-formed, otherwise the error names the slot; on success the table only grows and exactly one field `msg<i>` is appended to the earlier ones |
| PayloadTypes.Generate | packages/eip712/src/payload/createTypes.spec.ts:124-133 | a successful run has one `Tx` field per slot, field `i` named `msg<i>`, and every slot present |
| PayloadTypes.Eip712Types | packages/eip712/src/payload/createTypes.spec.ts:44-64 | succeeds exactly when the run does, with its error otherwise; the result has the base names plus the generated ones, `Tx` is the base `Tx` with the message fields appended, every generated struct is as generated, and every other base type is untouched |
| PayloadTypes.GeneratedNames | packages/eip712/src/payload/createTypes.spec.ts:44-54 | every generated name starts with `Type`, so the merge can never overwrite `Tx` |
| PayloadTypes.GenerateSound | packages/eip712/src/payload/createTypes.spec.ts:70-322 | after a successful run the table is closed and field-sorted, and every message conforms to the struct its `Tx` field names |
| PayloadTypes.GeneratePrefix | packages/eip712/src/payload/createTypes.spec.ts:180-255 | a successful run succeeded on every prefix of the slots; the longer run keeps the shorter one's types and `Tx` fields |
| PayloadTypes.GenerateStops | packages/eip712/src/payload/createTypes.spec.ts:325-362 | once a run fails, every longer run fails with the same error |
| PayloadTypes.MalformedStops | packages/eip712/src/payload/createTypes.spec.ts:326-341 | a malformed slot after a successful prefix is the error of every run that reaches it |
| PayloadTypes.MalformedOnlyFromSlot | packages/eip712/src/payload/createTypes.spec.ts:326-341 | conversely, a `MalformedPayload` error always names a slot `msg<i>`, `i < n`, that is missing or malformed while every slot before it succeeded; a well-formed slot never causes it |
| PayloadTypes.MessageTypeNamed | packages/eip712/src/payload/createTypes.spec.ts:77-93 | in a successful run, message `i` is present and well-formed, its `Tx` field names a registered struct called `Type` followed by the last segment of its typeUrl and a suffix below the ceiling, and that struct has a field `value` typed `TypeValue<n>` |
| PayloadTypes.IdenticalMessagesShareType | packages/eip712/src/payload/createTypes.spec.ts:120-133 | two identical messages anywhere in a successful run get the same root type |
| PayloadTypes.IdenticalMessageAddsNoType | packages/eip712/src/payload/createTypes.spec.ts:120-169 | a message identical to an earlier one adds no type to the table |
| MsgSendScenarios.SingleMessage | packages/eip712/src/payload/createTypes.spec.ts:71-117 | one MsgSend gives exactly `Tx` plus `msg0: TypeMsgSend0` and the three structs `TypeMsgSend0`, `TypeValue0`, `TypeValueAmount0` with the listed fields |
| MsgSendScenarios.IdenticalDuplicates | packages/eip712/src/payload/createTypes.spec.ts:120-169 | two identical MsgSends both map to `TypeMsgSend0`, and the table is the single-message one |
| MsgSendScenarios.NonIdenticalDuplicates | packages/eip712/src/payload/createTypes.spec.ts:171-255 | a numeric amount in the second message moves it and both its ancestors to suffix 1, and the suffix-0 structs are unchanged |
| VariableTypesScenario.AllVariableTypes | packages/eip712/src/payload/createTypes.spec.ts:257-322 | the message gives exactly `msg0: TypeTestMsg0`, a `TypeValue0` whose fields are `boolean: bool`, `emptyArray: string[]`, `int64Array: int64[]`, `number: int64` and `object: TypeValueObject0` in that key order, and a `TypeValueObject0` with one `string` field |
| ErrorScenarios.MalformedSingle | packages/eip712/src/payload/createTypes.spec.ts:326-341 | any single message that is not an object with a non-empty string `type` and an object `value` is rejected as malformed slot `msg0` |
| ErrorScenarios.MalformedPayloads | packages/eip712/src/payload/createTypes.spec.ts:326-341 | `{}`, `{key: 'value'}` and `{msgs: {key: 'value'}}` are each rejected as malformed slot `msg0` |
| CapacityScenario.CapacityReached | packages/eip712/src/payload/createTypes.spec.ts:343-355 | with `MAX_DUPL_TYPEDEFS + 1` MsgSends each made distinct by its own index key, the first ceiling-many succeed and the whole call fails with `DuplicateCapacity` of `TypeMsgSend` |
| CapacityScenario.CeilingHit | packages/eip712/src/payload/createTypes.spec.ts:343-355 | over any payload holding `MAX_DUPL_TYPEDEFS + 1` indexed MsgSends, the first ceiling-many give `Tx` fields `msg<j>: TypeMsgSend<j>` in order, and the next one fails with `DuplicateCapacity` of `TypeMsgSend` |
| CapacityScenario.IndexedTableFacts | packages/eip712/src/payload/createTypes.spec.ts:343-355 | after `k` indexed messages, slot `j < k` of `TypeMsgSend` holds message `j`'s root, every later slot is free, and the shared `value` structs are present |
| CapacityScenario.IndexedRun | packages/eip712/src/payload/createTypes.spec.ts:343-355 | when every slot below `k` adds the next root slot to the run, `k` slots give the `k`-th table and `Tx` fields `msg<j>: TypeMsgSend<j>` in order |
| ErrorScenarios.TwoDArrayRejected | packages/eip712/src/payload/createTypes.spec.ts:357-362 | a MsgSend with a top-level `[[0]]` entry is rejected with `UnsupportedShape` |

## Left out

- The implementation modules `./createTypes`, `./createTypes/parsePayload`, `./createTypes/parseMessage` and `../common` are not part of this model. Their behaviour is reconstructed from the expectations of the test suite.
- `createBaseTypes()` is a base table given as a parameter. Its contents are not shown, and the model assumes only that it has a `Tx` entry.
- `payloadMsgFieldForIndex` is modelled as `"msg"` followed by the decimal index, which is the only form the suite shows.
- `MAX_DUPL_TYPEDEFS` is the parameter `max`, because its value is not shown.
- The `TestUtils` values (type URL, address, amount, denom) are arbitrary strings. The only assumption is that the type URL's last `/`-segment is `MsgSend`.
- JSON numbers are unbounded integers that are all typed `int64`. Floating point and precision loss are not modelled.
- Null values are rejected as `UnsupportedShape`. The suite shows no null.
- An array is typed by its first element only, and an empty array is `string[]`. Heterogeneous arrays are not checked further.
- `Capitalize` raises only a leading ASCII lower-case letter. Other Unicode case mappings and UTF-16 are not modelled.
- A message slot is well-formed when it is an object with a non-empty string `type` and an object `value`. The suite's three malformed inputs all lack `type`. The model also rejects a slot whose `value` is missing or not an object; the suite shows no such input, so this is the model's choice.
- Strings.LexLess: keys are sorted in code-point order. This agrees with the UTF-16 code-unit order of JavaScript's default `sort` except for keys holding a character above U+FFFF, which JavaScript places before the characters U+E000 to U+FFFF; such keys are not modelled. The enumeration order a JavaScript engine gives integer-like keys does not matter, because fields are sorted.
- EIP-712 hashing, the domain separator, signing, and the key order of the returned JavaScript object are not modelled. The table is a map, and its key order is invisible to the suite's strict equality.
- The `console.log` call, the `JSON.parse(JSON.stringify(…))` deep copies, and the test runner are plumbing and are not modelled.
- MessageTypes.TypeOfValue: its own contract states only that the table grows. What the returned type means is stated by `TypeOfValueSound`, `TypeOfValueShape` and `TypeOfValueReuse`.
- MessageTypes.BuildStruct: its own contract states only that the table grows. What the returned name and table mean is stated by `BuildStructSound`, `BuildStructShape`, `BuildStructReuse`, `BuildStructOrderIndependent`, `BuildStructNames`, `BuildStructSlot` and `BuildStructChildNamed`. It walks an object's children in sorted key order, so nested structs are typed and registered in that order. This is the model's choice: the generator may instead walk keys in insertion order and sort only the field list at registration, and the suite does not tell the two apart. The two orders give different suffixes only when two different child definitions get the same base name. That happens with sibling keys that capitalise alike (`a` and `A`, where `{a: {x: ""}, A: {y: 0}}` gives `TypeValueA0 = [y: int64]` here, and the reverse in insertion order), or with keys on different levels whose paths meet (`aB`, and `b` under `a`, both give `TypeValueAB`). `BuildStructOrderIndependent` holds because of this choice.
- PayloadTypes.WellFormedMessage: a predicate with no contract of its own. Its meaning is stated by `AddMessage`, which accepts a slot only when it holds, and by `ErrorScenarios.MalformedSingle`. Its `value` rule goes beyond the suite, as the line on well-formed slots above says.
- PayloadTypes.RootTypeName: a name with no contract of its own. Its meaning is stated by `MessageTypeNamed` and `Strings.LastSegment`.
- PayloadTypes.Merge: the overlay of lines 48-51 of the suite, with no contract of its own. Its meaning is stated by `Eip712Types`.
- PayloadTypes.MsgField: a key with no contract of its own. Its meaning is stated by `MsgFieldInjective` and `Generate`.
