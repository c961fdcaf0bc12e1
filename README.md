# Cancelable-node JSON encoder and `OrderedDictionary`, in Dafny

This project models two pieces of Swiftlier:

- **The cancelable-node JSON encoder** of `Sources/JSON.swift`.
  - `BoxedValue` is the mutable cell that holds a `JSONValue`.
  - Its three writes (`set(_:forKey:)`, `append`, `set(singleValue:)`) move a cell from unset to a dictionary, an array or a scalar, and throw on a conflicting write.
  - The keyed, unkeyed and single-value containers route every `encode` call into one of those writes.
  - `BoxedValue.build` encodes a nested value into a fresh cell and cancels it (adds nothing) when the cell stays unset.
  - `jsonString` renders the tree, and `escape` is its string escaper.
- **`OrderedDictionary`** of `SwiftPlusPlus/OrderedDictionary.swift`: a dictionary whose `values` come in the order of each key's latest assignment.

## How it is modelled

| file | module | contents |
|---|---|---|
| `outcomes.dfy` | `Outcomes` | `Option`, `Result` and `Status` (pass or an error). |
| `json_text.dfy` | `JsonText` | The escaper over grapheme clusters, as a function and as the character loop of the source, and the per-scalar escaping JSON needs. Swift's decimal rendering of integers and the number syntax of RFC 8259. `joined(separator:)`. |
| `json_nodes.dfy` | `JsonNodes` | `JSONValue`, and the class `Box` for `BoxedValue` with its writes and `jsonString`. |
| `json_encoder.dfy` | `JsonEncoding` | The encoder, the three container classes, `build`, and an interpreter for client `encode(to:)` code. |
| `json_reader.dfy` | `JsonReading` | What the rendered text means: a denotation of a cell tree, a strict JSON reader, and the round trip between them, with the inputs for which it fails. |
| `ordered_dictionary.dfy` | `OrderedDictionaries` | The class `OrderedDictionary`, and its meaning as a history of assignments. |

**Cells and aliasing.**
- `Box` is a class: nested containers write into a cell that their parent already holds.
- Every cell of one encoding pass carries a ghost birth number. A ghost set `nodes` of the pass is threaded through every operation that allocates.
- `Closed(nodes)` says every child is in the set and younger than its parent. That is the acyclicity the source gets from only ever handing out fresh cells.

**Client values.**
- A client `Encodable` is a datatype: its kind (`Date`, `Data` or anything else) and the calls its `encode(to:)` makes, in order.
- Containers are named by handles, so a client can keep nested containers and write to them later, as Swift code can.
- `Cancels`, `Writes` and `WritesOwnCell` say which calls write into the cell of the encoder a value is given: a store through a container over that cell, or a nested-container request on one, other than of a value that is itself cancelled. Stores through a nested container write into the nested cell instead. A value is cancelled exactly when it is neither a `Date` nor `Data` and none of its calls writes (`Build`).
- Every `fatalError` the source can reach becomes a `Trapped` outcome of the interpreter:
  - converting a `UInt64` above `Int64.max` in the keyed container;
  - a failing store in `nestedContainer`;
  - a super encoder;
  - a nested container of an unkeyed or single-value container.
- The container methods themselves exclude these cases by preconditions.

**The platform.**
- Two things the source leaves to the Swift runtime are a parameter, `Platform`, of `jsonString` and of everything built on it.
- `order` is the order in which `compactMap` visits a `Dictionary`'s keys. Swift leaves it unspecified. The model fixes one order per key set. That is a simplification: Swift does not promise that two dictionaries with the same keys are visited alike. No property proved here depends on the order, and every one holds for all orders.
- `characters` splits a `String` into the `Character`s (grapheme clusters) that `for character in string` visits. Unicode's segmentation rules are not modelled; `IsPlatform` only demands that the clusters make up the string.

**The escaper works on grapheme clusters.**
- `escape` switches on whole `Character`s. A scalar is rewritten only when it forms a cluster of its own, or when the cluster is CR LF (`EscapeCharacter`).
- A `"` or `\` followed by a combining mark is one cluster that matches no case, so it is copied raw. The quote then ends the string early and the output is not JSON (`CombinedQuoteEndsString`).
- When no escaped scalar shares its cluster with another scalar (CR LF aside), the escaper writes exactly the per-scalar escaping `Escaped` of the string (`EscapeCharactersAsScalars`).

**The meaning of the text.**
- `Project` maps a cell to a JSON value, independent of order. Unset cells, and the keys and elements that hold them, are absent.
- `ParseValue` is a strict reader for the text the serializer writes, following sections 6 and 7 of RFC 8259: no whitespace, no `\u` escapes, no raw control characters inside strings, and numbers in the grammar of section 6.
- `JsonStringReadsBack` proves that the rendering of every tree reads back as its projection, when the tree is `Readable`:
  - every string and key has no control character other than backspace, tab, line feed and carriage return, since the others are written raw or, for U+0012, wrongly (`DeviceControlTwoReadsAsFormFeed`);
  - no escaped scalar of a string or key shares a grapheme cluster with another scalar (`CombinedQuoteEndsString`);
  - every `Double` and `Float` prints as a JSON number. Swift prints the non-finite values as `nan`, `-nan`, `snan`, `inf` and `-inf`, which are not JSON (`NaNUnreadable`, `InfinityUnreadable`).

**Where the code differs from JSON, the model follows the code.**
- **Form feed.** Section 7 of RFC 8259 writes the form feed U+000C as `\f`. The code's `"\u{12}"` case writes U+0012 as `\f` instead, and copies U+000C raw. A reader takes the `\f` for a form feed, and rejects the raw U+000C.

**Edge cases of the code that the model keeps.**
- **Second single-value write.** `set(singleValue:)` throws on any write to a cell that is already set, whatever the tags of the two values (`Box.SetSingleValue`).
- **Unset children.** A value that encodes nothing is never stored, but `nestedContainer` does store an unset cell under its key. If nobody writes to that cell, `jsonString` leaves the key out (`ReadKeysAreSetEntries`).

**When encoding succeeds.**
- `Consistent` names the scripts that cannot fail on an unset cell. No call traps, every nested value is itself consistent (`ConsistentValue`), and all calls that write into the encoder's own cell are keyed, or all are unkeyed, or there is one single-value write.
- Writes through nested containers never conflict: each nested cell is written through one container only, which keeps it unset or of that container's shape (`NestedShapes`).
- `Build`, `EncodeTo`, `Encoder.Encode` and the containers' `Encode` methods are proved to succeed on such inputs.

**What a script denotes.**
- `Encoded(e)` is the JSON value the calls of `e` stand for, computed from the calls alone, without cells. `Progress` replays the calls that reach each cell: a keyed store sets its key, an append adds an element, a single-value store sets the value, and a nested request puts a reference to the cell it made. `Contents` then resolves each reference to what the calls through that cell wrote, and leaves out anything still unset. `Built(v)` is the same, except for a `Date` or `Data`, which stands for its string.
- For a consistent script on an unset cell, `EncodeTo` is proved to leave the cell projecting to `Encoded(e)`. `Build` is proved to return a cell projecting to `Built(v)`, and the containers to store a cell projecting to it. The proof carries an invariant through the calls (`Tracks`): every cell a container views holds what the calls so far denote for it, and every finished cell is frozen.

## Model

| member | source | states |
|---|---|---|
| JsonNodes.Box.SetForKey | Sources/JSON.swift:188-198 | Succeeds exactly on an unset cell or a dictionary. On an unset cell it makes a one-entry dictionary. On a dictionary it inserts or overwrites that one key, leaving every other entry unchanged. On any other tag it throws the mixed-keys error and leaves the cell as it was. The tree stays closed. |
| JsonNodes.Box.SetValueForKey | Sources/JSON.swift:184-186 | Wraps the value in a fresh cell, then behaves as `SetForKey`. The key then holds a cell with that value, and the other entries are unchanged. |
| JsonNodes.Box.Append | Sources/JSON.swift:204-214 | Succeeds exactly on an unset cell or an array. On an unset cell it makes a one-element array. On an array it adds exactly one element at the end and keeps the prefix. On any other tag it throws the mixed-array error and leaves the cell as it was. |
| JsonNodes.Box.AppendValue | Sources/JSON.swift:200-202 | Wraps the value in a fresh cell, then behaves as `Append`. The new last element holds the value and the prefix is unchanged. |
| JsonNodes.Box.SetSingleValue | Sources/JSON.swift:216-223 | Succeeds exactly when the cell is unset, and then holds the value. Any second write throws the multiple-values error, whatever its tag, and leaves the cell as it was. |
| JsonNodes.Box.JsonString | Sources/JSON.swift:124-155 | The text is absent exactly for an unset cell. Otherwise it is non-empty and starts with a character that opens a JSON value. |
| JsonNodes.ItemStrings | Sources/JSON.swift:142-144 | The `compactMap` over an array's elements. It has no more texts than elements, and each text is a non-empty value text. |
| JsonNodes.EntryStrings | Sources/JSON.swift:145-153 | The `compactMap` over a dictionary's entries. It has no more texts than keys, and each text starts with the quote of its key. |
| JsonText.EscapeChar | Sources/JSON.swift:160-177 | The case table on one scalar: a scalar is rewritten exactly when it is one of the seven escaped scalars, and is then written as a backslash and one letter. |
| JsonText.EscapeCharacter | Sources/JSON.swift:159-179 | The `switch` on one `Character`: it is rewritten exactly when it matches one of the eight cases, a lone escaped scalar or CR LF, and is then a backslash-led text twice as long. A scalar inside a larger cluster matches no case. |
| JsonText.Escape | Sources/JSON.swift:157-182 | The loop over the string's characters builds exactly `EscapeCharacters`, each character's case output in order. |
| JsonText.EscapeCharactersLength | Sources/JSON.swift:157-182 | The output is as long as the input's scalars plus one for each scalar of a character that is rewritten, so it is never shorter. |
| JsonText.EscapeCharactersUnchanged | Sources/JSON.swift:157-182 | A string comes out unchanged if and only if none of its characters matches a case. |
| JsonText.EscapeCharactersConcat | Sources/JSON.swift:157-182 | Escaping the characters of two strings one after the other gives the two outputs concatenated. |
| JsonText.EscapeCharactersAsScalars | Sources/JSON.swift:157-182 | When every character is either a case of the switch or free of escaped scalars, the output is exactly the per-scalar escaping `Escaped` of the string's scalars. |
| JsonText.EscapedConcat | Sources/JSON.swift:160-177 | The per-scalar escaping, which the escaper equals under `EscapeCharactersAsScalars`, distributes over concatenation. |
| JsonText.EscapedLength | Sources/JSON.swift:160-177 | The per-scalar escaping adds exactly one character per escaped scalar. |
| JsonText.EscapedUnchanged | Sources/JSON.swift:160-177 | The per-scalar escaping leaves a string unchanged if and only if it has none of the seven escaped scalars. |
| JsonText.CarriageReturnLineFeed | Sources/JSON.swift:167-170 | The per-scalar escaping of CR followed by LF is `\r\n`, the output of the source's `"\r\n"` cluster case, so that case agrees with escaping by scalar. |
| JsonText.DecimalText | Sources/JSON.swift:134-137 | `"\(integer)"` is a decimal numeral with no leading zero. It starts with `-` exactly for a negative number. |
| JsonText.DecimalRoundTrip | Sources/JSON.swift:134-137 | Reading back the decimal text of an integer gives the integer. |
| JsonText.DecimalIsJsonNumber | Sources/JSON.swift:134-137 | The decimal text of an integer is a number in the grammar of section 6 of RFC 8259. |
| JsonText.JoinCons | Sources/JSON.swift:144 | `joined(separator:)` of one more part in front puts that part and a separator first. |
| Encodables.KeyedScalarValue | Sources/JSON.swift:236-250 | The keyed container's scalar overloads store unsigned integers under the signed `.integer` tag, so they never store `.unsignedInteger`. They require the value to fit `Int64`, as `Int64(_)` does. The generic `encode(_:forKey:)` is different: it builds the value, whose own `encode(to:)` goes through a single-value container and keeps `.unsignedInteger`. |
| Encodables.ScalarValue | Sources/JSON.swift:309-323 | The unkeyed and single-value containers store a value under `.unsignedInteger` exactly when it is unsigned. |
| JsonEncoding.Encoder.Container | Sources/JSON.swift:70-72 | `container(keyedBy:)` returns a new keyed container over the encoder's own cell. |
| JsonEncoding.Encoder.UnkeyedContainer | Sources/JSON.swift:74-76 | `unkeyedContainer()` returns a new unkeyed container over the encoder's own cell. |
| JsonEncoding.Encoder.SingleValueContainer | Sources/JSON.swift:78-80 | `singleValueContainer()` returns a new single-value container over the encoder's own cell. |
| JsonEncoding.Encoder.Encode | Sources/JSON.swift:58-64 | Runs the client's `encode(to:)`. A consistent script on an unset root succeeds, and the root then projects to `Encoded(e)`, the JSON value the calls denote. The text is then empty exactly when that value is absent, and for a readable tree it reads back as that value. On any success the text is empty exactly when the root cell was unset and none of the client's calls writes into it. Otherwise it is the root's `jsonString`, and for a readable tree it reads back as the root's projection. |
| JsonEncoding.EncodeTo | Sources/JSON.swift:58-59 | Performs a client's calls in order. An empty script succeeds, and so does a consistent script on an unset cell. The cell then projects to `Encoded(e)`, the JSON value the calls denote, computed from the calls alone. When all calls succeed, the encoder's cell is exactly as before if no call writes into it, and is set if one does. It writes only that cell and cells allocated during the pass, and keeps the tree closed. |
| JsonEncoding.Step | Sources/JSON.swift:58-59 | One call of the script, made on the containers held after the calls before it. It keeps them matched with the handles, and leaves the encoder's cell as it was unless the call writes into it, and set if it does. In a consistent script on an unset cell it succeeds, and afterwards every cell still denotes what the calls so far denote for it (`Tracks`). |
| JsonEncoding.LiveProject | Sources/JSON.swift:267-287 | Once the calls are done, the encoder's cell and every nested cell a request stored under a key each project to what the calls denote for that cell (`Contents`). So what a client writes through a nested container after the request is what the key ends up holding. |
| JsonEncoding.TrackedProject | Sources/JSON.swift:58-59 | Once the calls are done, a cell that tracked them projects to `Encoded(e)`. |
| JsonEncoding.Perform | Sources/JSON.swift:70-80 | One client call. Requesting a container never fails. A call that cannot trap succeeds when it writes nothing into the encoder's cell or that cell admits it: unset or a dictionary for a keyed write, unset or an array for an unkeyed one, unset for a single-value one. It then leaves the cell of that shape, and every nested cell keeps its container's shape. A successful call that cannot trap leaves its target cell as `Landed` says. A keyed store keeps the old entries and adds one new cell under the key that denotes the stored value; a nested request's new cell is instead unset. An append keeps the old elements and adds one cell denoting the value. A single-value write sets an unset cell, through new cells only, to denote the value. A call that writes nothing leaves the cell as it was. |
| JsonEncoding.PerformKeyed | Sources/JSON.swift:236-287 | A call on a keyed container. Traps: an unsigned value above `Int64.max`, a nested container over a cell that is neither unset nor a dictionary, a super encoder. A scalar, `Date` or `Data` store succeeds exactly on an unset or dictionary cell and otherwise throws the mixed-keys error. On failure, or for a call that writes nothing, the cell is unchanged. On success a writing call puts a fresh cell under the key and leaves the other entries: the scalar, the date or data string, a set built value, or for a nested request an unset cell the returned container views. A call that cannot trap, on a cell that is unset or a dictionary, succeeds when its value, if any, is consistent; the cell stays unset or a dictionary. |
| JsonEncoding.PerformUnkeyed | Sources/JSON.swift:309-342 | A call on an unkeyed container. Nested containers and a super encoder trap. A scalar, `Date` or `Data` append succeeds exactly on an unset or array cell and otherwise throws the mixed-array error. On failure, or for a cancelled value, the cell is unchanged. On success a writing call appends one fresh set cell and keeps the earlier elements: the scalar, or the date or data string. A scalar, or a consistent value, succeeds on a cell that is unset or an array, which stays unset or an array. |
| JsonEncoding.PerformSingleValue | Sources/JSON.swift:364-397 | A call on a single-value container. Nested containers and a super encoder trap. A scalar, `Date` or `Data` write succeeds exactly on an unset cell and otherwise throws the multiple-values error. On failure, or for a cancelled value, the cell is unchanged. On success a writing call sets the unset cell: to the scalar, or the date or data string. A scalar, or a consistent value, succeeds on an unset cell, and a cancelled consistent value on any cell. |
| JsonEncoding.Build | Sources/JSON.swift:99-118 | The cancelable-node rule. A consistent value always succeeds, and its result projects to `Built(e)`: the date or data string, or the JSON value its calls denote. On success the result is `nil` exactly when the value is cancelled, that is neither a `Date` nor `Data` and none of its calls writes into its encoder's cell. For a consistent value, `nil` comes with an absent `Built(e)`. Otherwise the result is a fresh set cell. A `Date` or `Data` never fails and becomes a fresh cell holding its ISO-8601 or base64 string. |
| JsonEncoding.KeyedEncodingContainer.EncodeScalar | Sources/JSON.swift:236-250 | Succeeds exactly when the cell is unset or a dictionary. It then puts a fresh cell holding the scalar under the key and leaves every other entry; that cell denotes the scalar's JSON value (`ScalarJson`). Otherwise it throws the mixed-keys error and changes nothing. |
| JsonEncoding.KeyedEncodingContainer.Encode | Sources/JSON.swift:252-257 | A cancelled value leaves the cell exactly as it was: no key is added. Otherwise, on success, a fresh set cell goes under the key and the other entries stay. For a consistent value, that cell denotes `Built(value)`. A value that is not cancelled fails on a cell that is neither unset nor a dictionary. A `Date` or `Data` succeeds exactly on an unset or dictionary cell, storing its string, and fails only with the mixed-keys error. A consistent value succeeds when it is cancelled or the cell is unset or a dictionary. |
| JsonEncoding.KeyedEncodingContainer.NestedContainer | Sources/JSON.swift:267-276 | Stores a fresh unset cell under the key and returns a keyed container over that same cell. |
| JsonEncoding.KeyedEncodingContainer.NestedUnkeyedContainer | Sources/JSON.swift:278-287 | Stores a fresh unset cell under the key and returns an unkeyed container over that same cell. |
| JsonEncoding.UnkeyedEncodingContainer.EncodeScalar | Sources/JSON.swift:309-323 | Succeeds exactly when the cell is unset or an array. It then appends one fresh cell holding the scalar, which denotes the scalar's JSON value (`ScalarJson`), keeps the earlier elements, and `count` grows by one. Otherwise it throws the mixed-array error and `count` stays. |
| JsonEncoding.UnkeyedEncodingContainer.Encode | Sources/JSON.swift:295-330 | `count` grows by one exactly when the value is appended, that is on success and when it is not cancelled; a cancelled value leaves the cell exactly as it was. An appended value is a fresh set cell after the earlier elements. For a consistent value, that cell denotes `Built(value)`. A `Date` or `Data` succeeds exactly on an unset or array cell, appending its string, and fails only with the mixed-array error. A consistent value succeeds when it is cancelled or the cell is unset or an array. |
| JsonEncoding.SingleValueEncodingContainer.EncodeScalar | Sources/JSON.swift:364-378 | A one-shot write of the scalar. It succeeds exactly on an unset cell, which then denotes the scalar's JSON value (`ScalarJson`). |
| JsonEncoding.SingleValueEncodingContainer.Encode | Sources/JSON.swift:380-385 | A cancelled value leaves the cell exactly as it was. Otherwise a success sets an unset cell, and a value that is not cancelled fails on a set cell. For a consistent value, the set cell denotes `Built(value)`, through new cells only. A `Date` or `Data` succeeds exactly on an unset cell, setting it to its string, and fails only with the multiple-values error. A consistent value succeeds when it is cancelled or the cell is unset. |
| Encodables.FortyTwoEncoded | Sources/JSON.swift:364-366 | `42` encoded through a single-value container cannot fail and denotes the JSON number `42`. |
| Encodables.TrueEncoded | Sources/JSON.swift:364-365 | `true` encoded through a single-value container cannot fail and denotes `true`. |
| Encodables.WithCancelledConsistent | Sources/JSON.swift:236-257 | A keyed value with an integer property and a property whose value encodes nothing cannot fail, and that property's value is cancelled. |
| Encodables.WithCancelledEncoded | Sources/JSON.swift:252-257 | That keyed value denotes `{"a":1}`: the cancelled property adds no key, not even `null`. |
| JsonReading.Project | Sources/JSON.swift:124-127 | A cell denotes no JSON value exactly when it is unset. |
| JsonReading.ProjectEntries | Sources/JSON.swift:145-153 | The denoted object has exactly the keys whose cells are set. |
| JsonReading.StringRoundTrip | Sources/JSON.swift:138-139 | The per-scalar escaping of a string, closed by a quote, reads back as the string, provided it has no control character other than backspace, tab, line feed and carriage return. |
| JsonReading.QuotedAsScalars | Sources/JSON.swift:138-139 | When no escaped scalar shares a cluster with another scalar, the quoted text `jsonString` writes for a string is the quote, the per-scalar escaping, and the quote. |
| JsonReading.DeviceControlTwoReadsAsFormFeed | Sources/JSON.swift:163-164 | U+0012 is written as `\f`, which reads back as a form feed, a different string. A form feed is copied raw, which a strict reader rejects. |
| JsonReading.CombinedQuoteEndsString | Sources/JSON.swift:159-179 | A quote followed by a combining accent is one cluster that the escaper copies unescaped, while escaping by scalar would have escaped the quote. The quoted result is not JSON. |
| JsonReading.NaNUnreadable | Sources/JSON.swift:130-133 | The texts Swift prints for a NaN, `nan`, `-nan` and `snan`, do not read as JSON. |
| JsonReading.InfinityUnreadable | Sources/JSON.swift:130-133 | The texts Swift prints for the infinities, `inf` and `-inf`, do not read as JSON. |
| JsonReading.JsonStringReadsBack | Sources/JSON.swift:124-155 | For every platform, a cell has a text exactly when it is set. For a readable tree that text reads back as the cell's projection. Arrays keep their set elements in order. Objects have the set entries. Numbers, strings and literals are recovered. |
| JsonReading.ReadKeysAreSetEntries | Sources/JSON.swift:145-153 | The object a dictionary cell's text reads back as has a key if and only if the key's cell is set. A cancelled nested container leaves no key at all, not even `null`. |
| OrderedDictionaries.LastIndex | SwiftPlusPlus/OrderedDictionary.swift:23-27 | The slot `lookup[key]` points to: the last assignment to the key, with no later assignment to it, or none if the key was never assigned. |
| OrderedDictionaries.ReadYourWrite | SwiftPlusPlus/OrderedDictionary.swift:15-28 | After `d[k] = v`, `d[k]` reads `v`. |
| OrderedDictionaries.NeverAssigned | SwiftPlusPlus/OrderedDictionary.swift:16-20 | A key that was never assigned reads `nil`. |
| OrderedDictionaries.OtherKeysUnchanged | SwiftPlusPlus/OrderedDictionary.swift:22-28 | Assigning one key changes what no other key reads. |
| OrderedDictionaries.CompactSlots | SwiftPlusPlus/OrderedDictionary.swift:31-33 | The non-`nil` slots, in order, are the live values: each key's latest value, if it is not `nil`, in the order of those assignments. |
| OrderedDictionaries.LiveIsLatest | SwiftPlusPlus/OrderedDictionary.swift:31-33 | The i-th element of `values` is the value that the i-th listed key reads. |
| OrderedDictionaries.LiveKeysOrdered | SwiftPlusPlus/OrderedDictionary.swift:23-33 | Each key contributes at most one element to `values`, and the keys come in the order of their latest assignments. |
| OrderedDictionaries.LiveKeysComplete | SwiftPlusPlus/OrderedDictionary.swift:31-33 | Every key that reads a value is listed. A key assigned `nil`, or never assigned, contributes nothing. |
| OrderedDictionaries.OrderedDictionary.constructor | SwiftPlusPlus/OrderedDictionary.swift:12-13 | An empty store and an empty lookup, with no assignments. |
| OrderedDictionaries.OrderedDictionary.Representation | SwiftPlusPlus/OrderedDictionary.swift:12-28 | Every `lookup` index is below `valueStore.count`, and distinct keys have distinct indices. Every non-`nil` slot is the slot of a key, hence of exactly one. |
| OrderedDictionaries.OrderedDictionary.Get | SwiftPlusPlus/OrderedDictionary.swift:16-21 | The getter reads the value of the key's latest assignment, or `nil` if the key has none. |
| OrderedDictionaries.OrderedDictionary.Set | SwiftPlusPlus/OrderedDictionary.swift:22-28 | Empties the key's previous slot and appends exactly one slot, so `valueStore.count` equals the number of assignments. `lookup[key]` becomes the new last index and no other key's index changes. The representation invariant is preserved. |
| OrderedDictionaries.OrderedDictionary.Values | SwiftPlusPlus/OrderedDictionary.swift:31-33 | `values` is the list of live values in the order of their keys' latest assignments. |

## Left out

- I/O and foreign code. These are carried as inputs, not computed:
  - `Date.iso8601DateTime` and `Data.base64` are carried in the value's kind.
  - `ErrorGenerating.error(_:because:)` is modelled by its arguments only.
  - Swift's `"\(double)"` / `"\(float)"` formatting is carried as the number text it prints.
- The UTF-8 conversion `string.data(using: .utf8)` in `encode` is not modelled: `Encoder.Encode` returns the text.
- `codingPath` and `userInfo` are only passed along by the source and are not modelled.
- `fatalError` is not modelled as a crash. In the container methods it is excluded by preconditions, and the client interpreter reports it as a `Trapped` outcome.
- The `JSON` struct (`Sources/JSON.swift:11-46`) and `Sources/NativeTypesEncoder.swift` are not part of this model. They wrap `JSONSerialization` and `JSONDecoder`.
- Unicode's grapheme segmentation is not modelled. It is the `characters` parameter of `Platform`, constrained only to make up the string.
- The concrete iteration order of Swift's `Dictionary` is not modelled. It is the `order` parameter of `Platform`, one order per key set, and every property is proved for all orders.
- JsonReading.ParseValue: reads only the text the serializer writes. Whitespace and `\u` escapes are not read.
- JsonReading.JsonStringReadsBack: covers only readable trees. Strings or keys with a control character other than backspace, tab, line feed and carriage return, with an escaped scalar inside a larger grapheme cluster, or `Double` and `Float` values that print as `nan`, `-nan`, `snan`, `inf` or `-inf`, render to text that does not read back as the tree (`DeviceControlTwoReadsAsFormFeed`, `CombinedQuoteEndsString`, `NaNUnreadable`, `InfinityUnreadable`).
- The `count` property of the single-value container (`Sources/JSON.swift:350-357`) is not modelled. Nothing calls it and `SingleValueEncodingContainer` does not declare it; it always reads as the unkeyed container's would.
- JsonEncoding.EncodeTo: states which calls write into the encoder's cell, not which call fails first when one does. Success, and a cell projecting to `Encoded(e)`, are promised for consistent scripts on an unset cell. That condition is sufficient but not necessary: a single-value write of a value that encodes a dictionary, followed by a keyed write, also succeeds, and the tree it leaves is not characterised.
- JsonEncoding.Build: success, and a result projecting to `Built(e)`, are promised for consistent values only, the same sufficient condition as `EncodeTo`'s. The values that fail are not characterised exactly.
- JsonEncoding.Encoder.Encode: success, and a root projecting to `Encoded(e)`, are promised for consistent scripts on an unset root only, as for `EncodeTo`. The text reads back as `Encoded(e)` only for readable trees.
- JsonNodes.Box.SetForKey: keys are compared as sequences of Unicode scalars. Swift compares `String` keys by canonical equivalence, so `"\u{E9}"` and `"e\u{301}"` are one key in Swift and two keys here. The same holds wherever a key is looked up or stored: `JsonNodes.Box.SetValueForKey`, `JsonEncoding.KeyedEncodingContainer.EncodeScalar`, `.Encode`, `.NestedContainer` and `.NestedUnkeyedContainer`, `JsonEncoding.PerformKeyed`, and `JsonReading.ProjectEntries`, `ReadKeysAreSetEntries` and `JsonStringReadsBack` for objects.
- JsonNodes.Box.SetValueForKey: "the other entries are unchanged" is meant for keys that differ as scalar sequences. A key canonically equivalent to the stored one replaces its entry in Swift, and is a separate entry here.
- OrderedDictionaries.OrderedDictionary: Swift's struct has value semantics, so a copy is independent. The model is a class updated in place, and copying is not modelled.
