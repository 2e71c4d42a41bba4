# json_king core, modelled in Dafny

json_king is a JSON viewer and editor that runs in the browser. This project models the three parts of it that hold its logic:

- **The JSON codec** (`chrome-extension/src/lib/json.js`):
  - a recursive-descent parser that keeps integers beyond 2^53 - 1 exact as BigInts;
  - the pretty and compact serialiser;
  - `safeJsonParse` and `stringifyValueForClipboard`;
  - the predicates `isJsonString` and `isUriString`;
  - the path helpers `getAtPath`, `setAtPath`, `formatPath` and `joinFullPath`.
- **The line diff** (`chrome-extension/src/lib/diffOverlay.js`):
  - `splitLines`;
  - Myers' shortest-edit-script algorithm, `myersLineDiff`;
  - the parts of `renderDiff` that are not DOM: the size guard, the counts, the radius-3 window of kept entries, and the single `...` marker per run of hidden entries.
- **The layer stack** (`src/features/layerStack.js`):
  - the `layers` array of re-parse layers and value-edit layers over the root document;
  - opening, editing, cancelling, saving and closing layers;
  - the write-back `syncUpFrom`, which carries a saved value down through every layer below it into the root.

## How the model is built

Files:

- `text.dfy` (module `JsText`): JavaScript strings as sequences of UTF-16 code units, plus `trim`, digits, and the decimal and hexadecimal texts.
- `json_value.dfy` (module `JsonValues`): the value type. `Undef` is `undefined`, `Num` is a Number, and `BigInt` is a BigInt. An object is an ordered member list, and `out[key] = v` becomes `Assign`.
- `json_parse.dfy` (module `JsonParser`): the parser.
  - It is a class `Parser` with the cursor `i` as a field and one method per inner function of `parseJsonWithBigInt`.
  - Every method is proved against a specification function over the text, such as `StringAt` or `ValueAt`.
  - `json_parse_facts.dfy` proves what those functions accept and reject.
- `json_print.dfy` (module `JsonPrinter`): the serialiser.
  - `Render` specifies `stringifyAny`.
  - `StringifyAny` is the recursive method with the loops over items and members.
- `json_roundtrip.dfy` (module `JsonRoundTrip`): parsing the output of either serialiser form gives the value back, up to a normal form.
- `json_helpers.dfy` and `json_paths.dfy`: the remaining functions of `json.js`.
  - `GetAtPath`, `SetAtPath` and `FormatPath` are methods with the source's loops, proved against specification functions.
- `myers.dfy` (module `MyersDiff`):
  - `Dist` is the edit distance between prefixes.
  - `V` is the furthest point the forward search reaches on a diagonal.
  - The methods `Round`, `Forward`, `Backtrack` and `Unwind` are the loops of `myersLineDiff`.
- `diff_view.dfy` (module `DiffView`): `splitLines` and `renderDiff`. The `keep` window is an `array<bool>` filled in place.
- `layer_stack.dfy` (module `LayerStack`): a class `Stack` with the fields `layers` and `root`.
  - Its invariant is that every layer's parent lies below it.
  - `SyncDown` specifies the `syncUpFrom` loop, and `SaveSpec` specifies `saveLayerFromEditor`.

Behaviour of the source worth noting:

- **Clipboard text of `null`.** `stringifyValueForClipboard` (`chrome-extension/src/lib/json.js`) gives `"null"` for `null` and the empty text for `undefined`.
- **Saving** (`saveLayerFromEditor` in `src/features/layerStack.js`).
  - It commits the parsed value, then closes the layers above the saved one, then writes back.
  - `syncUpFrom` visits every layer from the saved one down to layer 0 in turn, and each turn writes into the layer named as its parent.
  - The write-back can stop partway:
    - the native `JSON.stringify` throws on a BigInt in a re-parse layer;
    - `setAtPath` throws on a missing intermediate.
  - The model returns `Threw` in both cases and keeps the writes made before the throw.
- **Round trip.** Serialising and parsing back is not the identity:
  - `-0` is written as `0`;
  - a BigInt within the safe range is read back as a Number;
  - `undefined` becomes `null` in an array and at the top, and disappears as an object member.
- **Compact form.** It keeps the spaces inside string values. What the model proves about layout is that the compact form holds no line feed.

## Model

| member | source | states |
|---|---|---|
| JsText.Trim | chrome-extension/src/lib/json.js:311 | `String.prototype.trim`: the result is the input with leading and trailing white space removed; it is empty iff the input is all white space, and otherwise starts and ends with a non-space |
| JsText.NatTextValue | chrome-extension/src/lib/json.js:243 | the decimal text of a natural number reads back as that number |
| JsText.Hex4RoundTrip | chrome-extension/src/lib/json.js:120-123 | the four hex digits written for a code unit decode back to that code unit |
| JsonValues.Lookup | chrome-extension/src/lib/json.js:213 | a key is found iff it is among the member keys, and what is found is the value of a member with that key |
| JsonValues.AssignKeys | chrome-extension/src/lib/json.js:213 | `out[key] = v` keeps the key order when the key exists, and appends a member otherwise |
| JsonValues.AssignLookup | chrome-extension/src/lib/json.js:213 | after `out[key] = v` the key holds `v` (a later duplicate key overwrites) and every other key holds what it held |
| JsonValues.AssignUnique | chrome-extension/src/lib/json.js:213 | assignment keeps the keys of an object unique |
| JsonParser.NumberValue | chrome-extension/src/lib/json.js:163-169 | a number literal gives a Number, and gives a BigInt only for an integer literal whose magnitude exceeds 2^53 - 1 |
| JsonParser.Parser.constructor | chrome-extension/src/lib/json.js:38-39 | the parser starts at position 0 of the input text |
| JsonParser.Parser.SkipWs | chrome-extension/src/lib/json.js:45-51 | the cursor moves past exactly the run of space, LF, CR and tab at it (`WsEnd`) |
| JsonParser.Parser.SkipDigits | chrome-extension/src/lib/json.js:144 | the cursor moves past exactly the run of decimal digits at it |
| JsonParser.Parser.ParseString | chrome-extension/src/lib/json.js:75-133 | reads the string literal at the cursor as `StringAt` defines it: the decoded code units and the position after the closing quote, or a failure |
| JsonParser.Parser.ScanIntPart | chrome-extension/src/lib/json.js:137-145 | the integer part (optional `-`, then `0` or a non-zero digit and digits) is accepted iff `IntPartEnd` accepts it, and the cursor ends where it does |
| JsonParser.Parser.ScanFraction | chrome-extension/src/lib/json.js:147-153 | a `.` needs at least one digit; the result says whether a fraction was read |
| JsonParser.Parser.ScanExponent | chrome-extension/src/lib/json.js:155-161 | `e`/`E`, an optional sign and at least one digit; the result says whether an exponent was read |
| JsonParser.Parser.ParseNumber | chrome-extension/src/lib/json.js:135-170 | reads the number at the cursor as `NumberAt` defines it, with `NumberValue` choosing Number, -0 or BigInt |
| JsonParser.Parser.ParseValue | chrome-extension/src/lib/json.js:53-73 | dispatches on the first character after white space exactly as `ValueAt` defines, failing on anything else |
| JsonParser.Parser.ParseArray | chrome-extension/src/lib/json.js:172-195 | reads an array as `ArrayAt` defines: `[]`, or values separated by commas and closed by `]` |
| JsonParser.Parser.ParseElements | chrome-extension/src/lib/json.js:181-194 | the `while (true)` loop of `parseArray`, proved against `ArrayRest` |
| JsonParser.Parser.ParseMember | chrome-extension/src/lib/json.js:207-213 | a quoted key, a colon and a value, as `MemberAt` defines |
| JsonParser.Parser.ParseObject | chrome-extension/src/lib/json.js:197-226 | reads an object as `ObjectAt` defines, assigning members in order |
| JsonParser.Parser.ParseMembers | chrome-extension/src/lib/json.js:206-225 | the `while (true)` loop of `parseObject`, proved against `ObjectRest` |
| JsonParser.ParseJsonWithBigInt | chrome-extension/src/lib/json.js:37-232 | a value, then only white space to the end of the text; the result is the specification function `ParseJson` |
| JsonParseFacts.ParsedBuilt | chrome-extension/src/lib/json.js:172-226 | every parsed value has unique object keys and holds no `undefined` |
| JsonParseFacts.BlankRejected | chrome-extension/src/lib/json.js:228-230 | empty or all-white-space text is rejected |
| JsonParseFacts.NoValueBeforeClose | chrome-extension/src/lib/json.js:53-73 | a value cannot start with `]`, `}` or `,` |
| JsonParseFacts.ArrayTrailingCommaRejected | chrome-extension/src/lib/json.js:181-194 | a comma followed by `]` fails the array |
| JsonParseFacts.ObjectTrailingCommaRejected | chrome-extension/src/lib/json.js:206-225 | a comma followed by `}` fails the object |
| JsonParseFacts.UnterminatedRejected | chrome-extension/src/lib/json.js:79-132 | a string with no `"` at all after its opening quote fails |
| JsonParseFacts.EscapedQuotesRejected | chrome-extension/src/lib/json.js:79-132 | a string whose every `"` after the opening quote follows a backslash, with no backslash following another, fails: its quotes are all escaped |
| JsonParseFacts.EscapedQuoteExample | chrome-extension/src/lib/json.js:79-132 | the literal `"ab\"` fails, its last quote being escaped |
| JsonParseFacts.BadEscapeRejected | chrome-extension/src/lib/json.js:85-127 | a backslash at the end, or before anything but the eight escapes and `u` with four hex digits, fails |
| JsonParseFacts.EscapesAccepted | chrome-extension/src/lib/json.js:89-125 | the eight short escapes and `\uXXXX` decode to one code unit each |
| JsonParseFacts.IntegerLiteralExact | chrome-extension/src/lib/json.js:163-169 | any integer literal reads back exactly: as a Number within ±(2^53 - 1), as a BigInt beyond |
| JsonParseFacts.SafeIntegerBoundary | chrome-extension/src/lib/json.js:35 | 9007199254740991 gives a Number; 9007199254740993 and -9007199254740992 give BigInts |
| JsonParseFacts.NegativeZeroRead | chrome-extension/src/lib/json.js:165 | `-0` gives negative zero |
| JsonPrinter.Quote | chrome-extension/src/lib/json.js:241 | the quoted text starts and ends with a double quote (its contents are pinned by `StringRoundTrip`) |
| JsonPrinter.Pad | chrome-extension/src/lib/json.js:257 | the indent is two spaces per depth |
| JsonPrinter.Render | chrome-extension/src/lib/json.js:238-302 | `stringifyAny` returns `undefined` exactly for `undefined` outside an array |
| JsonPrinter.Stringify | chrome-extension/src/lib/json.js:304-306 | a top-level `undefined` prints as `null` |
| JsonPrinter.StringifyAny | chrome-extension/src/lib/json.js:238-302 | the recursive method returns what `Render` specifies |
| JsonPrinter.StringifyItems | chrome-extension/src/lib/json.js:250-263 | the loop over an array's elements pushes the parts `ItemParts` specifies, an `undefined` element as `null` |
| JsonPrinter.StringifyMembers | chrome-extension/src/lib/json.js:278-295 | the loop over an object's keys pushes the parts `MemberParts` specifies, skipping `undefined` members |
| JsonPrinter.StringifyJsonWithBigInt | chrome-extension/src/lib/json.js:234-307 | the serialiser returns `Stringify(value, pretty)` |
| JsonPrinter.CompactIsOneLine | chrome-extension/src/lib/json.js:249-285 | every part of the compact form (escaped strings, numbers, `,` and `:` joins) holds no line feed |
| JsonPrinter.CompactStringifyOneLine | chrome-extension/src/lib/json.js:17-19 | `stringifyCompact` of a value without floats is a single line |
| JsonRoundTrip.Normalize | chrome-extension/src/lib/json.js:163-169 | the value read back from a printed value holds no `undefined` |
| JsonRoundTrip.StringRoundTrip | chrome-extension/src/lib/json.js:75-133 | the parser reads the quoted form of any code-unit sequence (including lone surrogates and control characters) back as that sequence, ending after the closing quote |
| JsonRoundTrip.IntTextRoundTrip | chrome-extension/src/lib/json.js:135-169 | the decimal text of any integer reads back as a Number within the safe range and as the same BigInt beyond it |
| JsonRoundTrip.ValueRoundTrip | chrome-extension/src/lib/json.js:53-73 | at any depth and in either form, the text `stringifyAny` writes for a value parses back to its normal form, ending right after the text |
| JsonRoundTrip.PrintParseRoundTrip | chrome-extension/src/lib/json.js:13-19 | `parse(stringifyPretty(v))` and `parse(stringifyCompact(v))` give `Normalize(v)` for every value with unique keys and no floats |
| JsonRoundTrip.RenderNormal | chrome-extension/src/lib/json.js:238-302 | the normal form of a value prints, at any depth and in either form, as the value itself does inside an array |
| JsonRoundTrip.StringifyNormal | chrome-extension/src/lib/json.js:304-306 | the normal form of any value serialises to the same text as the value |
| JsonRoundTrip.StringifyIdempotent | chrome-extension/src/lib/json.js:13-19 | serialising, parsing and serialising again in the same form gives the first text back |
| JsonHelpers.SafeJsonParse | chrome-extension/src/lib/json.js:5-11 | never throws: `ok` with a parsed value, or `{ok: false, value: null}` |
| JsonHelpers.SafeParseOfStringify | chrome-extension/src/lib/json.js:5-19 | `safeJsonParse` of either serialised form succeeds with the normal form of the value |
| JsonHelpers.SafeParseOfBlank | chrome-extension/src/lib/json.js:5-11 | blank text gives `{ok: false, value: null}` |
| JsonHelpers.StringifyValueForClipboard | chrome-extension/src/lib/json.js:21-33 | a string unquoted, `undefined` as empty text, everything else as its pretty or compact serialisation |
| JsonHelpers.ClipboardReadsBack | chrome-extension/src/lib/json.js:21-33 | the clipboard text of any non-string value parses back to its normal form |
| JsonHelpers.IsUriString | chrome-extension/src/lib/json.js:309-315 | true iff the value is a string whose trimmed text is non-empty, holds no white space, and starts with a letter followed by letters, digits, `+`, `.` or `-` and then `:` |
| JsonHelpers.IsJsonStringParses | chrome-extension/src/lib/json.js:321-329 | true iff the value is a string whose trimmed text is non-empty, starts with `{` or `[` and parses; then it parses to an object or array |
| JsonHelpers.StringifiedIsJsonString | chrome-extension/src/lib/json.js:321-329 | the serialised text of any object or array passes `isJsonString` and parses back to its normal form |
| JsonPaths.Get | chrome-extension/src/lib/json.js:335 | reading a slot of anything but an object or array gives `undefined` |
| JsonPaths.GetAtPath | chrome-extension/src/lib/json.js:331-338 | the loop returns `ValueAtPath`, which stops at the first nullish intermediate |
| JsonPaths.UndefAtPath | chrome-extension/src/lib/json.js:334 | any path below `undefined` reads `undefined` |
| JsonPaths.ValueAtPathConcat | chrome-extension/src/lib/json.js:331-338 | reading along `p + q` is reading `q` from what `p` reads |
| JsonPaths.NullishPrefix | chrome-extension/src/lib/json.js:334 | once an intermediate is null or undefined, every longer path reads `undefined` |
| JsonPaths.Put | chrome-extension/src/lib/json.js:346 | the assignment succeeds exactly on an object or an array, and leaves one |
| JsonPaths.SetAtPath | chrome-extension/src/lib/json.js:340-348 | the empty path returns the value; otherwise the target with the last slot written, or a throw, as `WrittenAt` specifies |
| JsonPaths.WalkDown | chrome-extension/src/lib/json.js:342-345 | the walk reads each intermediate with `cur[path[i]]` and stops, the write then throwing, at one that is null or undefined |
| JsonPaths.WriteUp | chrome-extension/src/lib/json.js:346-347 | the written last container, put back along the walked chain, gives the new target |
| JsonPaths.SetInSucceeds | chrome-extension/src/lib/json.js:343-346 | a write along a non-empty path succeeds iff the value at the path without its last segment is an object or array |
| JsonPaths.WrittenAtSucceeds | chrome-extension/src/lib/json.js:340-348 | `setAtPath` returns iff the path is empty or its parent slot holds a container |
| JsonPaths.PutGet | chrome-extension/src/lib/json.js:346 | after a write, the slot reads back the written value |
| JsonPaths.PutOther | chrome-extension/src/lib/json.js:346 | a write leaves every other slot as it was (also when it grows an array with holes) |
| JsonPaths.WrittenReadsBack | chrome-extension/src/lib/json.js:340-348 | after `setAtPath`, `getAtPath` along the same path gives the value written |
| JsonPaths.WrittenLeavesOthers | chrome-extension/src/lib/json.js:340-348 | after `setAtPath`, any path that leaves the written path at an earlier slot reads what it read before |
| JsonPaths.EscapeQuotes | chrome-extension/src/lib/json.js:366 | escaping quotes never shortens a key |
| JsonPaths.FormatPath | chrome-extension/src/lib/json.js:350-369 | the loop returns `FormatFrom([], segs)` |
| JsonPaths.FormatFromConcat | chrome-extension/src/lib/json.js:350-369 | formatting `p + q` is formatting `q` after the text of `p` |
| JsonPaths.FormatFromLater | chrome-extension/src/lib/json.js:358-366 | after a non-empty prefix every segment is `[n]`, `.key` or `["key"]`, independent of what came before |
| JsonPaths.JoinFullPath | chrome-extension/src/lib/json.js:371-377 | with no parent path, the full path is the formatted relative path |
| JsonPaths.JoinFullPathFormats | chrome-extension/src/lib/json.js:371-377 | when the first relative segment is an index or an identifier, joining the formatted parent with the relative path is formatting the whole path |
| JsonPaths.JoinFullPathNotIdentifier | chrome-extension/src/lib/json.js:358-376 | a first relative key that is not an identifier is joined after a `.` as it is (`a.x y`), where formatting the whole path writes `a["x y"]` |
| MyersDiff.Reverse | chrome-extension/src/lib/diffOverlay.js:111 | `edits.reverse()`: the same length, the entries in reverse order |
| MyersDiff.DistBounds | chrome-extension/src/lib/diffOverlay.js:25 | the edit distance is at least the difference of the lengths and at most their sum `max` |
| MyersDiff.DistParity | chrome-extension/src/lib/diffOverlay.js:36 | the distance has the parity of `n + m`, so the search's diagonals `k = -d, -d+2, …, d` meet the end point |
| MyersDiff.Shortest | chrome-extension/src/lib/diffOverlay.js:22-113 | every edit script that turns `a[..x]` into `b[..y]` has at least `Dist(x, y)` additions and deletions |
| MyersDiff.Slide | chrome-extension/src/lib/diffOverlay.js:47-50 | the snake never moves backwards |
| MyersDiff.SlideMatches | chrome-extension/src/lib/diffOverlay.js:47-50 | the snake passes only equal lines and stops at the first pair that differs or at an end |
| MyersDiff.VSlides | chrome-extension/src/lib/diffOverlay.js:40-50 | `V(d, k)` is the snake followed from the start point the tie-break picks |
| MyersDiff.Reachable | chrome-extension/src/lib/diffOverlay.js:36-52 | the point `V(d, k)` on diagonal `k` can be reached with at most `d` additions and deletions |
| MyersDiff.Furthest | chrome-extension/src/lib/diffOverlay.js:36-52 | no point on diagonal `k` reachable with `d` changes lies beyond `V(d, k)` |
| MyersDiff.FoundRound | chrome-extension/src/lib/diffOverlay.js:54-57 | the end point `(n, m)` lies on a snake of round `Dist(n, m)` |
| MyersDiff.NotBefore | chrome-extension/src/lib/diffOverlay.js:54-57 | no round before `Dist(n, m)` reaches `(n, m)` |
| MyersDiff.FollowSnake | chrome-extension/src/lib/diffOverlay.js:46-50 | the `while` loop stops at `Slide` |
| MyersDiff.Round | chrome-extension/src/lib/diffOverlay.js:34-58 | one pass of the `k` loop: it finds the end point iff `d` is the distance, and otherwise leaves the furthest points of round `d` in `vNext` |
| MyersDiff.Forward | chrome-extension/src/lib/diffOverlay.js:27-62 | the trace has `Dist + 1` rows, each row the furthest points of its round |
| MyersDiff.BackStep | chrome-extension/src/lib/diffOverlay.js:69-80 | the backtrack's choice of `prevK` is the diagonal the forward search came from, and `prevX` its furthest point |
| MyersDiff.PushContext | chrome-extension/src/lib/diffOverlay.js:82-86 | pushing a context entry keeps the pushed entries, reversed, covering the lines already passed |
| MyersDiff.PushAdd | chrome-extension/src/lib/diffOverlay.js:88-90 | pushing an addition keeps the cover and adds one change |
| MyersDiff.PushDel | chrome-extension/src/lib/diffOverlay.js:91-93 | pushing a deletion keeps the cover and adds one change |
| MyersDiff.CoversAll | chrome-extension/src/lib/diffOverlay.js:111 | once `(0, 0)` is reached, the reversed entries replay to `a` (context and deletions) and `b` (context and additions) |
| MyersDiff.UnwindSnake | chrome-extension/src/lib/diffOverlay.js:97-101 | the context loop after the rounds stops on an edge with no change added |
| MyersDiff.Unwind | chrome-extension/src/lib/diffOverlay.js:97-109 | the three closing loops reach `(0, 0)`, adding one change per remaining line |
| MyersDiff.Backtrack | chrome-extension/src/lib/diffOverlay.js:64-112 | the script replays to `a` and to `b` and has exactly `Dist(n, m)` changes |
| MyersDiff.MyersLineDiff | chrome-extension/src/lib/diffOverlay.js:22-113 | the script replays to `a` and to `b`, its changes are the distance, and no script that replays to both has fewer |
| MyersDiff.NoChangesIffEqual | chrome-extension/src/lib/diffOverlay.js:136-139 | the script has no addition and no deletion iff the two line lists are equal |
| MyersDiff.AllContext | chrome-extension/src/lib/diffOverlay.js:136-139 | equal line lists have a script with no changes |
| DiffView.OrEmpty | chrome-extension/src/lib/diffOverlay.js:19 | `text ?? ""` |
| DiffView.SplitLines | chrome-extension/src/lib/diffOverlay.js:18-20 | at least one line, none holding a line feed; the empty text is one empty line |
| DiffView.JoinSplit | chrome-extension/src/lib/diffOverlay.js:18-20 | joining the lines with `\n` gives the text back |
| DiffView.SplitJoin | chrome-extension/src/lib/diffOverlay.js:18-20 | splitting joined lines without line feeds gives the lines back |
| DiffView.SplitInjective | chrome-extension/src/lib/diffOverlay.js:18-20 | two texts have the same lines iff they are equal |
| DiffView.CountChanges | chrome-extension/src/lib/diffOverlay.js:129-134 | `adds` and `dels` count the additions and deletions, and together are the script's changes |
| DiffView.CountsAreChanges | chrome-extension/src/lib/diffOverlay.js:129-134 | additions plus deletions are the changes of a script |
| DiffView.KeepWindow | chrome-extension/src/lib/diffOverlay.js:143-150 | entry `p` is kept iff some addition or deletion lies within 3 entries of it |
| DiffView.NearChangeStep | chrome-extension/src/lib/diffOverlay.js:145-150 | one more turn of the outer loop adds exactly the window around entry `i` if it is a change |
| DiffView.ChangesKept | chrome-extension/src/lib/diffOverlay.js:146-149 | every addition and deletion is kept |
| DiffView.Prefix | chrome-extension/src/lib/diffOverlay.js:167 | the prefix is two characters ending in a space |
| DiffView.ShownRow | chrome-extension/src/lib/diffOverlay.js:164-168 | a kept entry is shown as its prefix and then its line |
| DiffView.EmitRows | chrome-extension/src/lib/diffOverlay.js:152-170 | the loop threading `skipped` emits the rows `RowsTo` specifies |
| DiffView.RowsShowKept | chrome-extension/src/lib/diffOverlay.js:152-170 | leaving out the markers, the rows are the kept entries in order, each with its prefix |
| DiffView.SkipsCountRuns | chrome-extension/src/lib/diffOverlay.js:152-162 | after any prefix of the entries, the markers count the runs of hidden entries ended so far |
| DiffView.OneMarkerPerRun | chrome-extension/src/lib/diffOverlay.js:152-162 | there is exactly one `...` marker per maximal run of hidden entries |
| DiffView.Summary | chrome-extension/src/lib/diffOverlay.js:141 | the summary of a changed diff starts with `+` |
| DiffView.RenderDiff | chrome-extension/src/lib/diffOverlay.js:115-171 | too large iff more than 20000 lines; no change iff the texts are equal; otherwise the counts of a shortest script, which are its distance, and the rows of that script's window |
| DiffView.DeletedLine | chrome-extension/src/lib/diffOverlay.js:82-108 | a line found in the old side of a script but not in its new side appears in the script as a deletion |
| DiffView.AddedLine | chrome-extension/src/lib/diffOverlay.js:82-108 | a line found in the new side of a script but not in its old side appears in the script as an addition |
| DiffView.SideSizes | chrome-extension/src/lib/diffOverlay.js:82-108 | each side's length is the number of context entries plus the number of deletions (old) or additions (new) |
| DiffView.ExampleDistance | chrome-extension/src/lib/diffOverlay.js:22-113 | `["a","b","c"]` and `["a","x","c"]` are at most two changes apart |
| DiffView.ExampleCounts | chrome-extension/src/lib/diffOverlay.js:22-113 | any shortest script from `["a","b","c"]` to `["a","x","c"]` has exactly one deletion and one addition |
| DiffView.DiffExample | chrome-extension/src/lib/diffOverlay.js:22-113 | every shortest script from `["a","b","c"]` to `["a","x","c"]` deletes exactly one line, `"b"`, and adds exactly one, `"x"` |
| LayerStack.ReparsedIsContainer | src/features/layerStack.js:548-557 | a value that passes `isJsonString` always parses, to an object or array |
| LayerStack.EditorTextReadsBack | src/features/layerStack.js:587 | the editor text of a value layer is its pretty form, and saving it unchanged gives back the value's normal form |
| LayerStack.Flip | src/features/layerStack.js:372-376 | the toggled path changes membership, and no other path does |
| LayerStack.FlipTwice | src/features/layerStack.js:372-376 | toggling a path twice restores the collapsed set |
| LayerStack.NativeStringify | src/features/layerStack.js:214 | the native `JSON.stringify` throws exactly when the value holds a BigInt |
| LayerStack.NextValue | src/features/layerStack.js:214 | the value written back throws exactly for a re-parse layer holding a BigInt |
| LayerStack.WriteBack | src/features/layerStack.js:212-224 | one turn changes only the parent: every other layer keeps its record, the root is untouched unless the parent is the root, and the layers keep their kinds and paths; it throws exactly when `JSON.stringify` or `setAtPath` does |
| LayerStack.WriteBackReadsBack | src/features/layerStack.js:212-224 | after a turn that does not throw, the parent reads at the layer's key path the text or value the turn wrote, except for a key on an array, where the parent stays as it was |
| LayerStack.SyncDown | src/features/layerStack.js:211-224 | the loop changes only layer values, and never those of the layer it starts at or the ones above |
| LayerStack.SyncVisitsEveryLayer | src/features/layerStack.js:211 | a write-back that does not throw serialises every layer from the start down to 0 |
| LayerStack.BigIntThrows | src/features/layerStack.js:214 | a re-parse layer holding a BigInt throws at its own turn, before anything is written |
| LayerStack.SyncEndsAtLayerZero | src/features/layerStack.js:209-226 | after a write-back that does not throw, the root holds layer 0's value at its path, unless that path ends in a key of an array, where the write is invisible |
| LayerStack.KeyOnArrayStays | src/features/layerStack.js:223 | a write of a key into an array returns the target unchanged, which still has an array at the parent path |
| LayerStack.Committed | src/features/layerStack.js:159-163 | committing keeps the parent of every layer below it |
| LayerStack.SaveCommits | src/features/layerStack.js:153-164 | a save whose text parses leaves the layers up to the saved one, that one holding the parsed value in view mode with no editor text |
| LayerStack.SaveThrowsOnBigInt | src/features/layerStack.js:159-164 | a re-parse layer saved with a BigInt has been updated and the layers above it closed when the write-back throws, with the root untouched |
| LayerStack.ExampleWriteBack | src/features/layerStack.js:209-226 | writing `{"b":2}` back from the layer at `["a"]` turns the root `{"a":"{\"b\":1}"}` into `{"a":"{\"b\":2}"}` |
| LayerStack.SaveExample | src/features/layerStack.js:147-178 | saving `{"b":2}` in that layer gives that root and leaves the saved layer in view mode |
| LayerStack.ClampTo | src/features/layerStack.js:80-81 | positions are clamped into `[0, text.length]` |
| LayerStack.IsBlankAreaDblClick | src/features/layerStack.js:79-89 | true iff the clamped selection is blank and either non-empty, at the end of the text, or next to white space |
| LayerStack.Stack.constructor | src/features/layerStack.js:66-77 | the stack starts with no layer over the given root |
| LayerStack.Stack.OpenLayerFrom | src/features/layerStack.js:545-578 | pushes one re-parse layer in view mode, holding the parsed trimmed string, exactly when the value at the path passes `isJsonString`; otherwise nothing changes |
| LayerStack.Stack.OpenValueEditorFrom | src/features/layerStack.js:580-608 | nothing changes below a null or undefined base; otherwise pushes one value layer in edit mode holding the value at the path, its editor text `"null"` for an absent value and the pretty form otherwise |
| LayerStack.Stack.EnterLayerEditMode | src/features/layerStack.js:112-117 | an existing layer goes into edit mode with its pretty form as editor text; nothing else changes |
| LayerStack.Stack.Cancel | src/features/layerStack.js:404-408 | the layer goes back to view mode with an empty editor text; its value and the root are untouched |
| LayerStack.Stack.ToggleCollapse | src/features/layerStack.js:365-378 | flips the path in the layer's collapsed set only when the value at the path is an object or array; the value is never changed |
| LayerStack.Stack.CloseAll | src/features/layerStack.js:186-190 | no layer is left |
| LayerStack.Stack.CloseAfter | src/features/layerStack.js:192-199 | exactly the first `min(length, index + 1)` layers are left, unchanged |
| LayerStack.Stack.CloseTop | src/features/layerStack.js:201-207 | removes only the last layer, and does nothing on an empty stack |
| LayerStack.Stack.SyncUpFrom | src/features/layerStack.js:209-226 | layers and root become what `SyncDown` specifies, and the method reports whether it threw |
| LayerStack.Stack.SaveLayerFromEditor | src/features/layerStack.js:147-178 | false for a missing layer, no change on a parse error, otherwise commit, close above, write back, as `SaveSpec` specifies |
| LayerStack.Stack.EscapeKey | src/features/layerStack.js:615-631 | Escape cancels the top layer's edit if it is editing, and otherwise closes the top layer |
| LayerStack.Stack.CancelTopIfEditing | src/features/layerStack.js:642-653 | cancels and returns true exactly when the top layer is editing; otherwise nothing changes |
| LayerStack.Stack.SaveTopIfEditing | src/features/layerStack.js:654-662 | saves the top layer exactly when it is editing; otherwise returns false with nothing changed |

## Left out

- Floating point. A number with a fraction or an exponent is kept as its literal (`Float`). Both the rounding of `Number(raw)` and the shortest form `String(v)` writes are left out. So the round-trip lemmas require values without floats, and non-finite numbers, which a parsed value never holds, are not modelled.
- The cycle guard `seen` of `stringifyJsonWithBigInt`. Values here are an inductive datatype, which cannot hold itself, so the `TypeError` branch cannot occur. The same holds for sharing one object between two slots.
- In-place update and aliasing.
  - `setAtPath` mutates `target` and returns it; the model returns a new value.
  - A write-back into a layer's value also reaches every other layer that shares a sub-object with it. The model keeps layer values separate.
  - For the root, it follows whether the local `root` is still the application's own object. This is how writes before a throw still reach the application.
- JavaScript object details:
  - Integer-like keys are enumerated first.
  - `__proto__` is not an ordinary key.
  - `getAtPath` reads properties of strings, such as `length`.
  - A key written into an array leaves the model's array unchanged. In JavaScript most such keys are properties the serialiser does not print, but `arr["0"] = v` writes element 0 and `arr["length"] = n` truncates or extends the array; the model does not capture these two.
  - Reading a key from an array, such as `arr["0"]` or `arr["length"]`, or an inherited name from an object, such as `obj["toString"]`, gives a value in JavaScript and `undefined` in the model's `Get`. The viewer builds numeric segments for array elements, so these reads come only from hand-written paths.
  - Writes into primitives throw, as they do in strict-mode modules.
- `String(value)` fallback of `stringifyValueForClipboard`. It serves a value the serialiser throws on, which is only a cyclic one, and values here cannot be cyclic.
- The `!parsed.ok` branch of `openLayerFrom`. It cannot be taken after `isJsonString` has passed (`ReparsedIsContainer`).
- The DOM, modals, titles rendering, toasts, timers, scroll positions, `requestAnimationFrame`, the clipboard (`copyValue`, `copyTopJson`), `diffOverlay.close` and the document-level listeners other than the Escape key. The text of the editor is a parameter of the save operations.
  - The check in `saveTopIfEditing` that a modal element exists is not modelled.
- `isPlainObject`, and the duplicate `toggleCollapse` and `isBlankAreaDblClick` of `src/features/mainPanel.js`.
- Collapsed paths are held as a set of paths, not of their `JSON.stringify` keys. The keys name paths one to one.
- LayerStack.Stack.SaveLayerFromEditor: returns a four-way `SaveOutcome` (`NotSaved`, `ParseFailed`, `Saved`, `Threw`) in place of the boolean or exception of the source.
- JsonPrinter.CompactStringifyOneLine: states that the compact form holds no line feed, not that it holds no white space at all. A string value keeps its spaces in the compact form.
- MyersDiff.MyersLineDiff: its contract pins the script's sides and its number of changes, not which of several shortest scripts the tie-break picks. For `["a","b","c"]` against `["a","x","c"]`, `DiffView.DiffExample` pins one deletion of `"b"` and one addition of `"x"`, but not whether the deletion comes first.
- DiffView.RenderDiff: like `MyersLineDiff`, its rows are proved to come from a shortest script between the two line lists, not from the one script the tie-break of `diffOverlay.js` picks among several shortest ones.
- Nesting depth. The recursive parser of `json.js` raises a `RangeError` on very deeply nested text, which `safeJsonParse` catches and reports as `{ ok: false }`. The model's `ParseJson` and `SafeJsonParse` have no depth limit and accept such text.
- JsonPrinter.Quote: its own contract only fixes the enclosing quotes; `StringRoundTrip` is what pins its contents (any code unit sequence reads back), not the exact escape chosen for each character.
