# Popup keyboard grid and text keyboard labels of fcitx5-android

This project models two parts of the fcitx5-android input method in Dafny and proves properties of the model.

- **PopupKeyboardUi** is the long-press popup that shows a key's candidates in a grid. It sizes the grid from the number of candidates and places it over the pressed key. It moves a focus as the finger moves. On release it turns the focused candidate into a key action, or into a Ctrl chord that it sends itself.
- **TextKeyboard** is the alphabetic keyboard. Its parts in this model are:
  - the display-text resolver;
  - the process-wide cache of per-input-method layouts read from `config/TextKeyboardLayout.json`;
  - the three-state caps automaton and how it rewrites key actions and labels;
  - the per-key label refresh of alphabet and punctuation keys.

Modules follow the source:

- `Ascii`: character classes and case mapping.
- `Actions`: `KeyAction`, `KeyStates` and the listener's `Source`.
- `DisplayText`: `DisplayTextResolver`.
- `LayoutCache`: the companion's published table and timestamp, as pure steps.
- `Caps`: the caps automaton and the transforms.
- `KeyLabels`: the per-key label computations.
- `TextKeyboardView`: classes holding the state the Kotlin code updates in place:
  - `Companion`, with the table, the timestamp and the current input method;
  - `TextKeyboard`, with the caps state, the punctuation mapping, the space label and an array of key records.
- `PopupGrid`: grid sizing, offsets, `keyOrders` and the focus step.
- `PopupKeyboard`: the trigger classifier and the `PopupKeyboardUi` class, whose `focusedIndex` is a mutable field.

Each method on a class is proved against a pure function in the modules above. For example, `LoadLayoutsIfNeeded` is proved against `LayoutCache.Refresh`, and `OnChangeFocus` against `PopupGrid.ChangeFocus`. The properties are lemmas about those functions.

Inputs that come from outside the code are parameters:

- The file-system and parser results of a layout refresh are an `Environment` value.
- The gesture coordinates arrive already rounded: `rowShift` is `(y / keyHeight - 0.2).roundToInt()` and `column` is `floor(x / keyWidth)`.
- `focusColumn` and `columnOrder` come from helpers of `PopupContainerUi`, whose code is not part of this model. They are constructor arguments, and the model requires `columnOrder` to be a permutation of the columns. The property that slot 0 sits under the focused column is the extra `IsColumnOrder` assumption, used only where it is stated.
- `limitIndex` is also a `PopupContainerUi` helper. It is assumed to clamp into `0 .. c-1`.

Where the code and its documentation disagree, the model follows the code:

- **Missing file at start.** A layout file that is missing from the very first refresh leaves the table `null`. It is not published as an empty map, because the code clears only a loaded table or a remembered timestamp. See `LayoutCache.UnloadedIffAllMissing`.
- **Grid with 13 candidates.** The grid does not always have a cell for every candidate. With 13 candidates it is 3 by 4, so the 13th candidate can never be focused. See `PopupGrid.CandidatesCoveredIff` and `PopupGrid.FocusStaysInGrid`.
- **Label resolution can raise.** A sub-mode entry of a `displayText` map that is an object or an array makes `jsonPrimitive` throw. This aborts `updateAlphabetKeys` partway through the keys. It is modelled as `NotPrimitive`, `FirstThrow` and `RelabelAlphabet` (see `KeyLabels.RelabelStopsAtRaisingKey` and `KeyLabels.DocumentedRaise`), and the callers skip their remaining steps.
- **Parsed once per modification time.** The timestamp test only skips a file whose time equals the remembered one. A missing-file refresh resets that time to 0, so the same file found again afterwards is parsed again. See `LayoutCache.ParsedOncePerModificationTime` and `LayoutCache.ReparsedAfterMissingFile`.
- **Null files directory.** A null files directory publishes an empty table but keeps the timestamp. An unchanged file is therefore not reloaded afterwards. See `LayoutCache.EmptyAfterNullDirUntilFileChanges`.

## Model

| member | source | states |
|---|---|---|
| PopupGrid.RowCount | app/src/main/java/org/fcitx/fcitx5/android/input/popup/PopupKeyboardUi.kt:101 | `ceil(n/5)` is at least 1 and is the least r with n <= 5r |
| PopupGrid.ColumnCount | app/src/main/java/org/fcitx/fcitx5/android/input/popup/PopupKeyboardUi.kt:102 | `round(n/rowCount)` lies in 1..5 and is the nearest integer to n/rowCount, ties upwards |
| PopupGrid.ThirteenCandidates | app/src/main/java/org/fcitx/fcitx5/android/input/popup/PopupKeyboardUi.kt:99-102 | 13 candidates give 3 rows of 4: 12 cells |
| PopupGrid.TruncDiv | app/src/main/java/org/fcitx/fcitx5/android/input/popup/PopupKeyboardUi.kt:137 | Kotlin's truncating division: the remainder has the sign of the dividend and is smaller than the divisor |
| PopupGrid.OffsetX | app/src/main/java/org/fcitx/fcitx5/android/input/popup/PopupKeyboardUi.kt:137 | the horizontal offset: half the width difference, truncated, minus `focusColumn` key widths (centring in `PopupPlacement`) |
| PopupGrid.OffsetY | app/src/main/java/org/fcitx/fcitx5/android/input/popup/PopupKeyboardUi.kt:138 | the vertical offset: trigger height minus `popupHeight`, less `rowCount - 1` key heights |
| PopupGrid.PopupPlacement | app/src/main/java/org/fcitx/fcitx5/android/input/popup/PopupKeyboardUi.kt:137 | the focused column's key is centred over the trigger to within half a pixel |
| PopupGrid.PermutationCovers | app/src/main/java/org/fcitx/fcitx5/android/input/popup/PopupKeyboardUi.kt:140 | an injective column order into 0..c-1 uses every column slot |
| PopupGrid.KeyOrders | app/src/main/java/org/fcitx/fcitx5/android/input/popup/PopupKeyboardUi.kt:155-157 | the table has `rowCount` rows of `columnCount` entries |
| PopupGrid.KeyOrdersInRange | app/src/main/java/org/fcitx/fcitx5/android/input/popup/PopupKeyboardUi.kt:155-157 | every entry of `keyOrders` is a slot in 0..rows*columns-1 |
| PopupGrid.KeyOrdersInjective | app/src/main/java/org/fcitx/fcitx5/android/input/popup/PopupKeyboardUi.kt:155-157 | no two cells of `keyOrders` hold the same slot |
| PopupGrid.KeyOrdersOnto | app/src/main/java/org/fcitx/fcitx5/android/input/popup/PopupKeyboardUi.kt:155-157 | every slot in 0..rows*columns-1 is held by some cell |
| PopupGrid.CandidatesCoveredIff | app/src/main/java/org/fcitx/fcitx5/android/input/popup/PopupKeyboardUi.kt:99-157 | every candidate has a cell exactly when n <= rows*columns |
| PopupGrid.InitialFocusIsFirstCandidate | app/src/main/java/org/fcitx/fcitx5/android/input/popup/PopupKeyboardUi.kt:159 | the initial focus, bottom row at `focusColumn`, is candidate 0 when the column order seats 0 there |
| PopupGrid.LimitIndex | app/src/main/java/org/fcitx/fcitx5/android/input/popup/PopupKeyboardUi.kt:216-217 | the assumed `limitIndex` clamps into 0..c-1 and keeps indices already in range |
| PopupGrid.Dismisses | app/src/main/java/org/fcitx/fcitx5/android/input/popup/PopupKeyboardUi.kt:212 | the dismissal test: more than two rows or columns outside the grid (see `DismissIffFarOutside`) |
| PopupGrid.ChangeFocus | app/src/main/java/org/fcitx/fcitx5/android/input/popup/PopupKeyboardUi.kt:206-225 | a dismissal leaves the focus unchanged |
| PopupGrid.DismissIffFarOutside | app/src/main/java/org/fcitx/fcitx5/android/input/popup/PopupKeyboardUi.kt:212-215 | the popup dismisses exactly when the gesture's cell is more than two rows or columns outside the grid |
| PopupGrid.GestureInsideGrid | app/src/main/java/org/fcitx/fcitx5/android/input/popup/PopupKeyboardUi.kt:216-224 | a gesture over a grid cell focuses its candidate when it has a key view, else keeps the focus; the popup stays |
| PopupGrid.NearOutsideIsEdge | app/src/main/java/org/fcitx/fcitx5/android/input/popup/PopupKeyboardUi.kt:216-218 | a gesture up to two cells outside acts as the gesture over the nearest edge cell |
| PopupGrid.FocusRetainedWithoutKeyView | app/src/main/java/org/fcitx/fcitx5/android/input/popup/PopupKeyboardUi.kt:218-224 | a clamped cell whose slot has no key view leaves the focus as it was, without dismissing |
| PopupGrid.FocusOnlyOnCandidates | app/src/main/java/org/fcitx/fcitx5/android/input/popup/PopupKeyboardUi.kt:216-223 | focus moves only without dismissal, onto a cell's candidate that has a key view; a focus with a key view keeps one |
| PopupGrid.FocusStaysInGrid | app/src/main/java/org/fcitx/fcitx5/android/input/popup/PopupKeyboardUi.kt:216-223 | focus never leaves the grid's slots; with 13 candidates the 13th is never focused |
| PopupGrid.ReachCandidate | app/src/main/java/org/fcitx/fcitx5/android/input/popup/PopupKeyboardUi.kt:206-225 | every candidate with a cell and a key view is reached by some gesture, from any focus |
| PopupGrid.NineCandidatesUpOneRow | app/src/main/java/org/fcitx/fcitx5/android/input/popup/PopupKeyboardUi.kt:206-225 | 9 candidates: 2 rows of 5; moving up one row from the initial focus focuses slot 5 |
| PopupKeyboard.ChordKeyCode | app/src/main/java/org/fcitx/fcitx5/android/input/popup/PopupKeyboardUi.kt:234-242 | a chord key code is 0 or lies in `KEYCODE_0`..+9 or `KEYCODE_A`..+25 |
| PopupKeyboard.ClassifyKey | app/src/main/java/org/fcitx/fcitx5/android/input/popup/PopupKeyboardUi.kt:230-272 | a candidate string always yields a chord or an action, never nothing |
| PopupKeyboard.PlainKey | app/src/main/java/org/fcitx/fcitx5/android/input/popup/PopupKeyboardUi.kt:269-272 | a string that is not `Ctrl+` followed by something is emitted verbatim with default states |
| PopupKeyboard.CtrlKey | app/src/main/java/org/fcitx/fcitx5/android/input/popup/PopupKeyboardUi.kt:230-264 | `Ctrl+` and a letter (either case) or digit is the chord on its key; anything else is the rest with Ctrl and Virtual |
| PopupKeyboard.ChordDecodes | app/src/main/java/org/fcitx/fcitx5/android/input/popup/PopupKeyboardUi.kt:233-255 | a chord comes from `Ctrl+` and its key code gives back the upper-cased first character |
| PopupKeyboard.ChordRoundTrip | app/src/main/java/org/fcitx/fcitx5/android/input/popup/PopupKeyboardUi.kt:238-255 | every chord key code is produced by `Ctrl+` and the character it stands for |
| PopupKeyboard.DocumentedTriggers | app/src/main/java/org/fcitx/fcitx5/android/input/popup/PopupKeyboardUi.kt:230-272 | `Ctrl+a`, `Ctrl+7`, `Ctrl+é`, `Ctrl+` and `x` classify as documented |
| PopupKeyboard.PopupKeyboardUi.constructor | app/src/main/java/org/fcitx/fcitx5/android/input/popup/PopupKeyboardUi.kt:99-159 | valid grid for the keys; offsets as given; the focus is the bottom cell at `focusColumn`, which is 0 under the column-order assumption |
| PopupKeyboard.PopupKeyboardUi.OnChangeFocus | app/src/main/java/org/fcitx/fcitx5/android/input/popup/PopupKeyboardUi.kt:206-225 | the dismissal flag and new focus are the focus step's; the grid invariant is kept |
| PopupKeyboard.PopupKeyboardUi.OnTrigger | app/src/main/java/org/fcitx/fcitx5/android/input/popup/PopupKeyboardUi.kt:227-273 | nothing when the focus is outside the keys, else the classification of the focused key string |
| DisplayText.PrimitiveContent | app/src/main/java/org/fcitx/fcitx5/android/input/keyboard/TextKeyboard.kt:50 | `jsonPrimitive.content` fails exactly on non-primitives; JSON null reads as "null" |
| DisplayText.ResolveMap | app/src/main/java/org/fcitx/fcitx5/android/input/keyboard/TextKeyboard.kt:45-52 | the map yields nothing exactly when neither the sub-mode entry nor the "" entry exists |
| DisplayText.Resolve | app/src/main/java/org/fcitx/fcitx5/android/input/keyboard/TextKeyboard.kt:32-43 | resolving fails only on an object whose chosen entry, sub-mode first, is not a primitive |
| DisplayText.ResolveObjectIsPriorityChain | app/src/main/java/org/fcitx/fcitx5/android/input/keyboard/TextKeyboard.kt:40-52 | an object resolves along the priority list [sub-mode label, ""], then the default |
| DisplayText.ResolveNonObject | app/src/main/java/org/fcitx/fcitx5/android/input/keyboard/TextKeyboard.kt:37-42 | absent gives the default, a primitive its content, an array the default; none of them fails |
| DisplayText.SubModeEntryWins | app/src/main/java/org/fcitx/fcitx5/android/input/keyboard/TextKeyboard.kt:50 | the exact sub-mode entry wins over the "" entry and the default |
| DisplayText.DefaultBucketFallback | app/src/main/java/org/fcitx/fcitx5/android/input/keyboard/TextKeyboard.kt:50-51 | without a sub-mode entry, the "" entry is used |
| DisplayText.OtherEntriesIgnored | app/src/main/java/org/fcitx/fcitx5/android/input/keyboard/TextKeyboard.kt:45-52 | entries for other sub-modes never change the result |
| DisplayText.DefaultOnlyWhenNoBucket | app/src/main/java/org/fcitx/fcitx5/android/input/keyboard/TextKeyboard.kt:40 | the default is reached exactly when neither key is present |
| DisplayText.DocumentedExamples | app/src/main/java/org/fcitx/fcitx5/android/input/keyboard/TextKeyboard.kt:32-52 | the documented resolver examples, including the failing array entry |
| LayoutCache.Parses | app/src/main/java/org/fcitx/fcitx5/android/input/keyboard/TextKeyboard.kt:110-111 | the refresh reads the file exactly when it is present and the table is unloaded or its time changed (see `ChangedFileReplacesTable`) |
| LayoutCache.Publishes | app/src/main/java/org/fcitx/fcitx5/android/input/keyboard/TextKeyboard.kt:73 | the state flow emits only when the assigned table differs from the current one |
| LayoutCache.Refresh | app/src/main/java/org/fcitx/fcitx5/android/input/keyboard/TextKeyboard.kt:89-124 | a loaded table is never unloaded; the table stays unloaded only for a missing file from the start; any change is a parse or an empty table |
| LayoutCache.RefreshAll | app/src/main/java/org/fcitx/fcitx5/android/input/keyboard/TextKeyboard.kt:89-124 | successive refreshes, oldest first (see `StaysLoaded` and `UnloadedIffAllMissing`) |
| LayoutCache.Lookup | app/src/main/java/org/fcitx/fcitx5/android/input/keyboard/TextKeyboard.kt:133-136 | `null` before the first publish or for an absent input method, else the table's entry |
| LayoutCache.MissingFile | app/src/main/java/org/fcitx/fcitx5/android/input/keyboard/TextKeyboard.kt:101-107 | a missing file clears a loaded table or a remembered time to (empty, 0) and otherwise changes nothing |
| LayoutCache.MissingFileIdempotent | app/src/main/java/org/fcitx/fcitx5/android/input/keyboard/TextKeyboard.kt:101-107 | two missing-file refreshes equal one, and the second publishes nothing |
| LayoutCache.NullFilesDir | app/src/main/java/org/fcitx/fcitx5/android/input/keyboard/TextKeyboard.kt:92-95 | a null files directory publishes an empty table and keeps the timestamp |
| LayoutCache.UnchangedFileIsNoOp | app/src/main/java/org/fcitx/fcitx5/android/input/keyboard/TextKeyboard.kt:109-110 | a file whose time matches a loaded table is neither parsed nor changes anything |
| LayoutCache.ChangedFileReplacesTable | app/src/main/java/org/fcitx/fcitx5/android/input/keyboard/TextKeyboard.kt:110-122 | a changed file is parsed; the table becomes its parse, or empty on failure, and the time is recorded |
| LayoutCache.ParsedOncePerModificationTime | app/src/main/java/org/fcitx/fcitx5/android/input/keyboard/TextKeyboard.kt:109-122 | right after a refresh that found a file, the next refresh finding the same time parses nothing and changes nothing, even after a failed parse |
| LayoutCache.ReparsedAfterMissingFile | app/src/main/java/org/fcitx/fcitx5/android/input/keyboard/TextKeyboard.kt:101-111 | a missing-file refresh clears the table and forgets the time, so the same file found again is parsed again exactly when its time is not 0 |
| LayoutCache.LookupAfterParse | app/src/main/java/org/fcitx/fcitx5/android/input/keyboard/TextKeyboard.kt:110-136 | lookups after a parse see exactly the parsed table |
| LayoutCache.LookupAfterClear | app/src/main/java/org/fcitx/fcitx5/android/input/keyboard/TextKeyboard.kt:92-136 | after a missing file or null directory no input method has a layout |
| LayoutCache.StaysLoaded | app/src/main/java/org/fcitx/fcitx5/android/input/keyboard/TextKeyboard.kt:89-124 | once loaded, the table stays loaded through any refreshes |
| LayoutCache.UnloadedIffAllMissing | app/src/main/java/org/fcitx/fcitx5/android/input/keyboard/TextKeyboard.kt:89-124 | from process start the table stays `null` exactly as long as every refresh found no file |
| LayoutCache.EmptyAfterNullDirUntilFileChanges | app/src/main/java/org/fcitx/fcitx5/android/input/keyboard/TextKeyboard.kt:92-110 | after a null directory an unchanged file is not reloaded, so its layouts stay hidden |
| LayoutCache.PublishScenario | app/src/main/java/org/fcitx/fcitx5/android/input/keyboard/TextKeyboard.kt:89-124 | load, same-time refresh, change, delete twice: the observers see one publish per real change |
| Caps.SwitchTransitions | app/src/main/java/org/fcitx/fcitx5/android/input/keyboard/TextKeyboard.kt:344-356 | the full transition table of `switchCapsState` |
| Caps.NextCapsState | app/src/main/java/org/fcitx/fcitx5/android/input/keyboard/TextKeyboard.kt:345-356 | the state `switchCapsState` assigns (table in `SwitchTransitions`) |
| Caps.TransformAlphabet | app/src/main/java/org/fcitx/fcitx5/android/input/keyboard/TextKeyboard.kt:221-226 | lower case with caps off, upper case otherwise (see `TransformAlphabetCase`) |
| Caps.TransformPunctuation | app/src/main/java/org/fcitx/fcitx5/android/input/keyboard/TextKeyboard.kt:228 | the mapped symbol, or the symbol itself when unmapped |
| Caps.TransformPopupPreview | app/src/main/java/org/fcitx/fcitx5/android/input/keyboard/TextKeyboard.kt:323-327 | one letter follows caps, one other symbol goes through the mapping (see `PopupPreviewCases`) |
| Caps.TransformPopupKeyboardLabel | app/src/main/java/org/fcitx/fcitx5/android/input/keyboard/TextKeyboard.kt:333-337 | a one-letter popup keyboard label follows caps (see `PopupKeyboardLabelCases`) |
| Caps.OnActionEffect | app/src/main/java/org/fcitx/fcitx5/android/input/keyboard/TextKeyboard.kt:230-262 | the action `onAction` forwards and the `switchCapsState` argument it uses, if any (see the `OnAction` lemmas) |
| Caps.CapsAfter | app/src/main/java/org/fcitx/fcitx5/android/input/keyboard/TextKeyboard.kt:244-260 | the caps state after that switch, or the old one without it |
| Caps.ResetLeavesNone | app/src/main/java/org/fcitx/fcitx5/android/input/keyboard/TextKeyboard.kt:318-320 | the reset on an input-method change leaves caps off from every state |
| Caps.OnActionKeyboardKey | app/src/main/java/org/fcitx/fcitx5/android/input/keyboard/TextKeyboard.kt:233-253 | a keyboard key: None lower-cases; Once upper-cases with Virtual+Shift and returns to None; Lock upper-cases with Virtual+CapsLock and stays |
| Caps.OnActionPopupKey | app/src/main/java/org/fcitx/fcitx5/android/input/keyboard/TextKeyboard.kt:254-258 | a popup key is forwarded unchanged and only uses up a one-shot shift |
| Caps.OnceLastsOneKey | app/src/main/java/org/fcitx/fcitx5/android/input/keyboard/TextKeyboard.kt:230-263 | after any key action the one-shot shift is gone and a lock stays exactly when it was locked |
| Caps.OnActionNonKey | app/src/main/java/org/fcitx/fcitx5/android/input/keyboard/TextKeyboard.kt:260-263 | caps actions only drive the automaton; other actions pass through |
| Caps.TransformAlphabetCase | app/src/main/java/org/fcitx/fcitx5/android/input/keyboard/TextKeyboard.kt:221-226 | an alphabet label keeps its length, with no upper-case letter under None and no lower-case letter otherwise |
| Caps.PopupPreviewCases | app/src/main/java/org/fcitx/fcitx5/android/input/keyboard/TextKeyboard.kt:323-327 | one letter gets the alphabet transform of the caps state (lower case under None, else upper case), one other symbol goes through the mapping, anything else is kept |
| Caps.PopupKeyboardLabelCases | app/src/main/java/org/fcitx/fcitx5/android/input/keyboard/TextKeyboard.kt:333-337 | a one-letter popup keyboard label follows caps as a preview does; other labels are kept |
| KeyLabels.FlattenMembership | app/src/main/java/org/fcitx/fcitx5/android/input/keyboard/TextKeyboard.kt:392 | an entry is in the flattened layout exactly when it is in one of its rows |
| KeyLabels.Flatten | app/src/main/java/org/fcitx/fcitx5/android/input/keyboard/TextKeyboard.kt:392 | `flatten`: the rows concatenated in order (see `FlattenMembership`) |
| KeyLabels.FindIndexByMain | app/src/main/java/org/fcitx/fcitx5/android/input/keyboard/TextKeyboard.kt:392 | the position of the first entry whose `main` is the character |
| KeyLabels.FindByMain | app/src/main/java/org/fcitx/fcitx5/android/input/keyboard/TextKeyboard.kt:392 | `find` returns an entry of the list with that `main`, or none when no entry has it |
| KeyLabels.CustomDisplayText | app/src/main/java/org/fcitx/fcitx5/android/input/keyboard/TextKeyboard.kt:392-401 | the resolved display text of the first matching entry, else the character (see `CustomDisplayTextSource`) |
| KeyLabels.CustomAlphabetLabel | app/src/main/java/org/fcitx/fcitx5/android/input/keyboard/TextKeyboard.kt:392-413 | the label from the input method's own rows, or the resolver's exception (see `CustomLabelCases`) |
| KeyLabels.DefaultAlphabetLabel | app/src/main/java/org/fcitx/fcitx5/android/input/keyboard/TextKeyboard.kt:419-426 | the label from the key definition alone (see `DefaultLabelCases`) |
| KeyLabels.AlphabetLabel | app/src/main/java/org/fcitx/fcitx5/android/input/keyboard/TextKeyboard.kt:388-427 | one key of `updateAlphabetKeys`: non-alphabet keys unchanged, else the custom or default label |
| KeyLabels.RelabelKey | app/src/main/java/org/fcitx/fcitx5/android/input/keyboard/TextKeyboard.kt:390-427 | the key after its label is applied (see `RelabelKeyIdempotent`) |
| KeyLabels.CustomLayoutLabel | app/src/main/java/org/fcitx/fcitx5/android/input/keyboard/TextKeyboard.kt:388-414 | with the input method's own rows, an alphabet key gets the label those rows give it; a key that is not an alphabet key is never touched |
| KeyLabels.CustomLabelRaises | app/src/main/java/org/fcitx/fcitx5/android/input/keyboard/TextKeyboard.kt:392-398 | an alphabet key's update raises exactly when its display text resolves to a non-primitive, and it raises that element |
| KeyLabels.RelabelStopsAtRaisingKey | app/src/main/java/org/fcitx/fcitx5/android/input/keyboard/TextKeyboard.kt:388-414 | a key whose first matching entry maps the sub-mode to an object or array raises; with no earlier raise, the relabel stops there, earlier keys relabelled and the rest unchanged |
| KeyLabels.DocumentedRaise | app/src/main/java/org/fcitx/fcitx5/android/input/keyboard/TextKeyboard.kt:388-414 | an array under the sub-mode for the first key leaves every key unchanged and the update unsuccessful |
| KeyLabels.FirstThrow | app/src/main/java/org/fcitx/fcitx5/android/input/keyboard/TextKeyboard.kt:388-414 | the first key whose relabelling raises; every earlier one does not |
| KeyLabels.RelabelAlphabet | app/src/main/java/org/fcitx/fcitx5/android/input/keyboard/TextKeyboard.kt:388-427 | the relabel keeps the number of keys |
| KeyLabels.RefreshAlphabet | app/src/main/java/org/fcitx/fcitx5/android/input/keyboard/TextKeyboard.kt:375-429 | nothing without an input method, else the relabel up to the first raising key |
| KeyLabels.RelabelKeyIdempotent | app/src/main/java/org/fcitx/fcitx5/android/input/keyboard/TextKeyboard.kt:388-427 | a label depends only on the definition and context, so relabelling twice equals once |
| KeyLabels.ThrowsIgnoresCase | app/src/main/java/org/fcitx/fcitx5/android/input/keyboard/TextKeyboard.kt:393-414 | whether relabelling raises does not depend on the caps state or the keep-uppercase setting |
| KeyLabels.FirstThrowIgnoresCase | app/src/main/java/org/fcitx/fcitx5/android/input/keyboard/TextKeyboard.kt:388-414 | the first raising key does not depend on the caps state |
| KeyLabels.FirstThrowIgnoresLabels | app/src/main/java/org/fcitx/fcitx5/android/input/keyboard/TextKeyboard.kt:388-414 | the first raising key depends only on the definitions |
| KeyLabels.RelabelTwice | app/src/main/java/org/fcitx/fcitx5/android/input/keyboard/TextKeyboard.kt:375-427 | a full relabel followed by one under another caps state is the second alone |
| KeyLabels.RelabelFrame | app/src/main/java/org/fcitx/fcitx5/android/input/keyboard/TextKeyboard.kt:390-427 | only alphabet keys' main labels change; definitions and alternative labels stay |
| KeyLabels.DefaultLabelCases | app/src/main/java/org/fcitx/fcitx5/android/input/keyboard/TextKeyboard.kt:415-427 | without a layout: display text or character, case-transformed only when one letter: upper-cased with keep-uppercase, else lower under None and upper under Once or Lock |
| KeyLabels.NoThrowWithoutLayout | app/src/main/java/org/fcitx/fcitx5/android/input/keyboard/TextKeyboard.kt:415-427 | without a layout no key raises |
| KeyLabels.CustomDisplayTextSource | app/src/main/java/org/fcitx/fcitx5/android/input/keyboard/TextKeyboard.kt:392-402 | with a layout, the first entry whose `main` matches supplies the display text, else the character |
| KeyLabels.CustomLabelCases | app/src/main/java/org/fcitx/fcitx5/android/input/keyboard/TextKeyboard.kt:403-413 | empty text falls back to the character; keep-uppercase shows the character upper-cased; otherwise the text in the caps state's case |
| KeyLabels.CustomLabelNonEmpty | app/src/main/java/org/fcitx/fcitx5/android/input/keyboard/TextKeyboard.kt:403-413 | a key with a character never gets an empty label from a layout |
| KeyLabels.NoThrowWithPrimitiveDisplayTexts | app/src/main/java/org/fcitx/fcitx5/android/input/keyboard/TextKeyboard.kt:393-398 | layouts whose display texts are primitives or maps of primitives never raise |
| KeyLabels.PunctuationLabel | app/src/main/java/org/fcitx/fcitx5/android/input/keyboard/TextKeyboard.kt:431-444 | one key of `updatePunctuationKeys` (see `PunctuationFrame` and `PunctuationTextKey`) |
| KeyLabels.PunctuationFrame | app/src/main/java/org/fcitx/fcitx5/android/input/keyboard/TextKeyboard.kt:431-444 | alphabet keys change only the alternative label, text keys only the main label; letters and whitespace are skipped; a key with no text definition is untouched; idempotent |
| KeyLabels.PunctuationTextKey | app/src/main/java/org/fcitx/fcitx5/android/input/keyboard/TextKeyboard.kt:438-440 | a text key not starting with a letter or whitespace shows its text through the mapping, or the text itself when unmapped |
| KeyLabels.PunctuationUnmapped | app/src/main/java/org/fcitx/fcitx5/android/input/keyboard/TextKeyboard.kt:438-440 | an unmapped symbol is reset to its definition's text, unless it starts with a letter or whitespace, when the key is untouched |
| TextKeyboardView.SpaceLabelShape | app/src/main/java/org/fcitx/fcitx5/android/input/keyboard/TextKeyboard.kt:314-317 | the space label starts with the display name; the sub-mode label, or else its name when the label is empty, follows in parentheses; with neither, it is the display name alone |
| TextKeyboardView.SpaceLabel | app/src/main/java/org/fcitx/fcitx5/android/input/keyboard/TextKeyboard.kt:314-317 | the label `onInputMethodUpdate` gives the space bar (see `SpaceLabelShape`) |
| TextKeyboardView.Companion.constructor | app/src/main/java/org/fcitx/fcitx5/android/input/keyboard/TextKeyboard.kt:71-76 | the cache starts unloaded with timestamp 0 and no input method |
| TextKeyboardView.Companion.LoadLayoutsIfNeeded | app/src/main/java/org/fcitx/fcitx5/android/input/keyboard/TextKeyboard.kt:89-124 | the cache fields after the run are the refresh of the old state |
| TextKeyboardView.Companion.GetTextLayoutJsonForIme | app/src/main/java/org/fcitx/fcitx5/android/input/keyboard/TextKeyboard.kt:133-136 | the lookup of the name in the current cache state |
| TextKeyboardView.TextKeyboard.constructor | app/src/main/java/org/fcitx/fcitx5/android/input/keyboard/TextKeyboard.kt:199-206 | caps off, empty punctuation mapping, over the given key views |
| TextKeyboardView.TextKeyboard.LabelContextFor | app/src/main/java/org/fcitx/fcitx5/android/input/keyboard/TextKeyboard.kt:377-396 | what a relabel reads: the current input method's rows, its sub-mode label, the setting and a caps state |
| TextKeyboardView.TextKeyboard.UpdateAlphabetKeys | app/src/main/java/org/fcitx/fcitx5/android/input/keyboard/TextKeyboard.kt:375-429 | the keys become the relabel up to the first raising key; succeeds exactly when none raises |
| TextKeyboardView.TextKeyboard.UpdatePunctuationKeys | app/src/main/java/org/fcitx/fcitx5/android/input/keyboard/TextKeyboard.kt:431-444 | every key becomes its punctuation relabel |
| TextKeyboardView.TextKeyboard.OnPunctuationUpdate | app/src/main/java/org/fcitx/fcitx5/android/input/keyboard/TextKeyboard.kt:303-306 | the mapping is stored and every key becomes its punctuation relabel under it |
| TextKeyboardView.TextKeyboard.SwitchCapsState | app/src/main/java/org/fcitx/fcitx5/android/input/keyboard/TextKeyboard.kt:344-359 | the next caps state, then the alphabet relabel for it |
| TextKeyboardView.TextKeyboard.OnAction | app/src/main/java/org/fcitx/fcitx5/android/input/keyboard/TextKeyboard.kt:230-264 | caps state and forwarded action as the action's effect says; keys relabelled only when caps switched |
| TextKeyboardView.TextKeyboard.OnAttach | app/src/main/java/org/fcitx/fcitx5/android/input/keyboard/TextKeyboard.kt:266-271 | caps reset to None, then the alphabet relabel |
| TextKeyboardView.TextKeyboard.OnInputMethodUpdate | app/src/main/java/org/fcitx/fcitx5/android/input/keyboard/TextKeyboard.kt:308-321 | input method stored; on success the space label is set, caps is None and the keys show the relabel under None; on a raise the keys are the partial relabel under the old caps state and caps and space label are unchanged |

## Left out

- Android views and styling are not modelled. This covers `PopupKeyUi`, the popup's `root` layout, `markFocus`/`markInactive`, `updateCapsButtonIcon`, `updateLangSwitchKey`, `onReturnDrawableUpdate` and the lazily found key views. Focus is only `focusedIndex`.
- Coroutines and the state flow are not modelled: `scope.launch`, `collectLatest` and the `viewCollectJob` handling in `onAttach` and `onDetachedFromWindow`. Each refresh is one atomic step. The flow's conflation of equal values is the `Publishes` predicate.
- File access and JSON decoding are inputs (`Environment`), not code. This covers `getExternalFilesDir`, `File.exists`, `lastModified`, `readText` and kotlinx.serialization.
- The refreshes started by `onAttachedToWindow` and by `TextKeyboard`'s instance `init` block are the same `LoadLayoutsIfNeeded` step. Their scheduling is not modelled.
- Floating-point gesture maths is not modelled. `roundToInt` and `floor` of the gesture coordinates arrive as integer inputs, and the grid sizes use exact integer formulas.
- PopupKeyboardUi.constructor requires at least one key. With none, `(0f / 0).roundToInt()` throws in the Kotlin code, so no popup exists.
- `calcInitialFocusedColumn`, `createColumnOrder`, `limitIndex` and `onDismissSelf` belong to `PopupContainerUi`, which is not part of this model. They are parameters or the stated assumptions.
- `sendCombinationKeyEvents` is the `CtrlChord` result, carrying its key code; ctrl is always set. The service itself is not modelled.
- Case mapping, `isLetter` and `isWhitespace` are ASCII-only. For example, `'ı'.uppercaseChar()` is `'I'` in Kotlin, so `Ctrl+ı` sends the I chord there, while here it falls back to an action.
- PopupKeyboard.ChordKeyCode: ASCII-only, for the reason above.
- `onPopupAction` is modelled only through the label functions it applies (`TransformPopupPreview` and `TransformPopupKeyboardLabel`). The `PopupAction` types and the hand-off to the base keyboard are not.
- `keepLettersUppercase` is a live preference: the Kotlin code reads it each time it computes labels. Here it is a `const` of `TextKeyboard`, so a change to the preference while a keyboard exists is not modelled. Within one relabel it is read consistently in both.
- Key view classes are identified with their definitions: a key view is an `AltTextKeyView` exactly when its definition is `AltText`. The mapping from definitions to view classes is in a file that is not part of this model. `UpdatePunctuationKeys` rests on it, because `updatePunctuationKeys` tests the view class and then casts the definition.
- The space bar is a field, `spaceText`, of `TextKeyboard`, not one of its `textKeys`. In the Kotlin code it is itself a text key view gathered into `textKeys`. The separation is sound because the space key's text starts with whitespace, so `updatePunctuationKeys` skips it, and it is not an alphabet key. The space key's definition is in a file that is not part of this model. `OnInputMethodUpdate` sets `spaceText`, `UpdatePunctuationKeys` never touches it, and the constructor starts it at `""` in place of the definition's own text.
- The static `Layout` table and the preset candidate lists are data, not logic.
- The default `KeyStates` of a plain `FcitxKeyAction` come from a file that is not part of this model. They are the opaque value `DefaultStates`.
- Integer widths: key codes and pixel sizes are unbounded. 32-bit overflow cannot occur for the screen sizes involved.
- Logging.
