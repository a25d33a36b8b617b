# Project state of the mimsa editor UI, in Dafny

This project models the part of the mimsa editor's UI that keeps the state of the
current project:

- the **project reducer**, a pure transition `(State, ProjectAction) → (State, ProjectEvent[])`
  over a content-addressed store of fetched expressions;
- the **action constructors** that feed it;
- the **selectors** that resolve a binding name through the bindings and the store;
- the **session-storage adapter** that keeps the project's identity across reloads;
- the **view selectors** over the non-empty stack of screens;
- two pure helpers of the editor: the **source-span picker**, which finds the innermost
  item under the cursor and builds editor markers, and the **binding-name filter** used by
  the binding list.

Layout, one module per source file plus three shared modules:

| file | module | models |
|---|---|---|
| wrappers.dfy | `Wrappers` | fp-ts `Option`, and `Result` for a call that may throw |
| records.dfy | `Records` | JavaScript objects used as dictionaries, as ordered entry lists |
| state.dfy | `ProjectTypes`, `AppState` | project state, actions, events; the root state |
| view.dfy | `ViewTypes`, `ViewSelectors` | `ui/src/reducer/view/types.ts`, `ui/src/reducer/view/selectors.ts` |
| actions.dfy | `ProjectActions` | `ui/src/reducer/project/actions.ts` |
| reducer.dfy | `ProjectReducer` | `ui/src/reducer/project/reducer.ts` |
| helpers.dfy | `ProjectHelpers` | `ui/src/reducer/project/helpers.ts` |
| source_spans.dfy | `SourceSpans` | `ui/src/components/Editor/utils/sourceSpanHelpers.ts` |
| binding_filter.dfy | `BindingFilter` | `filterRecord` and `objectKeyFilter` of `ui/src/components/FilteredBindingList.tsx` |
| properties.dfy | `ProjectProperties` | properties that span the reducer, the actions and the selectors |

Modelling choices:

- A JavaScript record that the code enumerates is a list of `(key, value)` entries in
  insertion order. The bindings, the type bindings and the records that `filterRecord`
  narrows are such records. `Object.keys` and `Object.values` list them in that order,
  and the order is visible: it fixes the order of the hashes in a fetch request and the
  order of the filtered list. `{ ...r, [k]: v }` (`Records.Put`) keeps an existing key in
  its place and appends a new one.
- The store is a Dafny `map`. No code of the core enumerates it, so its key order is not
  modelled. `{ ...store, [h]: d }` is `store[h := d]`.
- `ExpressionData`, `EditorState` and the state slices other than `project` and `view`
  are abstract types. The reducer and the selectors never look into them.
- `JSON.parse` is a parameter of type `string -> Result<A, string>`; `Failure` stands for
  the exception it throws. `JSON.stringify` is a parameter of type `Project -> string`. The
  browser's `sessionStorage` is the class `ProjectHelpers.SessionStorage`, whose map
  field the methods read and write.
- `chooseSourceSpan` filters, sorts by size and takes the head. Sorting is stable and the
  comparator is a difference of integers, so the result is the first containing item of
  least size. The model computes that directly (`SourceSpans.Smallest`) rather than sorting.
- `toLowerCase` lowercases ASCII letters and leaves every other character alone.

Where the code does less than a content-addressed cache of project data would be
expected to do, the model follows the code:

- `FetchExpressionSuccess` overwrites an existing store entry without any check. A
  content-addressed cache would be expected to report a conflicting entry; the code does
  not (`ConflictOverwrites`). The store stays content-addressed only while the backend's
  responses are (`RunKeepsContentAddressed`).
- A response is stored whatever project is current. Nothing discards a stale response.
- `StoreProjectData` asks for the concatenation of the three hash lists, so duplicates
  stay. It is not a set union (`FetchList`).
- Switching projects keeps the store. Nothing de-duplicates in-flight fetches; the
  reducer has no in-flight set.
- `safeDecode` accepts whatever `JSON.parse` accepts and does not check its shape.

## Model

| member | source | states |
|---|---|---|
| `ProjectReducer.SetProject` | ui/src/reducer/project/reducer.ts:21 | the lens replaces `project` and keeps `view` and every other slice |
| `ProjectReducer.ProjectLensLaws` | ui/src/reducer/project/reducer.ts:21 | setting the current project is the identity; of two sets the last wins |
| `ProjectReducer.FetchList` | ui/src/reducer/project/reducer.ts:49-55 | the batch has length \|bindings\|+\|typeBindings\|+\|extraHashes\|; a hash is in it iff it is a binding value, a type-binding value or an extra hash; it is the binding values in order, then the type-binding values in order, then the extra hashes |
| `ProjectReducer.Reduce` | ui/src/reducer/project/reducer.ts:23-93 | every transition keeps `view` and the other slices; the store loses no key; only a fetch success for `h` changes the entry for `h`; only `StoreProjectData` replaces the bindings; every emitted event that names a project names the one current after the transition |
| `ProjectReducer.InitialiseStep` | ui/src/reducer/project/reducer.ts:29-34 | `Initialise` keeps the state and emits exactly `[ListBindings(projectHash)]` |
| `ProjectReducer.CreateProjectStep` | ui/src/reducer/project/reducer.ts:35-37 | `CreateProject` keeps the state and emits exactly `[CreateProject]` |
| `ProjectReducer.StoreProjectDataStep` | ui/src/reducer/project/reducer.ts:39-59 | sets project hash, bindings and type bindings from the snapshot, keeps the store and the other slices, emits exactly the batched fetch for the snapshot's hash, then the save of that hash |
| `ProjectReducer.FetchExpressionsForHashesStep` | ui/src/reducer/project/reducer.ts:61-68 | keeps the state and emits exactly one fetch of the given hashes for the current project |
| `ProjectReducer.StoreProjectHashStep` | ui/src/reducer/project/reducer.ts:69-77 | changes only the project hash, keeps bindings, type bindings and store, emits exactly `[ListBindings(h)]` |
| `ProjectReducer.FetchExpressionSuccessStep` | ui/src/reducer/project/reducer.ts:79-88 | the store gains `h ↦ d` (replacing any entry), every other entry and every other field is kept, no event is emitted |
| `ProjectReducer.FetchExpressionSuccessIdempotent` | ui/src/reducer/project/reducer.ts:79-88 | the same success applied twice equals it applied once |
| `ProjectReducer.FetchExpressionSuccessCommute` | ui/src/reducer/project/reducer.ts:79-88 | successes for distinct hashes commute |
| `ProjectReducer.ConflictOverwrites` | ui/src/reducer/project/reducer.ts:83-86 | a success whose data differs from the stored entry replaces it and reports nothing |
| `ProjectReducer.OtherActionStep` | ui/src/reducer/project/reducer.ts:90-91 | an unrecognised action keeps the state and emits nothing |
| `ProjectReducer.NewReferencesAreRequested` | ui/src/reducer/project/reducer.ts:39-59 | a hash that the bindings refer to only after a transition is in a fetch that the transition emits |
| `ProjectReducer.RunNeverDropsStoreKeys` | ui/src/reducer/project/reducer.ts:28-92 | along any sequence of actions the store's keys only grow |
| `ProjectReducer.RunKeepsContentAddressed` | ui/src/reducer/project/reducer.ts:79-88 | if the store and every response agree with one hash-to-content function, the store still does after any run |
| `ProjectActions.StoreProjectData` | ui/src/reducer/project/actions.ts:4-11 | builds a `StoreProjectData` action carrying the snapshot and the extra hashes unchanged |
| `ProjectActions.StoreProjectDataDefault` | ui/src/reducer/project/actions.ts:6 | leaving out the extra hashes means `[]` |
| `ProjectActions.FetchExpressionsForHashes` | ui/src/reducer/project/actions.ts:13-18 | builds a `FetchExpressionsForHashes` action carrying the hashes unchanged |
| `ProjectHelpers.FindExpressionForBinding` | ui/src/reducer/project/helpers.ts:36-45 | nothing for an unbound name or an unfetched hash, otherwise the stored expression of the bound hash |
| `ProjectHelpers.FindExpressionForTypeBinding` | ui/src/reducer/project/helpers.ts:47-56 | the same lookup through the type bindings |
| `ProjectHelpers.FindExpressionForAnyBinding` | ui/src/reducer/project/helpers.ts:58-67 | the value binding's result when it has one, otherwise the type binding's |
| `ProjectHelpers.AnyBindingFallsBackOnUnfetchedHash` | ui/src/reducer/project/helpers.ts:58-67 | a bound name whose hash is not in the store falls back to the type binding |
| `ProjectHelpers.FindExpression` | ui/src/reducer/project/helpers.ts:69-73 | some expression iff the hash is in the store, and then the stored one |
| `ProjectHelpers.FindExpressionReadsOnlyStore` | ui/src/reducer/project/helpers.ts:69-73 | two states with the same store give the same result |
| `ProjectHelpers.SafeSessionStorageGet` | ui/src/reducer/project/helpers.ts:6-9 | nothing iff the key is absent, otherwise the stored string |
| `ProjectHelpers.SafeDecode` | ui/src/reducer/project/helpers.ts:11-18 | nothing iff parsing throws, otherwise the parsed value unchecked |
| `ProjectHelpers.StoredProject` | ui/src/reducer/project/helpers.ts:20-34 | nothing when the key `project` is absent, otherwise the decoding of its string |
| `ProjectHelpers.ProjectGet` | ui/src/reducer/project/helpers.ts:30-34 | returns what `StoredProject` gives for the current session store, changing nothing |
| `ProjectHelpers.ProjectSet` | ui/src/reducer/project/helpers.ts:24-28 | writes the encoded project under `project` and changes no other key |
| `ProjectHelpers.CorruptPayloadReadsAsNothing` | ui/src/reducer/project/helpers.ts:11-18 | a stored payload that does not parse reads as no project |
| `ProjectHelpers.SetThenGet` | ui/src/reducer/project/helpers.ts:20-34 | when the codec round-trips, a read after a write gives the written project, whatever was stored before |
| `ProjectHelpers.OtherKeysDoNotMatter` | ui/src/reducer/project/helpers.ts:20-34 | writing any other key leaves what is read unchanged |
| `ProjectHelpers.SaveTwiceThenLoad` | ui/src/reducer/project/helpers.ts:24-34 | of two saves the last wins, and no other key appears or disappears |
| `ViewSelectors.GetCurrentScreen` | ui/src/reducer/view/selectors.ts:11-13 | total; the first screen of the stack |
| `ViewSelectors.FromArray` | ui/src/reducer/view/selectors.ts:9 | nothing iff the array is empty, otherwise the same array as a non-empty one |
| `ViewSelectors.GetLastScreen` | ui/src/reducer/view/selectors.ts:7-9 | nothing iff the stack has exactly one screen; the second screen when it has two or more |
| `ViewSelectors.SelectorsReadTopTwo` | ui/src/reducer/view/selectors.ts:7-13 | depends only on the first two screens, not on deeper screens or other slices |
| `SourceSpans.SourceSize` | ui/src/components/Editor/utils/sourceSpanHelpers.ts:13-22 | at least 1 and at least each extent; the plain area for a span longer than one in both directions; the column extent (at least 1) for a span within one row, and the row extent (at least 1) for a span within one column |
| `SourceSpans.NestedSpanIsNoLarger` | ui/src/components/Editor/utils/sourceSpanHelpers.ts:13-22 | a span nested in another has no larger size |
| `SourceSpans.ContainingMembers` | ui/src/components/Editor/utils/sourceSpanHelpers.ts:30-43 | keeps exactly the items whose span contains the position, bounds included |
| `SourceSpans.SmallestIsLeast` | ui/src/components/Editor/utils/sourceSpanHelpers.ts:44-48 | nothing iff no items; otherwise an item of the input whose size is least |
| `SourceSpans.ChooseSourceSpan` | ui/src/components/Editor/utils/sourceSpanHelpers.ts:24-49 | nothing iff no span contains the position; otherwise an input item containing it, of least size among those |
| `SourceSpans.SmallestIsFirstOfLeastSize` | ui/src/components/Editor/utils/sourceSpanHelpers.ts:44-48 | with the stable sort, the chosen item is the earliest one of least size |
| `SourceSpans.ContainingAppend` | ui/src/components/Editor/utils/sourceSpanHelpers.ts:30-43 | filtering distributes over concatenation |
| `SourceSpans.NonContainingItemsAreIgnored` | ui/src/components/Editor/utils/sourceSpanHelpers.ts:28-43 | inserting items that do not contain the position anywhere leaves the choice unchanged |
| `SourceSpans.CreateMarkerForTypedHole` | ui/src/components/Editor/utils/sourceSpanHelpers.ts:51-61 | severity 1, message `Inferred type: ` followed by the type, lines copied, columns one more |
| `SourceSpans.CreateMarkerForError` | ui/src/components/Editor/utils/sourceSpanHelpers.ts:63-72 | severity 8, message `Error!`, lines copied, columns one more |
| `SourceSpans.MarkersCoverTheirSpan` | ui/src/components/Editor/utils/sourceSpanHelpers.ts:57-60 | shifting a marker's columns back gives the span it was built from |
| `BindingFilter.KeepAllMeansEveryCharOccurs` | ui/src/components/FilteredBindingList.tsx:45-49 | the `reduce` keeps its seed iff every character of the filter occurs in the key |
| `BindingFilter.KeyMatches` | ui/src/components/FilteredBindingList.tsx:41-49 | true iff every lowercased filter character occurs in the lowercased key |
| `BindingFilter.MatchIsNotSubsequence` | ui/src/components/FilteredBindingList.tsx:47 | `ba` matches `Abc`: membership, not subsequence |
| `BindingFilter.Kept` | ui/src/components/FilteredBindingList.tsx:53-62 | the reference meaning: the entries whose key passes, in order |
| `BindingFilter.KeyFoldFrom` | ui/src/components/FilteredBindingList.tsx:57-62 | the fold from any position, started with the entries before it filtered, filters the whole record |
| `BindingFilter.ObjectKeyFilterIsKept` | ui/src/components/FilteredBindingList.tsx:53-62 | `objectKeyFilter` equals the reference filter on a record with unique keys |
| `BindingFilter.KeptLookup` | ui/src/components/FilteredBindingList.tsx:57-61 | a key of the result has its original value, and whether it stays depends on that key alone |
| `BindingFilter.KeptAllOrNothing` | ui/src/components/FilteredBindingList.tsx:53-62 | an always-true predicate keeps the record, an always-false one gives `{}` |
| `BindingFilter.FilterRecordEmpty` | ui/src/components/FilteredBindingList.tsx:38-39 | the empty filter returns the record |
| `BindingFilter.FilterRecordLookup` | ui/src/components/FilteredBindingList.tsx:34-51 | a key stays with its value iff every lowercased filter character occurs in the lowercased key |
| `BindingFilter.FilterRecordIsSubRecord` | ui/src/components/FilteredBindingList.tsx:34-62 | the result holds only entries of the record, and with a non-empty filter is the reference filter |
| `BindingFilter.KeyFoldUnique` | ui/src/components/FilteredBindingList.tsx:57-61 | each spread of the fold keeps the keys of the accumulated object unique |
| `BindingFilter.ObjectKeyFilterUnique` | ui/src/components/FilteredBindingList.tsx:53-62 | `objectKeyFilter` returns an object with unique keys, as does the reference filter on one |
| `BindingFilter.FilterRecordUnique` | ui/src/components/FilteredBindingList.tsx:34-51 | the filtered record has unique keys when the input record has |
| `BindingFilter.FilterRecordDependsOnCharSet` | ui/src/components/FilteredBindingList.tsx:41-49 | filters with the same lowercased characters, reordered or repeated, give the same result |
| `Records.Keys` | ui/src/components/FilteredBindingList.tsx:57 | `Object.keys`: one key per entry, in order |
| `Records.Values` | ui/src/reducer/project/reducer.ts:51-52 | `Object.values`: one value per entry, in order |
| `Records.Lookup` | ui/src/reducer/project/helpers.ts:41 | nothing iff the key is absent; otherwise a value stored under it |
| `Records.Put` | ui/src/components/FilteredBindingList.tsx:59 | the spread keeps the key list, or appends the key when new |
| `Records.PutLookup` | ui/src/components/FilteredBindingList.tsx:59 | after the spread the key holds the new value and every other key is unchanged |
| `Records.PutUnique` | ui/src/components/FilteredBindingList.tsx:59 | the spread keeps an object's keys unique |
| `Records.ValuesAreBound` | ui/src/reducer/project/reducer.ts:51-52 | a value is listed by `Object.values` iff some key is bound to it |
| `ProjectProperties.ResponsesFillStore` | ui/src/reducer/project/reducer.ts:79-88 | answering a fetch batch stores each of its hashes, keeps the other entries, emits nothing and changes nothing else |
| `ProjectProperties.SnapshotResolvesOnceFetched` | ui/src/reducer/project/reducer.ts:39-59 | once the batch a snapshot asked for is answered, each of its bindings and type bindings resolves to the served expression |
| `ProjectProperties.ResponseResolvesBoundName` | ui/src/reducer/project/helpers.ts:36-67 | a response for a bound name's hash makes that name resolve to it, whatever project is current |
| `ProjectProperties.DefaultSnapshotFetchesOwnHashes` | ui/src/reducer/project/actions.ts:4-11 | a snapshot with the default argument asks for its binding and type-binding hashes and nothing else |
| `ProjectProperties.SnapshotThenFetchScenario` | ui/src/reducer/project/reducer.ts:39-88 | from an empty project, storing `{x: H1}` under `Hp` emits `[FetchExpressions([H1], Hp), SaveToSessionStorage(Hp)]`; then a response for `H1` makes `x` resolve |

## Left out

- Rendering: `NewType.tsx`, the JSX of `FilteredBindingList.tsx`, `itemSelect`, `renderTests` and `ListTests.tsx`. They only display state.
- `testTitle` in `FilteredBindingList.tsx`. It calls `testCounts`, which `ListTests.tsx` does not define.
- The hooks `useAddType` and `useListProjectTests`, the `useState` of the binding list, and `fold`/`toNullable` from remote-data-ts. They are asynchronous network state behind libraries that are not part of this model.
- The effect runner, which turns events into network calls and storage writes. It is not part of this model, and neither is its de-duplication of in-flight fetches.
- Discarding stale responses and reporting store conflicts. The code does neither, so the model does neither.
- `static/backend/commonjs/stdlib.js`, the runtime of the compiled language. It is dynamically typed and relies on `JSON.stringify` for equality.
- JSON syntax and the browser's storage. `JSON.parse` and `JSON.stringify` are parameters, and `sessionStorage` is a map field.
- ProjectHelpers.SafeDecode: decodes into `Project` values only. The source casts whatever `JSON.parse` returns to `Project` without a check, so a payload such as `42` reaches callers as a "project". The model has no values of the wrong shape, so it cannot show this.
- BindingFilter.KeyMatches: compares whole Unicode characters, while `split('')` and `includes` work on UTF-16 code units. They differ only for characters outside the Basic Multilingual Plane: the source splits such a filter character into its two surrogates and keeps a key in which both surrogates occur, even as halves of other characters (filter U+1F640 keeps key U+1F240 U+1F600), and the model drops that key.
- Unicode case mapping. `toLowerCase` is modelled for ASCII only. The model does not capture characters whose lower case is longer, or other scripts.
- JavaScript's key-order rule for integer-like keys (they come first, in numeric order), and keys inherited from `Object.prototype` (`bindings["constructor"]`). Binding names and hashes are never of those kinds.
- The store's key order, which no core code observes.
- Floating-point numbers. Span coordinates and sizes are unbounded integers, which agrees with JavaScript numbers as long as the values stay below 2^53.
- `view/types.ts` has no behaviour; its screens and view state are datatypes here. No view reducer is part of this model.
