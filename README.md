# Hybrid forms: a verified model

This project models the core of a form library that renders Django form
fields as Vue widgets. It covers these parts:

- The front end's HTTP helper `api.js`. Its interceptors count in-flight mutating requests and add the CSRF header. It also drains paginated list responses, expands array query parameters, normalises server validation errors, keys lists by id, partitions settled requests, renumbers `order` fields and converts django-filter ordering strings.
- The unsaved-changes tracker `changes.js`. It snapshots a form's input values and answers whether leaving the page loses work.
- The Vue mixins behind every widget:
  - searchable option lists (`searchMixin.js`);
  - the basic input (`formInput.js`);
  - grouped and checked options (`formInputOptions.js`);
  - "other" options with sub-fields (`otherOptions.js`);
  - conditional visibility (`conditionalField.js`).
- The string helpers `toTitleCase` and `isString`.
- The Django template tags `hybrid_field` and `js_boolean`. `hybrid_field` prepares a bound field's value, options, errors and template for the Vue widget templates.

JavaScript values are modelled by `JsValues.JsValue`:

- `undefined`, `null`, booleans, integers, strings, arrays, and objects as maps from keys to values.
- JavaScript truthiness, `String()` conversion and property access. Reading a property of `undefined` or `null` is a `TypeError`.
- An array's or a string's own keys are its decimal indices.

Exceptions are `Result` errors. Python values are modelled by `PyValues.PyValue`. `Json` is the string encoding of `json.dumps` (section 7 of RFC 8259, with the library's default `ensure_ascii`), together with a decoder and a proof that the two round-trip.

State that the source mutates is modelled by classes:

- the tracker's counter and form element (`Changes.Tracker`, `Changes.FormElement`);
- an axios request config (`Api.RequestConfig`, `Api.RequestOptions`);
- each mixin's component state (`SearchMixin.Searchable`, `FormInput.Field`, `OtherOptions.Subfields`, `ConditionalField.Conditional`, `ConditionalField.ParentField`);
- Django's bound field, form field and widget (`TemplateForms.BoundField`, `TemplateForms.FormField`, `TemplateForms.Widget`).

Loops in the source are methods with loop invariants, each proved against a specification function:

- `getAllJSONResults`
- `paramsSerializer`
- the `forEach` walk of `parseFormErrorsGeneric`
- the `for` loop of `reorderBetween`
- the `reduce` of `groupKeys`

Throttled and debounced handlers are single atomic steps that take the outcome of the request as a parameter. DOM look-ups and `$refs` are parameters or fields, and emitted events are recorded in a sequence.

Where the code and its comments disagree, the model follows the code:

- `isPersisted` (`src/js/utils/api.js:286-288`) returns true when the item's `id` is *not* a string.
- The exclusion list of `changes.js` names `files`, so file inputs are compared by value.
- The critical-read test compares the method name with `'GET'` case-sensitively. axios lower-cases `config.method` before running request interceptors, so as deployed a critical GET is probably never counted. The model keeps the comparison as written. axios is not part of this model, so that last step is not claimed here.

## Model

| member | source | states |
|---|---|---|
| Api.RequestMustResolve | src/js/utils/api.js:92-96 | a request must resolve exactly when its method is POST, PATCH, PUT or DELETE in any letter case, or is exactly `GET` with a truthy `critical` |
| Api.CriticalGetIsCaseSensitive | src/js/utils/api.js:94 | `get` and `Get` with `critical` do not count, `GET` does, and `GET` without a truthy `critical` does not |
| Api.MutatingIgnoresCase | src/js/utils/api.js:93 | `post`, `Patch`, `put`, `DeLeTe` must all resolve |
| Api.NeedsCsrfHeader | src/js/utils/api.js:124-126 | the CSRF header is added exactly when the method is not GET, HEAD, OPTIONS or TRACE, ignoring case |
| Api.MustResolveImpliesCsrf | src/js/utils/api.js:92-96 | every request that must resolve, other than a critical `GET`, carries the CSRF header |
| Api.NewApi | src/js/utils/api.js:32-35 | construction succeeds exactly when the token is a non-empty string, and keeps that token |
| Api.RequestInterceptor | src/js/utils/api.js:118-128 | the counter rises by one exactly when the request must resolve; `headers[method]` becomes `{X-CSRFToken: token}` exactly when the method needs it, and no other header key changes; the same config is returned |
| Api.ResponseInterceptor | src/js/utils/api.js:104-109 | only a fulfilled response of a request that must resolve lowers the counter; a rejection changes nothing and is passed on |
| Api.FulfilledRoundTrip | src/js/utils/api.js:104-128 | a request that is sent and then fulfilled leaves the counter where it was |
| Api.RejectedStaysInFlight | src/js/utils/api.js:63 | a mutating request that is rejected leaves the counter one higher |
| Api.FailedMutation | src/js/utils/api.js:118-128 | running both interceptors for a failed POST leaves the tracker's counter raised by one |
| Api.WithMaxPageSizeIdempotent | src/js/utils/api.js:69 | setting `page_size` to the maximum safe integer twice is the same as once |
| Api.DrainReachesLastPage | src/js/utils/api.js:67-82 | when pages up to the first page with `next: null` all follow `next`, the result is that last page with `results` replaced by every page's results in page order |
| Api.DrainRejectsMalformedPage | src/js/utils/api.js:70-74 | a page without `next` or without an array `results` makes the call fail with a TypeError |
| Api.DrainOkHasLastPage | src/js/utils/api.js:67-82 | a successful drain has met a last page after a chain of pages that all followed `next` |
| Api.RequestChainExtend | src/js/utils/api.js:76-79 | following `next` extends the chain of requested URLs by the page's `next` |
| Api.GetAllJsonResults | src/js/utils/api.js:67-82 | the loop returns exactly the drained result and sets `params.page_size`. It requests the first URL, then each page's `next` in turn, and stops at the first response it does not follow. A success ends on a last page. The responses running out is exactly the case where every response was used |
| Api.RequestChainUnique | src/js/utils/api.js:67-82 | the responses fix the URLs requested: two chains from the same URL that both stop where the drain stops are equal |
| Api.ExpandParamsAppend | src/js/utils/api.js:44-56 | expanding parameters distributes over concatenation of the parameter list |
| Api.ExpandScalars | src/js/utils/api.js:50-52 | non-array parameters give one `key=String(value)` pair each, in order |
| Api.ExpandArray | src/js/utils/api.js:47-49 | an array parameter gives one pair per element, all under the same key |
| Api.SerializeParams | src/js/utils/api.js:44-56 | the nested loops produce exactly the expanded pair list |
| ApiHelpers.NetworkErrorKeepsMessage | src/js/utils/api.js:139-141 | with no response and a network error, the result is no field errors and the error's message itself, not an alert object |
| ApiHelpers.NullNetworkError | src/js/utils/api.js:138-141 | a `null` error is read as `{}`, giving `[undefined]` on a network error and nothing otherwise |
| ApiHelpers.UndefinedErrorThrows | src/js/utils/api.js:138-139 | an `undefined` error makes the function throw a TypeError |
| ApiHelpers.ResponsePayload | src/js/utils/api.js:142-169 | with a response, the result is what the walk of `response.data` gives |
| ApiHelpers.HyperlinkBecomesRequired | src/js/utils/api.js:162-165 | a list starting with the invalid-hyperlink message becomes exactly `['This field is required.']` |
| ApiHelpers.OtherListsCopied | src/js/utils/api.js:162-165 | any other list is copied unchanged |
| ApiHelpers.Alerts | src/js/utils/api.js:157-160 | each `non_field_errors` message becomes `{message, type: 'error'}`, in order |
| ApiHelpers.VisitKey | src/js/utils/api.js:156-167 | visiting one more key keeps the walk's partial field errors and alerts equal to their specification over the keys visited |
| ApiHelpers.WalkComplete | src/js/utils/api.js:156-169 | after every key is visited, the partial results are the whole answer |
| ApiHelpers.WalkFields | src/js/utils/api.js:156-169 | the `forEach` loop succeeds exactly when the payload can be walked, and then gives the specified errors and alerts |
| ApiHelpers.WalkPayload | src/js/utils/api.js:142-169 | walking `response.data` succeeds and gives exactly what the specification says |
| ApiHelpers.PushAlerts | src/js/utils/api.js:158-160 | the push loop builds exactly the alert list |
| ApiHelpers.ParseFormErrorsGeneric | src/js/utils/api.js:137-170 | the method succeeds exactly when the specification does, with the same field errors and alerts |
| ApiHelpers.FormErrorsOf | src/js/utils/api.js:138-141 | an `undefined` error throws, and a `null` error is read as `{}` and never throws |
| ApiHelpers.KeyById | src/js/utils/api.js:187-196 | anything but an array throws `Expected an Array, but got <typeof>`; an array is keyed exactly when every item yields a key |
| ApiHelpers.KeyItemsOk | src/js/utils/api.js:187-196 | keying succeeds exactly when every item yields a key |
| ApiHelpers.KeyItemsKeys | src/js/utils/api.js:192-195 | the keys of the result are exactly the items' keys |
| ApiHelpers.KeyItemsLastWins | src/js/utils/api.js:192-195 | an item whose key no later item repeats is stored, shallow-copied, under its key |
| ApiHelpers.KeyByNameFails | src/js/utils/api.js:194 | keying by a property name fails exactly when some item is `null` or `undefined` |
| ApiHelpers.ReducePartitions | src/js/utils/api.js:208-222 | with every promise settled, fulfilled responses contribute their `data` and rejections `{key: reason}`, each in order, and every entry lands on exactly one side |
| ApiHelpers.ResolveNetworkRequests | src/js/utils/api.js:205-223 | more keys than promises always throws, because the extra key has no response to read a status from |
| ApiHelpers.ResolveNetworkRequestsSpec | src/js/utils/api.js:205-223 | with distinct keys, a response for each and no null fulfilled value, the result is the fulfilled data and the `{key: reason}` rejections, each in key order, one entry per key |
| ApiHelpers.MissingResponseThrows | src/js/utils/api.js:209-221 | a key with no matching response makes the reducer throw |
| ApiHelpers.ZipDistinct | src/js/utils/api.js:221 | distinct keys pair up with the responses position by position |
| ApiHelpers.PutNewEntry | src/js/utils/api.js:221 | a new key is appended at the end of the object |
| ApiHelpers.ReorderBetween | src/js/utils/api.js:248-265 | the copy-and-renumber loop returns exactly `Reordered` of its inputs |
| ApiHelpers.Reordered | src/js/utils/api.js:248-265 | only two defined indices can throw; otherwise the result has one plain-object copy per item, with every property of the item and at most `order` added |
| ApiHelpers.ReorderedLength | src/js/utils/api.js:248-265 | the result has the input's length |
| ApiHelpers.ReorderedSymmetric | src/js/utils/api.js:249-259 | swapping the two indices gives the same result |
| ApiHelpers.ReorderedRange | src/js/utils/api.js:251-262 | an item inside the closed range between the indices gets `order` equal to its position, and an item outside it is an unchanged copy |
| ApiHelpers.ReorderedAll | src/js/utils/api.js:253-255 | with either index missing, every item is renumbered |
| ApiHelpers.ReorderedOutOfRange | src/js/utils/api.js:260-262 | a range that leaves the list makes the loop throw |
| ApiHelpers.SerializeDeserialize | src/js/utils/api.js:274-283 | serialising a deserialised ordering string gives the string back |
| ApiHelpers.Deserialize | src/js/utils/api.js:274-279 | the direction is descending exactly when the string starts with `-`, and the field name is the rest of the string |
| ApiHelpers.Serialize | src/js/utils/api.js:281-283 | the string is the field name, preceded by `-` exactly for descending order |
| ApiHelpers.DeserializeSerialize | src/js/utils/api.js:274-283 | deserialising a serialised ordering gives the field and direction back, for field names without a leading `-` |
| ApiHelpers.IsPersisted | src/js/utils/api.js:286-288 | throws exactly on `null` or `undefined`; otherwise true exactly when the item has no string `id` |
| Changes.Snapshot | src/js/utils/changes.js:22-28 | a snapshot changes nothing but `origValue` |
| Changes.SnapshotAll | src/js/utils/changes.js:22-28 | every input is snapshotted, in place and in order |
| Changes.Tracker.Setup | src/js/utils/changes.js:12-40 | setup fails exactly when no element was found; otherwise it snapshots every input and registers one unload listener |
| Changes.Tracker.IncrementInFlight | src/js/utils/changes.js:41-44 | the counter rises by one |
| Changes.Tracker.DecrementInFlight | src/js/utils/changes.js:45-48 | the counter falls by one, without a lower bound |
| Changes.Tracker.HasUnsavedChanges | src/js/utils/changes.js:54-78 | throws exactly before a successful setup; a positive counter answers true whatever the inputs and focus; otherwise a focused submit control answers false; otherwise input changes or the body flag decide |
| Changes.Decide | src/js/utils/changes.js:69-77 | a positive counter answers true; a focused submit control answers false; otherwise changes or the body flag decide |
| Changes.SnapshotIsClean | src/js/utils/changes.js:22-63 | right after the snapshot no input counts as changed |
| Changes.CleanAfterSetup | src/js/utils/changes.js:54-78 | after setup, with no edits, no requests and no body flag, there are no unsaved changes |
| Changes.ExcludedNeverChanged | src/js/utils/changes.js:57 | hidden and password inputs never count |
| Changes.FileInputComparedByValue | src/js/utils/changes.js:57-62 | a file input counts exactly when its value differs from its snapshot |
| Changes.AddedInputCountsAsChanged | src/js/utils/changes.js:56-61 | an input added after setup always counts as changed |
| Changes.NegativeCountIsZero | src/js/utils/changes.js:69 | a negative counter decides like zero |
| Changes.EmptyBodyFlagIsFalsy | src/js/utils/changes.js:64-67 | an empty body flag does not make the answer true; `"true"` does |
| Changes.IncrementThenDecrement | src/js/utils/changes.js:41-48 | increment then decrement restores the counter |
| SearchMixin.NoOptionsText | src/js/mixins/searchMixin.js:70-76 | the remote-search prompt is shown exactly when there is an options URL, and the no-match text exactly when there is not |
| SearchMixin.OptionKeys | src/js/mixins/searchMixin.js:77-79 | the keys succeed exactly when no option is nullish, one per option |
| SearchMixin.PrefixMatches | src/js/mixins/searchMixin.js:132 | the local filter only keeps options, and never more of them than there are |
| SearchMixin.PrefixMatchesSelects | src/js/mixins/searchMixin.js:132 | a successful local filter is exactly the order-keeping selection of the matching options |
| SearchMixin.PrefixMatchesOk | src/js/mixins/searchMixin.js:132 | the local filter fails exactly on an option whose display name cannot be lower-cased |
| SearchMixin.PrefixMatchesSpec | src/js/mixins/searchMixin.js:132 | the local filter succeeds exactly when every display name can be lower-cased, and then keeps exactly the options whose lower-cased display name starts with the lower-cased search text, in their original order |
| SearchMixin.EmptyTextKeepsAll | src/js/mixins/searchMixin.js:132 | an empty search text keeps every option |
| SearchMixin.RemoteResults | src/js/mixins/searchMixin.js:115 | a cleared search text gives `[]`; otherwise `data.results` when truthy, else `data.params.options` whenever `data.params` can be read, throwing exactly when one of those reads is on null or undefined |
| SearchMixin.NewResultsSelects | src/js/mixins/searchMixin.js:117 | a successful remote filter is exactly the order-keeping selection of the results whose key no option has |
| SearchMixin.NewResultsOk | src/js/mixins/searchMixin.js:117 | the remote filter fails exactly on a nullish result |
| SearchMixin.NewResultsSpec | src/js/mixins/searchMixin.js:115-117 | the remote filter succeeds exactly when no result is nullish, and keeps exactly the results whose key is not among the options' keys, in response order |
| SearchMixin.MergeRemote | src/js/mixins/searchMixin.js:116-119 | non-array results throw, empty results give exactly the options, and a merge always ends with all the options |
| SearchMixin.MergeEmptyResults | src/js/mixins/searchMixin.js:115-119 | empty results, as after the text was cleared, give exactly the options even when one of them is null, since `optionKeys` is never read |
| SearchMixin.MergeRemoteOk | src/js/mixins/searchMixin.js:116-119 | the merge fails exactly on non-array results, or on non-empty results with a nullish option or result |
| SearchMixin.MergeRemoteNovel | src/js/mixins/searchMixin.js:116-119 | a successful non-empty merge has read every option's key, and is the new results followed by the options |
| SearchMixin.MergeRemoteFresh | src/js/mixins/searchMixin.js:116-119 | every merged item ahead of the options is a readable remote result whose key no option has |
| SearchMixin.MergeRemoteSpec | src/js/mixins/searchMixin.js:115-119 | the merged list is the order-keeping selection of the remote results whose key no option has, followed by all the options |
| SearchMixin.SearchParams | src/js/mixins/searchMixin.js:105-111 | the query has `q`, `page_size: 20` and `idformat: 1`, and parameters already in the URL override them |
| SearchMixin.Searchable.ResetOptions | src/js/mixins/searchMixin.js:137-144 | the options are restored and the text cleared, unless a search is active and `clearAfterSearch` is off |
| SearchMixin.Searchable.ClearSearch | src/js/mixins/searchMixin.js:145-148 | the options are restored and the text cleared |
| SearchMixin.Searchable.ClearSelection | src/js/mixins/searchMixin.js:149-152 | emits `clear` and resets the options |
| SearchMixin.Searchable.SetOptions | src/js/mixins/searchMixin.js:85-88 | new options reset the local options as `resetOptions` does |
| SearchMixin.Searchable.SearchTextChanged | src/js/mixins/searchMixin.js:89-134 | an empty text resets; with an options URL any request in flight is cancelled and a new one is issued with the search parameters; without one the options are filtered locally |
| SearchMixin.Searchable.ReceiveResponse | src/js/mixins/searchMixin.js:112-125 | a cancelled response changes nothing; a failure emits an error event; a success merges the results, emits them and ends the request |
| SearchMixin.SecondSearchCancelsFirst | src/js/mixins/searchMixin.js:97-101 | a second search cancels the first one's request |
| FormInput.FieldId | src/js/mixins/formInput.js:114-119 | the id prop wins; otherwise `id_` followed by the name |
| FormInput.DerivedIdsDistinct | src/js/mixins/formInput.js:114-119 | derived ids differ exactly when the names differ |
| FormInput.FieldLabel | src/js/mixins/formInput.js:120-128 | the label prop wins; otherwise a string name is title-cased, failing exactly when it has an empty word; any other name gives `""` |
| FormInput.HasValue | src/js/mixins/formInput.js:140-145 | a number has a value exactly when it is not negative; anything else exactly when it is truthy |
| FormInput.ZeroHasValue | src/js/mixins/formInput.js:140-145 | zero has a value though falsy; `-1` does not though truthy; `""`, `null` and `undefined` do not |
| FormInput.WrapperModifierClasses | src/js/mixins/formInput.js:129-139 | the wrapper carries `c-input--<modifier>` exactly when a modifier is set |
| FormInput.WrapperStateClasses | src/js/mixins/formInput.js:129-139 | the focus, hidden-label, has-value, error and conditional-visibility classes follow their flags |
| FormInput.InputClass | src/js/mixins/formInput.js:146-150 | `is-invalid` is present exactly when there are errors, and nothing else is |
| FormInput.IsValidModifier | src/js/mixins/formInput.js:86-88 | exactly the listed modifiers are accepted |
| FormInput.MountCheck | src/js/mixins/formInput.js:103-112 | mounting throws exactly for a placeholder on a `minimal` or `float` input; otherwise it asks for focus exactly when `autofocus` is set |
| FormInput.LocalValueFor | src/js/mixins/formInput.js:156-158 | the local value is the given value unless that is nullish, else the model value |
| FormInput.Field.UpdateLocalValue | src/js/mixins/formInput.js:156-158 | the local value is updated as `LocalValueFor` says |
| FormInput.Field.SetModelValue | src/js/mixins/formInput.js:98-101 | a new model value becomes the local value |
| FormInput.Field.Mounted | src/js/mixins/formInput.js:103-112 | mounting throws as `MountCheck` says and requests focus once on autofocus |
| FormInput.Field.OnFocus | src/js/mixins/formInput.js:171-174 | sets focus and emits `focus` |
| FormInput.Field.OnBlur | src/js/mixins/formInput.js:175-178 | clears focus and emits `blur` |
| FormInput.Field.OnEnter | src/js/mixins/formInput.js:179-181 | emits `enter-keydown` with the event |
| FormInput.Field.OnClick | src/js/mixins/formInput.js:182-184 | emits `click` with the event |
| FormInput.Field.FireInputEvent | src/js/mixins/formInput.js:219-221 | emits `inputEvent` with the event, and nothing else changes |
| FormInput.Field.OnInput | src/js/mixins/formInput.js:188-192 | stores and emits `event.target.value`, and throws without changing anything when the event has no target |
| FormInput.Field.OnInputValue | src/js/mixins/formInput.js:199-202 | stores the value and emits `update:modelValue` |
| FormInput.Field.OnInputChecked | src/js/mixins/formInput.js:208-212 | stores and emits `event.target.checked`, and throws without changing anything when the event has no target |
| FormInput.TargetProperty | src/js/mixins/formInput.js:188-212 | reading `event.target.x` fails exactly when the event or its target is nullish |
| FormInputOptions.GroupValues | src/js/mixins/formInputOptions.js:60-61 | one string per option, failing exactly when an option is nullish |
| FormInputOptions.DistinctSpec | src/js/mixins/formInputOptions.js:62-64 | the group keys are distinct and are exactly the options' group values |
| FormInputOptions.DistinctFirstOccurrence | src/js/mixins/formInputOptions.js:60-66 | the keys appear in the order of their first occurrence |
| FormInputOptions.FirstIndexAppend | src/js/mixins/formInputOptions.js:62-64 | appending does not move an earlier value's first occurrence |
| FormInputOptions.FirstIndexOfNew | src/js/mixins/formInputOptions.js:62-64 | a newly pushed value first occurs at the end |
| FormInputOptions.GroupKeys | src/js/mixins/formInputOptions.js:58-67 | the reduce loop succeeds exactly when the specification does, and then gives the same keys |
| FormInputOptions.GroupFoldOk | src/js/mixins/formInputOptions.js:74-80 | grouping fails exactly when some option is nullish |
| FormInputOptions.GroupFoldGroups | src/js/mixins/formInputOptions.js:72-81 | the groups are exactly the group values that occur, each holding the options with that value in their original order |
| FormInputOptions.GroupedOptions | src/js/mixins/formInputOptions.js:72-81 | without `groupBy` the options themselves; with it, a map of groups, which fails exactly when an option is nullish |
| FormInputOptions.InGroupAppend | src/js/mixins/formInputOptions.js:74-80 | adding an option appends it to its own group only |
| FormInputOptions.OptionId | src/js/mixins/formInputOptions.js:89-91 | the id is the field id, `-input-`, then the index in decimal |
| FormInputOptions.OptionIdsDistinct | src/js/mixins/formInputOptions.js:89-91 | different indices give different ids |
| FormInputOptions.IsOptionChecked | src/js/mixins/formInputOptions.js:92-94 | a falsy local value checks nothing; an array checks by membership; a string checks by substring; anything else throws |
| FormInputOptions.SubstringIsChecked | src/js/mixins/formInputOptions.js:93 | a string local value `"12"` checks option `2` |
| FormInputOptions.MountCheck | src/js/mixins/formInputOptions.js:83-87 | mounting throws exactly when the local value is `undefined` |
| OtherOptions.CreatedCheck | src/js/mixins/otherOptions.js:24-28 | creation succeeds exactly when the options are an array |
| OtherOptions.SubfieldValues | src/js/mixins/otherOptions.js:49-55 | the map has no more entries than there are options |
| OtherOptions.SubfieldValuesOk | src/js/mixins/otherOptions.js:49-55 | the map can be built exactly when every option with a sub-field can be read |
| OtherOptions.SubfieldValuesNames | src/js/mixins/otherOptions.js:49-55 | its keys are exactly the sub-field names |
| OtherOptions.SubfieldLastWins | src/js/mixins/otherOptions.js:52-54 | a name not repeated later maps to that sub-field's value |
| OtherOptions.SubfieldValuesKeys | src/js/mixins/otherOptions.js:49-55 | the defaults are keyed by exactly the set of sub-field names the options carry |
| OtherOptions.SubfieldValuesLastNamed | src/js/mixins/otherOptions.js:49-55 | the default kept under a name is that of the last option carrying the name |
| OtherOptions.DefaultFor | src/js/mixins/otherOptions.js:49-55 | a name carried by some option holds the last such option's default, and a name no option carries is absent |
| OtherOptions.SubfieldCount | src/js/mixins/otherOptions.js:56-58 | the count exists exactly when every option can be read. It is then the number of distinct sub-field names, which is at most the number of options |
| OtherOptions.TwoNamesCountTwo | src/js/mixins/otherOptions.js:56-58 | two different sub-field names make the count more than one |
| OtherOptions.SharedNameKeepsString | src/js/mixins/otherOptions.js:33-46 | options that all share one sub-field name count at most one name, so the watcher keeps a string prop as the string |
| OtherOptions.GetComponent | src/js/mixins/otherOptions.js:74-81 | `text` and `number` give their components and nothing else gives one |
| OtherOptions.WatchedLocalValue | src/js/mixins/otherOptions.js:33-46 | a string value becomes a copy of the sub-field map when there is more than one sub-field, else stays; a non-string value is kept |
| OtherOptions.DefaultWhileString | src/js/mixins/otherOptions.js:82-87 | while the local value is a string, a sub-field reads its default value |
| OtherOptions.GetSubfieldValue | src/js/mixins/otherOptions.js:82-87 | throws exactly when the option or its `sub_field` is nullish, when a string local value meets an unreadable option, or when a non-string local value is nullish. Otherwise a non-string local value gives `local[sub_field.name]`. A string local value gives the default of the last option with that sub-field name, or `undefined` when no option has it |
| OtherOptions.TargetValue | src/js/mixins/otherOptions.js:68-70 | `event.target.value` fails exactly when the event or its target is nullish |
| OtherOptions.InputLocalValue | src/js/mixins/otherOptions.js:67-71 | an object local value gains the option's key; anything else is replaced by the input |
| OtherOptions.Subfields.WatchSubfieldValue | src/js/mixins/otherOptions.js:33-46 | the local value becomes the watched value, or the call fails and nothing changes |
| OtherOptions.Subfields.SetSubfieldValue | src/js/mixins/otherOptions.js:33-46 | a new prop value runs the watcher: the local value becomes the watched value, or the call fails and the local value is unchanged |
| OtherOptions.Subfields.OnInput | src/js/mixins/otherOptions.js:66-73 | updates the local value and emits `input-subfield` with it, or throws and changes nothing |
| ConditionalField.FieldConditional | src/js/mixins/conditionalField.js:31-36 | the rule stored under the field's name, or `{}` when there is none |
| ConditionalField.FieldHasConditional | src/js/mixins/conditionalField.js:37-39 | a rule counts exactly when it has at least one key |
| ConditionalField.NoRuleNoConditional | src/js/mixins/conditionalField.js:31-39 | a field without a rule of its own has no condition |
| ConditionalField.Conditional.ShowFieldIfConditionPasses | src/js/mixins/conditionalField.js:63-66 | visibility becomes the truthiness of the condition on the parent's value; with no parent value or no condition it throws and nothing changes |
| ConditionalField.Conditional.Mounted | src/js/mixins/conditionalField.js:41-61 | with no rule the field is shown; otherwise the parent is looked up, an undefined name or a parent without `getLocalValue` throws, and then the condition decides visibility and a listener for the rule's event is added |
| ConditionalField.ParentChangeUpdatesVisibility | src/js/mixins/conditionalField.js:58-60 | on a field whose mount registered the rule's event listener, after the parent's value changes and that event fires, visibility follows the new value |
| StringUtil.JoinSplit | src/js/utils/stringUtil.js:3-5 | splitting on spaces and joining again gives the string back |
| StringUtil.CapitalizeSplitFails | src/js/utils/stringUtil.js:3-5 | capitalising the words fails exactly on an empty word, or on the empty string |
| StringUtil.ToTitleCase | src/js/utils/stringUtil.js:1-6 | `""` gives `""`; the call fails exactly when there is an empty word; otherwise each word's first letter is upper-cased and everything else is kept |
| StringUtil.TitleCaseKeepsSpaces | src/js/utils/stringUtil.js:1-6 | spaces stay where they are, and characters that do not start a word are unchanged |
| StringUtil.IsStringValue | src/js/utils/stringUtil.js:8-10 | true exactly for string values |
| Json.UnquoteQuote | apps/base/templatetags/forms.py:34-35 | the JSON string written for `vue_value` reads back as the original string |
| Json.QuoteInjective | apps/base/templatetags/forms.py:34-35 | different strings are written differently |
| Json.EscapeIsAscii | apps/base/templatetags/forms.py:35 | the encoded text is printable ASCII |
| TemplateForms.VueValue | apps/base/templatetags/forms.py:28-35 | the value is a string exactly when it started as `None`, a string, or a boolean on a radio select; every other value is passed through |
| TemplateForms.VueValueReadsBack | apps/base/templatetags/forms.py:28-35 | `None` becomes `""`; on a radio select, `None` and `""` read back as `unknown` and booleans as `true` or `false`; other strings read back unchanged |
| TemplateForms.RadioValueNeverEmpty | apps/base/templatetags/forms.py:29-33 | a radio select's value is never the empty string or a raw boolean |
| TemplateForms.VueOptions | apps/base/templatetags/forms.py:38-40 | one entry per choice, in order, with model-choice values unwrapped and the name kept |
| TemplateForms.VueErrors | apps/base/templatetags/forms.py:41 | the form's errors for this field name, or none |
| TemplateForms.JoinSplit | apps/base/templatetags/forms.py:51 | joining the pieces between occurrences with the pattern gives the string back |
| TemplateForms.ReplaceIsSplitJoin | apps/base/templatetags/forms.py:51 | replacing is the same as joining the pieces with the replacement |
| TemplateForms.ReplaceAbsent | apps/base/templatetags/forms.py:51 | a template path without the Django directory is kept |
| TemplateForms.TemplateNameSpec | apps/base/templatetags/forms.py:48-51 | the field's `base_template` wins; otherwise every `django/forms/widgets` in the widget's template becomes `hybrid_forms/widgets` |
| TemplateForms.DjangoTemplateMoved | apps/base/templatetags/forms.py:51 | a Django widget template, such as `django/forms/widgets/checkbox_select.html`, moves to the same file under `hybrid_forms/widgets` whenever the rest of its path does not repeat the Django directory |
| TemplateForms.HelpText | apps/base/templatetags/forms.py:53 | a falsy help text becomes `""`, and a truthy one is kept |
| TemplateForms.SetVueValue | apps/base/templatetags/forms.py:28-35 | the statements set `vue_value` to `VueValue` |
| TemplateForms.RetargetWidget | apps/base/templatetags/forms.py:46-51 | the widget's template becomes `TemplateName` |
| TemplateForms.HybridField | apps/base/templatetags/forms.py:18-54 | sets `vue_value`, `vue_options` (only when the widget has choices), `vue_errors`, `required`, `vue_multiple` (default False), `hide_label` (default False), the template name, `input_type` (default `""`) and `help_text` |
| TemplateUtils.JsBoolean | apps/base/templatetags/utils.py:7-10 | always `"true"` or `"false"`, and `"true"` exactly for the boolean True |
| TemplateUtils.TruthyIsNotEnough | apps/base/templatetags/utils.py:8 | truthy values other than True, such as `1` or `"true"`, give `"false"` |
| TemplateUtils.BooleansAgreeWithTruth | apps/base/templatetags/utils.py:8-10 | on booleans, the filter agrees with the truth value |

## Left out

- Transport: the axios transport, the `get`/`post` wrappers, `getCritical`, promises and `Promise.allSettled`. Each handler is one atomic step over an abstract outcome: a fetched page, a settled result, or a response outcome.
- Timers: the 600 ms throttle and 400 ms debounce are not modelled. Each call is one step.
- URL handling: `new URL`, `URLSearchParams` and percent-encoding are not modelled. The search watcher takes the URL's path and query as parameters, and `paramsSerializer` stops at the list of key/value pairs before encoding.
- `objectToFormData` and `objectToURLSearchParams` wrap foreign `FormData` APIs and are not part of this model.
- DOM and globals are parameters or fields: `document.querySelector`, `dataset`, `document.activeElement`, `addEventListener`, `$root.$refs`, `$emit` and `focus()`. The `beforeunload` listener is counted, not run.
- Case mapping covers ASCII letters only. Unicode case mapping is not modelled.
- Numbers are integers. Fractions, `NaN` and the infinities in `hasValue` and `String()` are not modelled.
- Object key order is not modelled; objects are maps. Integer-like keys are not enumerated first. Inherited properties read as `undefined`.
- Api.IsMutatingMethod and the critical check are on the method name as the interceptor receives it. The model does not include axios lower-casing it first.
- ApiHelpers.KeyById: a function `idKey` is a total function of the item. `isFunction` is decided by the constructor of `IdKey`, not by a runtime type tag.
- OtherOptions.Subfields.OnInput: the sub-field map is replaced by a map with the key updated. Aliasing with the parent's object prop, which the source mutates in place, is not modelled.
- FormInputOptions.IsOptionChecked and SearchMixin.NewResults: array membership (`includes`) compares values structurally. JavaScript compares objects by identity, which the model does not capture.
- FormInputOptions.GroupKeys: the error message is not pinned down on failure, only that the call fails.
- The ordering choices enum file is not part of this model. Directions are `Asc` and `Desc`.
- TemplateForms: Django's `BoundField`, `Widget`, `TemplatesSetting` rendering, `as_widget`, `mark_safe` and the `get_context` override are not modelled. The classes carry only the attributes `hybrid_field` reads and writes. Form errors are strings, so `str(e)` is the identity.
- TemplateForms.VueOptions: `mark_safe` turns the list into a safe string, its Python `repr`, before the template sees it. The model stops at the list of `{value, name}` dicts.
- `hybrid_form` only renders a template and is not modelled.
- Json: lone surrogates in Python strings are not modelled. Characters are Unicode scalar values.
