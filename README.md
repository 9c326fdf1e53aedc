# EventNative core, modelled in Dafny

This project models four parts of EventNative, an event-collection service: three Go files of the server and one form of its configurator UI. Each part gets a Dafny model with proofs about it:

- **Table schemas** (`schema/table.go`): columns record the set of data types seen in them. Column sets are merged in place. A table reports its header and whether it exists. The difference between a current and a wanted schema is computed; a column type that cannot be converted is an error.
- **Client event preprocessing** (`events/js_preprocessor.go`): the client IP is taken from the request headers or the remote address. It is written into the event fact, and the `eventn_ctx` object receives geo and user-agent data in place.
- **Data-type names and value classification** (`typing/datatype_test.go`):
  - the `DataType` ordinals;
  - `TypeFromString` and its inverse `StringFromType`;
  - `TypeFromValue`;
  - the reformatting of `json.Number` text by `ReformatValue`.

  The typing model follows what `typing/datatype_test.go` asserts, written as total functions.
- **The Airbyte spec loader form** (`SourceEditorFormConfigurationConfigurableLoadableFields.tsx`):
  - the request path and the classification of the backend's answer (thrown, `undefined` or the mapped fields);
  - the choice of what to render;
  - one polling attempt, with controls disabled before it and re-enabled after it;
  - the validator's error count;
  - the two `patchConfig` handlers.

Files:

- `wrappers.dfy`: `Option` and `Result`.
- `typing.dfy`: module `Typing`.
- `sorting.dfy`: module `Sorting`. It holds Go's string order and `sort.Strings` as an in-place insertion sort on an array.
- `schema.dfy`: module `Schema`.
- `events.dfy`: module `Events`.
- `loadable_fields.dfy`: module `LoadableFields`.

Code from packages that are not part of this model is passed in as function parameters, and nothing is assumed about it unless a lemma says so:

- `typing.IsConvertible` and `typing.GetCommonAncestorType`;
- the geo and user-agent resolvers, and the key names their packages define;
- `backendApiClient.get`, `mapAirbyteSpecToSourceConnectorConfig` and `toTitleCase`. The last two may throw: they return a value or an error.

Go map iteration order is unspecified, and the model keeps it that way.

- `Columns.Merge`, `Columns.Header`, `Column.GetType` and `Diff` pick the next key with Dafny's `:|`. Their contracts hold for every order.
- `GetType` folds the ancestor function over the occurrence set in whatever order the map yields. Its contract is therefore a relation, `PossibleType`.
- When the ancestor function is commutative and associative, `PossibleType` has exactly one solution. Under that assumption the schemas decide whether `Diff` succeeds: it succeeds iff every shared column is convertible. They also decide the table `Diff` returns on success. On failure, the error may name any shared column that is not convertible, because Go reports the first such column in map order.

Two details of the form's code that the model keeps:

- `ValidateGetErrorsCount` returns NaN when the rejection has no `errorFields`, because the code computes `+error?.errorFields?.length` (…LoadableFields.tsx:70), and `+undefined` is NaN.
- The request path removes the first `airbyte-` anywhere in the id, not only a leading one, because it uses `String.replace` with a string pattern (…LoadableFields.tsx:116).

## Model

`…LoadableFields.tsx` below stands for `configurator/frontend/src/ui/pages/SourcesPage/partials/SourceEditor/SourceEditor/SourceEditorFormConfigurationConfigurableLoadableFields.tsx`; the table cells spell the path out.

| member | source | states |
|---|---|---|
| Schema.NewColumn | schema/table.go:101-106 | a new column has `t` cached and `{t}` as its only occurrence |
| Schema.NewColumnType | schema/table.go:101-133 | `GetType` of a new column can only be the type it was created with |
| Schema.FoldCommon | schema/table.go:125-128 | the loop that starts from the first collected type and combines each next one with `GetCommonAncestorType`, as a left fold over a non-empty enumeration; its properties are the `FoldCommon…` lemmas below |
| Schema.FoldCommonSelective | schema/table.go:125-128 | when the ancestor function always picks one of its arguments, the fold is one of the folded types |
| Schema.GetType | schema/table.go:108-133 | the result is a possible type: the cached type if there is one, UNKNOWN for an empty occurrence set, otherwise the ancestor fold over some enumeration of the occurrences |
| Schema.FoldCommonRemove | schema/table.go:125-128 | under a commutative, associative ancestor function, any element can be folded in last |
| Schema.FoldCommonOrderIrrelevant | schema/table.go:115-128 | under a commutative, associative ancestor function, two enumerations of the same occurrences fold to the same type |
| Schema.EnumerationOf | schema/table.go:115-118 | every occurrence set has an enumeration, so the collecting loop always has a result |
| Schema.PossibleTypeExists | schema/table.go:110-132 | `GetType` always has some result |
| Schema.PossibleTypeUnique | schema/table.go:108-132 | with a commutative, associative ancestor function, `GetType` is a function of the column |
| Schema.SingleTypeColumn | schema/table.go:115-128 | a column that saw one type reports it, with or without a cache, for any ancestor function |
| Schema.MergeColumn | schema/table.go:17-26 | a shared column's occurrences become the union; it is unchanged when `other` brings no new type, and its cache is wiped otherwise |
| Schema.Merged | schema/table.go:13-31 | the merged names are the union; columns only in `c` are untouched, columns only in `other` are copied, and shared columns are merged |
| Schema.MergeOnlyGrows | schema/table.go:13-31 | no column disappears and no occurrence from either side is lost |
| Schema.MergeWipesCacheIff | schema/table.go:18-25 | a shared column's cached type is wiped exactly when `other` has a type it lacked |
| Schema.MergeKnownTypesIsIdentity | schema/table.go:15-31 | merging columns whose names and types are already present changes nothing |
| Schema.MergeIdempotent | schema/table.go:15-31 | merging the same columns twice equals merging them once |
| Schema.MergeColumnStep | schema/table.go:20-26 | one iteration of the inner loop adds one type and wipes the cache only when the type is new |
| Schema.Columns.MergeTypes | schema/table.go:20-26 | after the inner loop, only the named column has changed, and it equals `MergeColumn` of its old value |
| Schema.Columns.Merge | schema/table.go:15-31 | the column set becomes `Merged(old columns, other)` |
| Schema.Columns.Header | schema/table.go:33-39 | each column name appears exactly once, and nothing else appears |
| Schema.Exists | schema/table.go:48-51 | a table exists iff it is non-nil and has a column or a non-nil key slice |
| Schema.SortedMismatch | schema/table.go:86-93 | two sorted lists that differ at some index are not permutations of each other |
| Schema.PrimaryKeyFieldsEqual | schema/table.go:82-94 | the result is true iff the two key lists are equal as multisets; arrays of different length are left untouched, and arrays of equal length are left sorted with the same elements |
| Schema.NewColumns | schema/table.go:66-74 | the added columns are exactly those of `another` whose names the current table lacks, with their values |
| Schema.CheckConversion | schema/table.go:67-70 | passing means some possible types convert; failing reports the name, an unconvertible possible pair, and message types that are possible types |
| Schema.DiffColumns | schema/table.go:66-74 | success means every column is new or convertible and the result is exactly the new columns; failure means the named column is shared and fails the test |
| Schema.DiffKeys | schema/table.go:75-77 | nil when the two key lists are equal as multisets; otherwise the wanted list, sorted when the lengths agree |
| Schema.KeyDiff | schema/table.go:75-77 | equal key multisets give a nil key diff, and a non-nil diff is the wanted key list up to order |
| Schema.KeyDiffUnique | schema/table.go:75-93 | the key diff is determined by the two key lists, because a multiset has one sorted arrangement |
| Schema.DiffMessage | schema/table.go:69 | the error text starts by naming the column and ends with the name of the type it would change to |
| Schema.Diff | schema/table.go:53-80 | a nil or column-less `another` gives an empty diff; otherwise the contracts of `DiffColumns` and `DiffKeys` hold, with the name kept and version 0. With a commutative, associative ancestor function, it succeeds iff every shared column is convertible |
| Schema.ConvertibleDetermined | schema/table.go:68 | with a commutative, associative ancestor function, a column pair converts iff it is not unconvertible |
| Schema.FailureDetermined | schema/table.go:68-69 | with a commutative, associative ancestor function, a reported error names the types that failed, and the columns are not convertible |
| Schema.DiffResultExists | schema/table.go:48-80 | a successful diff exists iff `another` has a new column, or a non-nil key list whose multiset differs from the current one |
| Schema.DiffCompletesColumns | schema/table.go:53-74 | the diff's columns are disjoint from the current ones, and merging them in yields every column of `another` and keeps the current ones |
| Sorting.StrLe | schema/table.go:86-87 | `a <= b` as `sort.Strings` compares strings: character by character, with a proper prefix first |
| Sorting.StrLeTotal | schema/table.go:86-87 | Go's string order is total |
| Sorting.StrLeTransitive | schema/table.go:86-87 | Go's string order is transitive |
| Sorting.StrLeAntisymmetric | schema/table.go:86-87 | Go's string order is antisymmetric |
| Sorting.SortedPermutationUnique | schema/table.go:86-93 | two sorted permutations of the same list are equal, so comparing sorted keys by index decides multiset equality |
| Sorting.SortStrings | schema/table.go:86-87 | `sort.Strings` leaves the array sorted and a permutation of its old contents |
| Events.HeaderGet | events/js_preprocessor.go:84-86 | the first value under the key, or "" when there is none |
| Events.FirstField | events/js_preprocessor.go:91-92 | a colon-free prefix of the address that ends at the first colon or at the end |
| Events.ClientIp | events/js_preprocessor.go:83-96 | the IP is one of the two headers, or a colon-free prefix of the remote address |
| Events.ExtractIp | events/js_preprocessor.go:83-96 | the result is `ClientIp(r)` |
| Events.ClientIpPrecedence | events/js_preprocessor.go:83-96 | X-Real-IP if non-empty, else X-Forwarded-For if non-empty, else the colon-free prefix of the remote address; empty exactly when all three sources give nothing |
| Events.Ipv6RemoteAddress | events/js_preprocessor.go:88-93 | with no IP header, the IPv6 remote address `[::1]:80` yields `[`, since only the text before the first colon is kept |
| Events.HostOfAddress | events/js_preprocessor.go:89-93 | a `host:port` address yields `host` |
| Events.WithIp | events/js_preprocessor.go:49-52 | `source_ip` is written only for a non-empty IP, and no other field changes |
| Events.Enriched | events/js_preprocessor.go:64-78 | the context keeps its keys and gains the geo key, and at most the parsed user-agent key besides; no other field changes |
| Events.EnrichedFields | events/js_preprocessor.go:64-78 | the geo key always holds the resolver's data; the parsed user agent is added exactly when `user_agent` holds a string; no other key changes |
| Events.UserAgentParsed | events/js_preprocessor.go:72-78 | a string `user_agent` is parsed and stored |
| Events.Preprocess | events/js_preprocessor.go:40-81 | see below |
| Typing.FromOrdinal | typing/datatype_test.go:10-16 | exactly the ordinals 0..4 name a data type |
| Typing.OrdinalsPinned | typing/datatype_test.go:10-16 | UNKNOWN=0, INT64=1, FLOAT64=2, STRING=3, TIMESTAMP=4 |
| Typing.OrdinalRoundTrip | typing/datatype_test.go:10-16 | ordinals and types convert back and forth |
| Typing.Name | typing/datatype_test.go:85 | `DataType.String()` is a non-empty upper-case identifier, as in the UNKNOWN error text |
| Typing.NameInjective | typing/datatype_test.go:85 | distinct types print differently |
| Typing.Message | typing/datatype_test.go:25-36 | each error text starts with its kind's prefix, followed by the input or the type's name |
| Typing.LeadingSpaces | typing/datatype_test.go:43-48 | the length of the run of whitespace at the start of the string |
| Typing.TrimSpace | typing/datatype_test.go:43-48 | the result is the input with all whitespace removed from both ends |
| Typing.ToLower | typing/datatype_test.go:43-48 | same length, no upper-case letter left, upper-case letters lowered and everything else unchanged |
| Typing.Normalize | typing/datatype_test.go:37-60 | the compared form of a name is trimmed and has no upper-case letter |
| Typing.NormalizeIdempotent | typing/datatype_test.go:43-48 | normalising a normalised name changes nothing |
| Typing.StringFromType | typing/datatype_test.go:74-111 | fails exactly for UNKNOWN, with `NoStringForType`; `TypeOfName` and `NameRoundTrip` give the inverse |
| Typing.StringFromTypePinned | typing/datatype_test.go:81-110 | "string", "integer", "double" and "timestamp" for the four known types, and the error for UNKNOWN |
| Typing.TypeOfName | typing/datatype_test.go:37-60 | a name that is found is the name `StringFromType` gives for that type |
| Typing.TypeFromString | typing/datatype_test.go:18-72 | success gives a known type whose name is the trimmed, lower-cased input; failure carries the input |
| Typing.NormalizeCanonical | typing/datatype_test.go:37-60 | lower-case text with no whitespace at either end is its own normal form |
| Typing.NameLookup | typing/datatype_test.go:37-60 | each canonical name parses to its type |
| Typing.NameRoundTrip | typing/datatype_test.go:37-110 | for every known type, `TypeFromString(StringFromType(t)) == t` |
| Typing.TypeFromStringRejects | typing/datatype_test.go:25-36 | parsing fails iff the normalised input is no type's name |
| Typing.PaddedMixedCase | typing/datatype_test.go:43-48 | `" InTeGer "` gives INT64 |
| Typing.UnknownName | typing/datatype_test.go:25-36 | `""` and `"float"` are rejected, carrying the input |
| Typing.TypeFromStringPinned | typing/datatype_test.go:37-60 | the four successful cases of the test table |
| Typing.TypeFromStringErrorsPinned | typing/datatype_test.go:25-36 | the two failing cases of the test table |
| Typing.CastingMessagesPinned | typing/datatype_test.go:25-86 | the exact error texts for `""`, `"float"` and UNKNOWN |
| Typing.TypeFromValue | typing/datatype_test.go:124-215 | strings give STRING, every integer width INT64 and both float widths FLOAT64; everything else fails, carrying the value |
| Typing.TypeFromValuePinned | typing/datatype_test.go:131-202 | strings give STRING, every float kind gives FLOAT64, every int width gives INT64; nil and bool fail |
| Typing.ValueMessagesPinned | typing/datatype_test.go:131-142 | the exact error texts for nil and `true` |
| Typing.ParseInt64 | typing/datatype_test.go:248-252 | a parsed value is in the int64 range, comes from optionally signed digits, and has the text's sign |
| Typing.DigitsValueOfDigits | typing/datatype_test.go:248-252 | reading the decimal digits of `n` gives back `n` |
| Typing.ParseFormatRoundTrip | typing/datatype_test.go:248-252 | every int64 written in decimal parses back to itself |
| Typing.MantissaSyntax | typing/datatype_test.go:238-262 | a float mantissa: digits with at most one `.` and at least one digit, so `5.5` and `5.0` qualify and `aa` and the empty text do not |
| Typing.DecimalFloatSyntax | typing/datatype_test.go:238-262 | the decimal text `strconv.ParseFloat` accepts: an optional sign, a mantissa, and an optional `e`/`E` exponent of optionally signed digits |
| Typing.ReformatValue | typing/datatype_test.go:217-272 | non-numbers pass through unchanged; a number becomes an int64 only with the value `ParseInt` gives, a float64 only for decimal float text, and otherwise stays a number |
| Typing.IndexOf | typing/datatype_test.go:238-247 | the position of the first `.` of a mantissa, or its length when there is none |
| Typing.IntegerTextIsFloatText | typing/datatype_test.go:238-252 | integer text out of int64 range still becomes a float64 |
| Typing.ReformatThenClassify | typing/datatype_test.go:217-262 | the type of a reformatted number is INT64, FLOAT64 or an error, matching what the reformatting produced |
| Typing.DecimalTextIsFloat | typing/datatype_test.go:238-247 | "5.5" and "5.0" become float64 |
| Typing.BadTextStaysNumber | typing/datatype_test.go:253-262 | "aa" and "" stay `json.Number` |
| Typing.ReformatPinned | typing/datatype_test.go:223-262 | every case of the reformat test table |
| LoadableFields.IndexOfFrom | configurator/frontend/src/ui/pages/SourcesPage/partials/SourceEditor/SourceEditor/SourceEditorFormConfigurationConfigurableLoadableFields.tsx:116 | the first occurrence at or after `k`, or none at all |
| LoadableFields.ReplaceFirst | configurator/frontend/src/ui/pages/SourcesPage/partials/SourceEditor/SourceEditor/SourceEditorFormConfigurationConfigurableLoadableFields.tsx:116 | without an occurrence the string is unchanged; otherwise only the first occurrence is replaced |
| LoadableFields.RemoveFirstOccurrence | configurator/frontend/src/ui/pages/SourcesPage/partials/SourceEditor/SourceEditor/SourceEditorFormConfigurationConfigurableLoadableFields.tsx:116 | removing the pattern from `head + pat + tail` gives `head + tail` when `head` does not already contain it |
| LoadableFields.SpecPath | configurator/frontend/src/ui/pages/SourcesPage/partials/SourceEditor/SourceEditor/SourceEditorFormConfigurationConfigurableLoadableFields.tsx:116-118 | `/airbyte/<id>/spec?project_id=<project>` with the first `airbyte-` of the id removed, or the id unchanged when it has none |
| LoadableFields.SpecPathOfPrefixedId | configurator/frontend/src/ui/pages/SourcesPage/partials/SourceEditor/SourceEditor/SourceEditorFormConfigurationConfigurableLoadableFields.tsx:116-118 | `airbyte-<name>` is requested as `/airbyte/<name>/spec?project_id=<project>` |
| LoadableFields.SpecPathOfPlainId | configurator/frontend/src/ui/pages/SourcesPage/partials/SourceEditor/SourceEditor/SourceEditorFormConfigurationConfigurableLoadableFields.tsx:116-118 | an id without `airbyte-` is used as it is |
| LoadableFields.SpecPathRemovesInnerOccurrence | configurator/frontend/src/ui/pages/SourcesPage/partials/SourceEditor/SourceEditor/SourceEditorFormConfigurationConfigurableLoadableFields.tsx:116-118 | an `airbyte-` in the middle of the id is removed too |
| LoadableFields.Truthy | configurator/frontend/src/ui/pages/SourcesPage/partials/SourceEditor/SourceEditor/SourceEditorFormConfigurationConfigurableLoadableFields.tsx:122-123 | a string is truthy when present and non-empty, as `response?.message` and `response?.status` are tested |
| LoadableFields.Finished | configurator/frontend/src/ui/pages/SourcesPage/partials/SourceEditor/SourceEditor/SourceEditorFormConfigurationConfigurableLoadableFields.tsx:123 | a status is finished when it is truthy and not `pending` |
| LoadableFields.Classify | configurator/frontend/src/ui/pages/SourcesPage/partials/SourceEditor/SourceEditor/SourceEditorFormConfigurationConfigurableLoadableFields.tsx:122-131 | a truthy message is thrown; `undefined` exactly for no answer or a status that is absent, empty or `pending` without a message; a finished status throws what the mapper or a title-casing throws, and otherwise gives the mapped descriptors in order, each title-cased with `_` |
| LoadableFields.TitleCased | configurator/frontend/src/ui/pages/SourcesPage/partials/SourceEditor/SourceEditor/SourceEditorFormConfigurationConfigurableLoadableFields.tsx:126-128 | the descriptor with its display name title-cased, or the error `toTitleCase` throws |
| LoadableFields.TitleCaseAll | configurator/frontend/src/ui/pages/SourcesPage/partials/SourceEditor/SourceEditor/SourceEditorFormConfigurationConfigurableLoadableFields.tsx:124-129 | `map` succeeds iff every title-casing does, keeping length and order; otherwise it throws the error of the first descriptor whose title-casing throws |
| LoadableFields.TitleCaseAllTotal | configurator/frontend/src/ui/pages/SourcesPage/partials/SourceEditor/SourceEditor/SourceEditorFormConfigurationConfigurableLoadableFields.tsx:124-129 | a title-caser that never throws title-cases every descriptor |
| LoadableFields.Loaded | configurator/frontend/src/ui/pages/SourcesPage/partials/SourceEditor/SourceEditor/SourceEditorFormConfigurationConfigurableLoadableFields.tsx:123-130 | a throwing mapper or title-caser throws its error; otherwise the title-cased descriptors are returned |
| LoadableFields.ClassifyTotalMapping | configurator/frontend/src/ui/pages/SourcesPage/partials/SourceEditor/SourceEditor/SourceEditorFormConfigurationConfigurableLoadableFields.tsx:122-130 | with a mapper and a title-caser that never throw, an answer throws exactly when its message is truthy |
| LoadableFields.MessageWins | configurator/frontend/src/ui/pages/SourcesPage/partials/SourceEditor/SourceEditor/SourceEditorFormConfigurationConfigurableLoadableFields.tsx:122-123 | a non-empty message throws whatever the status |
| LoadableFields.LoadedKeepsDescriptors | configurator/frontend/src/ui/pages/SourcesPage/partials/SourceEditor/SourceEditor/SourceEditorFormConfigurationConfigurableLoadableFields.tsx:123-129 | a finished answer whose mapping and title-casing do not throw keeps the number and order of descriptors and every field except `displayName` |
| LoadableFields.PullAirbyteSpec | configurator/frontend/src/ui/pages/SourcesPage/partials/SourceEditor/SourceEditor/SourceEditorFormConfigurationConfigurableLoadableFields.tsx:113-131 | requests `SpecPath(id, project)`; a rejected request rethrows, and an answer is classified |
| LoadableFields.PullAirbyteSpecThrowsOnlyOnErrors | configurator/frontend/src/ui/pages/SourcesPage/partials/SourceEditor/SourceEditor/SourceEditorFormConfigurationConfigurableLoadableFields.tsx:113-131 | the loader throws iff the request rejects, the answer has a truthy message, or a finished answer's mapping or title-casing throws |
| LoadableFields.PullAirbyteSpecTotalMapping | configurator/frontend/src/ui/pages/SourcesPage/partials/SourceEditor/SourceEditor/SourceEditorFormConfigurationConfigurableLoadableFields.tsx:113-131 | with a mapper and a title-caser that never throw, the loader throws iff the request rejects or the message is truthy |
| LoadableFields.Render | configurator/frontend/src/ui/pages/SourcesPage/partials/SourceEditor/SourceEditor/SourceEditorFormConfigurationConfigurableLoadableFields.tsx:78-110 | exactly one view: the error card iff there is an error, the loading card iff no error and loading, otherwise the form with `data \|\| []`; each carries its constants |
| LoadableFields.RenderedFields | configurator/frontend/src/ui/pages/SourcesPage/partials/SourceEditor/SourceEditor/SourceEditorFormConfigurationConfigurableLoadableFields.tsx:101-110 | the form shows exactly the loaded descriptors, or none |
| LoadableFields.AttemptCalls | configurator/frontend/src/ui/pages/SourcesPage/partials/SourceEditor/SourceEditor/SourceEditorFormConfigurationConfigurableLoadableFields.tsx:41-51 | one attempt calls `setControlsDisabled(true)`, then `fail` with the error if the loader threw or `end` with its result otherwise, then `setControlsDisabled(false)` |
| LoadableFields.AttemptBracketed | configurator/frontend/src/ui/pages/SourcesPage/partials/SourceEditor/SourceEditor/SourceEditorFormConfigurationConfigurableLoadableFields.tsx:41-51 | an attempt disables first and enables last on every path, and calls exactly one of `end` and `fail`, `fail` exactly when the loader threw |
| LoadableFields.Owner.SetControlsDisabledCall | configurator/frontend/src/ui/pages/SourcesPage/partials/SourceEditor/SourceEditor/SourceEditorFormConfigurationConfigurableLoadableFields.tsx:42-49 | one `setControlsDisabled` call with the given flag is recorded |
| LoadableFields.PendingEndsWithUndefined | configurator/frontend/src/ui/pages/SourcesPage/partials/SourceEditor/SourceEditor/SourceEditorFormConfigurationConfigurableLoadableFields.tsx:44-45 | a pending answer is passed to `end` as `undefined` |
| LoadableFields.Owner.Attempt | configurator/frontend/src/ui/pages/SourcesPage/partials/SourceEditor/SourceEditor/SourceEditorFormConfigurationConfigurableLoadableFields.tsx:41-51 | the calls made are exactly `AttemptCalls` of the loader's outcome |
| LoadableFields.Owner.HandleFormValuesChange | configurator/frontend/src/ui/pages/SourcesPage/partials/SourceEditor/SourceEditor/SourceEditorFormConfigurationConfigurableLoadableFields.tsx:53-55 | one `patchConfig` with the complete value map and no options |
| LoadableFields.Owner.HandleSetInitialFormValues | configurator/frontend/src/ui/pages/SourcesPage/partials/SourceEditor/SourceEditor/SourceEditorFormConfigurationConfigurableLoadableFields.tsx:57-59 | one `patchConfig` with the values and `doNotSetStateChanged: true` |
| LoadableFields.ValidateGetErrorsCount | configurator/frontend/src/ui/pages/SourcesPage/partials/SourceEditor/SourceEditor/SourceEditorFormConfigurationConfigurableLoadableFields.tsx:65-73 | 0 when validation resolves, the length of `errorFields` when it rejects with one, NaN otherwise |
| LoadableFields.ErrorsCount | configurator/frontend/src/ui/pages/SourcesPage/partials/SourceEditor/SourceEditor/SourceEditorFormConfigurationConfigurableLoadableFields.tsx:65-73 | the count a validation outcome gives, the specification `ValidateGetErrorsCount` meets: 0 when it resolves, the length of `errorFields` when it rejects with one, NaN otherwise |
| LoadableFields.InvalidFields | configurator/frontend/src/ui/pages/SourcesPage/partials/SourceEditor/SourceEditor/SourceEditorFormConfigurationConfigurableLoadableFields.tsx:68-70 | exactly the invalid fields are listed |
| LoadableFields.AntdValidate | configurator/frontend/src/ui/pages/SourcesPage/partials/SourceEditor/SourceEditor/SourceEditorFormConfigurationConfigurableLoadableFields.tsx:68 | the assumed behaviour of antd's `validateFields`: it resolves when every field is valid, and otherwise rejects with one `errorFields` entry per invalid field, in form order |
| LoadableFields.CountIsInvalidFields | configurator/frontend/src/ui/pages/SourcesPage/partials/SourceEditor/SourceEditor/SourceEditorFormConfigurationConfigurableLoadableFields.tsx:65-73 | with antd's validation, the count equals the number of invalid fields, and is 0 iff every field is valid |
| LoadableFields.AllInvalidCountsAll | configurator/frontend/src/ui/pages/SourcesPage/partials/SourceEditor/SourceEditor/SourceEditorFormConfigurationConfigurableLoadableFields.tsx:65-73 | a form whose N fields are all invalid gives N |

The contract of `Events.Preprocess`, in order:

- A nil fact fails with `NilFact`, and the method may change no object.
- Otherwise `source_ip` is written first, for a non-empty IP. It stays written when a later step fails.
- A missing `eventn_ctx` fails with `MissingContext`.
- An `eventn_ctx` that is not an object fails with `ContextNotObject`, carrying the value.
- Otherwise the context receives the geo data and the parsed user agent, as `Enriched` says. Nothing else changes, and the same fact is returned. This holds even when the context is the fact itself.

## Left out

**Typing**

- `Typing.TrimSpace` and `Typing.ToLower` treat only ASCII whitespace and ASCII letters. Go's `strings.TrimSpace` and `strings.ToLower` also handle Unicode.
- `Typing.TypeFromString`: the tests show the error text only for inputs without surrounding whitespace. The model carries the input as given.
- `Typing.TypeFromValue` classifies only the value kinds the tests use: nil, bool, string, the five signed integer widths and the two float widths.
  - A `json.Number` is classified as an error.
  - `time.Time` to TIMESTAMP, unsigned integers and other kinds are not modelled, since no test shows them.
- `Typing.ReformatValue` accepts float text only in plain decimal or exponent form. The model does not cover:
  - hexadecimal floats, `inf`, `nan` and underscores;
  - float overflow;
  - the float's numeric value (a `Float` carries only its width).
- The `%v` and `%t` renderings in error messages are modelled only for nil, booleans and `json.Number`.

**Schema**

- `Schema.Columns.Merge` treats columns as values. In Go, the shared column's occurrence map is mutated through a copy of the struct. The model does not capture aliasing between the maps of `c` and `other`.
- `Schema.GetType`: the source writes the computed type into a copy of the column, so callers never see it, and the model leaves it unwritten. The log line for an empty occurrence set is not modelled.
- `Schema.Diff` copies the key lists into fresh arrays before comparing. In Go, `primaryKeyFieldsEqual` sorts the caller's `PKFields` slices in place, so the sorting is visible to the caller, and `diff.PKFields` shares `another.PKFields`. Neither effect is modelled.
- `Schema.DiffMessage`: the whole text is modelled, but its contract states only how it starts and how it ends.
- `Schema.Columns.Merge` has no nil maps. A Dafny `map` or `set` cannot be nil, so the model does not capture two Go panics:
  - merging into a nil `Columns` panics at schema/table.go:28, with an assignment to an entry in a nil map;
  - a shared zero `Column{}`, whose `typeOccurrence` is nil, panics at schema/table.go:22 as soon as `other` brings it a type.

  In the model both merges succeed.
- `Table.Version` is an unbounded `int`, not `int64`. `Diff` never does arithmetic on it.

**Events**

- `Events.HeaderGet` expects canonical header names. The model does not perform `net/http`'s key canonicalisation: "X-Real-IP" is looked up as "X-Real-Ip".
- The geo and user-agent resolvers and their key constants (`geo.GeoDataKey`, `useragent.ParsedUaKey`) come from packages outside this model, and the model takes them as parameters. Logging a resolver error is not modelled.
- The `%v` rendering of the fact in the two `eventn_ctx` error messages is not modelled. The errors are constructors.
- `NewJsPreprocessor` reads the global application configuration. It is not modelled.
- `Events.Preprocess` has no nil maps. An `eventn_ctx` that holds a nil `map[string]interface{}` passes the type assertion at events/js_preprocessor.go:59 and panics when it is written at :70. In the model a `JsonObject` always has a map, so that call succeeds.

**Loadable fields**

- The following are not modelled:
  - the JSX layout;
  - the 5000 ms long-loading message timer, kept only as a constant;
  - React scheduling;
  - the `useEffect` that registers the validator once on mount.
- `usePolling` is not part of this model. `Owner.Attempt` models one attempt, and `PollingState` is whatever the hook reports.
- `LoadableFields.Truthy` models `message` and `status` as optional strings. Non-string truthy values and `String(...)` of a non-string message are not modelled.
- `LoadableFields.Classify` models what `mapAirbyteSpecToSourceConnectorConfig` and `toTitleCase` throw as a string. The `Error` object and its stack are not modelled.
- `LoadableFields.AntdValidate` is an assumed model of antd's `validateFields`, not code from this repository: antd is not part of this model. `LoadableFields.CountIsInvalidFields` and `LoadableFields.AllInvalidCountsAll` hold only under that assumption.
- `LoadableFields.Owner.Attempt` assumes `end` does not throw. If it did, the catch would also call `fail`.
- `ApplicationServices.get()` and the `{ proxy: true }` request option are not modelled. The model takes the project id and the `get` function as parameters.
