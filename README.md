# VSO manifest builder, modelled in Dafny

This project models the builder of `extension.vsomanifest`, the Visual
Studio Services manifest that the extension packager writes into a VSIX
package. The builder receives the top-level keys of the author's manifest
fragments one at a time and folds each into a JSON document:

- `processKey` decides by the lower-cased key name:
  - `contributions` and `contributionTypes` are appended;
  - `scopes` are merged without duplicates;
  - `eventCallbacks`, `manifestVersion` and `baseUri` are stored once;
  - keys that belong to the other manifest (the vsixmanifest) are ignored;
  - every other key is stored under its own name, unless it starts with `__`.
- `finalize` fills in defaults. The list properties become `[]` and the
  manifest version becomes 1 when they are unset or falsy.
- `getLocKeyPath` turns a localization key such as
  `contributions.3.name` into `contributions.<id>.name`.

The model has four modules:

- `JsValue` holds JavaScript values: truthiness, lodash's `isObject`, and
  the coercion of a value to a string.
- `JsStrings` holds the string operations the builder calls: ASCII
  `toLowerCase`, `split(".")`, `join(".")`, lodash `trimEnd`, and the
  leading-digit parse of `parseInt` and `parseFloat`.
- `VsoManifest` holds the rest:
  - `Merge` is the specification of `processKey` as a function of the document.
  - The class `VsoManifestBuilder` keeps the document in a field. Its
    `ProcessKey` and `FillDefaults` methods change that field the way the
    source does, and are proved against `Merge` and `WithDefaults`.
  - `LocKeyPath` is `getLocKeyPath`.
- `VsoManifestProperties` holds the lemmas about the model.

The class keeps an invariant, `Valid`: the list properties are arrays
whenever present, and the scopes hold no duplicates. Every `ProcessKey` and
`FillDefaults` call preserves it.

Two behaviours of `getLocKeyPath` are modelled as the code has them:

- For a path that ends at the index, such as `contributions.1`, the code
  appends `"."` and an empty rest after the id and then calls `_.trimEnd`
  (line 56). The trim suggests the trailing dot was meant to go, but
  without a character argument it removes only whitespace, so the result
  is `contributions.B.`; see Findings.
- When the path names `contributions` or `contributionTypes`, the index
  parses, and that property is unset or null, indexing it throws a
  `TypeError` (lines 55 and 57). `LocKeyPath` returns `Thrown` in that
  case.

## Model

| member | source | states |
|---|---|---|
| VsoManifest.VsoManifestBuilder.ProcessKey | app/exec/extension/_lib/targets/Microsoft.VisualStudio.Services/vso-manifest-builder.ts:67-142 | completes normally exactly when `Merge` succeeds and then leaves the document `Merge` gives; when it throws, the message is the contributions error and the document is unchanged; the class invariant is kept |
| VsoManifest.Merge | app/exec/extension/_lib/targets/Microsoft.VisualStudio.Services/vso-manifest-builder.ts:67-142 | throws exactly when the key is `contributions` (any case) and the value is not an array, always with the same message; a successful result keeps list properties as arrays and scopes duplicate-free |
| VsoManifestProperties.ContributionsAppended | app/exec/extension/_lib/targets/Microsoft.VisualStudio.Services/vso-manifest-builder.ts:92-101 | a non-array throws; an array's elements follow the existing contributions in order, and no other property changes |
| VsoManifestProperties.ContributionTypesAppended | app/exec/extension/_lib/targets/Microsoft.VisualStudio.Services/vso-manifest-builder.ts:102-109 | a non-array is ignored; an array's elements follow the existing contribution types in order, and no other property changes |
| VsoManifestProperties.ScopesMerged | app/exec/extension/_lib/targets/Microsoft.VisualStudio.Services/vso-manifest-builder.ts:81-88 | a non-array is ignored; for an array, the scopes hold every old and new scope once, in order of first occurrence, and no other property changes |
| VsoManifestProperties.ScopesIdempotent | app/exec/extension/_lib/targets/Microsoft.VisualStudio.Services/vso-manifest-builder.ts:81-88 | merging the same scopes a second time changes nothing |
| VsoManifestProperties.EventCallbacksObjectsOnly | app/exec/extension/_lib/targets/Microsoft.VisualStudio.Services/vso-manifest-builder.ts:69-73 | a primitive value is ignored; an array or object is stored, the first value winning unless overridden |
| VsoManifestProperties.ManifestVersionStored | app/exec/extension/_lib/targets/Microsoft.VisualStudio.Services/vso-manifest-builder.ts:74-80 | text is converted by `parseFloat` before it is stored (to a number or NaN); other values are stored as given; first value wins unless overridden |
| VsoManifestProperties.ManifestVersionFromText | app/exec/extension/_lib/targets/Microsoft.VisualStudio.Services/vso-manifest-builder.ts:76-79 | the decimal text of a number, with override, stores that number |
| VsoManifestProperties.BaseUriStored | app/exec/extension/_lib/targets/Microsoft.VisualStudio.Services/vso-manifest-builder.ts:89-91 | `baseUri` is stored, first value winning unless overridden; nothing else changes |
| VsoManifestProperties.ForeignKeyIgnored | app/exec/extension/_lib/targets/Microsoft.VisualStudio.Services/vso-manifest-builder.ts:111-135 | each of the 23 vsixmanifest keys, in any case, leaves the document unchanged |
| VsoManifestProperties.OtherKeyStored | app/exec/extension/_lib/targets/Microsoft.VisualStudio.Services/vso-manifest-builder.ts:136-140 | a key outside the table is dropped when it starts with `__`; otherwise it is stored under its own, not lower-cased, name, first value winning unless overridden |
| VsoManifestProperties.DispatchIgnoresCase | app/exec/extension/_lib/targets/Microsoft.VisualStudio.Services/vso-manifest-builder.ts:68 | two spellings of a table key that lower-case alike have the same effect |
| VsoManifestProperties.MergeTouchesOnlyTarget | app/exec/extension/_lib/targets/Microsoft.VisualStudio.Services/vso-manifest-builder.ts:67-142 | a key changes at most the one property it is stored under |
| VsoManifestProperties.MergeReadsOnlyTarget | app/exec/extension/_lib/targets/Microsoft.VisualStudio.Services/vso-manifest-builder.ts:67-142 | the outcome at that property depends only on its old value |
| VsoManifestProperties.ListReadsOnlyTarget | app/exec/extension/_lib/targets/Microsoft.VisualStudio.Services/vso-manifest-builder.ts:81-109 | the same, for the three list keys |
| VsoManifestProperties.SingleReadsOnlyTarget | app/exec/extension/_lib/targets/Microsoft.VisualStudio.Services/vso-manifest-builder.ts:69-91 | the same, for the single-value, ignored and generic keys |
| VsoManifestProperties.TargetsDiffer | app/exec/extension/_lib/targets/Microsoft.VisualStudio.Services/vso-manifest-builder.ts:68-140 | keys that lower-case differently are stored under different properties |
| VsoManifestProperties.MergeCommutes | app/exec/extension/_lib/targets/Microsoft.VisualStudio.Services/vso-manifest-builder.ts:67-142 | two keys stored under different properties (every pair that lower-cases differently, and generic keys such as `Foo` and `foo`) give the same document, or the same exception, in either order |
| VsoManifestProperties.ContributionsInCallOrder | app/exec/extension/_lib/targets/Microsoft.VisualStudio.Services/vso-manifest-builder.ts:92-97 | two spellings of `contributions` append their arrays in call order |
| VsoManifestProperties.CaseVariantsDoNotCommute | app/exec/extension/_lib/targets/Microsoft.VisualStudio.Services/vso-manifest-builder.ts:92-97 | `contributions` [1] then `Contributions` [2] gives [1, 2], the reverse order gives [2, 1] |
| VsoManifestProperties.ThrowPassesOn | app/exec/extension/_lib/targets/Microsoft.VisualStudio.Services/vso-manifest-builder.ts:98-100 | a key that throws throws whether it is applied before or after another key |
| VsoManifestProperties.DisjointUpdatesCommute | app/exec/extension/_lib/targets/Microsoft.VisualStudio.Services/vso-manifest-builder.ts:67-142 | two updates of different properties made from the same document commute |
| VsoManifest.SetSingle | app/exec/extension/_lib/targets/Microsoft.VisualStudio.Services/vso-manifest-builder.ts:71 | the single-value setter stores the value when the property is unset or overridden, keeps the first value otherwise, and changes nothing else |
| VsoManifest.VsoManifestBuilder.SingleValueProperty | app/exec/extension/_lib/targets/Microsoft.VisualStudio.Services/vso-manifest-builder.ts:79 | the document afterwards is the `SetSingle` of the old one; called on a property other than the three lists, it keeps the class invariant |
| VsoManifest.PolicyOf | app/exec/extension/_lib/targets/Microsoft.VisualStudio.Services/vso-manifest-builder.ts:68-135 | a lower-cased name is ignored exactly when it is one of the 23 vsixmanifest labels, falls to the default case exactly when it matches no label, and throws-on-non-array only for `contributions` |
| VsoManifest.IsInternal | app/exec/extension/_lib/targets/Microsoft.VisualStudio.Services/vso-manifest-builder.ts:137 | a key is internal exactly when its first two characters are both `_` |
| VsoManifest.Uniq | app/exec/extension/_lib/targets/Microsoft.VisualStudio.Services/vso-manifest-builder.ts:86 | `_.uniq` has no duplicates and has exactly the elements of its input |
| VsoManifestProperties.UniqOrder | app/exec/extension/_lib/targets/Microsoft.VisualStudio.Services/vso-manifest-builder.ts:86 | `_.uniq` keeps elements in order of their first occurrence |
| VsoManifestProperties.UniqOfDistinct | app/exec/extension/_lib/targets/Microsoft.VisualStudio.Services/vso-manifest-builder.ts:86 | a list without duplicates is its own `_.uniq` |
| VsoManifestProperties.UniqAbsorbs | app/exec/extension/_lib/targets/Microsoft.VisualStudio.Services/vso-manifest-builder.ts:86 | appending elements already present does not change `_.uniq` |
| VsoManifest.FirstIndex | app/exec/extension/_lib/targets/Microsoft.VisualStudio.Services/vso-manifest-builder.ts:86 | the position of the first occurrence of an element, the order `_.uniq` keeps |
| VsoManifest.CanonicalNames | app/exec/extension/_lib/targets/Microsoft.VisualStudio.Services/vso-manifest-builder.ts:69-107 | each canonical property name lower-cases to its case label, so a generic key never lands on a canonical property |
| JsStrings.Lower | app/exec/extension/_lib/targets/Microsoft.VisualStudio.Services/vso-manifest-builder.ts:68 | `toLowerCase` keeps the length and lower-cases each letter |
| JsStrings.LowerIdempotent | app/exec/extension/_lib/targets/Microsoft.VisualStudio.Services/vso-manifest-builder.ts:68 | lower-casing twice is lower-casing once |
| JsStrings.ParseFloat | app/exec/extension/_lib/targets/Microsoft.VisualStudio.Services/vso-manifest-builder.ts:77 | `parseFloat` gives a number or NaN, and NaN exactly when the text does not start with a digit |
| VsoManifest.VsoManifestBuilder.FillDefaults | app/exec/extension/_lib/targets/Microsoft.VisualStudio.Services/vso-manifest-builder.ts:30-42 | the document afterwards is `WithDefaults` of the old one; the class invariant is kept |
| VsoManifest.DefaultTo | app/exec/extension/_lib/targets/Microsoft.VisualStudio.Services/vso-manifest-builder.ts:31-33 | a falsy or unset property gets the default, a truthy one is kept, and no other property changes |
| VsoManifest.WithDefaults | app/exec/extension/_lib/targets/Microsoft.VisualStudio.Services/vso-manifest-builder.ts:31-42 | afterwards `contributions`, `scopes`, `contributionTypes` and `manifestVersion` are all set and truthy |
| VsoManifestProperties.DefaultsFilled | app/exec/extension/_lib/targets/Microsoft.VisualStudio.Services/vso-manifest-builder.ts:31-42 | afterwards the three list properties and the manifest version are set; truthy values are kept, falsy ones become `[]` or 1; nothing else changes |
| VsoManifestProperties.DefaultsIdempotent | app/exec/extension/_lib/targets/Microsoft.VisualStudio.Services/vso-manifest-builder.ts:31-42 | filling the defaults twice is filling them once |
| VsoManifest.VsoManifestBuilder.constructor | app/exec/extension/_lib/targets/Microsoft.VisualStudio.Services/vso-manifest-builder.ts:8 | a new builder starts from an empty document that satisfies the invariant |
| VsoManifest.VsoManifestBuilder.GetPath | app/exec/extension/_lib/targets/Microsoft.VisualStudio.Services/vso-manifest-builder.ts:12-14 | the manifest sits at the package root with the `.vsomanifest` extension |
| VsoManifest.VsoManifestBuilder.GetType | app/exec/extension/_lib/targets/Microsoft.VisualStudio.Services/vso-manifest-builder.ts:16-22 | the reported type is the class's manifest type |
| VsoManifest.VsoManifestBuilder.GetContentType | app/exec/extension/_lib/targets/Microsoft.VisualStudio.Services/vso-manifest-builder.ts:24-26 | the document is served as `application/json` |
| VsoManifest.LocKeyPath | app/exec/extension/_lib/targets/Microsoft.VisualStudio.Services/vso-manifest-builder.ts:51-65 | a path with fewer than two non-empty segments comes back as it is; it throws only when its list property is unset or null |
| VsoManifest.ElementAt | app/exec/extension/_lib/targets/Microsoft.VisualStudio.Services/vso-manifest-builder.ts:55 | indexing throws exactly when the property is unset or null, with the `undefined` or `null` message; on an array it finds element `index` exactly when the index is in range |
| VsoManifest.IdentifierAt | app/exec/extension/_lib/targets/Microsoft.VisualStudio.Services/vso-manifest-builder.ts:55 | throws exactly when the lookup throws; a found id belongs to an object element and is truthy |
| JsValue.Truthy | app/exec/extension/_lib/targets/Microsoft.VisualStudio.Services/vso-manifest-builder.ts:31-40 | arrays and objects are truthy, `null` and NaN are falsy, and a string is truthy exactly when it is non-empty |
| JsValue.ToJsString | app/exec/extension/_lib/targets/Microsoft.VisualStudio.Services/vso-manifest-builder.ts:56 | string concatenation leaves a string as it is, writes a non-negative number in decimal, and an object as `[object Object]` |
| JsStrings.ToJsStringOfIndex | app/exec/extension/_lib/targets/Microsoft.VisualStudio.Services/vso-manifest-builder.ts:54-56 | a non-negative number written out by concatenation parses back to itself |
| JsStrings.Split | app/exec/extension/_lib/targets/Microsoft.VisualStudio.Services/vso-manifest-builder.ts:52 | `split(".")` gives at least one piece, and no piece contains the separator |
| JsStrings.NonEmpty | app/exec/extension/_lib/targets/Microsoft.VisualStudio.Services/vso-manifest-builder.ts:52 | the `!!p` filter keeps only non-empty pieces and never gives more pieces than it was given |
| JsStrings.JoinPieces | app/exec/extension/_lib/targets/Microsoft.VisualStudio.Services/vso-manifest-builder.ts:56 | `join(".")` starts with the first piece, puts a `.` straight after it when more pieces follow, and ends with the last piece |
| JsValue.IsObject | app/exec/extension/_lib/targets/Microsoft.VisualStudio.Services/vso-manifest-builder.ts:70 | `_.isObject` holds exactly for the values that are not primitives or null, that is arrays and objects |
| JsStrings.Segments | app/exec/extension/_lib/targets/Microsoft.VisualStudio.Services/vso-manifest-builder.ts:52 | split and filter give non-empty, dot-free segments |
| JsStrings.JoinSplit | app/exec/extension/_lib/targets/Microsoft.VisualStudio.Services/vso-manifest-builder.ts:52 | joining the pieces of a split gives the original text |
| JsStrings.SplitJoin | app/exec/extension/_lib/targets/Microsoft.VisualStudio.Services/vso-manifest-builder.ts:56 | splitting a join of dot-free pieces gives the pieces back |
| JsStrings.SegmentsConcat | app/exec/extension/_lib/targets/Microsoft.VisualStudio.Services/vso-manifest-builder.ts:52 | the segments of `a.b` are those of `a` followed by those of `b` |
| JsStrings.TrimEnd | app/exec/extension/_lib/targets/Microsoft.VisualStudio.Services/vso-manifest-builder.ts:56 | `_.trimEnd` gives a prefix without trailing whitespace, and removes only whitespace |
| JsStrings.ParseInt | app/exec/extension/_lib/targets/Microsoft.VisualStudio.Services/vso-manifest-builder.ts:54 | `parseInt` is NaN exactly when the text does not start with a digit |
| JsStrings.ParseIntOfNat | app/exec/extension/_lib/targets/Microsoft.VisualStudio.Services/vso-manifest-builder.ts:54 | the decimal text of an index parses back to that index |
| VsoManifestProperties.LocKeyPathShort | app/exec/extension/_lib/targets/Microsoft.VisualStudio.Services/vso-manifest-builder.ts:62-64 | a path with fewer than two segments is returned as it is |
| VsoManifestProperties.LocKeyPathRewrites | app/exec/extension/_lib/targets/Microsoft.VisualStudio.Services/vso-manifest-builder.ts:54-58 | for a list name, a numeric second segment and an element with a truthy id, the result is the trimmed `list.id.rest` |
| VsoManifestProperties.LocKeyPathSegments | app/exec/extension/_lib/targets/Microsoft.VisualStudio.Services/vso-manifest-builder.ts:54-58 | the rewritten key has the original segments with the index replaced by the id |
| VsoManifestProperties.RewrittenSegments | app/exec/extension/_lib/targets/Microsoft.VisualStudio.Services/vso-manifest-builder.ts:56 | `head.id.rest` has the segments head, id and rest, and `trimEnd` leaves it alone |
| VsoManifestProperties.LocKeyPathThrows | app/exec/extension/_lib/targets/Microsoft.VisualStudio.Services/vso-manifest-builder.ts:55-58 | for a list name and a numeric index, a list that is unset or null makes the rewrite throw, with the `null` message when the property is present and the `undefined` message otherwise |
| VsoManifestProperties.UnlistedPathKept | app/exec/extension/_lib/targets/Microsoft.VisualStudio.Services/vso-manifest-builder.ts:59-61 | a three-segment path whose first segment is not `contributions` or `contributionTypes` is returned as it is |
| VsoManifestProperties.LocKeyPathFallback | app/exec/extension/_lib/targets/Microsoft.VisualStudio.Services/vso-manifest-builder.ts:59-61 | an unknown first segment, a non-numeric index, or an element that is missing, falsy or has no truthy id leaves the path unchanged |
| VsoManifestProperties.LocKeyPathOfIndex | app/exec/extension/_lib/targets/Microsoft.VisualStudio.Services/vso-manifest-builder.ts:54-61 | the key path of element `i` is left as it is when the list has no element `i`, and names the element's string id when it has one |
| VsoManifestProperties.ExampleRewritten | app/exec/extension/_lib/targets/Microsoft.VisualStudio.Services/vso-manifest-builder.ts:55-56 | with contributions A and B, `contributions.1.name` becomes `contributions.B.name` |
| VsoManifestProperties.ExampleUnknownField | app/exec/extension/_lib/targets/Microsoft.VisualStudio.Services/vso-manifest-builder.ts:59-61 | `unknownField.0.x` is returned as it is |
| VsoManifestProperties.ExampleOutOfRange | app/exec/extension/_lib/targets/Microsoft.VisualStudio.Services/vso-manifest-builder.ts:55 | `contributions.5.name` is returned as it is when there are two contributions |
| VsoManifestProperties.ExampleSingleSegment | app/exec/extension/_lib/targets/Microsoft.VisualStudio.Services/vso-manifest-builder.ts:62-64 | `scopes` is returned as it is |
| VsoManifestProperties.IndexPathParts | app/exec/extension/_lib/targets/Microsoft.VisualStudio.Services/vso-manifest-builder.ts:52-55 | the path `list.i` has the segments `list` and `i`, the index parses back to `i`, and element `i`'s id is found |
| VsoManifestProperties.IndexOnlyPath | app/exec/extension/_lib/targets/Microsoft.VisualStudio.Services/vso-manifest-builder.ts:56-58 | as written, the path `list.i` becomes `list.<id>.`, with a trailing dot |
| VsoManifestProperties.TrailingSeparatorKept | app/exec/extension/_lib/targets/Microsoft.VisualStudio.Services/vso-manifest-builder.ts:56 | with contributions A and B, `contributions.1` becomes `contributions.B.` as written and `contributions.B` corrected |
| VsoManifest.LocKeyPathTrimmed | app/exec/extension/_lib/targets/Microsoft.VisualStudio.Services/vso-manifest-builder.ts:51-65 | the corrected rewrite returns short paths as they are |
| VsoManifestProperties.LocKeyPathTrimmedRewrites | app/exec/extension/_lib/targets/Microsoft.VisualStudio.Services/vso-manifest-builder.ts:54-58 | corrected, a list name, a numeric index and an element with a truthy id give the trimmed join of the list name, the id and the rest |
| VsoManifestProperties.IndexOnlyPathTrimmed | app/exec/extension/_lib/targets/Microsoft.VisualStudio.Services/vso-manifest-builder.ts:56-58 | corrected, the path `list.i` becomes `list.<id>` |
| VsoManifestProperties.LocKeyPathTrimmedAgrees | app/exec/extension/_lib/targets/Microsoft.VisualStudio.Services/vso-manifest-builder.ts:51-65 | the corrected rewrite agrees with the code as written on every path that does not have exactly two segments |
| VsoManifestProperties.LocKeyPathTrimmedSegments | app/exec/extension/_lib/targets/Microsoft.VisualStudio.Services/vso-manifest-builder.ts:56-58 | corrected, the rewritten key has exactly the original segments with the index replaced by the id, and never ends in a dot |

## Left out

- The base class `ManifestBuilder` is not part of this model. Its
  `singleValueProperty` is modelled as "store when unset or overridden" on
  a flat property name. Dotted names and the base class's own checks are
  not captured. The document is assumed to start empty.
- `finalize` first awaits the base class's `finalize` and returns a
  promise. Only the defaulting block that runs afterwards is modelled, as
  a synchronous step.
- Serialising the document to JSON, the package files, the localized
  resources and the other builders passed to `finalize` are left out. They
  are I/O or base-class behaviour.
- Numbers are integers plus NaN. `parseFloat` and `parseInt` read only a
  leading run of ASCII digits. Leading whitespace, signs, fractions,
  exponents, `Infinity` and the `0x` prefix are not modelled. This shows
  downstream: a manifest version of "0.5" is stored as 0, which is falsy,
  so `WithDefaults` replaces it by 1. The program stores 0.5, which is
  truthy, and keeps it.
- `toLowerCase` is modelled on ASCII letters only. Non-ASCII case mappings,
  such as the Kelvin sign lower-casing to `k`, are not captured.
- `_.uniq` compares values structurally. JavaScript compares objects and
  arrays by reference, so two equal-looking scope objects would both be
  kept there.
- Object property order is not modelled, because objects are maps.
- Applying a whole fragment is not modelled. Only the pairwise commutation
  of keys stored under different properties is proved.
- VsoManifestProperties.MergeCommutes: the lemma is stated only for keys
  stored under different properties. Two keys stored under the same
  property do not commute in general. List keys (`contributions` and
  `Contributions`, say) append in call order, as `CaseVariantsDoNotCommute`
  shows. Single-value keys (`baseUri` with "a", then `baseuri` with "b")
  keep the first value, or the last one when overriding.
- `JsValue.ToJsString` prints numbers in decimal only. It has no
  exponent form for large numbers.

## Findings

| source | as written | input that shows it | evidently intended | confidence | as-written member | corrected member |
|---|---|---|---|---|---|---|
| app/exec/extension/_lib/targets/Microsoft.VisualStudio.Services/vso-manifest-builder.ts:56-58 | `_.trimEnd` with no character argument strips only whitespace, so the `"."` added before the empty rest survives | contributions `[{id:"A"},{id:"B"}]`, path `contributions.1` gives `contributions.B.` | `contributions.B`, the segments of the path with the index replaced by the id | medium, not executed | VsoManifestProperties.IndexOnlyPath | VsoManifestProperties.LocKeyPathTrimmedSegments |
