# data-transformation in Dafny

A model of the data-transformation JavaScript utilities:
- the default injectors that fill a JSON document from a JSON Schema;
- the pruner that deletes undeclared properties;
- the caster that turns a form query string into typed JSON;
- the schema helpers `dataType` and `resolveRef`.

Each utility walks the schema tree in order and changes the document step by step. The model keeps that form:
- a method with a loop for each walk, proved equal to a specification function of its inputs;
- lemmas that prove what the walk promises about that function (fill, prune, cast).

All the utilities share one value model, `JsonValue`:
- `Json` has an explicit `Undefined`, and objects keep their insertion-ordered key list beside the field map.
- `Prop`, `Get`, `Put`, `Delete` and `ForInKeys` follow strict-mode JavaScript. Reading a property of `undefined` or `null` throws a TypeError, and so does writing a property of a primitive.
- `Result` carries the exception: `TypeError`, `ReferenceError`, `RangeError` or `Error(message)`.

A nested document that the source changes in place is modelled as a value: the walk returns the updated child and writes it back. The document the caller holds is a `JsonRef` reference, and the top-level methods say in their `modifies` and `ensures` what happens to it.

Modules:
- `JsonValue` (json.dfy) holds the value model and facts about it.
- `SchemaHelpers` (helpers.dfy) models lib/helpers.js and utilities/helpers.js.
- `Pruner` (pruner.dfy) models both `removeExtras` copies and their two top levels. The lib top level reads an undeclared `ajv` on an invalid document, so it throws a ReferenceError before it prunes anything.
- `Compiled` (compiled.dfy) models the compiled-AST evaluator of lib/addDefaultValues/addDefaultValues.js and its `JsonSchemaProcessor` class.
- `ObjectFiller` (object_filler.dfy) models utilities/addDefaultValues/addDefaultValues.js.
- `RequiredFiller` (required_filler.dfy) models utilities/addDefaultValues.js. That includes the `required` branch, whose shallow copy shares `properties` with the caller, so the caller's schema loses its optional properties.
- `NestedFiller` (nested_filler.dfy) models utilities/utilities.mjs.
- `QueryString` (query.dfy) models both `convertFormQueryString` copies.

## Model

| member | source | states |
|---|---|---|
| JsonValue.Get | utilities/addDefaultValues.js:13 | reading a property throws a TypeError exactly on undefined or null, and otherwise yields the own property or undefined |
| JsonValue.Put | utilities/utilities.mjs:46 | writing a property fails exactly on a primitive; on an object, or an array index in range, it sets the key and every other key keeps its value and presence; an array never shrinks |
| JsonValue.PutExtends | utilities/utilities.mjs:46 | writing an index at or past an array's end makes the array one longer than the index, keeps its items, stores the value there, and changes no other read except `length` |
| JsonValue.ArrayIndexOfName | utilities/utilities.mjs:46 | every index below 2^32 - 1 is denoted by its decimal name, so a write of that name reaches that slot |
| JsonValue.CanonicalIndexName | utilities/utilities.mjs:46 | a digit string without a leading zero names the index it spells, so no other name denotes an index |
| JsonValue.Delete | utilities/removeExtraProperties.js:16 | `delete` removes the key from an object's fields and key order, leaves a hole in an array, and changes no other key |
| JsonValue.ForInKeys | utilities/removeExtraProperties.js:14 | `for...in` visits nothing except on a container; on an array it visits index names only |
| JsonValue.ForInKeysDistinct | lib/removeExtraProperties/removeExtraProperties.js:15 | the keys a `for...in` visits are distinct and are own keys |
| SchemaHelpers.DataType | lib/helpers.js:32-42 | throws exactly on undefined or null; "object" when `properties` or `additionalProperties` is truthy; otherwise "array" for an item keyword; otherwise `type` or `typeof default` |
| SchemaHelpers.DataTypeLegacy | utilities/helpers.js:1-22 | throws exactly on undefined or null; otherwise "object" when `type` is "object" or an object keyword is truthy, else "array" when `type` is "array" or an array keyword is truthy, else null for a null `type`, undefined for a missing one, and `type || typeof default` for any other `type` |
| SchemaHelpers.AdditionalPropertiesFalseIgnored | lib/helpers.js:33-35 | `additionalProperties: false` does not make a schema an object schema |
| SchemaHelpers.DataTypeWithoutType | lib/helpers.js:41 | without a truthy `type` the answer is `typeof default`: "undefined" without a default, "object" for a null, array or object default |
| SchemaHelpers.DataTypeVersionsAgree | utilities/helpers.js:2-21 | the two versions agree except for a `type: "object"` schema with only array keywords, or a schema with no keywords whose `type` is null or missing |
| SchemaHelpers.LegacyObjectKeywordWins | utilities/helpers.js:2-14 | the older version calls a `type: "array"` schema with `properties` "object" |
| SchemaHelpers.LegacyTypeCases | utilities/helpers.js:15-20 | a null `type` gives null and a missing one undefined, with `default` never read; `typeof default` for any other falsy `type` ("", false, 0, NaN); any other truthy `type` is returned |
| SchemaHelpers.Split | lib/helpers.js:45 | `split("/")` yields at least one segment and no segment holds the separator |
| SchemaHelpers.JoinSplit | lib/helpers.js:45 | joining the segments gives back the reference |
| SchemaHelpers.SplitJoin | lib/helpers.js:45 | splitting a join of separator-free segments gives back the segments |
| SchemaHelpers.ResolveRef | lib/helpers.js:44-51 | the loop reads one property per segment after the first, in order, and throws on an undefined or null node |
| SchemaHelpers.ResolveNoSlash | lib/helpers.js:45-50 | a reference without `/` resolves to the schema itself |
| SchemaHelpers.ResolveComposition | lib/helpers.js:47-49 | `resolveRef(r + "/" + k)` is `resolveRef(r)[k]` for any `k` without `/` |
| SchemaHelpers.ResolveVerbatim | lib/helpers.js:48 | segments are used verbatim: `~1` is not unescaped as section 4 of RFC 6901 asks |
| SchemaHelpers.ResolveIgnoresFirstSegment | lib/helpers.js:47 | the first segment is never read |
| SchemaHelpers.ResolveMissingSegment | lib/helpers.js:48 | a missing segment resolves to undefined and one more segment throws a TypeError |
| Pruner.RemoveExtras | utilities/removeExtraProperties.js:11-26 | the walk returns exactly the pruning specification of schema and document |
| Pruner.RemoveExtraProperties | utilities/removeExtraProperties.js:5-32 | the same document reference comes back holding the pruned value; the walk's exception is passed on; validation plays no part |
| Pruner.RemoveExtraPropertiesLib | lib/removeExtraProperties/removeExtraProperties.js:3-10 | reading `schema.$id` throws a TypeError on an undefined or null schema; otherwise an invalid document throws a ReferenceError; both leave the document as it was; a valid one is pruned in place and returned by reference, or the walk's exception is passed on |
| Pruner.PruneInactive | utilities/removeExtraProperties.js:12-13 | a schema other than null (undefined included) that is not a plain object with truthy `properties` leaves the document unchanged |
| Pruner.PruneNullSchema | lib/removeExtraProperties/removeExtraProperties.js:13-14 | a null schema passes the `typeof` test, and reading its `properties` throws |
| Pruner.PrunePrimitiveProperties | utilities/removeExtraProperties.js:13-15 | a truthy primitive `properties` makes the `in` test throw once there is a key |
| Pruner.PruneKeepsDeclared | utilities/removeExtraProperties.js:14-22 | on an object a key survives exactly when it was in the document and is declared; order is kept and no key is added; declared object sub-schemas are pruned recursively; other values are left alone |
| Pruner.PruneArray | utilities/removeExtraProperties.js:14-22 | on an array, undeclared indices become holes, declared ones are pruned recursively, and the length is kept |
| Pruner.PruneIdempotent | lib/removeExtraProperties/removeExtraProperties.js:12-27 | pruning a pruned document changes nothing |
| Compiled.ToAbsoluteIriFacts | lib/addDefaultValues/addDefaultValues.js:56 | the absolute IRI is the longest prefix without `#`, and an IRI without a fragment is kept |
| Compiled.GetKeywordHandler | lib/addDefaultValues/addDefaultValues.js:55-62 | the properties handler iff the normalised id is the properties keyword, the default handler iff it is the default keyword, otherwise an Error naming the id |
| Compiled.KnownKeywords | lib/addDefaultValues/addDefaultValues.js:64-91 | the two ids of the dispatch table select their own handlers |
| Compiled.MergeAnchors | lib/addDefaultValues/addDefaultValues.js:31 | every caller anchor keeps its binding; node anchors only add names the caller lacks; nothing else appears |
| Compiled.EvaluateSchema | lib/addDefaultValues/addDefaultValues.js:28-51 | the loop, with `instance` reassigned by each handler, computes exactly the evaluation specification |
| Compiled.PropertiesKeyword | lib/addDefaultValues/addDefaultValues.js:65-86 | the handler's loop computes exactly the `properties` specification |
| Compiled.JsonSchemaProcessor.constructor | lib/addDefaultValues/addDefaultValues.js:7-10 | the processor holds the given schema and instance |
| Compiled.JsonSchemaProcessor.AddDefaultsToInstance | lib/addDefaultValues/addDefaultValues.js:12-25 | reading `$id` throws a TypeError on an undefined or null schema; otherwise returns the evaluation of the root URI with empty anchors; after a successful evaluation an object instance field holds the result in place; a non-object instance field, and every instance after the `$id` TypeError, is kept; the schema is untouched |
| Compiled.IsObjectExactly | lib/addDefaultValues/addDefaultValues.js:53 | isObject holds exactly of plain objects |
| Compiled.BooleanNodeIdentity | lib/addDefaultValues/addDefaultValues.js:30-50 | a boolean node returns the instance unchanged |
| Compiled.DefaultKeywordFacts | lib/addDefaultValues/addDefaultValues.js:87-89 | `default` replaces exactly undefined (null, false, 0 and "" are kept), and applying it twice equals once |
| Compiled.RunKeyword | lib/addDefaultValues/addDefaultValues.js:38-43 | one entry of the loop: an unknown id fails with the table's Error, `default` replaces only undefined, and `properties` runs its loop; the result is the specification's handler step |
| Compiled.EvaluateFuelMono | lib/addDefaultValues/addDefaultValues.js:28-51 | an evaluation that does not end in the fuel's RangeError gives the same result with any larger fuel, so the bound only decides whether the stack runs out |
| Compiled.ApplyKeywordsAppend | lib/addDefaultValues/addDefaultValues.js:34-48 | a node's entries are a left fold: evaluating a concatenation evaluates the parts in turn |
| Compiled.ApplyKeywordsSnoc | lib/addDefaultValues/addDefaultValues.js:43 | a last entry sees the output of all earlier ones |
| Compiled.UnknownKeywordAborts | lib/addDefaultValues/addDefaultValues.js:55-59 | an entry without a handler makes the node fail, with its own error once the earlier entries pass |
| Compiled.PropertiesNonObject | lib/addDefaultValues/addDefaultValues.js:72-85 | `properties` returns an array, null, scalar or undefined instance unchanged |
| Compiled.PropertiesFromKeepsObject | lib/addDefaultValues/addDefaultValues.js:73-83 | the handler loop keeps an object an object |
| Compiled.ApplyEntryKeepsDefined | lib/addDefaultValues/addDefaultValues.js:43 | a handler never replaces a defined instance: an object stays an object, anything else is returned as is |
| Compiled.ApplyKeywordsKeepsDefined | lib/addDefaultValues/addDefaultValues.js:34-48 | the same for all of a node's entries |
| Compiled.EvaluateKeepsDefined | lib/addDefaultValues/addDefaultValues.js:28-51 | evaluation of a defined instance returns that instance, changed in place when it is an object |
| Compiled.UndefinedOnlyFromUndefined | lib/addDefaultValues/addDefaultValues.js:77-79 | a sub-evaluation yields undefined only for an undefined instance |
| Compiled.PropertiesFromFacts | lib/addDefaultValues/addDefaultValues.js:73-83 | each named key holds its sub-evaluation when that is defined and is otherwise kept; unnamed keys are untouched |
| Compiled.PropertiesOnObject | lib/addDefaultValues/addDefaultValues.js:72-85 | on an object: keys not named are untouched; a named key is written only with a defined sub-result; an absent key whose sub-result is undefined stays absent |
| Compiled.PropertiesFillsOne | lib/addDefaultValues/addDefaultValues.js:73-83 | on an empty object, a one-entry `properties` stores the defined result of its sub-schema, and only that key |
| Compiled.OrderExampleSubNode | lib/addDefaultValues/addDefaultValues.js:87-89 | the sub-node with `default: "x"` turns undefined into "x" |
| Compiled.KeywordOrderFirstRun | lib/addDefaultValues/addDefaultValues.js:33-34 | in AST order `properties` runs before `default`, so undefined becomes `{}` without `a` |
| Compiled.KeywordOrderSecondRun | lib/addDefaultValues/addDefaultValues.js:33-34 | evaluating that `{}` again adds `a: "x"`: evaluation is not idempotent |
| ObjectFiller.SetIndex | utilities/addDefaultValues/addDefaultValues.js:71 | `resultantArr[i] = v` sets slot i, extends a full array by one, and keeps the other slots |
| ObjectFiller.AddDefaultsToObject | utilities/addDefaultValues/addDefaultValues.js:37-66 | the loop computes exactly the fill specification of schema and object |
| ObjectFiller.ValueForMissing | utilities/addDefaultValues/addDefaultValues.js:43-62 | computes exactly the value stored for a missing key |
| ObjectFiller.NewFilledArray | utilities/addDefaultValues/addDefaultValues.js:52-57 | computes exactly the fresh array filled from `items`, else from `prefixItems`, else empty |
| ObjectFiller.AddDefaultsToArray | utilities/addDefaultValues/addDefaultValues.js:68-84 | the index loop computes exactly the slot-filling specification |
| ObjectFiller.AddDefaultValuesToDocument | utilities/addDefaultValues/addDefaultValues.js:101-130 | a rejected schema, or a fill that throws, gives "Invalid Json Schema"; otherwise the same document reference comes back filled |
| ObjectFiller.SomeMemberHasIff | utilities/addDefaultValues/addDefaultValues.js:91-95 | the search loop is true iff some visited member has the key at some depth |
| ObjectFiller.HasPropertyIffOccurs | utilities/addDefaultValues/addDefaultValues.js:86-99 | hasProperty is true iff the key is an own key of the value or of a nested value; false for null and scalars |
| ObjectFiller.FillObjectFacts | utilities/addDefaultValues/addDefaultValues.js:39-64 | undeclared keys are untouched; a declared undefined or null key gets its missing value; other declared values, false, 0 and "" included, are kept and not descended into |
| ObjectFiller.FreshObjectKeys | utilities/addDefaultValues/addDefaultValues.js:45-47 | a fresh object filled for `type: "object"` has exactly the declared keys |
| ObjectFiller.MissingArrayValue | utilities/addDefaultValues/addDefaultValues.js:48-58 | a missing `type: "array"` key takes a truthy default; else a fresh array with one slot per item schema of `items`, else of `prefixItems`, else empty |
| ObjectFiller.MissingExtendsArray | utilities/addDefaultValues/addDefaultValues.js:43-62 | a missing index name past an array's end extends the array with the value made for it, keeping the items |
| ObjectFiller.MissingOtherValue | utilities/addDefaultValues/addDefaultValues.js:59-61 | under any defined, non-null sub-schema (a primitive one too) whose type is neither "object" nor "array", a missing key is set to its `default`, possibly undefined |
| ObjectFiller.FilledItemsFacts | utilities/addDefaultValues/addDefaultValues.js:68-84 | exactly slots 0 to length-1 are written, slot j by `arr[j].type`; a fresh target ends with `arr.length` slots |
| ObjectFiller.FillObjectIdempotent | utilities/addDefaultValues/addDefaultValues.js:37-66 | filling a filled object changes nothing |
| RequiredFiller.TakesDefault | utilities/addDefaultValues.js:12-15 | the default is read only for an undefined key, throws on an undefined or null sub-schema, and is taken iff it is defined |
| RequiredFiller.AddDefaults | utilities/addDefaultValues.js:9-28 | the walk computes exactly the fill specification |
| RequiredFiller.AddDefaultForKey | utilities/addDefaultValues.js:12-25 | one iteration computes exactly the specification's step |
| RequiredFiller.Includes | utilities/addDefaultValues.js:32 | `includes` is membership on an array, a substring search on a string, and throws a TypeError on anything else |
| RequiredFiller.IsSubstringIff | utilities/addDefaultValues.js:32 | the string search succeeds iff the key occurs at some position |
| RequiredFiller.DropOptionalProperties | utilities/addDefaultValues.js:31-35 | the deletion loop computes exactly the pruned `properties` |
| RequiredFiller.AddDefaultValues | utilities/addDefaultValues.js:5-41 | the caller's schema becomes the required-pruned schema; the same document reference comes back filled by it; exceptions are passed on |
| RequiredFiller.NoRequiredWholeSchema | utilities/addDefaultValues.js:37-39 | without a truthy `required` the whole schema is used |
| RequiredFiller.WalkScalar | utilities/addDefaultValues.js:13-24 | a walk over a primitive either throws or changes nothing |
| RequiredFiller.WalkShape | utilities/addDefaultValues.js:9-28 | objects stay objects, arrays never shrink, and primitives are unchanged |
| RequiredFiller.DefaultExtendsArray | utilities/addDefaultValues.js:13-16 | a default for an index name past an array document's end extends the array, keeps its items and lands at that index |
| RequiredFiller.AddDefaultsFacts | utilities/addDefaultValues.js:11-25 | unvisited keys are untouched; an undefined key with a default gets it; under an object sub-schema a key holds the walk of its value, or of `{}` when undefined; others are kept |
| RequiredFiller.ObjectKeysDefined | utilities/addDefaultValues.js:17-24 | every declared key with an object sub-schema is defined afterwards, and a defined primitive is never replaced |
| RequiredFiller.WalkThrowsTypeError | utilities/addDefaultValues.js:9-28 | every exception of the walk is a TypeError |
| RequiredFiller.NullUnderObjectThrows | utilities/addDefaultValues.js:13-24 | a present null under a sub-schema that declares properties makes the walk throw a TypeError |
| RequiredFiller.DropOptionalFacts | utilities/addDefaultValues.js:31-35 | the loop removes exactly the visited keys that `includes` rejects and keeps the others' values |
| RequiredFiller.RequiredNotListThrows | utilities/addDefaultValues.js:32 | a truthy `required` that is neither an array nor a string throws a TypeError once there is a property |
| RequiredFiller.RequiredPrunesProperties | utilities/addDefaultValues.js:29-35 | the schema keeps its other keys, and `properties` keeps exactly the declared keys that `includes` accepts |
| RequiredFiller.RequiredStringIsSubstringSearch | utilities/addDefaultValues.js:32 | a string `required` keeps every key that is part of its text, unlike an array |
| RequiredFiller.OnlyRequiredFilled | utilities/addDefaultValues.js:29-36 | with a truthy `required`, keys it does not include keep what the document had |
| NestedFiller.AddDefaults | utilities/utilities.mjs:39-55 | the walk computes exactly the fill specification |
| NestedFiller.AddDefaultForKey | utilities/utilities.mjs:42-52 | one iteration computes exactly the specification's step |
| NestedFiller.AddDefaultValues | utilities/utilities.mjs:32-60 | the same document reference comes back filled; exceptions are passed on; validation only logs |
| NestedFiller.WalkScalar | utilities/utilities.mjs:41-52 | a walk over a primitive or undefined either throws or changes nothing |
| NestedFiller.WalkShape | utilities/utilities.mjs:39-55 | objects stay objects, arrays never shrink, and primitives are unchanged |
| NestedFiller.DefaultExtendsArray | utilities/utilities.mjs:43-46 | a default for an index name past an array document's end extends the array, keeps its items and lands at that index |
| NestedFiller.AddDefaultsFacts | utilities/utilities.mjs:41-53 | unvisited keys are untouched; an undefined key with a default gets it; under an object sub-schema a present value holds its nested walk; others are kept |
| NestedFiller.MissingContainersStayMissing | utilities/utilities.mjs:47-52 | a key that was undefined is afterwards undefined or its default: no container is created |
| NestedFiller.NonObjectSchemaUnchanged | utilities/utilities.mjs:40 | a schema that is not a plain object or null changes nothing |
| NestedFiller.NoPropertiesNoOp | utilities/utilities.mjs:41 | a sub-schema without properties leaves any value, undefined included, as it is |
| NestedFiller.WalkThrowsTypeError | utilities/utilities.mjs:39-55 | every exception of the walk is a TypeError |
| NestedFiller.BlockedThrows | utilities/utilities.mjs:43-51 | a null key, or an undefined key without default, under a sub-schema that declares properties throws a TypeError |
| QueryString.ParamValueFirst | lib/convertFormQueryString/convertFormQueryString.js:6-12 | `get` answers the first pair with the name, and `has` holds iff some pair has it |
| QueryString.Cast | lib/convertFormQueryString/convertFormQueryString.js:10-23 | "number" and "integer" go through parseFloat and parseInt; "boolean" is true iff the text is "true"; any other type keeps the text |
| QueryString.ConvertFormQueryString | lib/convertFormQueryString/convertFormQueryString.js:1-28 | the loop builds exactly the specified result object |
| QueryString.ConvertedKeysFacts | utilities/convertFormQueryString.js:9-30 | the loop appends the mentioned declared names in order, each with its cast value |
| QueryString.ConvertedShape | lib/convertFormQueryString/convertFormQueryString.js:5-27 | the result's keys are exactly the declared names the query mentions, in declaration order, each with its first value cast by its type |
| QueryString.AbsentStaysAbsent | utilities/convertFormQueryString.js:10 | a declared name the query lacks is absent: nothing is defaulted |
| QueryString.BooleanCast | utilities/convertFormQueryString.js:22-24 | a boolean property is true iff its first value is "true" |
| QueryString.ConvertedFails | lib/convertFormQueryString/convertFormQueryString.js:5-7 | a TypeError is thrown exactly for an undefined or null schema, or a mentioned property with an undefined or null sub-schema |
| QueryString.SampleQuery | utilities/convertFormQueryString.js:34-45 | the module's sample `foo=42&bar=hello` gives `{ foo: parseFloat("42"), bar: "hello" }` |

## Left out

- Schema registration, compilation and validation (@hyperjump/json-schema, ajv) are foreign libraries. Validation only logs or warns, so it is a parameter or is dropped: `accepted` in `ObjectFiller.AddDefaultValuesToDocument`, `valid` in `Pruner.RemoveExtraPropertiesLib`. Compilation's AST and root URI are inputs of `Compiled.JsonSchemaProcessor.AddDefaultsToInstance`. An exception thrown by the validator itself is not modelled.
- `toAbsoluteIri` is a foreign function; it is modelled as dropping the fragment.
- The schema-location slot of an AST entry is never read and is not modelled.
- Compiled.Evaluate: the `fuel` bound stands for the engine's stack depth. A cyclic AST, which loops in the source, ends in a RangeError when fuel runs out. `Compiled.EvaluateFuelMono` shows that any other result does not depend on the bound.
- Compiled.Evaluate: an AST whose metadata or node for a URI is missing, or whose sub-schema reference is not a string, throws a TypeError in the model. The source's behaviour there depends on the foreign compiler.
- The values stored in the document when a walk throws part-way are not modelled. The methods promise nothing about the document on the error path, except where the error comes before any write.
- RequiredFiller.AddDefaultValues: requires the schema and the document to be different references; aliasing between them is not modelled.
- Aliasing inside documents is not modelled: a default object stored twice, or an AST value shared with the instance. Nested objects are values, and the walks write back the updated child.
- Named properties on arrays are not modelled. A write to a name that is no array index (an index of 2^32 - 1 or more included) is invisible, and `length` is read-only.
- A deleted array slot, and each slot a write past the end skips, is modelled as `undefined` instead of a hole, so `for...in` visits it.
- Prototype-chain lookups and writes to `__proto__` are not modelled: `in` and reads see own keys only, and reads on primitives yield undefined. A write to `__proto__` creates an own key in the model; in JavaScript its setter creates none, and for an object value it replaces the prototype. `for...in` over a string is not modelled either; it visits nothing.
- JavaScript orders integer-like object keys first; the model keeps plain insertion order.
- `URLSearchParams` decoding (section 5.1 of the WHATWG URL Standard) is not modelled; the query is its decoded name/value pairs.
- `parseFloat` and `parseInt` are uninterpreted function parameters.
- `console` logging, the demo code run on import, and `async`/`await` sequencing are left out.
- Compiled.JsonSchemaProcessor.AddDefaultsToInstance: after a failed evaluation of an object instance, the keys already written in place are not stated.
- ObjectFiller.AddDefaultValuesToDocument: after a fill that throws, only the returned message is stated, not the document's partial state.
- Pruner.RemoveExtraProperties: on failure, only the exception is stated, not the document's partial state.
