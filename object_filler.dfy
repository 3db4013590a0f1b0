/**
 * The raw-schema filler of utilities/addDefaultValues/addDefaultValues.js:
 * `addDefaultsToObject` fills declared keys that are undefined or null,
 * building fresh objects and arrays for object and array sub-schemas;
 * `addDefaultsToArray` fills the slots of a fresh array from an item list;
 * `hasProperty` searches a value for a key at any depth.
 */
module ObjectFiller {
  import opened JsonValue

  const INVALID_SCHEMA: string := "Invalid Json Schema"

  predicate Missing(v: Json) {
    v.Undefined? || v.Null?
  }

  /** `resultantArr[i] = v` on an array whose first `i` slots are already there. */
  function SetIndex(a: seq<Json>, i: nat, v: Json): (r: seq<Json>)
    requires i <= |a|
    ensures |r| == if i < |a| then |a| else i + 1
    ensures r[i] == v
    ensures forall j :: 0 <= j < |a| && j != i ==> r[j] == a[j]
  {
    if i < |a| then a[i := v] else a + [v]
  }

  /** What `addDefaultsToObject(schema, obj)` leaves in `obj`. */
  function Filled(schema: Json, obj: Json): Result<Json>
    decreases schema, 4, 0
  {
    var props :- Get(schema, "properties");
    if !Truthy(props) then Ok(obj)
    else FilledKeys(schema, props, ForInKeys(props), obj)
  }

  /** The `for (key in schema.properties)` loop, from `keys` on. */
  function FilledKeys(schema: Json, props: Json, keys: seq<string>, obj: Json): Result<Json>
    requires props == Prop(schema, "properties")
    decreases schema, 3, |keys|
  {
    if keys == [] then Ok(obj)
    else
      var key := keys[0];
      var current :- Get(obj, key);
      var next :-
        if Missing(current) then
          var v :- MissingValue(schema, props, key);
          Put(obj, key, v)
        else Ok(obj);
      FilledKeys(schema, props, keys[1..], next)
  }

  /**
   * A declared index name at or past the end of an array extends it with the
   * value made for a missing key.
   */
  lemma MissingExtendsArray(schema: Json, props: Json, key: string, obj: Json)
    requires props == Prop(schema, "properties")
    requires Extends(obj, key) && MissingValue(schema, props, key).Ok?
    ensures var r := FilledKeys(schema, props, [key], obj);
            && r.Ok? && r.value.Arr? && |r.value.items| == ArrayIndex(key) + 1
            && r.value.items[..|obj.items|] == obj.items
            && Prop(r.value, key) == MissingValue(schema, props, key).value
  {
    PastEndUndefined(obj, key);
    PutExtends(obj, key, MissingValue(schema, props, key).value);
    assert [key][1..] == [];
  }

  /**
   * The value stored for a missing declared key: a fresh filled object for
   * `type: "object"`, the truthy default or a fresh array for `type: "array"`,
   * otherwise the default. A failing write throws TypeError before or after this,
   * which is the same exception as the ones raised here.
   */
  function MissingValue(schema: Json, props: Json, key: string): Result<Json>
    requires props == Prop(schema, "properties")
    decreases schema, 2, 0
  {
    var value := Prop(props, key);
    var t :- Get(value, "type");
    if t == Str("object") then Filled(value, EmptyObject())
    else if t == Str("array") then
      var d := Prop(value, "default");
      if Truthy(d) then Ok(d) else FreshArray(value)
    else Ok(Prop(value, "default"))
  }

  /** `[]`, filled from `items` when that is an array, else from `prefixItems`. */
  function FreshArray(value: Json): Result<Json>
    decreases value, 1, 0
  {
    var items := Prop(value, "items");
    var prefixItems := Prop(value, "prefixItems");
    if items.Arr? then
      var r :- FilledItems(items, 0, []);
      Ok(Arr(r))
    else if prefixItems.Arr? then
      var r :- FilledItems(prefixItems, 0, []);
      Ok(Arr(r))
    else Ok(Arr([]))
  }

  /** The index loop of `addDefaultsToArray(arr, resultantArr)`, from slot `i` on. */
  function FilledItems(arr: Json, i: nat, target: seq<Json>): Result<seq<Json>>
    requires arr.Arr? && i <= |arr.items| && i <= |target|
    decreases arr, 0, |arr.items| - i
  {
    if i == |arr.items| then Ok(target)
    else
      var v :- ItemValue(arr.items[i]);
      FilledItems(arr, i + 1, SetIndex(target, i, v))
  }

  /** Slot `i` of the result, by `arr[i].type`. */
  function ItemValue(item: Json): Result<Json>
    decreases item, 5, 0
  {
    var t :- Get(item, "type");
    if t != Str("object") && t != Str("array") then Ok(Prop(item, "default"))
    else if t == Str("object") then Filled(item, EmptyObject())
    else FreshArray(item)
  }

  /** addDefaultsToObject */
  method AddDefaultsToObject(schema: Json, obj: Json) returns (r: Result<Json>)
    ensures r == Filled(schema, obj)
    decreases schema, 2
  {
    var props := Get(schema, "properties");
    if props.Fail? {
      return Fail(props.exception);
    }
    if !Truthy(props.value) {
      return Ok(obj);
    }
    var p := props.value;
    var keys := ForInKeys(p);
    var current := obj;
    for i := 0 to |keys|
      invariant FilledKeys(schema, p, keys[i..], current) == FilledKeys(schema, p, keys, obj)
    {
      assert keys[i..][1..] == keys[i + 1..];
      var key := keys[i];
      var present := Get(current, key);
      if present.Fail? {
        return Fail(present.exception);
      }
      if Missing(present.value) {
        var v := ValueForMissing(schema, p, key);
        if v.Fail? {
          return Fail(v.exception);
        }
        var next := Put(current, key, v.value);
        if next.Fail? {
          return Fail(next.exception);
        }
        current := next.value;
      }
    }
    assert keys[|keys|..] == [];
    return Ok(current);
  }

  /** The branches of the loop body that compute `obj[key]` for a missing key. */
  method ValueForMissing(schema: Json, props: Json, key: string) returns (r: Result<Json>)
    requires props == Prop(schema, "properties")
    ensures r == MissingValue(schema, props, key)
    decreases schema, 1
  {
    var value := Prop(props, key);
    var t := Get(value, "type");
    if t.Fail? {
      return Fail(t.exception);
    }
    if t.value == Str("object") {
      r := AddDefaultsToObject(value, EmptyObject());
    } else if t.value == Str("array") {
      var d := Prop(value, "default");
      if Truthy(d) {
        r := Ok(d);
      } else {
        r := NewFilledArray(value);
      }
    } else {
      r := Ok(Prop(value, "default"));
    }
  }

  /** `x = []` followed by addDefaultsToArray from `items`, else from `prefixItems`. */
  method NewFilledArray(value: Json) returns (r: Result<Json>)
    ensures r == FreshArray(value)
    decreases value, 0
  {
    var items := Prop(value, "items");
    var prefixItems := Prop(value, "prefixItems");
    var source: Json;
    if items.Arr? {
      source := items;
    } else if prefixItems.Arr? {
      source := prefixItems;
    } else {
      return Ok(Arr([]));
    }
    var filled := AddDefaultsToArray(source, []);
    if filled.Fail? {
      return Fail(filled.exception);
    }
    return Ok(Arr(filled.value));
  }

  /** addDefaultsToArray: `resultantArr[i]` for `i` from 0 to `arr.length - 1`. */
  method AddDefaultsToArray(arr: Json, resultantArr: seq<Json>) returns (r: Result<seq<Json>>)
    requires arr.Arr?
    ensures r == FilledItems(arr, 0, resultantArr)
    decreases arr, 3
  {
    var result := resultantArr;
    for i := 0 to |arr.items|
      invariant i <= |result|
      invariant FilledItems(arr, i, result) == FilledItems(arr, 0, resultantArr)
    {
      var item := arr.items[i];
      var t := Get(item, "type");
      if t.Fail? {
        return Fail(t.exception);
      }
      var v: Result<Json>;
      if t.value != Str("object") && t.value != Str("array") {
        v := Ok(Prop(item, "default"));
      } else if t.value == Str("object") {
        v := AddDefaultsToObject(item, EmptyObject());
      } else {
        v := NewFilledArray(item);
      }
      assert v == ItemValue(item);
      if v.Fail? {
        return Fail(v.exception);
      }
      result := SetIndex(result, i, v.value);
    }
    return Ok(result);
  }

  /** What addDefaultValuesToDocument hands back: the document itself or the sentinel string. */
  datatype Outcome = Document(document: JsonRef) | Message(text: string)

  /**
   * addDefaultValuesToDocument. `accepted` says whether the foreign registration
   * and validation went through (parseAndValidateSchema returns the schema) or
   * threw (it returns the sentinel).
   */
  method AddDefaultValuesToDocument(schema: Json, document: JsonRef, accepted: bool) returns (r: Outcome)
    modifies document
    ensures var parsed := if accepted then schema else Str(INVALID_SCHEMA);
            && (parsed == Str(INVALID_SCHEMA) ==> r == Message(INVALID_SCHEMA) && document.value == old(document.value))
            && (parsed != Str(INVALID_SCHEMA) && Filled(parsed, old(document.value)).Fail? ==> r == Message(INVALID_SCHEMA))
            && (parsed != Str(INVALID_SCHEMA) && Filled(parsed, old(document.value)).Ok? ==>
                  r == Document(document) && document.value == Filled(parsed, old(document.value)).value)
  {
    var parsed := if accepted then schema else Str(INVALID_SCHEMA);
    if parsed == Str(INVALID_SCHEMA) {
      return Message(INVALID_SCHEMA);
    }
    var filled := AddDefaultsToObject(parsed, document.value);
    if filled.Fail? {
      return Message(INVALID_SCHEMA);
    }
    document.value := filled.value;
    return Document(document);
  }

  // ---------------------------------------------------------------------------
  // hasProperty

  /** Keys whose value is a member of the container (so a strictly smaller value). */
  predicate ChildKey(v: Json, k: string) {
    match v
    case Obj(_, fields) => k in fields
    case Arr(items) => IndexOf(k, |items|) >= 0
    case _ => false
  }

  /** hasProperty: an own key of `obj`, or found by the `for...in` search of its members. */
  function HasProperty(obj: Json, target: string): bool
    decreases obj, 1
  {
    Truthy(obj) && TypeOf(obj) == "object" &&
    (Present(obj, target) || SomeMemberHas(obj, ForInKeys(obj), target))
  }

  /** The `for (key in obj)` loop of hasProperty, from `keys` on. */
  function SomeMemberHas(obj: Json, keys: seq<string>, target: string): bool
    decreases obj, 0, |keys|
  {
    keys != [] &&
    ((ChildKey(obj, keys[0]) && HasProperty(Prop(obj, keys[0]), target)) || SomeMemberHas(obj, keys[1..], target))
  }

  /** Reference definition: `target` is a key of `v` or of a value nested in it at any depth. */
  ghost predicate Occurs(v: Json, target: string)
    decreases v
  {
    IsContainer(v) && (Present(v, target) || exists k :: ChildKey(v, k) && Occurs(Prop(v, k), target))
  }

  lemma {:induction false} SomeMemberHasIff(obj: Json, keys: seq<string>, target: string)
    ensures SomeMemberHas(obj, keys, target) <==> exists k :: k in keys && ChildKey(obj, k) && HasProperty(Prop(obj, k), target)
    decreases |keys|
  {
    if keys != [] {
      SomeMemberHasIff(obj, keys[1..], target);
      if SomeMemberHas(obj, keys[1..], target) {
        var k :| k in keys[1..] && ChildKey(obj, k) && HasProperty(Prop(obj, k), target);
        assert k in keys;
      }
      if exists k :: k in keys && ChildKey(obj, k) && HasProperty(Prop(obj, k), target) {
        var k :| k in keys && ChildKey(obj, k) && HasProperty(Prop(obj, k), target);
        if k != keys[0] {
          assert k in keys[1..];
        }
      }
    }
  }

  /** hasProperty answers exactly whether the key occurs at some depth; it is false for null and scalars. */
  lemma {:induction false} HasPropertyIffOccurs(obj: Json, target: string)
    requires Proper(obj)
    ensures HasProperty(obj, target) <==> Occurs(obj, target)
    ensures !IsContainer(obj) ==> !HasProperty(obj, target)
    decreases obj
  {
    if IsContainer(obj) {
      SomeMemberHasIff(obj, ForInKeys(obj), target);
      forall k | ChildKey(obj, k) ensures HasProperty(Prop(obj, k), target) <==> Occurs(Prop(obj, k), target) {
        PropProper(obj, k);
        HasPropertyIffOccurs(Prop(obj, k), target);
      }
      forall k | ChildKey(obj, k) ensures k in ForInKeys(obj) {
        if obj.Arr? {
          var i := IndexOf(k, |obj.items|);
          assert ForInKeys(obj)[i] == k;
        }
      }
    }
  }

  // ---------------------------------------------------------------------------
  // Properties of the filler

  /** Where a visited declared key ends up: replaced by its missing value if undefined or null, else left alone. */
  predicate KeyOutcome(schema: Json, props: Json, key: string, obj: Json, r: Json)
    requires props == Prop(schema, "properties")
  {
    if Missing(Prop(obj, key)) then
      MissingValue(schema, props, key) == Ok(Prop(r, key)) && Present(r, key)
    else
      Prop(r, key) == Prop(obj, key) && (Present(r, key) <==> Present(obj, key))
  }

  ghost predicate KeyOutcomes(schema: Json, props: Json, keys: seq<string>, obj: Json, r: Json)
    requires props == Prop(schema, "properties")
  {
    forall k :: k in keys ==> KeyOutcome(schema, props, k, obj, r)
  }

  /** The loop over declared keys, on an object: each visited key has its KeyOutcome, the rest is untouched. */
  lemma {:induction false} FilledKeysFacts(schema: Json, props: Json, keys: seq<string>, obj: Json)
    requires props == Prop(schema, "properties")
    requires obj.Obj? && Distinct(keys)
    requires FilledKeys(schema, props, keys, obj).Ok?
    ensures var r := FilledKeys(schema, props, keys, obj).value;
            && r.Obj?
            && Untouched(obj, r, keys)
            && KeyOutcomes(schema, props, keys, obj, r)
    decreases |keys|
  {
    if keys != [] {
      var key := keys[0];
      var rest := keys[1..];
      DistinctTail(keys);
      var next := if Missing(Prop(obj, key)) then Put(obj, key, MissingValue(schema, props, key).value).value else obj;
      assert FilledKeys(schema, props, keys, obj) == FilledKeys(schema, props, rest, next);
      FilledKeysFacts(schema, props, rest, next);
      var r := FilledKeys(schema, props, rest, next).value;
      forall k | k in keys ensures KeyOutcome(schema, props, k, obj, r) {
        if k != key {
          assert k in rest;
          assert KeyOutcome(schema, props, k, next, r);
        }
      }
    }
  }

  /**
   * On an object document: undeclared keys are untouched; a declared key that is
   * undefined or null gets its missing value; any other declared value (false, 0,
   * "" included) is neither overwritten nor descended into.
   */
  lemma FillObjectFacts(schema: Json, obj: Json)
    requires obj.Obj? && Truthy(Prop(schema, "properties")) && Proper(Prop(schema, "properties"))
    requires Filled(schema, obj).Ok?
    ensures var r := Filled(schema, obj).value;
            var props := Prop(schema, "properties");
            && r.Obj?
            && (forall k :: !Present(props, k) ==> Prop(r, k) == Prop(obj, k) && (Present(r, k) <==> Present(obj, k)))
            && (forall k :: k in ForInKeys(props) && Missing(Prop(obj, k)) ==>
                  MissingValue(schema, props, k) == Ok(Prop(r, k)) && Present(r, k))
            && (forall k :: k in ForInKeys(props) && !Missing(Prop(obj, k)) ==> Prop(r, k) == Prop(obj, k))
  {
    var props := Prop(schema, "properties");
    ForInKeysDistinct(props);
    FilledKeysFacts(schema, props, ForInKeys(props), obj);
    var r := Filled(schema, obj).value;
    forall k | !Present(props, k) ensures Prop(r, k) == Prop(obj, k) && (Present(r, k) <==> Present(obj, k)) {
      if k in ForInKeys(props) {
        ForInKeysPresent(props, k);
      }
    }
    forall k | k in ForInKeys(props) ensures KeyOutcome(schema, props, k, obj, r) {
    }
  }

  /** A fresh object filled from a schema gets exactly its declared keys (type "object" ignores `default`). */
  lemma FreshObjectKeys(schema: Json)
    requires Truthy(Prop(schema, "properties")) && Proper(Prop(schema, "properties"))
    requires Filled(schema, EmptyObject()).Ok?
    ensures var r := Filled(schema, EmptyObject()).value;
            r.Obj? && forall k :: Present(r, k) <==> k in ForInKeys(Prop(schema, "properties"))
  {
    var props := Prop(schema, "properties");
    ForInKeysDistinct(props);
    FilledKeysFacts(schema, props, ForInKeys(props), EmptyObject());
    var r := Filled(schema, EmptyObject()).value;
    forall k ensures Present(r, k) <==> k in ForInKeys(props) {
      if k in ForInKeys(props) {
        assert KeyOutcome(schema, props, k, EmptyObject(), r);
      }
    }
  }

  /** A missing `type: "array"` key takes a truthy default as is, else a fresh array of one slot per item schema. */
  lemma MissingArrayValue(schema: Json, props: Json, key: string)
    requires props == Prop(schema, "properties")
    requires Prop(Prop(props, key), "type") == Str("array")
    requires MissingValue(schema, props, key).Ok?
    ensures var value := Prop(props, key);
            var r := MissingValue(schema, props, key).value;
            var items := Prop(value, "items");
            var prefixItems := Prop(value, "prefixItems");
            && (Truthy(Prop(value, "default")) ==> r == Prop(value, "default"))
            && (!Truthy(Prop(value, "default")) ==>
                  && r.Arr?
                  && (items.Arr? ==> FilledFrom(items, r))
                  && (!items.Arr? && prefixItems.Arr? ==> FilledFrom(prefixItems, r))
                  && (!items.Arr? && !prefixItems.Arr? ==> r.items == []))
  {
    var value := Prop(props, key);
    if !Truthy(Prop(value, "default")) {
      var items := Prop(value, "items");
      var prefixItems := Prop(value, "prefixItems");
      if items.Arr? {
        FilledItemsFacts(items, 0, []);
      } else if prefixItems.Arr? {
        FilledItemsFacts(prefixItems, 0, []);
      }
    }
  }

  /** `r` holds one slot per item schema of `arr`, each filled by that schema's type. */
  predicate FilledFrom(arr: Json, r: Json)
    requires arr.Arr? && r.Arr?
  {
    |r.items| == |arr.items| && forall i :: 0 <= i < |arr.items| ==> ItemValue(arr.items[i]) == Ok(r.items[i])
  }

  /** Any other missing declared key is set to its `default`, possibly undefined. */
  lemma MissingOtherValue(schema: Json, props: Json, key: string)
    requires props == Prop(schema, "properties")
    requires !Prop(props, key).Undefined? && !Prop(props, key).Null?
    requires Prop(Prop(props, key), "type") != Str("array") && Prop(Prop(props, key), "type") != Str("object")
    ensures MissingValue(schema, props, key) == Ok(Prop(Prop(props, key), "default"))
  {
  }

  /**
   * addDefaultsToArray writes exactly slots 0 to `arr.length - 1`, slot `j` by the
   * type of `arr[j]`; slots beyond are kept, so a fresh target ends with `arr.length` slots.
   */
  lemma {:induction false} FilledItemsFacts(arr: Json, i: nat, target: seq<Json>)
    requires arr.Arr? && i <= |arr.items| && i <= |target|
    requires FilledItems(arr, i, target).Ok?
    ensures var r := FilledItems(arr, i, target).value;
            && |r| == (if |target| < |arr.items| then |arr.items| else |target|)
            && (forall j :: i <= j < |arr.items| ==> ItemValue(arr.items[j]) == Ok(r[j]))
            && (forall j :: 0 <= j < |target| && !(i <= j < |arr.items|) ==> r[j] == target[j])
    decreases |arr.items| - i
  {
    if i < |arr.items| {
      var v := ItemValue(arr.items[i]).value;
      FilledItemsFacts(arr, i + 1, SetIndex(target, i, v));
    }
  }

  /** Filling a second time changes nothing: missing keys were given a deterministic value, the rest never moves. */
  lemma FillObjectIdempotent(schema: Json, obj: Json)
    requires obj.Obj? && Truthy(Prop(schema, "properties")) && Proper(Prop(schema, "properties"))
    requires Filled(schema, obj).Ok?
    ensures Filled(schema, Filled(schema, obj).value) == Filled(schema, obj)
  {
    var props := Prop(schema, "properties");
    var keys := ForInKeys(props);
    ForInKeysDistinct(props);
    FilledKeysFacts(schema, props, keys, obj);
    var r := Filled(schema, obj).value;
    forall k | k in keys ensures FillStep(schema, props, k, r) == Ok(r) {
      assert KeyOutcome(schema, props, k, obj, r);
      if Missing(Prop(r, k)) {
        assert Missing(Prop(obj, k));
        PutSameKey(r, k);
      }
    }
    StableKeys(schema, props, keys, r);
  }

  /** One iteration of the loop on its own. */
  function FillStep(schema: Json, props: Json, key: string, obj: Json): Result<Json>
    requires props == Prop(schema, "properties")
  {
    var current :- Get(obj, key);
    if Missing(current) then
      var v :- MissingValue(schema, props, key);
      Put(obj, key, v)
    else Ok(obj)
  }

  lemma PutSameKey(v: Json, k: string)
    requires v.Obj? && Present(v, k)
    ensures Put(v, k, Prop(v, k)) == Ok(v)
  {
    assert v.fields[k := v.fields[k]] == v.fields;
  }

  lemma {:induction false} StableKeys(schema: Json, props: Json, keys: seq<string>, r: Json)
    requires props == Prop(schema, "properties")
    requires forall k :: k in keys ==> FillStep(schema, props, k, r) == Ok(r)
    ensures FilledKeys(schema, props, keys, r) == Ok(r)
    decreases |keys|
  {
    if keys != [] {
      assert FillStep(schema, props, keys[0], r) == Ok(r);
      StableKeys(schema, props, keys[1..], r);
    }
  }
}
