/**
 * The older default filler of utilities/utilities.mjs. `addDefauls` walks the
 * declared properties of an object schema like the filler of
 * utilities/addDefaultValues.js, but creates no `{}` for an undefined key under
 * an object sub-schema: it descends into whatever the key holds, so a missing
 * container stays missing or makes the walk throw.
 */
module NestedFiller {
  import opened JsonValue

  /** What `addDefauls(schema, doc)` leaves in `doc`. */
  function Walk(schema: Json, doc: Json): Result<Json>
    decreases schema, 2, 0
  {
    if !IsObjectNotArray(schema) then Ok(doc)
    else
      var props :- Get(schema, "properties");
      WalkKeys(schema, props, ForInKeys(props), doc)
  }

  /** The `for (const key in schema.properties)` loop, from `keys` on. */
  function WalkKeys(schema: Json, props: Json, keys: seq<string>, doc: Json): Result<Json>
    requires props == Prop(schema, "properties")
    decreases schema, 1, |keys|
  {
    if keys == [] then Ok(doc)
    else
      var next :- WalkKey(schema, props, keys[0], doc);
      WalkKeys(schema, props, keys[1..], next)
  }

  /** One iteration of the loop body for `key`. */
  function WalkKey(schema: Json, props: Json, key: string, doc: Json): Result<Json>
    requires props == Prop(schema, "properties")
    decreases schema, 0, 0
  {
    var current :- Get(doc, key);
    var value := Prop(props, key);
    var takes :- if current.Undefined? then (var d :- Get(value, "default"); Ok(!d.Undefined?)) else Ok(false);
    if takes then Put(doc, key, Prop(value, "default"))
    else if IsObjectNotArray(value) then
      var child :- Walk(value, current);
      if IsContainer(child) then Put(doc, key, child) else Ok(doc)
    else Ok(doc)
  }

  /**
   * A declared index name at or past the end of an array document, with a
   * default, extends the array: the default lands at that index and the slots
   * in between read `undefined`.
   */
  lemma DefaultExtendsArray(schema: Json, props: Json, key: string, doc: Json)
    requires props == Prop(schema, "properties")
    requires Extends(doc, key) && !Prop(Prop(props, key), "default").Undefined?
    ensures var r := WalkKey(schema, props, key, doc);
            var d := Prop(Prop(props, key), "default");
            && r.Ok? && r.value.Arr? && |r.value.items| == ArrayIndex(key) + 1
            && r.value.items[..|doc.items|] == doc.items
            && Prop(r.value, key) == d
  {
    PastEndUndefined(doc, key);
    PutExtends(doc, key, Prop(Prop(props, key), "default"));
  }

  /** `addDefauls`: the walk that mutates `doc`. */
  method AddDefaults(schema: Json, doc: Json) returns (r: Result<Json>)
    ensures r == Walk(schema, doc)
    decreases schema, 1
  {
    if !IsObjectNotArray(schema) {
      return Ok(doc);
    }
    var props := Get(schema, "properties");
    if props.Fail? {
      return Fail(props.exception);
    }
    var p := props.value;
    var keys := ForInKeys(p);
    var cur := doc;
    for i := 0 to |keys|
      invariant WalkKeys(schema, p, keys[i..], cur) == WalkKeys(schema, p, keys, doc)
    {
      assert keys[i..][1..] == keys[i + 1..];
      var next := AddDefaultForKey(schema, p, keys[i], cur);
      if next.Fail? {
        return Fail(next.exception);
      }
      cur := next.value;
    }
    assert keys[|keys|..] == [];
    r := Ok(cur);
  }

  /** The loop body of `addDefauls` for one declared key. */
  method AddDefaultForKey(schema: Json, props: Json, key: string, doc: Json) returns (r: Result<Json>)
    requires props == Prop(schema, "properties")
    ensures r == WalkKey(schema, props, key, doc)
    decreases schema, 0
  {
    var current := Get(doc, key);
    if current.Fail? {
      return Fail(current.exception);
    }
    var value := Prop(props, key);
    if current.value.Undefined? {
      var d := Get(value, "default");
      if d.Fail? {
        return Fail(d.exception);
      }
      if !d.value.Undefined? {
        return Put(doc, key, d.value);
      }
    }
    if !IsObjectNotArray(value) {
      return Ok(doc);
    }
    var child := AddDefaults(value, current.value);
    if child.Fail? {
      return Fail(child.exception);
    }
    if IsContainer(child.value) {
      r := Put(doc, key, child.value);
    } else {
      r := Ok(doc);
    }
  }

  /** addDefaultValues: validation and logging aside, the document is filled in place and handed back. */
  method AddDefaultValues(schema: Json, document: JsonRef) returns (r: Result<JsonRef>)
    modifies document
    ensures r.Ok? <==> Walk(schema, old(document.value)).Ok?
    ensures r.Ok? ==> r.value == document && document.value == Walk(schema, old(document.value)).value
    ensures r.Fail? ==> r.exception == Walk(schema, old(document.value)).exception
  {
    var filled := AddDefaults(schema, document.value);
    if filled.Fail? {
      return Fail(filled.exception);
    }
    document.value := filled.value;
    return Ok(document);
  }

  // ---------------------------------------------------------------------------
  // Properties of the walk

  /** A walk over a primitive document either throws or changes nothing. */
  lemma {:induction false} WalkKeysScalar(schema: Json, props: Json, keys: seq<string>, doc: Json)
    requires props == Prop(schema, "properties")
    requires !IsContainer(doc) && WalkKeys(schema, props, keys, doc).Ok?
    ensures WalkKeys(schema, props, keys, doc) == Ok(doc)
    decreases |keys|
  {
    if keys != [] {
      assert WalkKey(schema, props, keys[0], doc) == Ok(doc);
      WalkKeysScalar(schema, props, keys[1..], doc);
    }
  }

  lemma WalkScalar(schema: Json, doc: Json)
    requires !IsContainer(doc) && Walk(schema, doc).Ok?
    ensures Walk(schema, doc) == Ok(doc)
  {
    if IsObjectNotArray(schema) {
      var props := Get(schema, "properties").value;
      WalkKeysScalar(schema, props, ForInKeys(props), doc);
    }
  }

  /** The walk keeps the kind of the document: an object stays an object, an array never shrinks (a write past its end grows it). */
  lemma {:induction false} WalkKeysShape(schema: Json, props: Json, keys: seq<string>, doc: Json)
    requires props == Prop(schema, "properties")
    requires WalkKeys(schema, props, keys, doc).Ok?
    ensures Grows(doc, WalkKeys(schema, props, keys, doc).value)
    decreases |keys|
  {
    if keys != [] {
      var next := WalkKey(schema, props, keys[0], doc).value;
      WalkKeysShape(schema, props, keys[1..], next);
      GrowsTransitive(doc, next, WalkKeys(schema, props, keys, doc).value);
    }
  }

  lemma WalkShape(schema: Json, doc: Json)
    requires Walk(schema, doc).Ok?
    ensures Grows(doc, Walk(schema, doc).value)
  {
    if IsObjectNotArray(schema) {
      var props := Get(schema, "properties").value;
      WalkKeysShape(schema, props, ForInKeys(props), doc);
    }
  }

  /** Where a visited declared key ends up; presence never changes except by taking a default. */
  predicate KeyOutcome(props: Json, key: string, doc: Json, r: Json) {
    var value := Prop(props, key);
    var current := Prop(doc, key);
    if current.Undefined? && !Prop(value, "default").Undefined? then
      Prop(r, key) == Prop(value, "default") && Present(r, key)
    else
      && (Present(r, key) <==> Present(doc, key))
      && (IsObjectNotArray(value) ==> Walk(value, current) == Ok(Prop(r, key)))
      && (!IsObjectNotArray(value) ==> Prop(r, key) == current)
  }

  ghost predicate KeyOutcomes(props: Json, keys: seq<string>, doc: Json, r: Json) {
    forall k :: k in keys ==> KeyOutcome(props, k, doc, r)
  }

  lemma WalkKeyFacts(schema: Json, props: Json, key: string, doc: Json)
    requires props == Prop(schema, "properties")
    requires doc.Obj? && WalkKey(schema, props, key, doc).Ok?
    ensures var r := WalkKey(schema, props, key, doc).value;
            && r.Obj?
            && KeyOutcome(props, key, doc, r)
            && (forall j :: j != key ==> Prop(r, j) == Prop(doc, j) && (Present(r, j) <==> Present(doc, j)))
  {
    var current := Prop(doc, key);
    var value := Prop(props, key);
    if !(current.Undefined? && !Prop(value, "default").Undefined?) && IsObjectNotArray(value) {
      var child := Walk(value, current).value;
      if IsContainer(child) {
        WalkShape(value, current);
        assert IsContainer(current);
        assert key in doc.fields;
      } else {
        WalkShape(value, current);
        WalkScalar(value, current);
      }
    }
  }

  /** The loop on an object document: each visited key has its KeyOutcome, the rest is untouched. */
  lemma {:induction false} WalkKeysFacts(schema: Json, props: Json, keys: seq<string>, doc: Json)
    requires props == Prop(schema, "properties")
    requires doc.Obj? && Distinct(keys)
    requires WalkKeys(schema, props, keys, doc).Ok?
    ensures var r := WalkKeys(schema, props, keys, doc).value;
            && r.Obj?
            && Untouched(doc, r, keys)
            && KeyOutcomes(props, keys, doc, r)
    decreases |keys|
  {
    if keys != [] {
      var key := keys[0];
      var rest := keys[1..];
      DistinctTail(keys);
      WalkKeyFacts(schema, props, key, doc);
      var next := WalkKey(schema, props, key, doc).value;
      WalkKeysFacts(schema, props, rest, next);
      var r := WalkKeys(schema, props, rest, next).value;
      forall k | k in keys ensures KeyOutcome(props, k, doc, r) {
        if k != key {
          assert k in rest;
          assert KeyOutcome(props, k, next, r);
        }
      }
    }
  }

  /**
   * On an object document: unvisited keys are untouched; an undefined declared
   * key takes its default when there is one; under an object sub-schema the
   * key holds the child walk of its value; any other declared key is left as it was.
   */
  lemma AddDefaultsFacts(schema: Json, doc: Json)
    requires doc.Obj? && schema.Obj? && Proper(Prop(schema, "properties"))
    requires Walk(schema, doc).Ok?
    ensures var r := Walk(schema, doc).value;
            var props := Prop(schema, "properties");
            && r.Obj?
            && (forall k :: k !in ForInKeys(props) ==> Prop(r, k) == Prop(doc, k) && (Present(r, k) <==> Present(doc, k)))
            && (forall k :: k in ForInKeys(props) ==> KeyOutcome(props, k, doc, r))
  {
    var props := Prop(schema, "properties");
    ForInKeysDistinct(props);
    WalkKeysFacts(schema, props, ForInKeys(props), doc);
  }

  /**
   * No container is created: a key that was undefined is afterwards undefined
   * or its declared default, and a key becomes present only by taking a default.
   */
  lemma MissingContainersStayMissing(schema: Json, doc: Json)
    requires doc.Obj? && schema.Obj? && Proper(Prop(schema, "properties"))
    requires Walk(schema, doc).Ok?
    ensures var r := Walk(schema, doc).value;
            var props := Prop(schema, "properties");
            forall k :: Prop(doc, k).Undefined? ==>
              || Prop(r, k).Undefined?
              || (k in ForInKeys(props) && Prop(r, k) == Prop(Prop(props, k), "default"))
  {
    AddDefaultsFacts(schema, doc);
    var r := Walk(schema, doc).value;
    var props := Prop(schema, "properties");
    forall k | Prop(doc, k).Undefined? && k in ForInKeys(props)
      ensures Prop(r, k).Undefined? || Prop(r, k) == Prop(Prop(props, k), "default")
    {
      assert KeyOutcome(props, k, doc, r);
      if IsObjectNotArray(Prop(props, k)) && Walk(Prop(props, k), Undefined).Ok? {
        WalkScalar(Prop(props, k), Undefined);
      }
    }
  }

  /** A schema that is neither a plain object nor null (an array, a primitive, undefined) changes nothing. */
  lemma NonObjectSchemaUnchanged(schema: Json, doc: Json)
    requires !IsObjectNotArray(schema)
    ensures Walk(schema, doc) == Ok(doc)
  {
  }

  /** A recursion into any document, `undefined` included, is a no-op when the sub-schema declares no properties. */
  lemma NoPropertiesNoOp(schema: Json, doc: Json)
    requires schema.Obj? && ForInKeys(Prop(schema, "properties")) == []
    ensures Walk(schema, doc) == Ok(doc)
  {
  }

  /** Every exception the walk raises is a TypeError: a read of undefined or null, or a write to a primitive. */
  lemma {:induction false} WalkThrowsTypeError(schema: Json, doc: Json)
    requires Walk(schema, doc).Fail?
    ensures Walk(schema, doc).exception == TypeError
    decreases schema, 2, 0
  {
    if IsObjectNotArray(schema) && Get(schema, "properties").Ok? {
      var props := Get(schema, "properties").value;
      WalkKeysThrowsTypeError(schema, props, ForInKeys(props), doc);
    }
  }

  lemma {:induction false} WalkKeysThrowsTypeError(schema: Json, props: Json, keys: seq<string>, doc: Json)
    requires props == Prop(schema, "properties")
    requires WalkKeys(schema, props, keys, doc).Fail?
    ensures WalkKeys(schema, props, keys, doc).exception == TypeError
    decreases schema, 1, |keys|
  {
    var step := WalkKey(schema, props, keys[0], doc);
    if step.Fail? {
      WalkKeyThrowsTypeError(schema, props, keys[0], doc);
    } else {
      WalkKeysThrowsTypeError(schema, props, keys[1..], step.value);
    }
  }

  lemma {:induction false} WalkKeyThrowsTypeError(schema: Json, props: Json, key: string, doc: Json)
    requires props == Prop(schema, "properties")
    requires WalkKey(schema, props, key, doc).Fail?
    ensures WalkKey(schema, props, key, doc).exception == TypeError
    decreases schema, 0, 0
  {
    var current := Prop(doc, key);
    var value := Prop(props, key);
    if Get(doc, key).Ok? && IsObjectNotArray(value) && Walk(value, current).Fail? {
      WalkThrowsTypeError(value, current);
    }
  }

  /**
   * A declared key the walk must descend into but cannot: its sub-schema
   * declares properties, and the key holds null, or is undefined with no default.
   */
  predicate Blocked(props: Json, key: string, doc: Json) {
    var value := Prop(props, key);
    var current := Prop(doc, key);
    && value.Obj? && ForInKeys(Prop(value, "properties")) != []
    && (current.Null? || (current.Undefined? && Prop(value, "default").Undefined?))
  }

  lemma {:induction false} WalkKeysBlockedThrows(schema: Json, props: Json, keys: seq<string>, doc: Json, k: string)
    requires props == Prop(schema, "properties")
    requires doc.Obj? && k in keys && Blocked(props, k, doc)
    ensures WalkKeys(schema, props, keys, doc) == Fail(TypeError)
    decreases |keys|
  {
    var key := keys[0];
    if key == k {
      var value := Prop(props, k);
      var inner := Prop(value, "properties");
      var current := Prop(doc, k);
      assert WalkKey(value, inner, ForInKeys(inner)[0], current) == Fail(TypeError);
      assert Walk(value, current) == Fail(TypeError);
      assert WalkKey(schema, props, k, doc) == Fail(TypeError);
    } else {
      var step := WalkKey(schema, props, key, doc);
      if step.Fail? {
        WalkKeyThrowsTypeError(schema, props, key, doc);
      } else {
        WalkKeyFacts(schema, props, key, doc);
        assert k in keys[1..] && Blocked(props, k, step.value);
        assert WalkKeys(schema, props, keys, doc) == WalkKeys(schema, props, keys[1..], step.value);
        WalkKeysBlockedThrows(schema, props, keys[1..], step.value, k);
      }
    }
  }

  /**
   * Where the newer filler would create `{}`, this one throws: a missing key
   * without a default under a sub-schema that declares properties.
   */
  lemma BlockedThrows(schema: Json, doc: Json, k: string)
    requires doc.Obj? && IsObjectNotArray(schema)
    requires k in ForInKeys(Prop(schema, "properties")) && Blocked(Prop(schema, "properties"), k, doc)
    ensures Walk(schema, doc) == Fail(TypeError)
  {
    var props := Prop(schema, "properties");
    WalkKeysBlockedThrows(schema, props, ForInKeys(props), doc, k);
  }
}
