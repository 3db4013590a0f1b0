/**
 * The default filler of utilities/addDefaultValues.js. `addDefaults` walks the
 * declared properties of an object schema: an undefined key with a declared
 * default takes it; otherwise, under an object sub-schema, an undefined key is
 * set to `{}` and the walk descends into the key's value. With a truthy
 * `required`, the properties that are not required are first deleted from the
 * `properties` object, which the shallow copy `{ ...schema }` shares with the
 * caller's schema.
 */
module RequiredFiller {
  import opened JsonValue

  /** What `addDefaults(schema, doc)` leaves in `doc`. */
  function Walk(schema: Json, doc: Json): Result<Json>
    decreases schema, 2, 0
  {
    if !IsObjectNotArray(schema) then Ok(doc)
    else
      var props :- Get(schema, "properties");
      WalkKeys(schema, props, ForInKeys(props), doc)
  }

  /** The `for (const key in schema.properties)` loop, from `keys` on. */
  function WalkKeys(schema: Json, props: Json, keys: seq<string>, doc: Json): Result<Json>
    requires props == Prop(schema, "properties")
    decreases schema, 1, |keys|
  {
    if keys == [] then Ok(doc)
    else
      var next :- WalkKey(schema, props, keys[0], doc);
      WalkKeys(schema, props, keys[1..], next)
  }

  /**
   * `doc[key] === undefined && value.default !== undefined`, given `doc[key]`:
   * the default is read only when the key is undefined, and reading it throws
   * when the sub-schema is undefined or null.
   */
  function TakesDefault(value: Json, current: Json): (r: Result<bool>)
    ensures r.Fail? <==> current.Undefined? && (value.Undefined? || value.Null?)
    ensures r.Ok? ==> (r.value <==> current.Undefined? && !Prop(value, "default").Undefined?)
  {
    if !current.Undefined? then Ok(false)
    else
      var d :- Get(value, "default");
      Ok(!d.Undefined?)
  }

  /** The child walk changed `doc[key]` in place: only a container can have been changed. */
  function WriteBack(doc: Json, key: string, child: Json): Result<Json> {
    if IsContainer(child) then Put(doc, key, child) else Ok(doc)
  }

  /** One iteration of the loop body for `key`. */
  function WalkKey(schema: Json, props: Json, key: string, doc: Json): Result<Json>
    requires props == Prop(schema, "properties")
    decreases schema, 0, 0
  {
    var current :- Get(doc, key);
    var value := Prop(props, key);
    var takes :- TakesDefault(value, current);
    if takes then Put(doc, key, Prop(value, "default"))
    else if IsObjectNotArray(value) then
      var start :- if current.Undefined? then Put(doc, key, EmptyObject()) else Ok(doc);
      var child :- Walk(value, Prop(start, key));
      WriteBack(start, key, child)
    else Ok(doc)
  }

  /**
   * A declared index name at or past the end of an array document, with a
   * default, extends the array: the default lands at that index and the slots
   * in between read `undefined`.
   */
  lemma DefaultExtendsArray(schema: Json, props: Json, key: string, doc: Json)
    requires props == Prop(schema, "properties")
    requires Extends(doc, key) && !Prop(Prop(props, key), "default").Undefined?
    ensures var r := WalkKey(schema, props, key, doc);
            var d := Prop(Prop(props, key), "default");
            && r.Ok? && r.value.Arr? && |r.value.items| == ArrayIndex(key) + 1
            && r.value.items[..|doc.items|] == doc.items
            && Prop(r.value, key) == d
  {
    PastEndUndefined(doc, key);
    PutExtends(doc, key, Prop(Prop(props, key), "default"));
  }

  /** `addDefaults`: the walk that mutates `doc`. */
  method AddDefaults(schema: Json, doc: Json) returns (r: Result<Json>)
    ensures r == Walk(schema, doc)
    decreases schema, 1
  {
    if !IsObjectNotArray(schema) {
      return Ok(doc);
    }
    var props := Get(schema, "properties");
    if props.Fail? {
      return Fail(props.exception);
    }
    var p := props.value;
    var keys := ForInKeys(p);
    var cur := doc;
    for i := 0 to |keys|
      invariant WalkKeys(schema, p, keys[i..], cur) == WalkKeys(schema, p, keys, doc)
    {
      assert keys[i..][1..] == keys[i + 1..];
      var next := AddDefaultForKey(schema, p, keys[i], cur);
      if next.Fail? {
        return Fail(next.exception);
      }
      cur := next.value;
    }
    assert keys[|keys|..] == [];
    r := Ok(cur);
  }

  /** The loop body of `addDefaults` for one declared key. */
  method AddDefaultForKey(schema: Json, props: Json, key: string, doc: Json) returns (r: Result<Json>)
    requires props == Prop(schema, "properties")
    ensures r == WalkKey(schema, props, key, doc)
    decreases schema, 0
  {
    var current := Get(doc, key);
    if current.Fail? {
      return Fail(current.exception);
    }
    var value := Prop(props, key);
    var takes := false;
    if current.value.Undefined? {
      var d := Get(value, "default");
      if d.Fail? {
        return Fail(d.exception);
      }
      takes := !d.value.Undefined?;
    }
    if takes {
      return Put(doc, key, Prop(value, "default"));
    }
    if !IsObjectNotArray(value) {
      return Ok(doc);
    }
    var start := doc;
    if current.value.Undefined? {
      var made := Put(doc, key, EmptyObject());
      if made.Fail? {
        return Fail(made.exception);
      }
      start := made.value;
    }
    var child := AddDefaults(value, Prop(start, key));
    if child.Fail? {
      return Fail(child.exception);
    }
    if IsContainer(child.value) {
      r := Put(start, key, child.value);
    } else {
      r := Ok(start);
    }
  }

  // ---------------------------------------------------------------------------
  // The `required` branch

  /** `required.includes(key)`: membership on an array, a substring test on a string, otherwise not a function. */
  function Includes(required: Json, key: string): (r: Result<bool>)
    ensures r.Ok? <==> required.Arr? || required.Str?
    ensures r.Fail? ==> r.exception == TypeError
    ensures required.Arr? ==> r == Ok(Str(key) in required.items)
    ensures required.Str? ==> r == Ok(IsSubstring(key, required.s))
  {
    match required
    case Arr(items) => Ok(Str(key) in items)
    case Str(s) => Ok(IsSubstring(key, s))
    case _ => Fail(TypeError)
  }

  /** `hay.includes(needle)` on strings: `needle` starts `hay` or one of its suffixes. */
  predicate IsSubstring(needle: string, hay: string)
    decreases |hay|
  {
    needle <= hay || (hay != [] && IsSubstring(needle, hay[1..]))
  }

  /** The search finds `needle` exactly when it occurs at some position of `hay`. */
  lemma {:induction false} IsSubstringIff(needle: string, hay: string)
    ensures IsSubstring(needle, hay) <==> exists i :: 0 <= i <= |hay| && needle <= hay[i..]
    decreases |hay|
  {
    if hay != [] {
      IsSubstringIff(needle, hay[1..]);
      if exists i :: 0 <= i <= |hay[1..]| && needle <= hay[1..][i..] {
        var i :| 0 <= i <= |hay[1..]| && needle <= hay[1..][i..];
        assert hay[1..][i..] == hay[i + 1..];
      }
      if exists i :: 0 <= i <= |hay| && needle <= hay[i..] {
        var i :| 0 <= i <= |hay| && needle <= hay[i..];
        if i > 0 {
          assert hay[1..][i - 1..] == hay[i..];
        }
      }
    } else {
      assert forall i :: 0 <= i <= |hay| ==> hay[i..] == [];
    }
  }

  /** The deletion loop over `schema.properties`, from `keys` on. */
  function DropOptional(props: Json, keys: seq<string>, required: Json): Result<Json>
    decreases |keys|
  {
    if keys == [] then Ok(props)
    else
      var keep :- Includes(required, keys[0]);
      DropOptional(if keep then props else Delete(props, keys[0]), keys[1..], required)
  }

  /**
   * The schema `addDefaults` runs on, which is also what the caller's schema
   * becomes: with a truthy `required`, its `properties` object pruned to the
   * required keys.
   */
  function RequiredSchema(schema: Json): Result<Json> {
    var required :- Get(schema, "required");
    if !Truthy(required) then Ok(schema)
    else
      var props := Prop(schema, "properties");
      var pruned :- DropOptional(props, ForInKeys(props), required);
      if IsContainer(props) then Put(schema, "properties", pruned) else Ok(schema)
  }

  /** The deletion loop of the `required` branch. */
  method DropOptionalProperties(props: Json, required: Json) returns (r: Result<Json>)
    ensures r == DropOptional(props, ForInKeys(props), required)
  {
    var keys := ForInKeys(props);
    var cur := props;
    for i := 0 to |keys|
      invariant DropOptional(cur, keys[i..], required) == DropOptional(props, keys, required)
    {
      assert keys[i..][1..] == keys[i + 1..];
      var keep := Includes(required, keys[i]);
      if keep.Fail? {
        return Fail(keep.exception);
      }
      if !keep.value {
        cur := Delete(cur, keys[i]);
      }
    }
    assert keys[|keys|..] == [];
    r := Ok(cur);
  }

  /**
   * addDefaultValues. The validation only warns and is left out. The caller's
   * schema loses its optional properties once the deletion loop is through;
   * the document is filled in place and handed back.
   */
  method AddDefaultValues(schema: JsonRef, document: JsonRef) returns (r: Result<JsonRef>)
    requires schema != document
    modifies schema, document
    ensures var s := RequiredSchema(old(schema.value));
            && (s.Ok? ==> schema.value == s.value)
            && (r.Ok? <==> s.Ok? && Walk(s.value, old(document.value)).Ok?)
            && (r.Ok? ==> r.value == document && document.value == Walk(s.value, old(document.value)).value)
            && (s.Fail? ==> r == Fail(s.exception))
            && (s.Ok? && r.Fail? ==> r.exception == Walk(s.value, old(document.value)).exception)
  {
    var s := schema.value;
    var required := Get(s, "required");
    if required.Fail? {
      return Fail(required.exception);
    }
    if Truthy(required.value) {
      var props := Prop(s, "properties");
      var pruned := DropOptionalProperties(props, required.value);
      if pruned.Fail? {
        return Fail(pruned.exception);
      }
      if IsContainer(props) {
        var modified := Put(s, "properties", pruned.value);
        s := modified.value;
      }
      schema.value := s;
    }
    var filled := AddDefaults(s, document.value);
    if filled.Fail? {
      return Fail(filled.exception);
    }
    document.value := filled.value;
    return Ok(document);
  }

  // ---------------------------------------------------------------------------
  // Properties of the walk

  /** A walk over a primitive document either throws or changes nothing. */
  lemma {:induction false} WalkKeysScalar(schema: Json, props: Json, keys: seq<string>, doc: Json)
    requires props == Prop(schema, "properties")
    requires !IsContainer(doc) && WalkKeys(schema, props, keys, doc).Ok?
    ensures WalkKeys(schema, props, keys, doc) == Ok(doc)
    decreases |keys|
  {
    if keys != [] {
      assert WalkKey(schema, props, keys[0], doc) == Ok(doc);
      WalkKeysScalar(schema, props, keys[1..], doc);
    }
  }

  lemma WalkScalar(schema: Json, doc: Json)
    requires !IsContainer(doc) && Walk(schema, doc).Ok?
    ensures Walk(schema, doc) == Ok(doc)
  {
    if IsObjectNotArray(schema) {
      var props := Get(schema, "properties").value;
      WalkKeysScalar(schema, props, ForInKeys(props), doc);
    }
  }

  /** The walk keeps the kind of the document: an object stays an object, an array never shrinks (a write past its end grows it). */
  lemma {:induction false} WalkKeysShape(schema: Json, props: Json, keys: seq<string>, doc: Json)
    requires props == Prop(schema, "properties")
    requires WalkKeys(schema, props, keys, doc).Ok?
    ensures Grows(doc, WalkKeys(schema, props, keys, doc).value)
    decreases |keys|
  {
    if keys != [] {
      var next := WalkKey(schema, props, keys[0], doc).value;
      WalkKeyShape(schema, props, keys[0], doc);
      WalkKeysShape(schema, props, keys[1..], next);
      GrowsTransitive(doc, next, WalkKeys(schema, props, keys, doc).value);
    }
  }

  lemma WalkKeyShape(schema: Json, props: Json, key: string, doc: Json)
    requires props == Prop(schema, "properties")
    requires WalkKey(schema, props, key, doc).Ok?
    ensures Grows(doc, WalkKey(schema, props, key, doc).value)
  {
    var current := Prop(doc, key);
    var value := Prop(props, key);
    if !TakesDefault(value, current).value && IsObjectNotArray(value) {
      var start := if current.Undefined? then Put(doc, key, EmptyObject()).value else doc;
      var child := Walk(value, Prop(start, key)).value;
      if IsContainer(child) {
        GrowsTransitive(doc, start, Put(start, key, child).value);
      }
    }
  }

  lemma WalkShape(schema: Json, doc: Json)
    requires Walk(schema, doc).Ok?
    ensures Grows(doc, Walk(schema, doc).value)
  {
    if IsObjectNotArray(schema) {
      var props := Get(schema, "properties").value;
      WalkKeysShape(schema, props, ForInKeys(props), doc);
    }
  }

  /** The child walk's result is what the key holds afterwards, whether or not it was written back. */
  lemma WriteBackStores(doc: Json, key: string, value: Json)
    requires doc.Obj? && Walk(value, Prop(doc, key)).Ok?
    ensures var child := Walk(value, Prop(doc, key)).value;
            var r := WriteBack(doc, key, child);
            && r.Ok?
            && Prop(r.value, key) == child
            && (Present(r.value, key) <==> Present(doc, key) || IsContainer(child))
            && (forall j :: j != key ==> Prop(r.value, j) == Prop(doc, j) && (Present(r.value, j) <==> Present(doc, j)))
            && r.value.Obj?
  {
    var child := Walk(value, Prop(doc, key)).value;
    if !IsContainer(child) {
      WalkShape(value, Prop(doc, key));
      assert !IsContainer(Prop(doc, key));
      WalkScalar(value, Prop(doc, key));
    }
  }

  /** Where a visited declared key ends up. */
  predicate KeyOutcome(props: Json, key: string, doc: Json, r: Json) {
    var value := Prop(props, key);
    var current := Prop(doc, key);
    if current.Undefined? && !Prop(value, "default").Undefined? then
      Prop(r, key) == Prop(value, "default") && Present(r, key)
    else if IsObjectNotArray(value) then
      && Walk(value, if current.Undefined? then EmptyObject() else current) == Ok(Prop(r, key))
      && Present(r, key)
    else
      Prop(r, key) == current && (Present(r, key) <==> Present(doc, key))
  }

  ghost predicate KeyOutcomes(props: Json, keys: seq<string>, doc: Json, r: Json) {
    forall k :: k in keys ==> KeyOutcome(props, k, doc, r)
  }

  lemma WalkKeyFacts(schema: Json, props: Json, key: string, doc: Json)
    requires props == Prop(schema, "properties")
    requires doc.Obj? && WalkKey(schema, props, key, doc).Ok?
    ensures var r := WalkKey(schema, props, key, doc).value;
            && r.Obj?
            && KeyOutcome(props, key, doc, r)
            && (forall j :: j != key ==> Prop(r, j) == Prop(doc, j) && (Present(r, j) <==> Present(doc, j)))
  {
    var current := Prop(doc, key);
    var value := Prop(props, key);
    if !TakesDefault(value, current).value && IsObjectNotArray(value) {
      var start := if current.Undefined? then Put(doc, key, EmptyObject()).value else doc;
      WriteBackStores(start, key, value);
      if !current.Undefined? {
        assert key in doc.fields;
      }
    }
  }

  /** The loop on an object document: each visited key has its KeyOutcome, the rest is untouched. */
  lemma {:induction false} WalkKeysFacts(schema: Json, props: Json, keys: seq<string>, doc: Json)
    requires props == Prop(schema, "properties")
    requires doc.Obj? && Distinct(keys)
    requires WalkKeys(schema, props, keys, doc).Ok?
    ensures var r := WalkKeys(schema, props, keys, doc).value;
            && r.Obj?
            && Untouched(doc, r, keys)
            && KeyOutcomes(props, keys, doc, r)
    decreases |keys|
  {
    if keys != [] {
      var key := keys[0];
      var rest := keys[1..];
      DistinctTail(keys);
      WalkKeyFacts(schema, props, key, doc);
      var next := WalkKey(schema, props, key, doc).value;
      WalkKeysFacts(schema, props, rest, next);
      var r := WalkKeys(schema, props, rest, next).value;
      forall k | k in keys ensures KeyOutcome(props, k, doc, r) {
        if k != key {
          assert k in rest;
          assert KeyOutcome(props, k, next, r);
        }
      }
    }
  }

  /**
   * On an object document: undeclared keys are untouched; an undefined declared
   * key takes its default when there is one; under an object sub-schema the
   * key ends up holding the child walk of its value, or of `{}` when it was
   * undefined; any other declared key is left as it was.
   */
  lemma AddDefaultsFacts(schema: Json, doc: Json)
    requires doc.Obj? && schema.Obj? && Proper(Prop(schema, "properties"))
    requires Walk(schema, doc).Ok?
    ensures var r := Walk(schema, doc).value;
            var props := Prop(schema, "properties");
            && r.Obj?
            && (forall k :: k !in ForInKeys(props) ==> Prop(r, k) == Prop(doc, k) && (Present(r, k) <==> Present(doc, k)))
            && (forall k :: k in ForInKeys(props) ==> KeyOutcome(props, k, doc, r))
  {
    var props := Prop(schema, "properties");
    ForInKeysDistinct(props);
    WalkKeysFacts(schema, props, ForInKeys(props), doc);
  }

  /**
   * Every declared key whose sub-schema is an object schema is defined
   * afterwards, and a defined value that is not a container is never replaced.
   */
  lemma ObjectKeysDefined(schema: Json, doc: Json)
    requires doc.Obj? && schema.Obj? && Proper(Prop(schema, "properties"))
    requires Walk(schema, doc).Ok?
    ensures var r := Walk(schema, doc).value;
            var props := Prop(schema, "properties");
            && (forall k :: k in ForInKeys(props) && IsObjectNotArray(Prop(props, k)) ==> !Prop(r, k).Undefined?)
            && (forall k :: !Prop(doc, k).Undefined? && !IsContainer(Prop(doc, k)) ==> Prop(r, k) == Prop(doc, k))
  {
    AddDefaultsFacts(schema, doc);
    var r := Walk(schema, doc).value;
    var props := Prop(schema, "properties");
    forall k | k in ForInKeys(props) && IsObjectNotArray(Prop(props, k)) ensures !Prop(r, k).Undefined? {
      var current := Prop(doc, k);
      if !(current.Undefined? && !Prop(Prop(props, k), "default").Undefined?) {
        var start := if current.Undefined? then EmptyObject() else current;
        WalkShape(Prop(props, k), start);
      }
    }
    forall k | !Prop(doc, k).Undefined? && !IsContainer(Prop(doc, k)) ensures Prop(r, k) == Prop(doc, k) {
      if k in ForInKeys(props) {
        assert KeyOutcome(props, k, doc, r);
        if IsObjectNotArray(Prop(props, k)) {
          WalkScalar(Prop(props, k), Prop(doc, k));
        }
      }
    }
  }

  /** Every exception the walk raises is a TypeError: a read of undefined or null, or a write to a primitive. */
  lemma {:induction false} WalkThrowsTypeError(schema: Json, doc: Json)
    requires Walk(schema, doc).Fail?
    ensures Walk(schema, doc).exception == TypeError
    decreases schema, 2, 0
  {
    if IsObjectNotArray(schema) && Get(schema, "properties").Ok? {
      var props := Get(schema, "properties").value;
      WalkKeysThrowsTypeError(schema, props, ForInKeys(props), doc);
    }
  }

  lemma {:induction false} WalkKeysThrowsTypeError(schema: Json, props: Json, keys: seq<string>, doc: Json)
    requires props == Prop(schema, "properties")
    requires WalkKeys(schema, props, keys, doc).Fail?
    ensures WalkKeys(schema, props, keys, doc).exception == TypeError
    decreases schema, 1, |keys|
  {
    var step := WalkKey(schema, props, keys[0], doc);
    if step.Fail? {
      WalkKeyThrowsTypeError(schema, props, keys[0], doc);
    } else {
      WalkKeysThrowsTypeError(schema, props, keys[1..], step.value);
    }
  }

  lemma {:induction false} WalkKeyThrowsTypeError(schema: Json, props: Json, key: string, doc: Json)
    requires props == Prop(schema, "properties")
    requires WalkKey(schema, props, key, doc).Fail?
    ensures WalkKey(schema, props, key, doc).exception == TypeError
    decreases schema, 0, 0
  {
    var current := Prop(doc, key);
    var value := Prop(props, key);
    if Get(doc, key).Ok? && TakesDefault(value, current).Ok? && !TakesDefault(value, current).value && IsObjectNotArray(value) {
      var start := if current.Undefined? then Put(doc, key, EmptyObject()) else Ok(doc);
      if start.Ok? && Walk(value, Prop(start.value, key)).Fail? {
        WalkThrowsTypeError(value, Prop(start.value, key));
      }
    }
  }

  /** A key that is present but null under a sub-schema that declares properties makes the walk throw. */
  predicate NullUnderObject(props: Json, key: string, doc: Json) {
    var value := Prop(props, key);
    Prop(doc, key) == Null && value.Obj? && ForInKeys(Prop(value, "properties")) != []
  }

  lemma {:induction false} WalkKeysNullThrows(schema: Json, props: Json, keys: seq<string>, doc: Json, k: string)
    requires props == Prop(schema, "properties")
    requires doc.Obj? && k in keys && NullUnderObject(props, k, doc)
    ensures WalkKeys(schema, props, keys, doc) == Fail(TypeError)
    decreases |keys|
  {
    var key := keys[0];
    if key == k {
      var value := Prop(props, k);
      var inner := Prop(value, "properties");
      assert WalkKey(value, inner, ForInKeys(inner)[0], Null) == Fail(TypeError);
      assert Walk(value, Null) == Fail(TypeError);
      assert WalkKey(schema, props, k, doc) == Fail(TypeError);
    } else {
      var step := WalkKey(schema, props, key, doc);
      if step.Fail? {
        WalkKeyThrowsTypeError(schema, props, key, doc);
      } else {
        WalkKeyFacts(schema, props, key, doc);
        assert k in keys[1..] && NullUnderObject(props, k, step.value);
        assert WalkKeys(schema, props, keys, doc) == WalkKeys(schema, props, keys[1..], step.value);
        WalkKeysNullThrows(schema, props, keys[1..], step.value, k);
      }
    }
  }

  lemma NullUnderObjectThrows(schema: Json, doc: Json, k: string)
    requires doc.Obj? && IsObjectNotArray(schema)
    requires k in ForInKeys(Prop(schema, "properties")) && NullUnderObject(Prop(schema, "properties"), k, doc)
    ensures Walk(schema, doc) == Fail(TypeError)
  {
    var props := Prop(schema, "properties");
    WalkKeysNullThrows(schema, props, ForInKeys(props), doc, k);
  }

  // ---------------------------------------------------------------------------
  // Properties of the `required` branch

  /** The deletion loop removes exactly the visited keys that `includes` rejects. */
  lemma {:induction false} DropOptionalFacts(props: Json, keys: seq<string>, required: Json)
    requires props.Obj? && DropOptional(props, keys, required).Ok?
    ensures var r := DropOptional(props, keys, required).value;
            && r.Obj?
            && (Proper(props) ==> Proper(r))
            && (forall k :: Present(r, k) <==> Present(props, k) && (k in keys ==> Includes(required, k) == Ok(true)))
            && (forall k :: Present(r, k) ==> Prop(r, k) == Prop(props, k))
    decreases |keys|
  {
    if keys != [] {
      var keep := Includes(required, keys[0]).value;
      var next := if keep then props else Delete(props, keys[0]);
      if !keep && Proper(props) {
        DeleteKeepsProper(props, keys[0]);
      }
      DropOptionalFacts(next, keys[1..], required);
    }
  }

  /** Without a truthy `required` the whole schema is used and the caller's schema is kept. */
  lemma NoRequiredWholeSchema(schema: Json)
    requires !(schema.Undefined? || schema.Null?) && !Truthy(Prop(schema, "required"))
    ensures RequiredSchema(schema) == Ok(schema)
  {
  }

  /** With a truthy `required` that is neither an array nor a string, `includes` is not a function. */
  lemma RequiredNotListThrows(schema: Json)
    requires var required := Prop(schema, "required");
             Truthy(required) && !required.Arr? && !required.Str?
    requires ForInKeys(Prop(schema, "properties")) != []
    ensures RequiredSchema(schema) == Fail(TypeError)
  {
  }

  /**
   * With a truthy `required`, the schema keeps its other keys and its
   * `properties` keeps exactly the declared keys that `includes` accepts, each
   * with its sub-schema.
   */
  lemma RequiredPrunesProperties(schema: Json)
    requires schema.Obj? && Truthy(Prop(schema, "required"))
    requires Prop(schema, "properties").Obj? && Proper(Prop(schema, "properties"))
    requires RequiredSchema(schema).Ok?
    ensures var required := Prop(schema, "required");
            var props := Prop(schema, "properties");
            var s := RequiredSchema(schema).value;
            var p := Prop(s, "properties");
            && s.Obj? && s.keys == schema.keys
            && (forall k :: k != "properties" ==> Prop(s, k) == Prop(schema, k))
            && p.Obj?
            && (forall k :: Present(p, k) <==> Present(props, k) && Includes(required, k) == Ok(true))
            && (forall k :: Present(p, k) ==> Prop(p, k) == Prop(props, k))
            && Proper(p)
  {
    var props := Prop(schema, "properties");
    var required := Prop(schema, "required");
    DropOptionalFacts(props, ForInKeys(props), required);
    var p := DropOptional(props, ForInKeys(props), required).value;
    assert RequiredSchema(schema) == Put(schema, "properties", p);
    assert Prop(RequiredSchema(schema).value, "properties") == p;
    forall k ensures Present(p, k) <==> Present(props, k) && Includes(required, k) == Ok(true) {
      if Present(props, k) {
        assert k in ForInKeys(props);
      }
    }
  }

  /** A string `required` is searched as text: a list written as one string keeps every key that is a part of it. */
  lemma RequiredStringIsSubstringSearch()
    ensures Includes(Str("firstName"), "Name") == Ok(true)
    ensures Includes(Arr([Str("firstName")]), "Name") == Ok(false)
  {
    assert "Name" <= "firstName"[5..];
    IsSubstringIff("Name", "firstName");
    assert Str("Name") != Str("firstName");
  }

  /**
   * With a truthy `required`, declared keys that are not required keep what
   * the document had: the walk no longer sees them.
   */
  lemma OnlyRequiredFilled(schema: Json, doc: Json)
    requires schema.Obj? && Truthy(Prop(schema, "required"))
    requires Prop(schema, "properties").Obj? && Proper(Prop(schema, "properties"))
    requires RequiredSchema(schema).Ok? && doc.Obj?
    requires Walk(RequiredSchema(schema).value, doc).Ok?
    ensures var r := Walk(RequiredSchema(schema).value, doc).value;
            forall k :: Includes(Prop(schema, "required"), k) != Ok(true) ==>
              Prop(r, k) == Prop(doc, k) && (Present(r, k) <==> Present(doc, k))
  {
    RequiredPrunesProperties(schema);
    var s := RequiredSchema(schema).value;
    AddDefaultsFacts(s, doc);
  }
}
