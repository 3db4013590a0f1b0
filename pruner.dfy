/**
 * removeExtraProperties: delete from a document every key its schema's
 * `properties` does not declare, descending into declared object sub-schemas.
 * utilities/removeExtraProperties.js and lib/removeExtraProperties/removeExtraProperties.js
 * hold the same inner `removeExtras`; they differ only at the top level.
 */
module Pruner {
  import opened JsonValue

  /** What `removeExtras(schema, doc)` leaves in `doc` (the child walk is written back in place). */
  function Pruned(schema: Json, doc: Json): Result<Json>
    decreases schema, 1
  {
    if !IsObjectNotArray(schema) then Ok(doc)
    else
      var props :- Get(schema, "properties");
      if !Truthy(props) then Ok(doc)
      else PrunedKeys(schema, props, ForInKeys(doc), doc)
  }

  /** The `for (key in doc)` loop, from the given keys on. */
  function PrunedKeys(schema: Json, props: Json, keys: seq<string>, doc: Json): Result<Json>
    requires props == Prop(schema, "properties")
    decreases schema, 0, |keys|
  {
    if keys == [] then Ok(doc)
    else
      var next :- Step(schema, props, keys[0], doc);
      PrunedKeys(schema, props, keys[1..], next)
  }

  /** One iteration of the loop body for `key`. */
  function Step(schema: Json, props: Json, key: string, doc: Json): Result<Json>
    requires props == Prop(schema, "properties")
    decreases schema, 0, 0
  {
    var declared :- HasKey(props, key);
    if !declared then Ok(Delete(doc, key))
    else
      var sub := Prop(props, key);
      if IsObjectNotArray(sub) then
        var child :- Pruned(sub, Prop(doc, key));
        Put(doc, key, child)
      else Ok(doc)
  }

  /** Whether the pruning loop runs at all. */
  predicate Active(schema: Json) {
    IsObjectNotArray(schema) && schema.Obj? && Truthy(Prop(schema, "properties"))
  }

  /** Where `removeExtras` leaves `key`: gone if undeclared, pruned if declared with an object sub-schema. */
  predicate Outcome(props: Json, key: string, doc: Json, r: Json) {
    IsContainer(props) &&
    if !Present(props, key) then
      Prop(r, key) == Undefined && (r.Obj? ==> !Present(r, key))
    else
      var sub := Prop(props, key);
      && Present(r, key)
      && (IsObjectNotArray(sub) ==> Pruned(sub, Prop(doc, key)) == Ok(Prop(r, key)))
      && (!IsObjectNotArray(sub) ==> Prop(r, key) == Prop(doc, key))
  }

  /** `removeExtras` (both copies): the walk that mutates `doc`. */
  method RemoveExtras(schema: Json, doc: Json) returns (r: Result<Json>)
    ensures r == Pruned(schema, doc)
    decreases schema, 1
  {
    if !IsObjectNotArray(schema) {
      return Ok(doc);
    }
    var props := Get(schema, "properties");
    if props.Fail? {
      return Fail(props.exception);
    }
    if !Truthy(props.value) {
      return Ok(doc);
    }
    var p := props.value;
    var keys := ForInKeys(doc);
    var cur := doc;
    for i := 0 to |keys|
      invariant PrunedKeys(schema, p, keys[i..], cur) == PrunedKeys(schema, p, keys, doc)
    {
      assert keys[i..][1..] == keys[i + 1..];
      var next := RemoveExtraKey(schema, p, keys[i], cur);
      if next.Fail? {
        return Fail(next.exception);
      }
      cur := next.value;
    }
    assert keys[|keys|..] == [];
    r := Ok(cur);
  }

  /** One iteration of the loop of `removeExtras`: delete `key`, or prune its member in place. */
  method RemoveExtraKey(schema: Json, props: Json, key: string, doc: Json) returns (r: Result<Json>)
    requires props == Prop(schema, "properties")
    ensures r == Step(schema, props, key, doc)
    decreases schema, 0
  {
    var declared := HasKey(props, key);
    if declared.Fail? {
      return Fail(declared.exception);
    }
    if !declared.value {
      return Ok(Delete(doc, key));
    }
    var sub := Prop(props, key);
    if !IsObjectNotArray(sub) {
      return Ok(doc);
    }
    var child := RemoveExtras(sub, Prop(doc, key));
    if child.Fail? {
      return Fail(child.exception);
    }
    r := Put(doc, key, child.value);
  }

  /**
   * removeExtraProperties of utilities/removeExtraProperties.js: validation only
   * warns, the document is pruned in place and handed back.
   */
  method RemoveExtraProperties(schema: Json, document: JsonRef) returns (r: Result<JsonRef>)
    modifies document
    ensures r.Ok? <==> Pruned(schema, old(document.value)).Ok?
    ensures r.Ok? ==> r.value == document && document.value == Pruned(schema, old(document.value)).value
    ensures r.Fail? ==> r.exception == Pruned(schema, old(document.value)).exception
  {
    var pruned := RemoveExtras(schema, document.value);
    if pruned.Fail? {
      return Fail(pruned.exception);
    }
    document.value := pruned.value;
    return Ok(document);
  }

  /**
   * removeExtraProperties of lib/removeExtraProperties/removeExtraProperties.js.
   * Reading `schema.$id` throws on an undefined or null schema. `valid` is the
   * verdict of the foreign validator; on an invalid document the warning reads
   * the undeclared `ajv`, which throws before anything is pruned.
   */
  method RemoveExtraPropertiesLib(schema: Json, document: JsonRef, valid: bool) returns (r: Result<JsonRef>)
    modifies document
    ensures schema.Undefined? || schema.Null? ==> r == Fail(TypeError) && document.value == old(document.value)
    ensures !schema.Undefined? && !schema.Null? && !valid ==> r == Fail(ReferenceError) && document.value == old(document.value)
    ensures !schema.Undefined? && !schema.Null? && valid ==> (r.Ok? <==> Pruned(schema, old(document.value)).Ok?)
    ensures r.Ok? ==> r.value == document && document.value == Pruned(schema, old(document.value)).value
    ensures !schema.Undefined? && !schema.Null? && valid && r.Fail? ==> r.exception == Pruned(schema, old(document.value)).exception
  {
    var id := Get(schema, "$id");
    if id.Fail? {
      return Fail(id.exception);
    }
    if !valid {
      return Fail(ReferenceError);
    }
    r := RemoveExtraProperties(schema, document);
  }

  // ---------------------------------------------------------------------------
  // Properties of the walk

  /** A schema that is not an object with truthy `properties` leaves the document as it is. */
  lemma PruneInactive(schema: Json, doc: Json)
    requires !schema.Null?
    requires !Active(schema)
    ensures Pruned(schema, doc) == Ok(doc)
  {
  }

  /** A null schema or sub-schema is an object to `typeof`, so reading its `properties` throws. */
  lemma PruneNullSchema(doc: Json)
    ensures Pruned(Null, doc) == Fail(TypeError)
  {
  }

  /** A truthy `properties` that is not an object makes `in` throw as soon as there is a key to test. */
  lemma PrunePrimitiveProperties(schema: Json, doc: Json)
    requires schema.Obj? && Truthy(Prop(schema, "properties")) && !IsContainer(Prop(schema, "properties"))
    requires ForInKeys(doc) != []
    ensures Pruned(schema, doc) == Fail(TypeError)
  {
    var keys := ForInKeys(doc);
    assert Step(schema, Prop(schema, "properties"), keys[0], doc).Fail?;
  }

  /** Every key of `keys` has its Outcome. */
  ghost predicate Outcomes(props: Json, keys: seq<string>, doc: Json, r: Json) {
    forall k :: k in keys ==> Outcome(props, k, doc, r)
  }

  /** An Outcome depends on the documents only through the visited key. */
  lemma OutcomeTransfer(props: Json, k: string, doc: Json, doc2: Json, r: Json, r2: Json)
    requires Outcome(props, k, doc, r)
    requires Prop(doc2, k) == Prop(doc, k) && Prop(r2, k) == Prop(r, k) && (Present(r2, k) <==> Present(r, k))
    requires r2.Obj? ==> r.Obj?
    ensures Outcome(props, k, doc2, r2)
  {
  }

  /** What one iteration does to the key it visits and to all the others. */
  ghost predicate StepPost(props: Json, key: string, doc: Json, next: Json) {
    && Proper(next) && SameShape(doc, next)
    && (doc.Obj? ==> next.keys == (if Present(props, key) then doc.keys else RemoveKey(doc.keys, key)))
    && (forall k :: k != key ==> Prop(next, k) == Prop(doc, k) && (Present(next, k) <==> Present(doc, k)))
    && Outcome(props, key, doc, next)
  }

  /** What the loop over `keys` does: each visited key has its Outcome, every other key is unchanged. */
  ghost predicate LoopPost(props: Json, keys: seq<string>, doc: Json, r: Json) {
    && Proper(r) && SameShape(doc, r)
    && (doc.Obj? ==> r.keys == Filter(doc.keys, keys, props))
    && Untouched(doc, r, keys)
    && Outcomes(props, keys, doc, r)
  }

  /** The main invariant of the loop, for distinct own keys of `doc`. */
  lemma {:induction false} PrunedKeysFacts(schema: Json, props: Json, keys: seq<string>, doc: Json)
    requires props == Prop(schema, "properties")
    requires Proper(doc) && Distinct(keys) && forall k :: k in keys ==> k in ForInKeys(doc)
    requires PrunedKeys(schema, props, keys, doc).Ok?
    ensures LoopPost(props, keys, doc, PrunedKeys(schema, props, keys, doc).value)
    decreases schema, 0, |keys|
  {
    if keys == [] {
      if doc.Obj? {
        FilterNothingVisited(doc.keys, props);
      }
    } else {
      var key := keys[0];
      var rest := keys[1..];
      DistinctTail(keys);
      var next := Step(schema, props, key, doc).value;
      var r := PrunedKeys(schema, props, rest, next).value;
      assert PrunedKeys(schema, props, keys, doc) == Ok(r);
      assert keys == [key] + rest;
      assert StepPost(props, key, doc, next) by {
        StepFacts(schema, props, key, doc);
      }
      assert LoopPost(props, rest, next, r) by {
        StillVisited(props, key, rest, doc, next);
        PrunedKeysFacts(schema, props, rest, next);
      }
      FactsCompose(props, key, rest, doc, next, r);
    }
  }

  /** The keys left to visit are still own keys after one iteration. */
  lemma StillVisited(props: Json, key: string, rest: seq<string>, doc: Json, next: Json)
    requires key !in rest && forall k :: k in rest ==> k in ForInKeys(doc)
    requires StepPost(props, key, doc, next)
    ensures forall k :: k in rest ==> k in ForInKeys(next)
  {
    if !doc.Obj? {
      SameShapeForIn(doc, next);
    }
  }

  /** The facts of one iteration followed by the facts of the rest of the loop. */
  lemma FactsCompose(props: Json, key: string, rest: seq<string>, doc: Json, next: Json, r: Json)
    requires key !in rest
    requires StepPost(props, key, doc, next)
    requires LoopPost(props, rest, next, r)
    ensures LoopPost(props, [key] + rest, doc, r)
  {
    SameShapeTransitive(doc, next, r);
    if doc.Obj? {
      FilterStep(doc, next, key, rest, props);
    }
    assert r.Obj? ==> next.Obj?;
    forall k | k in [key] + rest ensures Outcome(props, k, doc, r) {
      if k == key {
        OutcomeTransfer(props, k, doc, doc, next, r);
      } else {
        OutcomeTransfer(props, k, next, doc, r, r);
      }
    }
  }

  /** One iteration's facts. */
  lemma StepFacts(schema: Json, props: Json, key: string, doc: Json)
    requires props == Prop(schema, "properties")
    requires Proper(doc) && key in ForInKeys(doc)
    requires Step(schema, props, key, doc).Ok?
    ensures StepPost(props, key, doc, Step(schema, props, key, doc).value)
    decreases schema, 0, 0
  {
    ForInKeysPresent(doc, key);
    var next := Step(schema, props, key, doc).value;
    if !Present(props, key) {
      DeleteKeepsProper(doc, key);
    } else {
      var sub := Prop(props, key);
      if IsObjectNotArray(sub) {
        var child := Pruned(sub, Prop(doc, key)).value;
        PropProper(doc, key);
        PrunedFacts(sub, Prop(doc, key));
        PutKeepsProper(doc, key, child);
      }
    }
  }

  /** One call of `removeExtras`: shape kept, representation kept, every own key has its Outcome. */
  lemma PrunedFacts(schema: Json, doc: Json)
    requires Proper(doc)
    requires Pruned(schema, doc).Ok?
    ensures var r := Pruned(schema, doc).value;
            && Proper(r) && SameShape(doc, r)
            && (!Active(schema) ==> r == doc)
            && (Active(schema) ==> forall k :: k in ForInKeys(doc) ==> Outcome(Prop(schema, "properties"), k, doc, r))
            && (Active(schema) && doc.Obj? ==> r.keys == Filter(doc.keys, doc.keys, Prop(schema, "properties")))
    decreases schema, 1
  {
    if Active(schema) {
      var props := Prop(schema, "properties");
      ForInKeysDistinct(doc);
      PrunedKeysFacts(schema, props, ForInKeys(doc), doc);
    }
  }

  /** The keys of `ks` the loop keeps: those not visited, and the visited ones `props` declares. */
  function Filter(ks: seq<string>, visited: seq<string>, props: Json): (r: seq<string>)
    ensures forall k :: k in r <==> k in ks && (k in visited ==> Present(props, k))
  {
    if ks == [] then []
    else
      var rest := Filter(ks[1..], visited, props);
      if ks[0] in visited && !Present(props, ks[0]) then rest else [ks[0]] + rest
  }

  lemma {:induction false} FilterNothingVisited(ks: seq<string>, props: Json)
    ensures Filter(ks, [], props) == ks
  {
    if ks != [] {
      FilterNothingVisited(ks[1..], props);
      assert [ks[0]] + ks[1..] == ks;
    }
  }

  /** Visiting `key` first and then `rest` filters as visiting `[key] + rest` does. */
  lemma FilterStep(doc: Json, next: Json, key: string, rest: seq<string>, props: Json)
    requires doc.Obj? && next.Obj?
    requires next.keys == (if Present(props, key) then doc.keys else RemoveKey(doc.keys, key))
    ensures Filter(next.keys, rest, props) == Filter(doc.keys, [key] + rest, props)
  {
    if Present(props, key) {
      FilterVisitDeclared(doc.keys, key, rest, props);
    } else {
      FilterVisitRemoved(doc.keys, key, rest, props);
    }
  }

  lemma {:induction false} FilterVisitDeclared(ks: seq<string>, key: string, rest: seq<string>, props: Json)
    requires Present(props, key)
    ensures Filter(ks, rest, props) == Filter(ks, [key] + rest, props)
  {
    if ks != [] {
      FilterVisitDeclared(ks[1..], key, rest, props);
    }
  }

  lemma {:induction false} FilterVisitRemoved(ks: seq<string>, key: string, rest: seq<string>, props: Json)
    requires !Present(props, key)
    ensures Filter(RemoveKey(ks, key), rest, props) == Filter(ks, [key] + rest, props)
  {
    if ks != [] {
      FilterVisitRemoved(ks[1..], key, rest, props);
    }
  }

  // ---------------------------------------------------------------------------
  // What the source promises

  /**
   * Pruning an object keeps exactly the declared keys, in their original order,
   * adds none, and prunes declared object members with their own sub-schema.
   */
  lemma PruneKeepsDeclared(schema: Json, doc: Json)
    requires Proper(doc) && doc.Obj? && Active(schema)
    requires Pruned(schema, doc).Ok?
    ensures var r := Pruned(schema, doc).value;
            var props := Prop(schema, "properties");
            && r.Obj?
            && (forall k :: Present(r, k) <==> Present(doc, k) && Present(props, k))
            && r.keys == Filter(doc.keys, doc.keys, props)
            && (forall k :: Present(r, k) && IsObjectNotArray(Prop(props, k)) ==>
                  Pruned(Prop(props, k), Prop(doc, k)) == Ok(Prop(r, k)))
            && (forall k :: Present(r, k) && !IsObjectNotArray(Prop(props, k)) ==> Prop(r, k) == Prop(doc, k))
  {
    PrunedFacts(schema, doc);
    var r := Pruned(schema, doc).value;
    var props := Prop(schema, "properties");
    forall k ensures Present(r, k) <==> Present(doc, k) && Present(props, k) {
      if Present(doc, k) {
        assert k in ForInKeys(doc);
      } else {
        assert k !in ForInKeys(doc);
        assert r.keys == Filter(doc.keys, doc.keys, props);
      }
    }
  }

  /** In an array every element is visited; the declared ones are pruned, the others left as holes. */
  lemma PruneArray(schema: Json, doc: Json, i: nat)
    requires Proper(doc) && doc.Arr? && Active(schema) && i < |doc.items|
    requires Pruned(schema, doc).Ok?
    ensures var r := Pruned(schema, doc).value;
            var props := Prop(schema, "properties");
            var name := IndexName(i);
            && r.Arr? && |r.items| == |doc.items|
            && (!Present(props, name) ==> r.items[i] == Undefined)
            && (Present(props, name) && IsObjectNotArray(Prop(props, name)) ==>
                  Pruned(Prop(props, name), doc.items[i]) == Ok(r.items[i]))
            && (Present(props, name) && !IsObjectNotArray(Prop(props, name)) ==> r.items[i] == doc.items[i])
  {
    PrunedFacts(schema, doc);
    var r := Pruned(schema, doc).value;
    var name := IndexName(i);
    IndexOfName(i, |doc.items|);
    assert ForInKeys(doc)[i] == name;
    assert Outcome(Prop(schema, "properties"), name, doc, r);
    assert Prop(doc, name) == doc.items[i] && Prop(r, name) == r.items[i];
  }

  /** Running `removeExtras` a second time on its own result changes nothing. */
  lemma {:induction false} PruneIdempotent(schema: Json, doc: Json)
    requires Proper(doc) && Pruned(schema, doc).Ok?
    ensures Pruned(schema, Pruned(schema, doc).value) == Pruned(schema, doc)
    decreases schema
  {
    PrunedFacts(schema, doc);
    var r := Pruned(schema, doc).value;
    if Active(schema) && IsContainer(doc) {
      var props := Prop(schema, "properties");
      forall k | k in ForInKeys(r)
        ensures Step(schema, props, k, r) == Ok(r)
      {
        VisitedBefore(schema, k, doc, r);
        StableKey(schema, props, k, doc, r);
      }
      ForInKeysDistinct(r);
      StablePrefix(schema, props, ForInKeys(r), r);
    }
  }

  /** A key of the first pass's result is a no-op for the second pass. */
  lemma {:induction false} StableKey(schema: Json, props: Json, k: string, doc: Json, r: Json)
    requires props == Prop(schema, "properties")
    requires Proper(doc) && Proper(r) && Outcome(props, k, doc, r)
    requires k in ForInKeys(r)
    ensures Step(schema, props, k, r) == Ok(r)
    decreases schema, 0
  {
    if !Present(props, k) {
      assert Delete(r, k) == r by {
        assert !r.Obj? by {
          if r.Obj? {
            ForInKeysPresent(r, k);
          }
        }
        DeleteGone(r, k);
      }
      StepUndeclared(schema, props, k, r);
    } else {
      var sub := Prop(props, k);
      assert IsObjectNotArray(sub) ==> Pruned(sub, Prop(r, k)) == Ok(Prop(r, k)) by {
        if IsObjectNotArray(sub) {
          PropProper(doc, k);
          PruneIdempotent(sub, Prop(doc, k));
        }
      }
      assert Put(r, k, Prop(r, k)) == Ok(r) by {
        PutSame(r, k);
      }
      StepDeclared(schema, props, k, r);
    }
  }

  /** An undeclared key whose deletion changes nothing is a no-op step. */
  lemma StepUndeclared(schema: Json, props: Json, k: string, r: Json)
    requires props == Prop(schema, "properties") && IsContainer(props) && !Present(props, k)
    requires Delete(r, k) == r
    ensures Step(schema, props, k, r) == Ok(r)
  {
  }

  /** A declared key whose value is already pruned is a no-op step. */
  lemma StepDeclared(schema: Json, props: Json, k: string, r: Json)
    requires props == Prop(schema, "properties") && IsContainer(props) && Present(props, k)
    requires IsObjectNotArray(Prop(props, k)) ==> Pruned(Prop(props, k), Prop(r, k)) == Ok(Prop(r, k))
    requires Put(r, k, Prop(r, k)) == Ok(r)
    ensures Step(schema, props, k, r) == Ok(r)
  {
  }

  /** A key that the second pass visits was visited by the first. */
  lemma VisitedBefore(schema: Json, k: string, doc: Json, r: Json)
    requires Active(schema)
    requires Proper(doc) && IsContainer(doc) && Pruned(schema, doc) == Ok(r)
    requires k in ForInKeys(r)
    ensures k in ForInKeys(doc)
  {
    PrunedFacts(schema, doc);
    if doc.Obj? {
      ForInKeysPresent(r, k);
      PruneKeepsDeclared(schema, doc);
    } else {
      SameShapeForIn(doc, r);
    }
  }

  /** If every visited key is a no-op, the loop is. */
  lemma {:induction false} StablePrefix(schema: Json, props: Json, keys: seq<string>, r: Json)
    requires props == Prop(schema, "properties")
    requires forall k :: k in keys ==> Step(schema, props, k, r) == Ok(r)
    ensures PrunedKeys(schema, props, keys, r) == Ok(r)
    decreases |keys|
  {
    if keys != [] {
      StablePrefix(schema, props, keys[1..], r);
    }
  }
}
