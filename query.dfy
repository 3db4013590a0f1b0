/**
 * convertFormQueryString (lib/convertFormQueryString/convertFormQueryString.js
 * and the identical older utilities/convertFormQueryString.js): a fresh object
 * holding, for each declared property in `schema.properties` order that the
 * query names, the query's first value for it cast by the property's `type`.
 * The query is modelled already decoded, as its sequence of name/value pairs.
 */
module QueryString {
  import opened JsonValue

  datatype Option<T> = None | Some(value: T)

  /** The decoded name/value pairs of a form-encoded query, in order. */
  type Query = seq<(string, string)>

  /** `urlSearchParams.get(name)`: the value of the first pair with that name, or null. */
  function ParamValue(q: Query, name: string): Option<string> {
    if q == [] then None
    else if q[0].0 == name then Some(q[0].1)
    else ParamValue(q[1..], name)
  }

  /** The pair `get` answers with: the first one carrying the name, and there is one exactly when some pair carries it. */
  lemma {:induction false} ParamValueFirst(q: Query, name: string)
    ensures ParamValue(q, name).None? <==> forall i :: 0 <= i < |q| ==> q[i].0 != name
    ensures ParamValue(q, name).Some? ==>
              exists i :: 0 <= i < |q| && q[i] == (name, ParamValue(q, name).value) && forall j :: 0 <= j < i ==> q[j].0 != name
  {
    if q != [] && q[0].0 != name {
      var tail := q[1..];
      ParamValueFirst(tail, name);
      if ParamValue(tail, name).Some? {
        var v := ParamValue(tail, name).value;
        var i :| 0 <= i < |tail| && tail[i] == (name, v) && forall j :: 0 <= j < i ==> tail[j].0 != name;
        assert q[i + 1] == (name, v);
        forall j | 0 <= j < i + 1 ensures q[j].0 != name {
          if j > 0 {
            assert q[j] == tail[j - 1];
          }
        }
      } else {
        forall i | 0 <= i < |q| ensures q[i].0 != name {
          if i > 0 {
            assert q[i] == tail[i - 1];
          }
        }
      }
    } else if q != [] {
      assert q[0] == (name, q[0].1);
    }
  }

  /** `urlSearchParams.has(name)` */
  predicate Has(q: Query, name: string) {
    ParamValue(q, name).Some?
  }

  /**
   * The `switch (valueType)` on the declared type, compared strictly:
   * "number" and "integer" go through the two parses, "boolean" tests for
   * the exact text "true", anything else keeps the text.
   */
  function Cast(valueType: Json, text: string, parseFloat: string -> Number, parseInt: string -> Number): (r: Json)
    ensures valueType == Str("number") ==> r == Num(parseFloat(text))
    ensures valueType == Str("integer") ==> r == Num(parseInt(text))
    ensures valueType == Str("boolean") ==> r == Bool(text == "true")
    ensures valueType != Str("number") && valueType != Str("integer") && valueType != Str("boolean") ==> r == Str(text)
  {
    if valueType == Str("number") then Num(parseFloat(text))
    else if valueType == Str("integer") then Num(parseInt(text))
    else if valueType == Str("boolean") then Bool(text == "true")
    else Str(text)
  }

  /** The result object the function returns. */
  function Converted(schema: Json, q: Query, parseFloat: string -> Number, parseInt: string -> Number): Result<Json> {
    var props :- Get(schema, "properties");
    ConvertedKeys(props, ForInKeys(props), q, EmptyObject(), parseFloat, parseInt)
  }

  /** The `for (const key in schema.properties)` loop, from `keys` on, adding to `acc`. */
  function ConvertedKeys(props: Json, keys: seq<string>, q: Query, acc: Json,
                         parseFloat: string -> Number, parseInt: string -> Number): Result<Json>
    decreases |keys|
  {
    if keys == [] then Ok(acc)
    else
      var key := keys[0];
      var p := ParamValue(q, key);
      if p.None? then ConvertedKeys(props, keys[1..], q, acc, parseFloat, parseInt)
      else
        var valueType :- Get(Prop(props, key), "type");
        var next :- Put(acc, key, Cast(valueType, p.value, parseFloat, parseInt));
        ConvertedKeys(props, keys[1..], q, next, parseFloat, parseInt)
  }

  /** convertFormQueryString, both copies (the older one also logs the parsed query). */
  method ConvertFormQueryString(schema: Json, q: Query, parseFloat: string -> Number, parseInt: string -> Number)
    returns (r: Result<Json>)
    ensures r == Converted(schema, q, parseFloat, parseInt)
  {
    var props := Get(schema, "properties");
    if props.Fail? {
      return Fail(props.exception);
    }
    var p := props.value;
    var keys := ForInKeys(p);
    var resultJson := EmptyObject();
    for i := 0 to |keys|
      invariant ConvertedKeys(p, keys[i..], q, resultJson, parseFloat, parseInt)
                == ConvertedKeys(p, keys, q, EmptyObject(), parseFloat, parseInt)
    {
      assert keys[i..][1..] == keys[i + 1..];
      var key := keys[i];
      var value := ParamValue(q, key);
      if value.Some? {
        var valueType := Get(Prop(p, key), "type");
        if valueType.Fail? {
          return Fail(valueType.exception);
        }
        var castedValue := Cast(valueType.value, value.value, parseFloat, parseInt);
        var next := Put(resultJson, key, castedValue);
        if next.Fail? {
          return Fail(next.exception);
        }
        resultJson := next.value;
      }
    }
    assert keys[|keys|..] == [];
    r := Ok(resultJson);
  }

  // ---------------------------------------------------------------------------
  // Properties

  /** The declared names the query mentions, in declaration order. */
  function Mentioned(keys: seq<string>, q: Query): (r: seq<string>)
    ensures forall k :: k in r <==> k in keys && Has(q, k)
  {
    if keys == [] then []
    else if Has(q, keys[0]) then [keys[0]] + Mentioned(keys[1..], q)
    else Mentioned(keys[1..], q)
  }

  /** The value stored for a declared name the query mentions. */
  function CastFor(props: Json, key: string, q: Query, parseFloat: string -> Number, parseInt: string -> Number): Json
    requires Has(q, key)
  {
    Cast(Prop(Prop(props, key), "type"), ParamValue(q, key).value, parseFloat, parseInt)
  }

  /** What the loop over `keys` makes of `acc`: the mentioned names appended in order, each cast, `acc` kept. */
  ghost predicate Appends(props: Json, keys: seq<string>, q: Query, acc: Json, r: Json,
                          parseFloat: string -> Number, parseInt: string -> Number)
    requires acc.Obj?
  {
    && r.Obj?
    && r.keys == acc.keys + Mentioned(keys, q)
    && (forall k :: k in r.fields <==> k in acc.fields || (k in keys && Has(q, k)))
    && (forall k :: k in acc.fields ==> r.fields[k] == acc.fields[k])
    && (forall k :: k in keys && Has(q, k) ==> r.fields[k] == CastFor(props, k, q, parseFloat, parseInt))
  }

  /**
   * From an accumulator that holds none of the keys still to visit: the result
   * appends the mentioned names in order, each with its cast value, and keeps
   * everything already there.
   */
  lemma {:induction false} ConvertedKeysFacts(props: Json, keys: seq<string>, q: Query, acc: Json,
                                              parseFloat: string -> Number, parseInt: string -> Number)
    requires acc.Obj? && Distinct(keys) && forall k :: k in keys ==> k !in acc.fields
    requires ConvertedKeys(props, keys, q, acc, parseFloat, parseInt).Ok?
    ensures Appends(props, keys, q, acc, ConvertedKeys(props, keys, q, acc, parseFloat, parseInt).value, parseFloat, parseInt)
    decreases |keys|
  {
    if keys != [] {
      var key := keys[0];
      var rest := keys[1..];
      DistinctTail(keys);
      assert keys == [key] + rest;
      var r := ConvertedKeys(props, keys, q, acc, parseFloat, parseInt).value;
      if !Has(q, key) {
        assert ConvertedKeys(props, rest, q, acc, parseFloat, parseInt) == Ok(r);
        assert Appends(props, rest, q, acc, r, parseFloat, parseInt) by {
          ConvertedKeysFacts(props, rest, q, acc, parseFloat, parseInt);
        }
        AppendsSkip(props, key, rest, q, acc, r, parseFloat, parseInt);
      } else {
        var v := CastFor(props, key, q, parseFloat, parseInt);
        var next := Obj(acc.keys + [key], acc.fields[key := v]);
        assert ConvertedKeys(props, rest, q, next, parseFloat, parseInt) == Ok(r) by {
          assert Put(acc, key, v) == Ok(next);
        }
        assert Appends(props, rest, q, next, r, parseFloat, parseInt) by {
          assert forall k :: k in rest ==> k !in next.fields;
          ConvertedKeysFacts(props, rest, q, next, parseFloat, parseInt);
        }
        AppendsAdd(props, key, rest, q, acc, next, r, parseFloat, parseInt);
      }
    }
  }

  /** A name the query lacks adds nothing. */
  lemma AppendsSkip(props: Json, key: string, rest: seq<string>, q: Query, acc: Json, r: Json,
                    parseFloat: string -> Number, parseInt: string -> Number)
    requires acc.Obj? && !Has(q, key)
    requires Appends(props, rest, q, acc, r, parseFloat, parseInt)
    ensures Appends(props, [key] + rest, q, acc, r, parseFloat, parseInt)
  {
    assert ([key] + rest)[1..] == rest;
  }

  /** A name the query has is appended with its cast value before the rest. */
  lemma AppendsAdd(props: Json, key: string, rest: seq<string>, q: Query, acc: Json, next: Json, r: Json,
                   parseFloat: string -> Number, parseInt: string -> Number)
    requires acc.Obj? && Has(q, key) && key !in acc.fields && key !in rest
    requires next == Obj(acc.keys + [key], acc.fields[key := CastFor(props, key, q, parseFloat, parseInt)])
    requires Appends(props, rest, q, next, r, parseFloat, parseInt)
    ensures Appends(props, [key] + rest, q, acc, r, parseFloat, parseInt)
  {
    var keys := [key] + rest;
    assert r.keys == acc.keys + Mentioned(keys, q) by {
      assert keys[0] == key && keys[1..] == rest;
      assert Mentioned(keys, q) == [key] + Mentioned(rest, q);
      assert acc.keys + [key] + Mentioned(rest, q) == acc.keys + ([key] + Mentioned(rest, q));
    }
    forall k
      ensures k in r.fields <==> k in acc.fields || (k in keys && Has(q, k))
    {
      assert k in next.fields <==> k in acc.fields || k == key;
    }
    forall k | k in acc.fields
      ensures r.fields[k] == acc.fields[k]
    {
      assert k in next.fields && next.fields[k] == acc.fields[k];
    }
    forall k | k in keys && Has(q, k)
      ensures r.fields[k] == CastFor(props, k, q, parseFloat, parseInt)
    {
      if k == key {
        assert k in next.fields;
      }
    }
  }

  /**
   * The result is a fresh object whose keys are exactly the declared names the
   * query mentions, in declaration order (query order and undeclared names play
   * no part), each holding the first value for it cast by the declared type.
   */
  lemma ConvertedShape(schema: Json, q: Query, parseFloat: string -> Number, parseInt: string -> Number)
    requires Proper(Prop(schema, "properties"))
    requires Converted(schema, q, parseFloat, parseInt).Ok?
    ensures var r := Converted(schema, q, parseFloat, parseInt).value;
            var props := Prop(schema, "properties");
            && r.Obj?
            && r.keys == Mentioned(ForInKeys(props), q)
            && (forall k :: Present(r, k) <==> k in ForInKeys(props) && Has(q, k))
            && (forall k :: Present(r, k) ==> Prop(r, k) == CastFor(props, k, q, parseFloat, parseInt))
  {
    var props := Prop(schema, "properties");
    ForInKeysDistinct(props);
    ConvertedKeysFacts(props, ForInKeys(props), q, EmptyObject(), parseFloat, parseInt);
  }

  /** A declared name the query does not mention is absent from the result: nothing is defaulted. */
  lemma AbsentStaysAbsent(schema: Json, q: Query, parseFloat: string -> Number, parseInt: string -> Number, k: string)
    requires Proper(Prop(schema, "properties"))
    requires Converted(schema, q, parseFloat, parseInt).Ok?
    requires forall i :: 0 <= i < |q| ==> q[i].0 != k
    ensures !Present(Converted(schema, q, parseFloat, parseInt).value, k)
  {
    ParamValueFirst(q, k);
    ConvertedShape(schema, q, parseFloat, parseInt);
  }

  /** A `boolean` property is true exactly when its first value is the text "true". */
  lemma BooleanCast(schema: Json, q: Query, parseFloat: string -> Number, parseInt: string -> Number, k: string)
    requires Proper(Prop(schema, "properties"))
    requires Converted(schema, q, parseFloat, parseInt).Ok?
    requires k in ForInKeys(Prop(schema, "properties")) && Has(q, k)
    requires Prop(Prop(Prop(schema, "properties"), k), "type") == Str("boolean")
    ensures Prop(Converted(schema, q, parseFloat, parseInt).value, k) == Bool(ParamValue(q, k).value == "true")
  {
    ConvertedShape(schema, q, parseFloat, parseInt);
  }

  /** The cast fails only where a declared, mentioned property's sub-schema cannot be read. */
  predicate Unreadable(props: Json, keys: seq<string>, q: Query) {
    exists k :: k in keys && Has(q, k) && (Prop(props, k).Undefined? || Prop(props, k).Null?)
  }

  lemma {:induction false} ConvertedKeysFails(props: Json, keys: seq<string>, q: Query, acc: Json,
                                              parseFloat: string -> Number, parseInt: string -> Number)
    requires acc.Obj?
    ensures ConvertedKeys(props, keys, q, acc, parseFloat, parseInt).Fail? <==> Unreadable(props, keys, q)
    ensures ConvertedKeys(props, keys, q, acc, parseFloat, parseInt).Fail? ==>
              ConvertedKeys(props, keys, q, acc, parseFloat, parseInt).exception == TypeError
    decreases |keys|
  {
    if keys != [] {
      var key := keys[0];
      var value := Prop(props, key);
      if Has(q, key) && !(value.Undefined? || value.Null?) {
        var next := Put(acc, key, CastFor(props, key, q, parseFloat, parseInt)).value;
        ConvertedKeysFails(props, keys[1..], q, next, parseFloat, parseInt);
      } else if !Has(q, key) {
        ConvertedKeysFails(props, keys[1..], q, acc, parseFloat, parseInt);
      }
      if Unreadable(props, keys, q) && !(Has(q, key) && (value.Undefined? || value.Null?)) {
        var k :| k in keys && Has(q, k) && (Prop(props, k).Undefined? || Prop(props, k).Null?);
        assert k in keys[1..];
      }
      if Unreadable(props, keys[1..], q) {
        var k :| k in keys[1..] && Has(q, k) && (Prop(props, k).Undefined? || Prop(props, k).Null?);
        assert k in keys;
      }
    }
  }

  /**
   * The function throws a TypeError exactly when the schema is undefined or
   * null, or a declared property the query mentions has an undefined or null sub-schema.
   */
  lemma ConvertedFails(schema: Json, q: Query, parseFloat: string -> Number, parseInt: string -> Number)
    ensures Converted(schema, q, parseFloat, parseInt).Fail? <==>
              schema.Undefined? || schema.Null?
              || Unreadable(Prop(schema, "properties"), ForInKeys(Prop(schema, "properties")), q)
    ensures Converted(schema, q, parseFloat, parseInt).Fail? ==> Converted(schema, q, parseFloat, parseInt).exception == TypeError
  {
    var props := Prop(schema, "properties");
    ConvertedKeysFails(props, ForInKeys(props), q, EmptyObject(), parseFloat, parseInt);
  }

  /**
   * The module's own sample: `foo=42&bar=hello` against a number `foo` and a
   * string `bar` gives `{ foo: parseFloat("42"), bar: "hello" }`.
   */
  lemma SampleQuery(parseFloat: string -> Number, parseInt: string -> Number)
    ensures var foo := Obj(["type"], map["type" := Str("number")]);
            var bar := Obj(["type"], map["type" := Str("string")]);
            var schema := Obj(["properties"], map["properties" := Obj(["foo", "bar"], map["foo" := foo, "bar" := bar])]);
            Converted(schema, [("foo", "42"), ("bar", "hello")], parseFloat, parseInt)
              == Ok(Obj(["foo", "bar"], map["foo" := Num(parseFloat("42")), "bar" := Str("hello")]))
  {
    var q: Query := [("foo", "42"), ("bar", "hello")];
    var foo := Obj(["type"], map["type" := Str("number")]);
    var bar := Obj(["type"], map["type" := Str("string")]);
    var props := Obj(["foo", "bar"], map["foo" := foo, "bar" := bar]);
    var schema := Obj(["properties"], map["properties" := props]);
    var acc1 := Obj(["foo"], map["foo" := Num(parseFloat("42"))]);
    var acc2 := Obj(["foo", "bar"], map["foo" := Num(parseFloat("42")), "bar" := Str("hello")]);
    assert ForInKeys(props) == ["foo", "bar"];
    SampleLoop(props, ["foo", "bar"], q, EmptyObject(), acc1, acc2, parseFloat, parseInt);
  }

  /** The loop of the sample, one name at a time. */
  lemma SampleLoop(props: Json, keys: seq<string>, q: Query, empty: Json, acc1: Json, acc2: Json,
                   parseFloat: string -> Number, parseInt: string -> Number)
    requires keys == ["foo", "bar"] && q == [("foo", "42"), ("bar", "hello")] && empty == EmptyObject()
    requires props == Obj(["foo", "bar"], map["foo" := Obj(["type"], map["type" := Str("number")]),
                                              "bar" := Obj(["type"], map["type" := Str("string")])])
    requires acc1 == Obj(["foo"], map["foo" := Num(parseFloat("42"))])
    requires acc2 == Obj(["foo", "bar"], map["foo" := Num(parseFloat("42")), "bar" := Str("hello")])
    ensures ConvertedKeys(props, keys, q, empty, parseFloat, parseInt) == Ok(acc2)
  {
    assert keys[0] == "foo" && keys[1..] == ["bar"];
    SampleBar(props, keys[1..], q, acc1, acc2, parseFloat, parseInt);
    assert ParamValue(q, "foo") == Some("42");
    assert Get(Prop(props, "foo"), "type") == Ok(Str("number"));
    assert Put(empty, "foo", Cast(Str("number"), "42", parseFloat, parseInt)) == Ok(acc1) by {
      assert [] + ["foo"] == ["foo"];
      assert map[]["foo" := Num(parseFloat("42"))] == map["foo" := Num(parseFloat("42"))];
    }
    ConvertedKeysStep(props, keys, q, empty, acc1, "42", Str("number"), parseFloat, parseInt);
  }

  /** One visited name that the query mentions: cast it, store it, go on with the rest. */
  lemma ConvertedKeysStep(props: Json, keys: seq<string>, q: Query, acc: Json, next: Json, v: string, t: Json,
                          parseFloat: string -> Number, parseInt: string -> Number)
    requires keys != [] && ParamValue(q, keys[0]) == Some(v)
    requires Get(Prop(props, keys[0]), "type") == Ok(t)
    requires Put(acc, keys[0], Cast(t, v, parseFloat, parseInt)) == Ok(next)
    ensures ConvertedKeys(props, keys, q, acc, parseFloat, parseInt)
         == ConvertedKeys(props, keys[1..], q, next, parseFloat, parseInt)
  {
  }

  /** The sample's second name, `bar=hello`, kept as a string. */
  lemma SampleBar(props: Json, keys: seq<string>, q: Query, acc1: Json, acc2: Json,
                  parseFloat: string -> Number, parseInt: string -> Number)
    requires keys == ["bar"] && q == [("foo", "42"), ("bar", "hello")]
    requires props == Obj(["foo", "bar"], map["foo" := Obj(["type"], map["type" := Str("number")]),
                                              "bar" := Obj(["type"], map["type" := Str("string")])])
    requires acc1 == Obj(["foo"], map["foo" := Num(parseFloat("42"))])
    requires acc2 == Obj(["foo", "bar"], map["foo" := Num(parseFloat("42")), "bar" := Str("hello")])
    ensures ConvertedKeys(props, keys, q, acc1, parseFloat, parseInt) == Ok(acc2)
  {
    assert "foo" != "bar" by {
      assert "foo"[0] != "bar"[0];
    }
    assert keys[0] == "bar" && keys[1..] == [];
    assert ParamValue(q, "bar") == Some("hello");
    assert Get(Prop(props, "bar"), "type") == Ok(Str("string"));
    assert Put(acc1, "bar", Cast(Str("string"), "hello", parseFloat, parseInt)) == Ok(acc2) by {
      assert ["foo"] + ["bar"] == ["foo", "bar"];
    }
    ConvertedKeysStep(props, keys, q, acc1, acc2, "hello", Str("string"), parseFloat, parseInt);
  }
}
