/**
 * The default injector of lib/addDefaultValues/addDefaultValues.js: it walks a
 * compiled schema AST and folds each node's keyword handlers over the instance.
 * Only two handlers exist, `properties` and `default`; every other keyword id throws.
 */
module Compiled {
  import opened JsonValue

  const PROPERTIES_KEYWORD: string := "https://json-schema.org/keyword/properties"
  const DEFAULT_KEYWORD: string := "https://json-schema.org/keyword/default"

  /** `[keywordId, schemaLocation, keywordValue]`; the location slot is never read. */
  datatype KeywordEntry = KeywordEntry(keywordId: string, keywordValue: Json)

  /** An AST node: a boolean schema or the ordered keyword entries of a schema object. */
  datatype Node = BooleanNode(b: bool) | KeywordNode(entries: seq<KeywordEntry>)

  /** Dynamic anchor name to URI. */
  type Anchors = map<string, string>

  /** The compiled AST: nodes by schema URI and, by absolute IRI, the declared dynamic anchors. */
  datatype Ast = Ast(nodes: map<string, Node>, metaData: map<string, Anchors>)

  datatype Handler = PropertiesHandler | DefaultHandler

  /** Position of the first `#`. */
  function FirstHash(iri: string): (r: nat)
    requires '#' in iri
    ensures r < |iri| && iri[r] == '#' && '#' !in iri[..r]
  {
    if iri[0] == '#' then 0
    else
      var r := 1 + FirstHash(iri[1..]);
      assert iri[..r] == [iri[0]] + iri[1..][..r - 1];
      r
  }

  /** toAbsoluteIri: the IRI without its fragment. */
  function ToAbsoluteIri(iri: string): string {
    if '#' in iri then iri[..FirstHash(iri)] else iri
  }

  /** The absolute IRI is the longest prefix without `#`; an IRI without a fragment is already absolute. */
  lemma ToAbsoluteIriFacts(iri: string)
    ensures var r := ToAbsoluteIri(iri);
            && '#' !in r && r <= iri
            && ('#' !in iri ==> r == iri)
            && (|r| < |iri| ==> iri[|r|] == '#')
  {
  }

  /** getKeywordHandler: look the normalised id up in the two-entry dispatch table or throw. */
  function GetKeywordHandler(keywordId: string): (r: Result<Handler>)
    ensures r == Ok(PropertiesHandler) <==> ToAbsoluteIri(keywordId) == PROPERTIES_KEYWORD
    ensures r == Ok(DefaultHandler) <==> ToAbsoluteIri(keywordId) == DEFAULT_KEYWORD
    ensures r.Fail? ==> r.exception == Error("No handler found for Keyword: " + ToAbsoluteIri(keywordId))
  {
    var id := ToAbsoluteIri(keywordId);
    if id == PROPERTIES_KEYWORD then Ok(PropertiesHandler)
    else if id == DEFAULT_KEYWORD then Ok(DefaultHandler)
    else Fail(Error("No handler found for Keyword: " + id))
  }

  /** The two ids of the dispatch table select their own handlers. */
  lemma KnownKeywords()
    ensures GetKeywordHandler(PROPERTIES_KEYWORD) == Ok(PropertiesHandler)
    ensures GetKeywordHandler(DEFAULT_KEYWORD) == Ok(DefaultHandler)
  {
    KeywordIsAbsolute(PROPERTIES_KEYWORD);
    KeywordIsAbsolute(DEFAULT_KEYWORD);
    assert PROPERTIES_KEYWORD[32] != DEFAULT_KEYWORD[32];
  }

  /** Both keyword ids are absolute already. */
  lemma KeywordIsAbsolute(id: string)
    requires id == PROPERTIES_KEYWORD || id == DEFAULT_KEYWORD
    ensures ToAbsoluteIri(id) == id
  {
    assert '#' !in id;
  }

  predicate KnownKeyword(keywordId: string) {
    GetKeywordHandler(keywordId).Ok?
  }

  /** `{ ...declared, ...caller }`: the caller's bindings win, the node only adds names. */
  function MergeAnchors(declared: Anchors, caller: Anchors): (r: Anchors)
    ensures forall n :: n in caller ==> n in r && r[n] == caller[n]
    ensures forall n :: n in declared && n !in caller ==> n in r && r[n] == declared[n]
    ensures forall n :: n in r ==> n in caller || n in declared
  {
    declared + caller
  }

  /** isObject: a non-null, non-array object. */
  predicate IsObject(v: Json) {
    TypeOf(v) == "object" && !v.Arr? && !v.Null?
  }

  /** The `default` handler. */
  function DefaultKeyword(defaultValue: Json, instance: Json): Json {
    if instance.Undefined? then defaultValue else instance
  }

  /**
   * evaluateSchema. `fuel` bounds the nesting of calls, which the engine bounds by
   * its stack: a cyclic AST runs out of it and ends in RangeError.
   */
  function Evaluate(fuel: nat, schemaUri: Json, instance: Json, ast: Ast, anchors: Anchors): Result<Json>
    decreases fuel, 1
  {
    if fuel == 0 then Fail(RangeError)
    else if !schemaUri.Str? then Fail(TypeError)
    else
      var uri := schemaUri.s;
      if uri in ast.nodes && ast.nodes[uri].BooleanNode? then Ok(instance)
      else if ToAbsoluteIri(uri) !in ast.metaData || uri !in ast.nodes then Fail(TypeError)
      else
        var merged := MergeAnchors(ast.metaData[ToAbsoluteIri(uri)], anchors);
        ApplyKeywords(fuel - 1, ast.nodes[uri].entries, instance, ast, merged)
  }

  /** The `for...of` loop over a node's entries: a left fold of the handlers. */
  function ApplyKeywords(fuel: nat, entries: seq<KeywordEntry>, instance: Json, ast: Ast, anchors: Anchors): Result<Json>
    decreases fuel, 4, |entries|
  {
    if entries == [] then Ok(instance)
    else
      var next :- ApplyEntry(fuel, entries[0], instance, ast, anchors);
      ApplyKeywords(fuel, entries[1..], next, ast, anchors)
  }

  /** `getKeywordHandler(keywordId)(keywordValue, instance, ast, dynamicAnchors)` */
  function ApplyEntry(fuel: nat, entry: KeywordEntry, instance: Json, ast: Ast, anchors: Anchors): Result<Json>
    decreases fuel, 3
  {
    var handler :- GetKeywordHandler(entry.keywordId);
    match handler
    case DefaultHandler => Ok(DefaultKeyword(entry.keywordValue, instance))
    case PropertiesHandler => Properties(fuel, entry.keywordValue, instance, ast, anchors)
  }

  /** The `properties` handler. */
  function Properties(fuel: nat, properties: Json, instance: Json, ast: Ast, anchors: Anchors): Result<Json>
    decreases fuel, 3, 0
  {
    if !IsObject(instance) then Ok(instance)
    else PropertiesFrom(fuel, properties, ForInKeys(properties), instance, ast, anchors)
  }

  /** The handler's `for (propertyName in properties)` loop, from `names` on. */
  function PropertiesFrom(fuel: nat, properties: Json, names: seq<string>, instance: Json, ast: Ast, anchors: Anchors): Result<Json>
    decreases fuel, 2, |names|
  {
    if names == [] then Ok(instance)
    else
      var name := names[0];
      var value :- Evaluate(fuel, Prop(properties, name), Prop(instance, name), ast, anchors);
      var next :- if value.Undefined? then Ok(instance) else Put(instance, name, value);
      PropertiesFrom(fuel, properties, names[1..], next, ast, anchors)
  }

  /** evaluateSchema, with the loop over the entries and `instance` reassigned by each handler. */
  method EvaluateSchema(fuel: nat, schemaUri: Json, instance: Json, ast: Ast, anchors: Anchors) returns (r: Result<Json>)
    ensures r == Evaluate(fuel, schemaUri, instance, ast, anchors)
    decreases fuel, 1
  {
    if fuel == 0 {
      return Fail(RangeError);
    }
    if !schemaUri.Str? {
      return Fail(TypeError);
    }
    var uri := schemaUri.s;
    if uri in ast.nodes && ast.nodes[uri].BooleanNode? {
      return Ok(instance);
    }
    var iri := ToAbsoluteIri(uri);
    if iri !in ast.metaData || uri !in ast.nodes {
      return Fail(TypeError);
    }
    var dynamicAnchors := MergeAnchors(ast.metaData[iri], anchors);
    var entries := ast.nodes[uri].entries;
    var f := fuel - 1;
    assert Evaluate(fuel, schemaUri, instance, ast, anchors) == ApplyKeywords(f, entries, instance, ast, dynamicAnchors);
    var current := instance;
    for i := 0 to |entries|
      invariant ApplyKeywords(f, entries[i..], current, ast, dynamicAnchors)
             == ApplyKeywords(f, entries, instance, ast, dynamicAnchors)
    {
      var next := RunKeyword(f, entries[i], current, ast, dynamicAnchors);
      ApplyKeywordsStep(f, entries, i, current, ast, dynamicAnchors);
      if next.Fail? {
        return Fail(next.exception);
      }
      current := next.value;
    }
    assert entries[|entries|..] == [];
    return Ok(current);
  }

  /** The fold from entry `i` on: the entry's handler, then the fold from `i + 1` on. */
  lemma ApplyKeywordsStep(fuel: nat, entries: seq<KeywordEntry>, i: nat, instance: Json, ast: Ast, anchors: Anchors)
    requires i < |entries|
    ensures var next := ApplyEntry(fuel, entries[i], instance, ast, anchors);
            ApplyKeywords(fuel, entries[i..], instance, ast, anchors)
            == if next.Fail? then Fail(next.exception) else ApplyKeywords(fuel, entries[i + 1..], next.value, ast, anchors)
  {
    assert entries[i..][0] == entries[i] && entries[i..][1..] == entries[i + 1..];
  }

  /** One entry of the loop: look the handler up by its id and call it. */
  method RunKeyword(fuel: nat, entry: KeywordEntry, instance: Json, ast: Ast, anchors: Anchors) returns (r: Result<Json>)
    ensures r == ApplyEntry(fuel, entry, instance, ast, anchors)
    decreases fuel, 3
  {
    var handler := GetKeywordHandler(entry.keywordId);
    if handler.Fail? {
      return Fail(handler.exception);
    }
    match handler.value {
      case DefaultHandler =>
        r := Ok(DefaultKeyword(entry.keywordValue, instance));
      case PropertiesHandler =>
        r := PropertiesKeyword(fuel, entry.keywordValue, instance, ast, anchors);
    }
  }

  /** The `properties` handler, writing `instance[propertyName]` when the sub-result is defined. */
  method PropertiesKeyword(fuel: nat, properties: Json, instance: Json, ast: Ast, anchors: Anchors) returns (r: Result<Json>)
    ensures r == Properties(fuel, properties, instance, ast, anchors)
    decreases fuel, 3, 0
  {
    if !IsObject(instance) {
      return Ok(instance);
    }
    var names := ForInKeys(properties);
    var current := instance;
    for i := 0 to |names|
      invariant PropertiesFrom(fuel, properties, names[i..], current, ast, anchors)
             == PropertiesFrom(fuel, properties, names, instance, ast, anchors)
    {
      assert names[i..][1..] == names[i + 1..];
      var name := names[i];
      var value := EvaluateSchema(fuel, Prop(properties, name), Prop(current, name), ast, anchors);
      if value.Fail? {
        return Fail(value.exception);
      }
      if !value.value.Undefined? {
        var next := Put(current, name, value.value);
        if next.Fail? {
          return Fail(next.exception);
        }
        current := next.value;
      }
    }
    assert names[|names|..] == [];
    return Ok(current);
  }

  /**
   * JsonSchemaProcessor. Registration and compilation are foreign: the
   * compiled AST and its root URI are given to addDefaultsToInstance.
   */
  class JsonSchemaProcessor {
    var schema: Json
    var instance: Json

    constructor (schema: Json, instance: Json)
      ensures this.schema == schema && this.instance == instance
    {
      this.schema := schema;
      this.instance := instance;
    }

    /**
     * Reading `this.schema.$id` throws on an undefined or null schema, before any write.
     * Otherwise an object instance is filled in place; any other instance is only
     * replaced in the result. What an object instance holds after a failed evaluation
     * is left open: the source may have written some keys before the error.
     */
    method AddDefaultsToInstance(ast: Ast, schemaUri: string, fuel: nat) returns (r: Result<Json>)
      modifies this
      ensures old(schema).Undefined? || old(schema).Null? ==> r == Fail(TypeError)
      ensures !old(schema).Undefined? && !old(schema).Null? ==> r == Evaluate(fuel, Str(schemaUri), old(instance), ast, map[])
      ensures r.Ok? && old(instance).Obj? ==> instance == r.value && instance.Obj?
      ensures !old(instance).Obj? ==> instance == old(instance)
      ensures old(schema).Undefined? || old(schema).Null? ==> instance == old(instance)
      ensures schema == old(schema)
    {
      var schemaId := Get(schema, "$id");
      if schemaId.Fail? {
        return Fail(schemaId.exception);
      }
      r := EvaluateSchema(fuel, Str(schemaUri), instance, ast, map[]);
      if r.Ok? && instance.Obj? {
        EvaluateKeepsDefined(fuel, Str(schemaUri), instance, ast, map[]);
        instance := r.value;
      }
    }
  }

  // ---------------------------------------------------------------------------
  // Properties of the evaluator

  /**
   * More fuel never changes a result that did not run out of fuel: the bound only
   * stands for the engine's stack, and an evaluation that ends without a RangeError
   * ends the same way with any larger bound.
   */
  lemma {:induction false} EvaluateFuelMono(f: nat, g: nat, schemaUri: Json, instance: Json, ast: Ast, anchors: Anchors)
    requires f <= g && Evaluate(f, schemaUri, instance, ast, anchors) != Fail(RangeError)
    ensures Evaluate(g, schemaUri, instance, ast, anchors) == Evaluate(f, schemaUri, instance, ast, anchors)
    decreases f, 1
  {
    assert f > 0;
    if schemaUri.Str? {
      var uri := schemaUri.s;
      if !(uri in ast.nodes && ast.nodes[uri].BooleanNode?) && ToAbsoluteIri(uri) in ast.metaData && uri in ast.nodes {
        var merged := MergeAnchors(ast.metaData[ToAbsoluteIri(uri)], anchors);
        var entries := ast.nodes[uri].entries;
        assert Evaluate(f, schemaUri, instance, ast, anchors) == ApplyKeywords(f - 1, entries, instance, ast, merged);
        assert Evaluate(g, schemaUri, instance, ast, anchors) == ApplyKeywords(g - 1, entries, instance, ast, merged);
        ApplyKeywordsFuelMono(f - 1, g - 1, entries, instance, ast, merged);
      }
    }
  }

  lemma {:induction false} ApplyKeywordsFuelMono(f: nat, g: nat, entries: seq<KeywordEntry>, instance: Json, ast: Ast, anchors: Anchors)
    requires f <= g && ApplyKeywords(f, entries, instance, ast, anchors) != Fail(RangeError)
    ensures ApplyKeywords(g, entries, instance, ast, anchors) == ApplyKeywords(f, entries, instance, ast, anchors)
    decreases f, 4, |entries|
  {
    if entries != [] {
      ApplyEntryFuelMono(f, g, entries[0], instance, ast, anchors);
      var next := ApplyEntry(f, entries[0], instance, ast, anchors);
      if next.Ok? {
        ApplyKeywordsFuelMono(f, g, entries[1..], next.value, ast, anchors);
      }
    }
  }

  lemma {:induction false} ApplyEntryFuelMono(f: nat, g: nat, entry: KeywordEntry, instance: Json, ast: Ast, anchors: Anchors)
    requires f <= g && ApplyEntry(f, entry, instance, ast, anchors) != Fail(RangeError)
    ensures ApplyEntry(g, entry, instance, ast, anchors) == ApplyEntry(f, entry, instance, ast, anchors)
    decreases f, 3
  {
    if GetKeywordHandler(entry.keywordId) == Ok(PropertiesHandler) {
      PropertiesFuelMono(f, g, entry.keywordValue, instance, ast, anchors);
    }
  }

  lemma {:induction false} PropertiesFuelMono(f: nat, g: nat, properties: Json, instance: Json, ast: Ast, anchors: Anchors)
    requires f <= g && Properties(f, properties, instance, ast, anchors) != Fail(RangeError)
    ensures Properties(g, properties, instance, ast, anchors) == Properties(f, properties, instance, ast, anchors)
    decreases f, 3, 0
  {
    if IsObject(instance) {
      PropertiesFromFuelMono(f, g, properties, ForInKeys(properties), instance, ast, anchors);
    }
  }

  lemma {:induction false} PropertiesFromFuelMono(f: nat, g: nat, properties: Json, names: seq<string>, instance: Json, ast: Ast, anchors: Anchors)
    requires f <= g && PropertiesFrom(f, properties, names, instance, ast, anchors) != Fail(RangeError)
    ensures PropertiesFrom(g, properties, names, instance, ast, anchors) == PropertiesFrom(f, properties, names, instance, ast, anchors)
    decreases f, 2, |names|
  {
    if names != [] {
      var name := names[0];
      EvaluateFuelMono(f, g, Prop(properties, name), Prop(instance, name), ast, anchors);
      var value := Evaluate(f, Prop(properties, name), Prop(instance, name), ast, anchors);
      if value.Ok? {
        var next := if value.value.Undefined? then Ok(instance) else Put(instance, name, value.value);
        if next.Ok? {
          PropertiesFromFuelMono(f, g, properties, names[1..], next.value, ast, anchors);
        }
      }
    }
  }

  /** isObject holds exactly of plain objects. */
  lemma IsObjectExactly(v: Json)
    ensures IsObject(v) <==> v.Obj?
  {
  }

  /** A boolean node returns the instance unchanged, whatever the boolean. */
  lemma BooleanNodeIdentity(fuel: nat, uri: string, instance: Json, ast: Ast, anchors: Anchors)
    requires fuel > 0 && uri in ast.nodes && ast.nodes[uri].BooleanNode?
    ensures Evaluate(fuel, Str(uri), instance, ast, anchors) == Ok(instance)
  {
  }

  /** The `default` handler replaces exactly `undefined` (not null, false, 0 or ""), and is idempotent. */
  lemma DefaultKeywordFacts(defaultValue: Json, instance: Json)
    ensures DefaultKeyword(defaultValue, instance) == defaultValue <==> instance.Undefined? || instance == defaultValue
    ensures !instance.Undefined? ==> DefaultKeyword(defaultValue, instance) == instance
    ensures DefaultKeyword(defaultValue, DefaultKeyword(defaultValue, instance)) == DefaultKeyword(defaultValue, instance)
  {
  }

  /** A keyword node folds its entries left to right: evaluating a concatenation evaluates the parts in turn. */
  lemma {:induction false} ApplyKeywordsAppend(fuel: nat, e1: seq<KeywordEntry>, e2: seq<KeywordEntry>, instance: Json, ast: Ast, anchors: Anchors)
    ensures ApplyKeywords(fuel, e1 + e2, instance, ast, anchors)
         == (var mid :- ApplyKeywords(fuel, e1, instance, ast, anchors); ApplyKeywords(fuel, e2, mid, ast, anchors))
    decreases |e1|
  {
    if e1 == [] {
      assert e1 + e2 == e2;
    } else {
      assert (e1 + e2)[1..] == e1[1..] + e2;
      var first := ApplyEntry(fuel, e1[0], instance, ast, anchors);
      if first.Ok? {
        ApplyKeywordsAppend(fuel, e1[1..], e2, first.value, ast, anchors);
      }
    }
  }

  /** One more entry at the end sees the output of all the earlier ones. */
  lemma ApplyKeywordsSnoc(fuel: nat, entries: seq<KeywordEntry>, e: KeywordEntry, instance: Json, ast: Ast, anchors: Anchors)
    ensures ApplyKeywords(fuel, entries + [e], instance, ast, anchors)
         == (var mid :- ApplyKeywords(fuel, entries, instance, ast, anchors); ApplyEntry(fuel, e, mid, ast, anchors))
  {
    ApplyKeywordsAppend(fuel, entries, [e], instance, ast, anchors);
    var mid := ApplyKeywords(fuel, entries, instance, ast, anchors);
    if mid.Ok? {
      var last := ApplyEntry(fuel, e, mid.value, ast, anchors);
      if last.Ok? {
        assert ApplyKeywords(fuel, [], last.value, ast, anchors) == last;
      }
    }
  }

  /** A keyword id without a handler makes the whole node fail, and once reached it throws its own error. */
  lemma {:induction false} UnknownKeywordAborts(fuel: nat, entries: seq<KeywordEntry>, i: nat, instance: Json, ast: Ast, anchors: Anchors)
    requires i < |entries| && !KnownKeyword(entries[i].keywordId)
    ensures ApplyKeywords(fuel, entries, instance, ast, anchors).Fail?
    ensures (var before := ApplyKeywords(fuel, entries[..i], instance, ast, anchors);
             before.Ok? ==>
               ApplyKeywords(fuel, entries, instance, ast, anchors)
               == Fail(Error("No handler found for Keyword: " + ToAbsoluteIri(entries[i].keywordId))))
  {
    assert entries == entries[..i] + entries[i..];
    ApplyKeywordsAppend(fuel, entries[..i], entries[i..], instance, ast, anchors);
  }

  /** `properties` leaves any non-object instance (array, null, scalar, undefined) unchanged. */
  lemma PropertiesNonObject(fuel: nat, properties: Json, instance: Json, ast: Ast, anchors: Anchors)
    requires !instance.Obj?
    ensures Properties(fuel, properties, instance, ast, anchors) == Ok(instance)
  {
  }

  /** The loop of `properties` keeps an object an object. */
  lemma {:induction false} PropertiesFromKeepsObject(fuel: nat, properties: Json, names: seq<string>, instance: Json, ast: Ast, anchors: Anchors)
    requires instance.Obj?
    requires PropertiesFrom(fuel, properties, names, instance, ast, anchors).Ok?
    ensures PropertiesFrom(fuel, properties, names, instance, ast, anchors).value.Obj?
    decreases |names|
  {
    if names != [] {
      var name := names[0];
      var value := Evaluate(fuel, Prop(properties, name), Prop(instance, name), ast, anchors).value;
      var next := if value.Undefined? then instance else Put(instance, name, value).value;
      PropertiesFromKeepsObject(fuel, properties, names[1..], next, ast, anchors);
    }
  }

  /** A handler never replaces a defined instance: an object stays an object, anything else is returned as is. */
  lemma ApplyEntryKeepsDefined(fuel: nat, entry: KeywordEntry, instance: Json, ast: Ast, anchors: Anchors)
    requires !instance.Undefined?
    requires ApplyEntry(fuel, entry, instance, ast, anchors).Ok?
    ensures var r := ApplyEntry(fuel, entry, instance, ast, anchors).value;
            (instance.Obj? ==> r.Obj?) && (!instance.Obj? ==> r == instance)
  {
    var handler := GetKeywordHandler(entry.keywordId).value;
    if handler == PropertiesHandler && instance.Obj? {
      var props := entry.keywordValue;
      assert ApplyEntry(fuel, entry, instance, ast, anchors) == PropertiesFrom(fuel, props, ForInKeys(props), instance, ast, anchors);
      PropertiesFromKeepsObject(fuel, props, ForInKeys(props), instance, ast, anchors);
    }
  }

  /** The same for a whole node's entries. */
  lemma {:induction false} ApplyKeywordsKeepsDefined(fuel: nat, entries: seq<KeywordEntry>, instance: Json, ast: Ast, anchors: Anchors)
    requires !instance.Undefined?
    requires ApplyKeywords(fuel, entries, instance, ast, anchors).Ok?
    ensures var r := ApplyKeywords(fuel, entries, instance, ast, anchors).value;
            (instance.Obj? ==> r.Obj?) && (!instance.Obj? ==> r == instance)
    decreases |entries|
  {
    if entries != [] {
      var next := ApplyEntry(fuel, entries[0], instance, ast, anchors).value;
      ApplyEntryKeepsDefined(fuel, entries[0], instance, ast, anchors);
      ApplyKeywordsKeepsDefined(fuel, entries[1..], next, ast, anchors);
    }
  }

  /** evaluateSchema on a defined instance returns that instance, mutated in place when it is an object. */
  lemma EvaluateKeepsDefined(fuel: nat, schemaUri: Json, instance: Json, ast: Ast, anchors: Anchors)
    requires !instance.Undefined?
    requires Evaluate(fuel, schemaUri, instance, ast, anchors).Ok?
    ensures var r := Evaluate(fuel, schemaUri, instance, ast, anchors).value;
            (instance.Obj? ==> r.Obj?) && (!instance.Obj? ==> r == instance)
  {
    var uri := schemaUri.s;
    if !(uri in ast.nodes && ast.nodes[uri].BooleanNode?) {
      var merged := MergeAnchors(ast.metaData[ToAbsoluteIri(uri)], anchors);
      ApplyKeywordsKeepsDefined(fuel - 1, ast.nodes[uri].entries, instance, ast, merged);
    }
  }

  /** A sub-evaluation yields undefined only for an undefined instance. */
  lemma UndefinedOnlyFromUndefined(fuel: nat, schemaUri: Json, instance: Json, ast: Ast, anchors: Anchors)
    requires Evaluate(fuel, schemaUri, instance, ast, anchors) == Ok(Undefined)
    ensures instance.Undefined?
  {
    if !instance.Undefined? {
      EvaluateKeepsDefined(fuel, schemaUri, instance, ast, anchors);
    }
  }

  /** What the `properties` loop does to one visited key, measured against the instance before the loop. */
  ghost predicate PropertyOutcome(fuel: nat, properties: Json, name: string, instance: Json, ast: Ast, anchors: Anchors, r: Json) {
    var value := Evaluate(fuel, Prop(properties, name), Prop(instance, name), ast, anchors);
    && value.Ok?
    && (value.value.Undefined? ==> Prop(r, name) == Prop(instance, name) && (Present(r, name) <==> Present(instance, name)))
    && (!value.value.Undefined? ==> Prop(r, name) == value.value && Present(r, name))
  }

  /**
   * `properties` on an object: names outside the keyword value are untouched; a
   * named key takes its sub-evaluation's result, and is written only when that is defined.
   */
  lemma {:induction false} PropertiesFromFacts(fuel: nat, properties: Json, names: seq<string>, instance: Json, ast: Ast, anchors: Anchors)
    requires instance.Obj? && Distinct(names)
    requires PropertiesFrom(fuel, properties, names, instance, ast, anchors).Ok?
    ensures var r := PropertiesFrom(fuel, properties, names, instance, ast, anchors).value;
            && r.Obj?
            && (forall k :: k !in names ==> Prop(r, k) == Prop(instance, k) && (Present(r, k) <==> Present(instance, k)))
            && (forall k :: k in names ==> PropertyOutcome(fuel, properties, k, instance, ast, anchors, r))
    decreases |names|
  {
    if names != [] {
      var name := names[0];
      var rest := names[1..];
      DistinctTail(names);
      var value := Evaluate(fuel, Prop(properties, name), Prop(instance, name), ast, anchors).value;
      var next := if value.Undefined? then instance else Put(instance, name, value).value;
      PropertiesFromFacts(fuel, properties, rest, next, ast, anchors);
      var r := PropertiesFrom(fuel, properties, rest, next, ast, anchors).value;
      assert PropertiesFrom(fuel, properties, names, instance, ast, anchors) == Ok(r);
      forall k | k in names ensures PropertyOutcome(fuel, properties, k, instance, ast, anchors, r) {
        if k != name {
          assert k in rest;
          assert Prop(next, k) == Prop(instance, k) && (Present(next, k) <==> Present(instance, k));
        }
      }
    }
  }

  /** The handler's promise as seen by a caller: an absent key whose sub-schema yields undefined stays absent. */
  lemma PropertiesOnObject(fuel: nat, properties: Json, instance: Json, ast: Ast, anchors: Anchors)
    requires instance.Obj? && Proper(properties)
    requires Properties(fuel, properties, instance, ast, anchors).Ok?
    ensures var r := Properties(fuel, properties, instance, ast, anchors).value;
            && r.Obj?
            && (forall k :: !Present(properties, k) ==> Prop(r, k) == Prop(instance, k) && (Present(r, k) <==> Present(instance, k)))
            && (forall k :: k in ForInKeys(properties) ==> PropertyOutcome(fuel, properties, k, instance, ast, anchors, r))
  {
    ForInKeysDistinct(properties);
    PropertiesFromFacts(fuel, properties, ForInKeys(properties), instance, ast, anchors);
    var r := Properties(fuel, properties, instance, ast, anchors).value;
    forall k | !Present(properties, k)
      ensures Prop(r, k) == Prop(instance, k) && (Present(r, k) <==> Present(instance, k))
    {
      if k in ForInKeys(properties) {
        ForInKeysPresent(properties, k);
      }
    }
  }

  // ---------------------------------------------------------------------------
  // Order of keywords

  /** AST order is kept (keyword sorting is switched off): `properties` before `default` on one node. */
  function OrderExample(): Ast {
    Ast(
      map[
        "s" := KeywordNode([
          KeywordEntry(PROPERTIES_KEYWORD, Obj(["a"], map["a" := Str("s#/properties/a")])),
          KeywordEntry(DEFAULT_KEYWORD, Obj([], map[]))]),
        "s#/properties/a" := KeywordNode([KeywordEntry(DEFAULT_KEYWORD, Str("x"))])],
      map["s" := map[]])
  }

  /** One step of a keyword node: its entries run with the merged anchors. */
  lemma KeywordNodeStep(fuel: nat, uri: string, instance: Json, ast: Ast, anchors: Anchors)
    requires uri in ast.nodes && ast.nodes[uri].KeywordNode? && ToAbsoluteIri(uri) in ast.metaData
    ensures Evaluate(fuel + 1, Str(uri), instance, ast, anchors)
         == ApplyKeywords(fuel, ast.nodes[uri].entries, instance, ast, MergeAnchors(ast.metaData[ToAbsoluteIri(uri)], anchors))
  {
  }

  /** A `default` entry runs the default handler. */
  lemma DefaultEntry(fuel: nat, v: Json, instance: Json, ast: Ast, anchors: Anchors)
    ensures ApplyEntry(fuel, KeywordEntry(DEFAULT_KEYWORD, v), instance, ast, anchors) == Ok(DefaultKeyword(v, instance))
  {
    KnownKeywords();
  }

  /** A `properties` entry runs the properties handler. */
  lemma PropertiesEntry(fuel: nat, v: Json, instance: Json, ast: Ast, anchors: Anchors)
    ensures ApplyEntry(fuel, KeywordEntry(PROPERTIES_KEYWORD, v), instance, ast, anchors) == Properties(fuel, v, instance, ast, anchors)
  {
    KnownKeywords();
  }

  /** A node of one or two entries. */
  lemma ApplyTwo(fuel: nat, e0: KeywordEntry, e1: KeywordEntry, instance: Json, ast: Ast, anchors: Anchors)
    ensures ApplyKeywords(fuel, [e0], instance, ast, anchors) == ApplyEntry(fuel, e0, instance, ast, anchors)
    ensures ApplyKeywords(fuel, [e0, e1], instance, ast, anchors)
         == (var mid :- ApplyEntry(fuel, e0, instance, ast, anchors); ApplyEntry(fuel, e1, mid, ast, anchors))
  {
    assert [e0][1..] == [];
    assert [e0, e1][1..] == [e1];
    var mid := ApplyEntry(fuel, e0, instance, ast, anchors);
    if mid.Ok? {
      assert ApplyKeywords(fuel, [e1], mid.value, ast, anchors) == ApplyEntry(fuel, e1, mid.value, ast, anchors) by {
        assert [e1][1..] == [];
      }
    }
  }

  /** The node at `s#/properties/a` turns undefined into "x". */
  lemma OrderExampleSubNode()
    ensures Evaluate(2, Str("s#/properties/a"), Undefined, OrderExample(), map[]) == Ok(Str("x"))
  {
    var ast := OrderExample();
    var uri := "s#/properties/a";
    var e := KeywordEntry(DEFAULT_KEYWORD, Str("x"));
    SubNodeIri();
    OrderExampleNodes();
    assert MergeAnchors(map[], map[]) == map[];
    KeywordNodeStep(1, uri, Undefined, ast, map[]);
    ApplyTwo(1, e, e, Undefined, ast, map[]);
    DefaultEntry(1, Str("x"), Undefined, ast, map[]);
  }

  /** The nodes of the example AST. */
  lemma OrderExampleNodes()
    ensures var ast := OrderExample();
            && "s#/properties/a" in ast.nodes
            && ast.nodes["s#/properties/a"] == KeywordNode([KeywordEntry(DEFAULT_KEYWORD, Str("x"))])
            && "s" in ast.metaData && ast.metaData["s"] == map[]
  {
  }

  /** The sub-node's IRI belongs to the document `s`. */
  lemma SubNodeIri()
    ensures ToAbsoluteIri("s#/properties/a") == "s"
  {
    var iri := "s#/properties/a";
    assert iri[1..][0] == '#';
    assert FirstHash(iri[1..]) == 0;
    assert FirstHash(iri) == 1;
  }

  /** The root node of the example runs with no anchors. */
  lemma OrderExampleRoot(instance: Json)
    ensures var ast := OrderExample();
            Evaluate(3, Str("s"), instance, ast, map[]) == ApplyKeywords(2, ast.nodes["s"].entries, instance, ast, map[])
  {
    var ast := OrderExample();
    assert ToAbsoluteIri("s") == "s";
    assert ast.metaData["s"] == map[] && MergeAnchors(map[], map[]) == map[];
    KeywordNodeStep(2, "s", instance, ast, map[]);
  }

  /**
   * With `properties` stored before `default`, an undefined instance receives the
   * empty default unfilled ...
   */
  lemma KeywordOrderFirstRun()
    ensures Evaluate(3, Str("s"), Undefined, OrderExample(), map[]) == Ok(Obj([], map[]))
  {
    var ast := OrderExample();
    var props := Obj(["a"], map["a" := Str("s#/properties/a")]);
    var empty := Obj([], map[]);
    OrderExampleRoot(Undefined);
    ApplyTwo(2, KeywordEntry(PROPERTIES_KEYWORD, props), KeywordEntry(DEFAULT_KEYWORD, empty), Undefined, ast, map[]);
    PropertiesEntry(2, props, Undefined, ast, map[]);
    DefaultEntry(2, empty, Undefined, ast, map[]);
  }

  /** ... and evaluating that result again fills it: evaluation is not idempotent. */
  lemma KeywordOrderSecondRun()
    ensures Evaluate(3, Str("s"), Obj([], map[]), OrderExample(), map[]) == Ok(Obj(["a"], map["a" := Str("x")]))
  {
    var ast := OrderExample();
    var props := Obj(["a"], map["a" := Str("s#/properties/a")]);
    var empty := Obj([], map[]);
    var filled := Obj(["a"], map["a" := Str("x")]);
    OrderExampleRoot(empty);
    ApplyTwo(2, KeywordEntry(PROPERTIES_KEYWORD, props), KeywordEntry(DEFAULT_KEYWORD, empty), empty, ast, map[]);
    PropertiesEntry(2, props, empty, ast, map[]);
    OrderExampleFillsA(ast, props, empty);
    DefaultEntry(2, empty, filled, ast, map[]);
  }

  /** The root's `properties` entry stores "x" under `a` of an empty object. */
  lemma OrderExampleFillsA(ast: Ast, props: Json, empty: Json)
    requires ast == OrderExample() && props == Obj(["a"], map["a" := Str("s#/properties/a")]) && empty == Obj([], map[])
    ensures Properties(2, props, empty, ast, map[]) == Ok(Obj(["a"], map["a" := Str("x")]))
  {
    OrderExampleSubNode();
    PropertiesFillsOne(2, "a", Str("s#/properties/a"), Str("x"), ast, map[]);
  }

  /** A `properties` map with one sub-schema stores that sub-schema's result for an absent value. */
  lemma PropertiesFillsOne(fuel: nat, name: string, child: Json, value: Json, ast: Ast, anchors: Anchors)
    requires Evaluate(fuel, child, Undefined, ast, anchors) == Ok(value) && !value.Undefined?
    ensures Properties(fuel, Obj([name], map[name := child]), Obj([], map[]), ast, anchors)
            == Ok(Obj([name], map[name := value]))
  {
    var props := Obj([name], map[name := child]);
    var empty := Obj([], map[]);
    var filled := Obj([name], map[name := value]);
    assert Properties(fuel, props, empty, ast, anchors) == PropertiesFrom(fuel, props, [name], empty, ast, anchors) by {
      assert ForInKeys(props) == [name];
    }
    assert Prop(props, name) == child && Prop(empty, name) == Undefined;
    assert Put(empty, name, value) == Ok(filled) by {
      assert [] + [name] == [name];
      assert map[][name := value] == map[name := value];
    }
    assert [name][1..] == [];
    assert PropertiesFrom(fuel, props, [], filled, ast, anchors) == Ok(filled);
    assert PropertiesFrom(fuel, props, [name], empty, ast, anchors) == Ok(filled);
  }
}
