/**
 * Schema helpers: the two `dataType` classifiers (lib/helpers.js and the
 * older utilities/helpers.js) and `resolveRef`, a walk along the
 * `/`-separated segments of a reference.
 */
module SchemaHelpers {
  import opened JsonValue

  /** `schema.properties || schema.additionalProperties` */
  predicate HasObjectKeyword(schema: Json) {
    Truthy(Prop(schema, "properties")) || Truthy(Prop(schema, "additionalProperties"))
  }

  /** `schema.prefixItems || schema.items || schema.contains` */
  predicate HasArrayKeyword(schema: Json) {
    Truthy(Prop(schema, "prefixItems")) || Truthy(Prop(schema, "items")) || Truthy(Prop(schema, "contains"))
  }

  /** `schema.type || typeof schema.default` */
  function TypeOrDefaultType(schema: Json): Json {
    var t := Prop(schema, "type");
    if Truthy(t) then t else Str(TypeOf(Prop(schema, "default")))
  }

  /** dataType of lib/helpers.js: object keywords, then array keywords, then the declared type. */
  function DataType(schema: Json): (r: Result<Json>)
    ensures r.Fail? <==> schema.Undefined? || schema.Null?
    ensures r.Ok? && HasObjectKeyword(schema) ==> r.value == Str("object")
    ensures r.Ok? && !HasObjectKeyword(schema) && HasArrayKeyword(schema) ==> r.value == Str("array")
    ensures r.Ok? && !HasObjectKeyword(schema) && !HasArrayKeyword(schema) ==> r.value == TypeOrDefaultType(schema)
  {
    var _ :- Get(schema, "properties");
    if HasObjectKeyword(schema) then Ok(Str("object"))
    else if HasArrayKeyword(schema) then Ok(Str("array"))
    else Ok(TypeOrDefaultType(schema))
  }

  /** dataType of utilities/helpers.js: the declared type takes part in the first two tests. */
  function DataTypeLegacy(schema: Json): (r: Result<Json>)
    ensures r.Fail? <==> schema.Undefined? || schema.Null?
    ensures var t := Prop(schema, "type");
            r.Ok? && (t == Str("object") || HasObjectKeyword(schema)) ==> r.value == Str("object")
    ensures var t := Prop(schema, "type");
            (r.Ok? && !(t == Str("object") || HasObjectKeyword(schema)) && (t == Str("array") || HasArrayKeyword(schema)))
              ==> r.value == Str("array")
    ensures var t := Prop(schema, "type");
            r.Ok? && !HasObjectKeyword(schema) && !HasArrayKeyword(schema) && t.Null? ==> r.value == Null
    ensures var t := Prop(schema, "type");
            r.Ok? && !HasObjectKeyword(schema) && !HasArrayKeyword(schema) && t.Undefined? ==> r.value == Undefined
    ensures var t := Prop(schema, "type");
            (r.Ok? && !(t == Str("object") || HasObjectKeyword(schema)) && !(t == Str("array") || HasArrayKeyword(schema))
             && !t.Null? && !t.Undefined?)
              ==> r.value == TypeOrDefaultType(schema)
  {
    var t :- Get(schema, "type");
    if t == Str("object") || HasObjectKeyword(schema) then Ok(Str("object"))
    else if t == Str("array") || HasArrayKeyword(schema) then Ok(Str("array"))
    else if t.Null? then Ok(Null)
    else if t.Undefined? then Ok(Undefined)
    else Ok(TypeOrDefaultType(schema))
  }

  /** `additionalProperties: false` does not make a schema an object schema. */
  lemma AdditionalPropertiesFalseIgnored(schema: Json)
    requires schema.Obj? && Prop(schema, "additionalProperties") == Bool(false)
    requires !Truthy(Prop(schema, "properties")) && !HasArrayKeyword(schema)
    ensures DataType(schema) == Ok(TypeOrDefaultType(schema))
  {
  }

  /**
   * Without a truthy `type`, lib's dataType answers with a typeof string:
   * "undefined" when there is no default, "object" for a null, array or object default.
   */
  lemma DataTypeWithoutType(schema: Json)
    requires schema.Obj? && !HasObjectKeyword(schema) && !HasArrayKeyword(schema)
    requires !Truthy(Prop(schema, "type"))
    ensures var d := Prop(schema, "default");
            DataType(schema) == Ok(Str(TypeOf(d)))
            && (d.Undefined? ==> DataType(schema) == Ok(Str("undefined")))
            && (d.Null? || d.Arr? || d.Obj? ==> DataType(schema) == Ok(Str("object")))
  {
  }

  /**
   * The two versions agree except in three cases: a `type: "object"` schema that
   * only has array keywords, and a `type` that is null or missing (the older
   * version returns null or undefined, the newer one a typeof string).
   */
  lemma DataTypeVersionsAgree(schema: Json)
    requires schema.Obj?
    ensures var t := Prop(schema, "type");
            var differ := (t == Str("object") && !HasObjectKeyword(schema) && HasArrayKeyword(schema))
                          || (!HasObjectKeyword(schema) && !HasArrayKeyword(schema) && (t.Null? || t.Undefined?));
            DataTypeLegacy(schema) == DataType(schema) <==> !differ
  {
    var t := Prop(schema, "type");
    if !HasObjectKeyword(schema) && !HasArrayKeyword(schema) && t == Str("array") {
      assert DataType(schema) == Ok(Str("array"));
    }
  }

  /** In the older version the declared type of an array schema with `properties` still yields "object". */
  lemma LegacyObjectKeywordWins(schema: Json)
    requires schema.Obj? && Prop(schema, "type") == Str("array") && Truthy(Prop(schema, "properties"))
    ensures DataTypeLegacy(schema) == Ok(Str("object"))
  {
  }

  /**
   * Without object or array keywords the older version answers null for a null
   * `type` and undefined for a missing one, never consulting `default`; the
   * typeof of `default` is reached for any other falsy `type`: "", false, 0 or NaN.
   */
  lemma LegacyTypeCases(schema: Json)
    requires schema.Obj? && !HasObjectKeyword(schema) && !HasArrayKeyword(schema)
    ensures var t := Prop(schema, "type");
            && (t.Null? ==> DataTypeLegacy(schema) == Ok(Null))
            && (t.Undefined? ==> DataTypeLegacy(schema) == Ok(Undefined))
            && (!Truthy(t) && !t.Null? && !t.Undefined? ==> DataTypeLegacy(schema) == Ok(Str(TypeOf(Prop(schema, "default")))))
            && (Truthy(t) && t != Str("object") && t != Str("array") ==> DataTypeLegacy(schema) == Ok(t))
  {
  }

  // ---------------------------------------------------------------------------
  // resolveRef

  /** `s.split(sep)` for a one-character separator. */
  function Split(s: string, sep: char): (r: seq<string>)
    ensures |r| >= 1
    ensures forall i :: 0 <= i < |r| ==> sep !in r[i]
  {
    if s == [] then [""]
    else
      var rest := Split(s[1..], sep);
      if s[0] == sep then [""] + rest else [[s[0]] + rest[0]] + rest[1..]
  }

  /** `parts.join(sep)` */
  function Join(parts: seq<string>, sep: char): string
    requires |parts| >= 1
  {
    if |parts| == 1 then parts[0] else parts[0] + [sep] + Join(parts[1..], sep)
  }

  lemma {:induction false} SplitNoSeparator(s: string, sep: char)
    requires sep !in s
    ensures Split(s, sep) == [s]
  {
    if s != [] {
      SplitNoSeparator(s[1..], sep);
      assert [s[0]] + s[1..] == s;
    }
  }

  /** Splitting after one more separator adds exactly one more segment. */
  lemma {:induction false} SplitSnoc(t: string, sep: char, k: string)
    requires sep !in k
    ensures Split(t + [sep] + k, sep) == Split(t, sep) + [k]
  {
    if t == [] {
      assert t + [sep] + k == [sep] + k;
      SplitNoSeparator(k, sep);
      assert ([sep] + k)[1..] == k;
    } else {
      var u := t + [sep] + k;
      assert u[1..] == t[1..] + [sep] + k;
      SplitSnoc(t[1..], sep, k);
    }
  }

  /** join undoes split. */
  lemma {:induction false} JoinSplit(s: string, sep: char)
    ensures Join(Split(s, sep), sep) == s
  {
    if s != [] {
      JoinSplit(s[1..], sep);
      var rest := Split(s[1..], sep);
      if s[0] == sep {
        assert Split(s, sep)[1..] == rest;
      } else if |rest| == 1 {
        assert Split(s, sep) == [[s[0]] + rest[0]];
      } else {
        assert Split(s, sep)[1..] == rest[1..];
        assert Join(rest, sep) == rest[0] + [sep] + Join(rest[1..], sep);
      }
    }
  }

  /** split undoes join when no part holds the separator. */
  lemma {:induction false} SplitJoin(parts: seq<string>, sep: char)
    requires |parts| >= 1
    requires forall i :: 0 <= i < |parts| ==> sep !in parts[i]
    ensures Split(Join(parts, sep), sep) == parts
  {
    if |parts| == 1 {
      SplitNoSeparator(parts[0], sep);
    } else {
      var init := parts[..|parts| - 1];
      var last := parts[|parts| - 1];
      SplitJoin(init, sep);
      JoinSnoc(init, sep, last);
      assert init + [last] == parts;
      SplitSnoc(Join(init, sep), sep, last);
    }
  }

  lemma {:induction false} JoinSnoc(parts: seq<string>, sep: char, k: string)
    requires |parts| >= 1
    ensures Join(parts + [k], sep) == Join(parts, sep) + [sep] + k
  {
    if |parts| > 1 {
      assert (parts + [k])[1..] == parts[1..] + [k];
      JoinSnoc(parts[1..], sep, k);
    }
  }

  /** One property read per segment, in order. */
  function Descend(node: Json, path: seq<string>): Result<Json>
    decreases |path|
  {
    if path == [] then Ok(node)
    else
      var next :- Get(node, path[0]);
      Descend(next, path[1..])
  }

  lemma {:induction false} DescendSnoc(node: Json, path: seq<string>, k: string)
    ensures Descend(node, path + [k]) == (var n :- Descend(node, path); Get(n, k))
    decreases |path|
  {
    if path != [] {
      assert (path + [k])[1..] == path[1..] + [k];
      if Get(node, path[0]).Ok? {
        DescendSnoc(Get(node, path[0]).value, path[1..], k);
      }
    } else {
      assert [k][1..] == [];
    }
  }

  /** What resolveRef computes: the first segment is skipped, each later one read in turn. */
  function Resolved(ref: string, schema: Json): Result<Json> {
    Descend(schema, Split(ref, '/')[1..])
  }

  /** resolveRef of lib/helpers.js. */
  method ResolveRef(ref: string, schema: Json) returns (r: Result<Json>)
    ensures r == Resolved(ref, schema)
  {
    var parts := Split(ref, '/');
    var node := schema;
    for i := 1 to |parts|
      invariant Descend(node, parts[i..]) == Descend(schema, parts[1..])
    {
      assert parts[i..][1..] == parts[i + 1..];
      var next := Get(node, parts[i]);
      if next.Fail? {
        return Fail(next.exception);
      }
      node := next.value;
    }
    assert parts[|parts|..] == [];
    r := Ok(node);
  }

  /** A reference without `/` resolves to the schema itself. */
  lemma ResolveNoSlash(ref: string, schema: Json)
    requires '/' !in ref
    ensures Resolved(ref, schema) == Ok(schema)
  {
    SplitNoSeparator(ref, '/');
  }

  /** Appending a segment descends one more level from where the shorter reference lands. */
  lemma ResolveComposition(ref: string, k: string, schema: Json)
    requires '/' !in k
    ensures Resolved(ref + "/" + k, schema) == (var n :- Resolved(ref, schema); Get(n, k))
  {
    SplitSnoc(ref, '/', k);
    var parts := Split(ref, '/');
    assert (parts + [k])[1..] == parts[1..] + [k];
    DescendSnoc(schema, parts[1..], k);
  }

  /** Segments are used verbatim: "~1" is not unescaped to "/" as section 4 of RFC 6901 asks. */
  lemma ResolveVerbatim(schema: Json)
    ensures Resolved("#/a~1b", schema) == Get(schema, "a~1b")
  {
    assert "#/a~1b" == "#" + "/" + "a~1b";
    ResolveComposition("#", "a~1b", schema);
    ResolveNoSlash("#", schema);
  }

  /** The first segment is never read. */
  lemma ResolveIgnoresFirstSegment(a: string, b: string, rest: string, schema: Json)
    requires '/' !in a && '/' !in b
    ensures Resolved(a + "/" + rest, schema) == Resolved(b + "/" + rest, schema)
  {
    var ps := Split(rest, '/');
    JoinSplit(rest, '/');
    SplitJoin([a] + ps, '/');
    SplitJoin([b] + ps, '/');
    assert ([a] + ps)[1..] == ps && ([b] + ps)[1..] == ps;
    assert Join([a] + ps, '/') == a + "/" + rest;
    assert Join([b] + ps, '/') == b + "/" + rest;
  }

  /** A missing intermediate segment gives undefined; descending further throws. */
  lemma ResolveMissingSegment(ref: string, k: string, k2: string, schema: Json)
    requires '/' !in k && '/' !in k2
    requires Resolved(ref, schema).Ok? && Resolved(ref, schema).value.Obj?
    requires !Present(Resolved(ref, schema).value, k)
    ensures Resolved(ref + "/" + k, schema) == Ok(Undefined)
    ensures Resolved(ref + "/" + k + "/" + k2, schema) == Fail(TypeError)
  {
    ResolveComposition(ref, k, schema);
    ResolveComposition(ref + "/" + k, k2, schema);
  }
}
