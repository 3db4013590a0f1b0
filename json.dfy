/**
 * JSON-like values as the JavaScript code sees them, and the handful of
 * JavaScript operations the tree walks use on them: property read, property
 * write, `delete`, the `in` operator, `for...in` enumeration, truthiness and
 * `typeof`. The code runs as ES modules, so it is in strict mode: a property
 * write on a primitive throws a TypeError.
 */
module JsonValue {

  /** A JavaScript number: enough structure for truthiness and for the results of parseFloat/parseInt. */
  datatype Number = Finite(r: real) | NaN | Infinity(negative: bool)

  /**
   * A value. Objects keep their own keys in insertion order next to the
   * map of their fields; a key may be present with the value `Undefined`.
   */
  datatype Json =
    | Undefined
    | Null
    | Bool(b: bool)
    | Num(n: Number)
    | Str(s: string)
    | Arr(items: seq<Json>)
    | Obj(keys: seq<string>, fields: map<string, Json>)

  /** What the code can throw. */
  datatype Exception = TypeError | ReferenceError | RangeError | Error(message: string)

  /** A computation that either returns a value or throws. */
  datatype Result<+T> = Ok(value: T) | Fail(exception: Exception) {
    predicate IsFailure() { Fail? }
    function PropagateFailure<U>(): Result<U>
      requires Fail?
    {
      Fail(exception)
    }
    function Extract(): T
      requires Ok?
    {
      value
    }
  }

  /** A caller-held reference to a mutable document: what the in-place operations change. */
  class JsonRef {
    var value: Json

    constructor (v: Json)
      ensures value == v
    {
      value := v;
    }
  }

  function EmptyObject(): Json { Obj([], map[]) }

  // ---------------------------------------------------------------------------
  // Array index names: the own keys "0", "1", ... of an array.

  function Digit(d: nat): char
    requires d < 10
  {
    "0123456789"[d]
  }

  /** The decimal spelling of an array index, as `for...in` produces it. */
  function IndexName(i: nat): (r: string)
    ensures |r| >= 1
    decreases i
  {
    if i < 10 then [Digit(i)] else IndexName(i / 10) + [Digit(i % 10)]
  }

  lemma DigitInjective(a: nat, b: nat)
    requires a < 10 && b < 10 && Digit(a) == Digit(b)
    ensures a == b
  {
    var ds := "0123456789";
    assert forall x, y :: 0 <= x < y < 10 ==> ds[x] != ds[y];
  }

  /** Distinct indices have distinct names. */
  lemma {:induction false} IndexNameInjective(i: nat, j: nat)
    requires IndexName(i) == IndexName(j)
    ensures i == j
    decreases i
  {
    if i < 10 && j < 10 {
      DigitInjective(i, j);
    } else if i < 10 || j < 10 {
      // one name has a single digit, the other at least two
      assert false;
    } else {
      var a, b := IndexName(i / 10), IndexName(j / 10);
      assert IndexName(i) == a + [Digit(i % 10)];
      assert IndexName(j) == b + [Digit(j % 10)];
      assert |a| == |b|;
      assert Digit(i % 10) == IndexName(i)[|a|] == Digit(j % 10);
      DigitInjective(i % 10, j % 10);
      assert a == IndexName(i)[..|a|] == b;
      IndexNameInjective(i / 10, j / 10);
    }
  }

  /** The index among 0..n-1 whose name is k, or -1 when there is none. */
  function IndexOf(k: string, n: nat): (r: int)
    ensures -1 <= r < n
    ensures r >= 0 ==> IndexName(r) == k
    ensures r == -1 ==> forall i :: 0 <= i < n ==> IndexName(i) != k
  {
    if n == 0 then -1 else if IndexName(n - 1) == k then n - 1 else IndexOf(k, n - 1)
  }

  lemma IndexOfName(i: nat, n: nat)
    requires i < n
    ensures IndexOf(IndexName(i), n) == i
  {
    var r := IndexOf(IndexName(i), n);
    IndexNameInjective(r, i);
  }

  /** The names `for...in` enumerates for an array of length n. */
  function IndexNames(n: nat): (r: seq<string>)
    ensures |r| == n
    ensures forall i :: 0 <= i < n ==> r[i] == IndexName(i)
  {
    seq(n, i requires 0 <= i < n => IndexName(i))
  }

  /** Array lengths stay below 2^32; a larger index name is an ordinary property name. */
  const MAX_ARRAY_LENGTH: nat := 4294967295

  /** The value of a decimal digit, or -1 for any other character. */
  function DigitValue(c: char): (r: int)
    ensures -1 <= r < 10
    ensures r >= 0 ==> Digit(r) == c
  {
    if c == '0' then 0 else if c == '1' then 1 else if c == '2' then 2 else if c == '3' then 3
    else if c == '4' then 4 else if c == '5' then 5 else if c == '6' then 6 else if c == '7' then 7
    else if c == '8' then 8 else if c == '9' then 9 else -1
  }

  lemma DigitValueOfDigit(d: nat)
    requires d < 10
    ensures DigitValue(Digit(d)) == d
  {
    var ds := "0123456789";
    assert Digit(d) == ds[d];
    assert ds[0] == '0' && ds[1] == '1' && ds[2] == '2' && ds[3] == '3' && ds[4] == '4';
    assert ds[5] == '5' && ds[6] == '6' && ds[7] == '7' && ds[8] == '8' && ds[9] == '9';
  }

  predicate IsDigit(c: char) {
    DigitValue(c) >= 0
  }

  /** The value of a non-empty string of decimal digits. */
  function DecimalValue(s: string): nat
    requires |s| >= 1 && forall i :: 0 <= i < |s| ==> IsDigit(s[i])
    decreases |s|
  {
    assert IsDigit(s[|s| - 1]);
    var d := DigitValue(s[|s| - 1]);
    if |s| == 1 then d else 10 * DecimalValue(s[..|s| - 1]) + d
  }

  /** Decimal digits without a leading zero, or "0" itself: the spelling of an index. */
  predicate CanonicalIndex(s: string) {
    && |s| >= 1
    && (forall i :: 0 <= i < |s| ==> IsDigit(s[i]))
    && (|s| == 1 || s[0] != '0')
  }

  /** Every index is spelled canonically, and its spelling reads back as the index. */
  lemma {:induction false} IndexNameCanonical(i: nat)
    ensures CanonicalIndex(IndexName(i)) && DecimalValue(IndexName(i)) == i
    decreases i
  {
    DigitValueOfDigit(i % 10);
    if i >= 10 {
      var a := IndexName(i / 10);
      var s := IndexName(i);
      IndexNameCanonical(i / 10);
      assert s == a + [Digit(i % 10)];
      assert s[..|s| - 1] == a;
      assert forall j :: 0 <= j < |s| ==> IsDigit(s[j]) by {
        forall j | 0 <= j < |s| ensures IsDigit(s[j]) {
          if j < |a| { assert s[j] == a[j]; }
        }
      }
      assert s[0] != '0' by {
        assert s[0] == a[0];
        if |a| == 1 {
          DigitValueOfDigit(i / 10);
          assert a == [Digit(i / 10)];
        }
      }
    }
  }

  /** A canonical spelling is the name of the index it denotes. */
  lemma {:induction false} CanonicalIndexName(s: string)
    requires CanonicalIndex(s)
    ensures IndexName(DecimalValue(s)) == s
    ensures |s| >= 2 ==> DecimalValue(s) >= 10
    decreases |s|
  {
    var d := DigitValue(s[|s| - 1]);
    if |s| == 1 {
      assert IndexName(d) == [Digit(d)];
    } else {
      var p := s[..|s| - 1];
      assert p[0] == s[0];
      assert CanonicalIndex(p) by {
        forall j | 0 <= j < |p| ensures IsDigit(p[j]) {
          assert p[j] == s[j];
        }
      }
      CanonicalIndexName(p);
      var a := DecimalValue(p);
      assert a >= 1;
      assert DecimalValue(s) == 10 * a + d;
      DecimalStep(a, d);
      SplitLast(s);
    }
  }

  /** A nonempty string is its prefix followed by its last character. */
  lemma SplitLast(s: string)
    requires |s| >= 1
    ensures s[..|s| - 1] + [s[|s| - 1]] == s
  {
  }

  /** Appending digit d to the spelling of a: a number of at least two digits. */
  lemma DecimalStep(a: nat, d: nat)
    requires a >= 1 && d < 10
    ensures 10 * a + d >= 10 && IndexName(10 * a + d) == IndexName(a) + [Digit(d)]
  {
    var v := 10 * a + d;
    DivTen(v, a, d);
    assert IndexName(v) == IndexName(v / 10) + [Digit(v % 10)];
  }

  /** Euclidean division by ten undoes appending a digit. */
  lemma DivTen(v: nat, a: nat, d: nat)
    requires v == 10 * a + d && d < 10
    ensures v / 10 == a && v % 10 == d
  {
    var q, m := v / 10, v % 10;
    assert v == 10 * q + m && 0 <= m < 10;
    assert 10 * (q - a) == d - m;
  }

  /** The array index a property name denotes, or -1 when it names no index. */
  function ArrayIndex(k: string): (r: int)
    ensures -1 <= r < MAX_ARRAY_LENGTH
    ensures r >= 0 ==> IndexName(r) == k
  {
    if CanonicalIndex(k) && DecimalValue(k) < MAX_ARRAY_LENGTH then
      CanonicalIndexName(k);
      DecimalValue(k)
    else -1
  }

  /** Every index below the length limit is denoted by its own name. */
  lemma ArrayIndexOfName(i: nat)
    requires i < MAX_ARRAY_LENGTH
    ensures ArrayIndex(IndexName(i)) == i
  {
    IndexNameCanonical(i);
  }

  // ---------------------------------------------------------------------------
  // Keys of an object.

  /** The key list after `delete`: the same order with k taken out. */
  function RemoveKey(keys: seq<string>, k: string): (r: seq<string>)
    ensures forall x :: x in r <==> x in keys && x != k
    ensures |r| <= |keys|
  {
    if keys == [] then []
    else if keys[0] == k then RemoveKey(keys[1..], k)
    else [keys[0]] + RemoveKey(keys[1..], k)
  }

  predicate Distinct(keys: seq<string>) {
    forall i, j :: 0 <= i < j < |keys| ==> keys[i] != keys[j]
  }

  lemma {:induction false} RemoveKeyDistinct(keys: seq<string>, k: string)
    requires Distinct(keys)
    ensures Distinct(RemoveKey(keys, k))
  {
    if keys != [] {
      assert Distinct(keys[1..]) by {
        forall i, j | 0 <= i < j < |keys[1..]| ensures keys[1..][i] != keys[1..][j] {
          assert keys[1..][i] == keys[i + 1] && keys[1..][j] == keys[j + 1];
        }
      }
      RemoveKeyDistinct(keys[1..], k);
      if keys[0] != k {
        assert keys[0] !in keys[1..];
        assert keys[0] !in RemoveKey(keys[1..], k);
      }
    }
  }

  /** The object invariant: each own key listed once, and the list matches the fields. */
  predicate ObjectShape(keys: seq<string>, fields: map<string, Json>) {
    Distinct(keys) && (forall k :: k in fields ==> k in keys) && (forall k :: k in keys ==> k in fields)
  }

  /** Every object inside the value keeps the object invariant. */
  predicate Proper(v: Json) {
    match v
    case Obj(keys, fields) => ObjectShape(keys, fields) && forall k :: k in fields ==> Proper(fields[k])
    case Arr(items) => forall i :: 0 <= i < |items| ==> Proper(items[i])
    case _ => true
  }

  // ---------------------------------------------------------------------------
  // Property access.

  predicate IsContainer(v: Json) { v.Obj? || v.Arr? }

  /** An in-place update keeps the kind of a value: objects stay objects, arrays keep their length. */
  predicate SameShape(v: Json, w: Json) {
    && (v.Obj? ==> w.Obj?)
    && (v.Arr? ==> w.Arr? && |w.items| == |v.items|)
    && (!IsContainer(v) ==> w == v)
  }

  /** What in-place writes keep when arrays may grow: objects stay objects, arrays never shrink. */
  predicate Grows(v: Json, w: Json) {
    && (v.Obj? ==> w.Obj?)
    && (v.Arr? ==> w.Arr? && |w.items| >= |v.items|)
    && (!IsContainer(v) ==> w == v)
  }

  /** `v[k]` on a value that is not undefined or null (absent keys read `undefined`). */
  function Prop(v: Json, k: string): Json {
    match v
    case Obj(_, fields) => if k in fields then fields[k] else Undefined
    case Arr(items) =>
      var i := IndexOf(k, |items|);
      if i >= 0 then items[i] else if k == "length" then Num(Finite(|items| as real)) else Undefined
    case _ => Undefined
  }

  /** Whether k is an own key of v (an own property of an object or an array). */
  predicate Present(v: Json, k: string) {
    match v
    case Obj(_, fields) => k in fields
    case Arr(items) => IndexOf(k, |items|) >= 0 || k == "length"
    case _ => false
  }

  /** `v[k]`: reading a property of undefined or null throws. */
  function Get(v: Json, k: string): (r: Result<Json>)
    ensures r.Fail? <==> v.Undefined? || v.Null?
    ensures r.Fail? ==> r.exception == TypeError
    ensures r.Ok? ==> r.value == Prop(v, k)
  {
    if v.Undefined? || v.Null? then Fail(TypeError) else Ok(Prop(v, k))
  }

  /** `k in v`: the right operand must be an object. */
  function HasKey(v: Json, k: string): (r: Result<bool>)
    ensures r.Ok? <==> IsContainer(v)
    ensures r.Fail? ==> r.exception == TypeError
    ensures r.Ok? ==> r.value == Present(v, k)
  {
    if IsContainer(v) then Ok(Present(v, k)) else Fail(TypeError)
  }

  /** Whether `v[k] = x` extends the array v: k names an index at or past its end. */
  predicate Extends(v: Json, k: string) {
    v.Arr? && ArrayIndex(k) >= |v.items|
  }

  /**
   * `v[k] = x` in strict mode. On an array, a write past the end makes the
   * array one longer than the index, with `undefined` in the slots between;
   * a write of a name that is no index leaves the JSON value as it was.
   */
  function Put(v: Json, k: string, x: Json): (r: Result<Json>)
    ensures r.Ok? <==> IsContainer(v)
    ensures r.Fail? ==> r.exception == TypeError
    ensures r.Ok? && v.Obj? ==> Prop(r.value, k) == x && Present(r.value, k)
    ensures r.Ok? && v.Arr? && IndexOf(k, |v.items|) >= 0 ==> Prop(r.value, k) == x
    ensures r.Ok? && (v.Obj? || IndexOf(k, |v.items|) >= 0) ==>
              forall j :: j != k ==> Prop(r.value, j) == Prop(v, j) && (Present(r.value, j) <==> Present(v, j))
    ensures r.Ok? && (v.Obj? || IndexOf(k, |v.items|) >= 0) ==> SameShape(v, r.value)
    ensures r.Ok? ==> Grows(v, r.value)
    ensures r.Ok? && v.Obj? && k in v.fields ==> r.value.keys == v.keys
  {
    match v
    case Obj(keys, fields) => Ok(Obj(if k in fields then keys else keys + [k], fields[k := x]))
    case Arr(items) => Ok(Arr(SetItem(items, k, x)))
    case _ => Fail(TypeError)
  }

  /**
   * A write at or past the end of an array: the array becomes one longer than the
   * index, keeps its items, holds `x` at the index, and reads alike at every other
   * name except "length".
   */
  lemma PutExtends(v: Json, k: string, x: Json)
    requires Extends(v, k)
    ensures var r := Put(v, k, x).value;
            && r.Arr? && |r.items| == ArrayIndex(k) + 1
            && r.items[..|v.items|] == v.items
            && Prop(r, k) == x && Present(r, k)
            && (forall j :: j != k && j != "length" ==> Prop(r, j) == Prop(v, j))
  {
    if IndexOf(k, |v.items|) >= 0 {
      IndexNameInjective(ArrayIndex(k), IndexOf(k, |v.items|));
    }
  }

  /** A name at or past the end of an array is no own key yet, so it reads `undefined`. */
  lemma PastEndUndefined(v: Json, k: string)
    requires Extends(v, k)
    ensures IndexOf(k, |v.items|) == -1 && Prop(v, k) == Undefined && !Present(v, k)
  {
    if IndexOf(k, |v.items|) >= 0 {
      IndexNameInjective(ArrayIndex(k), IndexOf(k, |v.items|));
    }
    assert k != "length" by {
      assert IsDigit(k[0]);
      assert !IsDigit("length"[0]);
    }
  }

  /** `a[k] = x` on an array's items. */
  function SetItem(items: seq<Json>, k: string, x: Json): (w: seq<Json>)
    ensures IndexOf(k, |items|) >= 0 || ArrayIndex(k) >= 0 ==> Prop(Arr(w), k) == x && Present(Arr(w), k)
    ensures !Extends(Arr(items), k) ==>
              && |w| == |items|
              && forall j :: j != k ==> Prop(Arr(w), j) == Prop(Arr(items), j) && (Present(Arr(w), j) <==> Present(Arr(items), j))
    ensures Extends(Arr(items), k) ==>
              && |w| == ArrayIndex(k) + 1 && w[..|items|] == items
              && forall j :: j != k && j != "length" ==> Prop(Arr(w), j) == Prop(Arr(items), j)
    ensures forall i :: 0 <= i < |w| ==> w[i] == x || w[i] == Undefined || w[i] in items
  {
    var i := IndexOf(k, |items|);
    if i >= 0 then
      ReplacedFrame(items, i, x, k);
      items[i := x]
    else
      var n := ArrayIndex(k);
      if n >= 0 then
        var w := items + seq(n - |items|, _ => Undefined) + [x];
        IndexOfName(n, n + 1);
        ExtendedFrame(items, n, w, k);
        w
      else items
  }

  /** Overwriting slot i, the slot k names, changes no read of another name and never extends. */
  lemma ReplacedFrame(items: seq<Json>, i: nat, x: Json, k: string)
    requires i < |items| && IndexOf(k, |items|) == i
    ensures !Extends(Arr(items), k)
    ensures Prop(Arr(items[i := x]), k) == x
    ensures forall j :: j != k ==> Prop(Arr(items[i := x]), j) == Prop(Arr(items), j)
    ensures forall j :: j != k ==> (Present(Arr(items[i := x]), j) <==> Present(Arr(items), j))
  {
    assert forall j :: j != k ==> IndexOf(j, |items|) != i;
    if ArrayIndex(k) >= 0 {
      IndexNameInjective(ArrayIndex(k), i);
    }
  }

  /** Growing an array to slot n changes no read of a name other than slot n's and "length". */
  lemma ExtendedFrame(items: seq<Json>, n: nat, w: seq<Json>, k: string)
    requires |items| <= n && |w| == n + 1 && w[..|items|] == items
    requires forall m :: |items| <= m < n ==> w[m] == Undefined
    requires IndexName(n) == k
    ensures forall j :: j != k && j != "length" ==> Prop(Arr(w), j) == Prop(Arr(items), j)
  {
    forall j | j != k && j != "length"
      ensures Prop(Arr(w), j) == Prop(Arr(items), j)
    {
      var m := IndexOf(j, |w|);
      if m >= 0 {
        if m < |items| {
          IndexOfName(m, |items|);
          assert w[m] == items[m];
        } else {
          assert m != n;
          var m' := IndexOf(j, |items|);
          if m' >= 0 { IndexNameInjective(m, m'); }
        }
      }
    }
  }

  /** `delete v[k]`; an array keeps its length and the slot reads `undefined`. */
  function Delete(v: Json, k: string): (r: Json)
    ensures v.Obj? || (v.Arr? && IndexOf(k, |v.items|) >= 0) ==> Prop(r, k) == Undefined
    ensures v.Obj? ==> r.Obj? && !Present(r, k) && r.keys == RemoveKey(v.keys, k)
    ensures forall j :: j != k ==> Prop(r, j) == Prop(v, j) && (Present(r, j) <==> Present(v, j))
    ensures SameShape(v, r)
  {
    match v
    case Obj(keys, fields) => Obj(RemoveKey(keys, k), fields - {k})
    case Arr(items) =>
      var i := IndexOf(k, |items|);
      if i >= 0 then
        assert forall j :: j != k ==> IndexOf(j, |items|) != i;
        Arr(items[i := Undefined])
      else v
    case _ => v
  }

  /** The keys `for (key in v)` visits: own keys of objects and index names of arrays. */
  function ForInKeys(v: Json): (r: seq<string>)
    ensures r != [] ==> IsContainer(v)
    ensures v.Arr? ==> forall k :: k in r ==> IndexOf(k, |v.items|) >= 0
  {
    match v
    case Obj(keys, _) => keys
    case Arr(items) =>
      forall k | k in IndexNames(|items|) ensures IndexOf(k, |items|) >= 0 {
        var i :| 0 <= i < |items| && IndexNames(|items|)[i] == k;
        IndexOfName(i, |items|);
      }
      IndexNames(|items|)
    case _ => []
  }

  // ---------------------------------------------------------------------------
  // Tests on values.

  /** JavaScript truthiness. */
  predicate Truthy(v: Json) {
    match v
    case Undefined => false
    case Null => false
    case Bool(b) => b
    case Num(n) => (n.Finite? && n.r != 0.0) || n.Infinity?
    case Str(s) => s != ""
    case _ => true
  }

  /** The `typeof` operator. */
  function TypeOf(v: Json): string {
    match v
    case Undefined => "undefined"
    case Bool(_) => "boolean"
    case Num(_) => "number"
    case Str(_) => "string"
    case _ => "object"
  }

  /** `typeof v === "object" && !Array.isArray(v)`: a plain object, or null. */
  predicate IsObjectNotArray(v: Json) {
    TypeOf(v) == "object" && !v.Arr?
  }

  // ---------------------------------------------------------------------------
  // Facts about the operations.

  lemma PutKeepsProper(v: Json, k: string, x: Json)
    requires Proper(v) && Proper(x) && IsContainer(v)
    ensures Put(v, k, x).Ok? && Proper(Put(v, k, x).value)
  {
    match v
    case Obj(keys, fields) => PutObjectProper(keys, fields, k, x);
    case Arr(items) => SetItemProper(items, k, x);
  }

  lemma PutObjectProper(keys: seq<string>, fields: map<string, Json>, k: string, x: Json)
    requires Proper(Obj(keys, fields)) && Proper(x)
    ensures Proper(Obj(if k in fields then keys else keys + [k], fields[k := x]))
  {
    if k !in fields {
      var ks := keys + [k];
      assert forall i :: 0 <= i < |keys| ==> ks[i] == keys[i];
    }
  }

  lemma SetItemProper(items: seq<Json>, k: string, x: Json)
    requires Proper(Arr(items)) && Proper(x)
    ensures Proper(Arr(SetItem(items, k, x)))
  {
    var w := SetItem(items, k, x);
    forall i | 0 <= i < |w|
      ensures Proper(w[i])
    {
      if w[i] != x && w[i] != Undefined {
        var j :| 0 <= j < |items| && items[j] == w[i];
      }
    }
  }

  lemma DeleteKeepsProper(v: Json, k: string)
    requires Proper(v)
    ensures Proper(Delete(v, k))
  {
    match v
    case Obj(keys, fields) => RemoveKeyDistinct(keys, k);
    case _ =>
  }

  lemma IndexNamesDistinct(n: nat)
    ensures Distinct(IndexNames(n))
  {
    forall i, j | 0 <= i < j < n ensures IndexNames(n)[i] != IndexNames(n)[j] {
      if IndexName(i) == IndexName(j) { IndexNameInjective(i, j); }
    }
  }

  /** The keys `for...in` visits are distinct, and each is an own key. */
  lemma ForInKeysDistinct(v: Json)
    requires Proper(v)
    ensures Distinct(ForInKeys(v))
    ensures forall k :: k in ForInKeys(v) ==> Present(v, k)
  {
    if v.Arr? {
      IndexNamesDistinct(|v.items|);
      forall k | k in ForInKeys(v) ensures Present(v, k) {
        var i :| 0 <= i < |v.items| && IndexNames(|v.items|)[i] == k;
        IndexOfName(i, |v.items|);
      }
    }
  }

  /** Keys enumerated by `for...in` are own keys. */
  lemma ForInKeysPresent(v: Json, k: string)
    requires Proper(v) && k in ForInKeys(v)
    ensures Present(v, k)
  {
  }

  /** Shapes compose, so a sequence of in-place updates keeps the shape. */
  lemma SameShapeTransitive(u: Json, v: Json, w: Json)
    requires SameShape(u, v) && SameShape(v, w)
    ensures SameShape(u, w)
  {
  }

  /** Growth composes, so a sequence of in-place updates never shrinks an array. */
  lemma GrowsTransitive(u: Json, v: Json, w: Json)
    requires Grows(u, v) && Grows(v, w)
    ensures Grows(u, w)
  {
  }

  /** Same shape means the same keys for arrays. */
  lemma SameShapeForIn(v: Json, w: Json)
    requires SameShape(v, w) && !v.Obj?
    ensures ForInKeys(w) == ForInKeys(v)
  {
  }

  /** Writing back the value a key already holds changes nothing. */
  lemma PutSame(v: Json, k: string)
    requires IsContainer(v) && k in ForInKeys(v) && Proper(v)
    ensures Put(v, k, Prop(v, k)) == Ok(v)
  {
    match v
    case Obj(keys, fields) =>
      assert fields[k := fields[k]] == fields;
    case Arr(items) =>
      var i := IndexOf(k, |items|);
      assert items[i := items[i]] == items;
  }

  lemma {:induction false} RemoveAbsentKey(keys: seq<string>, k: string)
    requires k !in keys
    ensures RemoveKey(keys, k) == keys
  {
    if keys != [] {
      RemoveAbsentKey(keys[1..], k);
      assert [keys[0]] + keys[1..] == keys;
    }
  }

  /** Deleting what is already gone changes nothing. */
  lemma DeleteGone(v: Json, k: string)
    requires Proper(v)
    requires v.Obj? ==> !Present(v, k)
    requires v.Arr? ==> Prop(v, k) == Undefined
    ensures Delete(v, k) == v
  {
    match v
    case Obj(keys, fields) =>
      RemoveAbsentKey(keys, k);
      assert fields - {k} == fields;
    case Arr(items) =>
      var i := IndexOf(k, |items|);
      if i >= 0 {
        assert items[i := Undefined] == items;
      }
    case _ =>
  }

  /** The members of a well-formed value are well-formed. */
  lemma PropProper(v: Json, k: string)
    requires Proper(v)
    ensures Proper(Prop(v, k))
  {
  }

  /** Keys outside `keys` read and exist the same in `a` and `b`. */
  ghost predicate Untouched(a: Json, b: Json, keys: seq<string>) {
    forall k :: k !in keys ==> Prop(b, k) == Prop(a, k) && (Present(b, k) <==> Present(a, k))
  }

  lemma DistinctTail(keys: seq<string>)
    requires Distinct(keys) && keys != []
    ensures Distinct(keys[1..]) && keys[0] !in keys[1..]
  {
    var rest := keys[1..];
    forall i, j | 0 <= i < j < |rest| ensures rest[i] != rest[j] {
      assert rest[i] == keys[i + 1] && rest[j] == keys[j + 1];
    }
    forall j | 0 <= j < |rest| ensures rest[j] != keys[0] {
      assert rest[j] == keys[j + 1];
    }
  }
}
