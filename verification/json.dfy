/**
 * JSON documents as the fetch script sees them once parsed, and the two pieces of
 * JavaScript property access the comparator relies on: `Object.keys(x)` and `x[key]`.
 *
 * `undefined` is not a JSON value, but it is what `x[key]` yields for a missing key,
 * so the comparator works on `Value`, which adds it.
 */
module JsonValue {
  import opened Wrappers

  /** A parsed JSON document. Numbers are unbounded integers. Objects are maps, so
      their key order carries no meaning, exactly as for lodash's deep equality. */
  datatype Json =
    | Null
    | Bool(b: bool)
    | Num(n: int)
    | Str(s: string)
    | Arr(items: seq<Json>)
    | Obj(fields: map<string, Json>)

  /** A JavaScript value reached while walking a document: a JSON value or `undefined`. */
  datatype Value = Undefined | Defined(json: Json)

  /** Arrays and objects: the JSON values whose `typeof` is 'object' and that are not null. */
  predicate IsContainer(j: Json) {
    j.Arr? || j.Obj?
  }

  /** `typeof v === 'object' && v !== null` */
  predicate ObjectLike(v: Value) {
    v.Defined? && IsContainer(v.json)
  }

  /** The property every JavaScript array answers to besides its indices. */
  const LengthKey: string := "length"

  // ---------------------------------------------------------------------------
  // Array index keys: the canonical decimal strings "0", "1", ..., "10", ...
  // ---------------------------------------------------------------------------

  predicate IsDigit(c: char) {
    '0' <= c <= '9'
  }

  predicate AllDigits(s: string) {
    forall i :: 0 <= i < |s| ==> IsDigit(s[i])
  }

  function DigitChar(d: nat): (c: char)
    requires d < 10
    ensures IsDigit(c)
    ensures c as int - '0' as int == d
  {
    ('0' as int + d) as char
  }

  /** The property name under which `Object.keys` lists the array element at `i`. */
  function IndexKey(i: nat): (k: string)
    ensures |k| > 0 && AllDigits(k)
    ensures |k| > 1 ==> k[0] != '0'
    decreases i
  {
    if i < 10 then [DigitChar(i)] else IndexKey(i / 10) + [DigitChar(i % 10)]
  }

  /** The number a string of decimal digits denotes (leading zeros allowed). */
  function DecimalValue(s: string): nat
    requires AllDigits(s)
  {
    if |s| == 0 then 0
    else 10 * DecimalValue(s[..|s| - 1]) + (s[|s| - 1] as int - '0' as int)
  }

  /** The array index a property name denotes, if any. Only canonical decimal names
      ("7", not "07", "+7" or "7.0") reach an array element. */
  function ParseIndex(k: string): (r: Option<nat>)
    ensures r.Some? ==> AllDigits(k) && |k| > 0
    ensures r.Some? ==> |k| == 1 || k[0] != '0'
  {
    if |k| == 0 || !AllDigits(k) || (|k| > 1 && k[0] == '0') then None
    else Some(DecimalValue(k))
  }

  lemma {:induction false} DecimalValueOfIndexKey(i: nat)
    ensures DecimalValue(IndexKey(i)) == i
    decreases i
  {
    if i >= 10 {
      var k := IndexKey(i);
      assert k[..|k| - 1] == IndexKey(i / 10);
      DecimalValueOfIndexKey(i / 10);
    }
  }

  /** A decimal string without a leading zero denotes a positive number. */
  lemma {:induction false} DecimalValuePositive(s: string)
    requires |s| > 0 && AllDigits(s) && s[0] != '0'
    ensures DecimalValue(s) > 0
    decreases |s|
  {
    if |s| > 1 {
      DecimalValuePositive(s[..|s| - 1]);
    }
  }

  /** Index keys parse back to their index. */
  lemma ParseIndexKey(i: nat)
    ensures ParseIndex(IndexKey(i)) == Some(i)
  {
    DecimalValueOfIndexKey(i);
  }

  /** Every name that parses as an index is the canonical key of that index. */
  lemma {:induction false} IndexKeyOfParse(k: string)
    requires ParseIndex(k).Some?
    ensures IndexKey(ParseIndex(k).value) == k
    decreases |k|
  {
    var i := ParseIndex(k).value;
    if |k| > 1 {
      var front := k[..|k| - 1];
      assert AllDigits(front);
      DecimalValuePositive(front);
      assert ParseIndex(front) == Some(DecimalValue(front));
      IndexKeyOfParse(front);
      assert i / 10 == DecimalValue(front) && i % 10 == k[|k| - 1] as int - '0' as int;
      assert k == front + [k[|k| - 1]];
    } else {
      assert k[..0] == [] && DecimalValue(k[..0]) == 0;
      assert i == k[0] as int - '0' as int;
      assert DigitChar(i) == k[0];
    }
  }

  /** Distinct indices have distinct keys. */
  lemma IndexKeyInjective(i: nat, j: nat)
    ensures IndexKey(i) == IndexKey(j) <==> i == j
  {
    ParseIndexKey(i);
    ParseIndexKey(j);
  }

  /** "length" is not an index key, so arrays never list it. */
  lemma LengthIsNotIndexKey(i: nat)
    ensures IndexKey(i) != LengthKey
  {
    assert IsDigit(IndexKey(i)[0]);
  }

  // ---------------------------------------------------------------------------
  // Property access
  // ---------------------------------------------------------------------------

  /** `Object.keys(j)` as a set: the index keys of an array, the keys of an object. */
  function OwnKeys(j: Json): (ks: set<string>)
    requires IsContainer(j)
    ensures j.Obj? ==> ks == j.fields.Keys
    ensures j.Arr? ==> forall i :: 0 <= i < |j.items| ==> IndexKey(i) in ks
    ensures j.Arr? ==> forall k :: k in ks ==> ParseIndex(k).Some? && ParseIndex(k).value < |j.items|
    ensures LengthKey !in ks || j.Obj?
  {
    match j
    case Obj(fields) => fields.Keys
    case Arr(items) =>
      var ks := set i | 0 <= i < |items| :: IndexKey(i);
      assert forall k :: k in ks ==> ParseIndex(k).Some? && ParseIndex(k).value < |items| by {
        forall k | k in ks ensures ParseIndex(k).Some? && ParseIndex(k).value < |items| {
          var i :| 0 <= i < |items| && k == IndexKey(i);
          ParseIndexKey(i);
        }
      }
      assert LengthKey !in ks by {
        forall i | 0 <= i < |items| ensures IndexKey(i) != LengthKey {
          LengthIsNotIndexKey(i);
        }
      }
      ks
  }

  /** `j[k]` for an array or object `j`: the element or member under `k`, the array's
      length under "length", and `undefined` for every other name. */
  function Get(j: Json, k: string): (v: Value)
    requires IsContainer(j)
    ensures j.Obj? ==> v == (if k in j.fields then Defined(j.fields[k]) else Undefined)
    ensures v.Undefined? <==> k !in OwnKeys(j) && !(j.Arr? && k == LengthKey)
    ensures j.Arr? && k == LengthKey ==> v == Defined(Num(|j.items|))
    ensures j.Arr? ==> forall i :: 0 <= i < |j.items| && k == IndexKey(i) ==> v == Defined(j.items[i])
    ensures Measure(v) < Height(j)
  {
    match j
    case Obj(fields) =>
      if k in fields then ChildLower(j, k); Defined(fields[k]) else Undefined
    case Arr(items) =>
      match ParseIndex(k)
      case Some(i) =>
        IndexKeyOfParse(k);
        LengthIsNotIndexKey(i);
        forall i' | 0 <= i' < |items| && k == IndexKey(i') ensures i' == i {
          IndexKeyInjective(i, i');
        }
        if i < |items| then
          ChildLower(j, k);
          Defined(items[i])
        else
          assert forall i' :: 0 <= i' < |items| ==> k != IndexKey(i');
          Undefined
      case None =>
        assert forall i :: 0 <= i < |items| ==> k != IndexKey(i) by {
          forall i | 0 <= i < |items| ensures k != IndexKey(i) {
            ParseIndexKey(i);
          }
        }
        if k == LengthKey then Defined(Num(|items|)) else Undefined
  }

  // ---------------------------------------------------------------------------
  // Termination measure: the nesting height of a document
  // ---------------------------------------------------------------------------

  ghost function MaxNat(s: set<nat>): (m: nat)
    ensures forall x :: x in s ==> x <= m
  {
    if s == {} then 0
    else
      var y :| y in s;
      var m := MaxNat(s - {y});
      assert forall x :: x in s ==> x == y || x in s - {y};
      if y > m then y else m
  }

  /** Scalars have height 0; a container is one higher than its highest child. */
  ghost function Height(j: Json): nat {
    match j
    case Arr(items) => 1 + MaxNat(set i | 0 <= i < |items| :: Height(items[i]))
    case Obj(fields) => 1 + MaxNat(set k | k in fields :: Height(fields[k]))
    case _ => 0
  }

  ghost function Measure(v: Value): nat {
    match v
    case Undefined => 0
    case Defined(j) => Height(j)
  }

  /** The child an object or array holds under `k` is lower than the container. */
  lemma ChildLower(j: Json, k: string)
    requires j.Obj? ==> k in j.fields
    requires j.Arr? ==> ParseIndex(k).Some? && ParseIndex(k).value < |j.items|
    requires IsContainer(j)
    ensures j.Obj? ==> Height(j.fields[k]) < Height(j)
    ensures j.Arr? ==> Height(j.items[ParseIndex(k).value]) < Height(j)
  {
    match j
    case Obj(fields) =>
      var hs := set k' | k' in fields :: Height(fields[k']);
      assert Height(fields[k]) in hs;
      assert Height(j) == 1 + MaxNat(hs);
    case Arr(items) =>
      var i := ParseIndex(k).value;
      var hs := set i' | 0 <= i' < |items| :: Height(items[i']);
      assert Height(items[i]) in hs;
      assert Height(j) == 1 + MaxNat(hs);
  }
}
