/**
 * `normalizeJson`: Unicode canonical composition applied to every string of a
 * document, everything else rebuilt unchanged.
 *
 * The composition itself (`String.prototype.normalize()`, NFC of Unicode Standard
 * Annex #15) is not modelled: it is the parameter `nfc`. Where a property needs NFC
 * to be idempotent, that is a precondition (`Idempotent(nfc)`).
 */
module Normalization {
  import opened JsonValue

  /** NFC is a projection: composing an already composed string changes nothing. */
  ghost predicate Idempotent(nfc: string -> string) {
    forall s :: nfc(nfc(s)) == nfc(s)
  }

  /** The document with every string replaced by "": what normalization must not touch. */
  function Shape(j: Json): Json {
    match j
    case Str(_) => Str("")
    case Arr(items) => Arr(seq(|items|, i requires 0 <= i < |items| => Shape(items[i])))
    case Obj(fields) => Obj(map k | k in fields :: Shape(fields[k]))
    case _ => j
  }

  /** Every string of the document is already in normal form. */
  predicate InNormalForm(nfc: string -> string, j: Json) {
    match j
    case Str(s) => nfc(s) == s
    case Arr(items) => forall i :: 0 <= i < |items| ==> InNormalForm(nfc, items[i])
    case Obj(fields) => forall k :: k in fields ==> InNormalForm(nfc, fields[k])
    case _ => true
  }

  /** `normalizeJson(obj)`: strings are composed, arrays mapped element by element,
      objects rebuilt key by key, numbers, booleans and null returned as they are. */
  function Normalize(nfc: string -> string, j: Json): (r: Json)
    ensures j.Str? ==> r == Str(nfc(j.s))
    ensures j.Null? || j.Bool? || j.Num? ==> r == j
    ensures j.Arr? <==> r.Arr?
    ensures j.Obj? <==> r.Obj?
    ensures j.Arr? ==> |r.items| == |j.items|
    ensures j.Obj? ==> r.fields.Keys == j.fields.Keys
    ensures Shape(r) == Shape(j)
  {
    match j
    case Str(s) => Str(nfc(s))
    case Arr(items) =>
      var r := Arr(seq(|items|, i requires 0 <= i < |items| => Normalize(nfc, items[i])));
      assert Shape(r).items == Shape(j).items;
      r
    case Obj(fields) =>
      var r := Obj(map k | k in fields :: Normalize(nfc, fields[k]));
      assert Shape(r).fields == Shape(j).fields;
      r
    case _ => j
  }

  /** The result of normalization is in normal form. */
  lemma {:induction false} NormalizeInNormalForm(nfc: string -> string, j: Json)
    requires Idempotent(nfc)
    ensures InNormalForm(nfc, Normalize(nfc, j))
  {
    match j
    case Str(s) =>
    case Arr(items) =>
      forall i | 0 <= i < |items| ensures InNormalForm(nfc, Normalize(nfc, j).items[i]) {
        NormalizeInNormalForm(nfc, items[i]);
      }
    case Obj(fields) =>
      forall k | k in fields ensures InNormalForm(nfc, Normalize(nfc, j).fields[k]) {
        NormalizeInNormalForm(nfc, fields[k]);
      }
    case _ =>
  }

  /** Exactly the documents in normal form are left unchanged by normalization. */
  lemma {:induction false} NormalizeFixesNormalForm(nfc: string -> string, j: Json)
    ensures Normalize(nfc, j) == j <==> InNormalForm(nfc, j)
  {
    match j
    case Str(s) =>
    case Arr(items) =>
      var r := Normalize(nfc, j);
      forall i | 0 <= i < |items| ensures r.items[i] == items[i] <==> InNormalForm(nfc, items[i]) {
        NormalizeFixesNormalForm(nfc, items[i]);
      }
      if InNormalForm(nfc, j) {
        assert r.items == items;
      }
    case Obj(fields) =>
      var r := Normalize(nfc, j);
      forall k | k in fields ensures r.fields[k] == fields[k] <==> InNormalForm(nfc, fields[k]) {
        NormalizeFixesNormalForm(nfc, fields[k]);
      }
      if InNormalForm(nfc, j) {
        assert r.fields == fields;
      }
    case _ =>
  }

  /** Normalizing twice is normalizing once. */
  lemma NormalizeIdempotent(nfc: string -> string, j: Json)
    requires Idempotent(nfc)
    ensures Normalize(nfc, Normalize(nfc, j)) == Normalize(nfc, j)
  {
    NormalizeInNormalForm(nfc, j);
    NormalizeFixesNormalForm(nfc, Normalize(nfc, j));
  }

  /** Normalizing a `Value`: `undefined` stays `undefined`. */
  function NormalizeValue(nfc: string -> string, v: Value): (r: Value)
    ensures r.Defined? <==> v.Defined?
  {
    match v
    case Undefined => Undefined
    case Defined(j) => Defined(Normalize(nfc, j))
  }

  /** The value reached from `v` by reading the properties `ks` one after another;
      reading a property of anything but an array or object gives `undefined` here. */
  function At(v: Value, ks: seq<string>): Value
    decreases |ks|
  {
    if |ks| == 0 then v
    else if ObjectLike(v) then At(Get(v.json, ks[0]), ks[1..])
    else Undefined
  }

  /** Normalization commutes with property access: whatever path is followed, the
      normalized document holds there the normalized value of the original. With the
      contract of `Normalize`, this says that arrays keep their lengths and order,
      objects their key sets, non-string scalars their values, and that every string
      leaf `s` becomes `nfc(s)`. */
  lemma {:induction false} NormalizeAt(nfc: string -> string, j: Json, ks: seq<string>)
    ensures At(Defined(Normalize(nfc, j)), ks) == NormalizeValue(nfc, At(Defined(j), ks))
    decreases |ks|
  {
    if |ks| > 0 && IsContainer(j) {
      var k := ks[0];
      var r := Normalize(nfc, j);
      var child := Get(j, k);
      assert Get(r, k) == NormalizeValue(nfc, child) by {
        match j
        case Arr(items) =>
          if ParseIndex(k).Some? && ParseIndex(k).value < |items| {
            var i := ParseIndex(k).value;
            IndexKeyOfParse(k);
          } else if k in OwnKeys(j) {
            assert false;
          } else {
            assert k !in OwnKeys(r) by {
              if k in OwnKeys(r) {
                IndexKeyOfParse(k);
              }
            }
          }
        case Obj(fields) =>
      }
      match child
      case Undefined =>
        assert At(Undefined, ks[1..]) == Undefined by {
          if |ks[1..]| > 0 {}
        }
      case Defined(c) =>
        NormalizeAt(nfc, c, ks[1..]);
    }
  }
}
