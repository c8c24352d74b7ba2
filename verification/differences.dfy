/**
 * `findDifferences` and its inner `compare`: a simultaneous walk of two documents
 * that reports, as difference records, the places where they stop agreeing.
 *
 * The source pushes records onto a list in the order JavaScript enumerates object
 * keys; objects here are maps without an order, so the result is the SET of records.
 * Whether it is empty, the only thing the fetch script decides on, is unaffected.
 */
module Differences {
  import opened JsonValue

  /** `{ path, obj1, obj2 }`: where the walk stopped and what each side holds there. */
  datatype Difference = Difference(path: string, obj1: Value, obj2: Value)

  /** The path of the child `key` below `path`: the walk starts at "" and an empty
      parent path contributes no separating dot. */
  function ChildPath(path: string, key: string): (p: string)
    ensures path == "" ==> p == key
    ensures path != "" ==> p == path + "." + key
    ensures Below(path, p)
  {
    if path == "" then key else path + "." + key
  }

  /** `new Set([...Object.keys(a), ...Object.keys(b)])` */
  function UnionKeys(a: Json, b: Json): (ks: set<string>)
    requires IsContainer(a) && IsContainer(b)
    ensures forall k :: k in ks <==> k in OwnKeys(a) || k in OwnKeys(b)
  {
    OwnKeys(a) + OwnKeys(b)
  }

  /** Every key `compare` walks is listed by at least one side, so that side reads a
      value there: the walk never meets `undefined` against `undefined`. */
  lemma UnionKeyDefined(a: Json, b: Json, k: string)
    requires IsContainer(a) && IsContainer(b) && k in UnionKeys(a, b)
    ensures Get(a, k).Defined? || Get(b, k).Defined?
  {
  }

  /** What a single record promises: the two sides are not deeply equal, and they are
      not both arrays or objects (those are descended into instead). */
  predicate WellFormed(d: Difference) {
    d.obj1 != d.obj2 && !(ObjectLike(d.obj1) && ObjectLike(d.obj2))
  }

  /** `path` is `prefix` or lies below it. Below the root, every path is below. */
  predicate Below(prefix: string, path: string) {
    prefix == "" || path == prefix || prefix + "." <= path
  }

  /** `compare(obj1, obj2, path)`: nothing when the two sides are deeply equal, one
      record when either side is not an array or object, and otherwise the records of
      every key either side has, each compared one level down. */
  function Compare(a: Value, b: Value, path: string): (ds: set<Difference>)
    ensures forall d :: d in ds ==> WellFormed(d) && Below(path, d.path)
    decreases Measure(a)
  {
    if a == b then {}
    else if !ObjectLike(a) || !ObjectLike(b) then {Difference(path, a, b)}
    else
      var ks := UnionKeys(a.json, b.json);
      var ds := set k, d | k in ks && d in Compare(Get(a.json, k), Get(b.json, k), ChildPath(path, k)) :: d;
      assert forall d :: d in ds ==> Below(path, d.path) by {
        forall d | d in ds ensures Below(path, d.path) {
          var k :| k in ks && d in Compare(Get(a.json, k), Get(b.json, k), ChildPath(path, k));
          BelowChild(path, k, d.path);
        }
      }
      ds
  }

  /** Anything below a child path is below its parent path. */
  lemma BelowChild(path: string, key: string, p: string)
    requires Below(ChildPath(path, key), p)
    ensures Below(path, p)
  {
    if path != "" {
      var c := ChildPath(path, key);
      assert path + "." <= c;
      if c + "." <= p {
        assert (path + ".") <= c + ".";
      }
    }
  }

  /** `findDifferences(obj1, obj2)`: the records of the walk started at the root. */
  function FindDifferences(a: Json, b: Json): (ds: set<Difference>)
    ensures a == b ==> ds == {}
    ensures forall d :: d in ds ==> WellFormed(d)
  {
    Compare(Defined(a), Defined(b), "")
  }

  // ---------------------------------------------------------------------------
  // Unfolding the container case
  // ---------------------------------------------------------------------------

  /** The records of every child comparison are records of the parent comparison. */
  lemma ChildRecordsIncluded(a: Value, b: Value, path: string, k: string)
    requires a != b && ObjectLike(a) && ObjectLike(b)
    requires k in UnionKeys(a.json, b.json)
    ensures Compare(Get(a.json, k), Get(b.json, k), ChildPath(path, k)) <= Compare(a, b, path)
  {
  }

  /** Every record of a container comparison comes from one of its children. */
  lemma RecordFromChild(a: Value, b: Value, path: string, d: Difference)
    requires a != b && ObjectLike(a) && ObjectLike(b)
    requires d in Compare(a, b, path)
    ensures exists k ::
              && k in UnionKeys(a.json, b.json)
              && d in Compare(Get(a.json, k), Get(b.json, k), ChildPath(path, k))
  {
  }

  /** When the two containers list a single key between them, the comparison is that
      key's comparison one level down. */
  lemma SingleKeyCompare(a: Value, b: Value, path: string, k: string)
    requires a != b && ObjectLike(a) && ObjectLike(b)
    requires UnionKeys(a.json, b.json) == {k}
    ensures Compare(a, b, path) == Compare(Get(a.json, k), Get(b.json, k), ChildPath(path, k))
  {
    ChildRecordsIncluded(a, b, path, k);
    forall d | d in Compare(a, b, path)
      ensures d in Compare(Get(a.json, k), Get(b.json, k), ChildPath(path, k))
    {
      RecordFromChild(a, b, path, d);
    }
  }

  // ---------------------------------------------------------------------------
  // Symmetry
  // ---------------------------------------------------------------------------

  /** The same record seen from the other side. */
  function Swap(d: Difference): Difference {
    Difference(d.path, d.obj2, d.obj1)
  }

  function SwapAll(ds: set<Difference>): (es: set<Difference>)
    ensures forall d :: d in ds <==> Swap(d) in es
  {
    var es := set d | d in ds :: Swap(d);
    assert forall d :: Swap(Swap(d)) == d;
    es
  }

  /** Comparing the other way round reports the same places with the sides swapped. */
  lemma {:induction false} CompareSymmetric(a: Value, b: Value, path: string)
    ensures Compare(b, a, path) == SwapAll(Compare(a, b, path))
    decreases Measure(a)
  {
    if a != b && ObjectLike(a) && ObjectLike(b) {
      var ks := UnionKeys(a.json, b.json);
      assert ks == UnionKeys(b.json, a.json);
      forall k | k in ks
        ensures Compare(Get(b.json, k), Get(a.json, k), ChildPath(path, k))
             == SwapAll(Compare(Get(a.json, k), Get(b.json, k), ChildPath(path, k)))
      {
        CompareSymmetric(Get(a.json, k), Get(b.json, k), ChildPath(path, k));
      }
      var lhs := Compare(b, a, path);
      var rhs := SwapAll(Compare(a, b, path));
      forall d | d in lhs ensures d in rhs {
        RecordFromChild(b, a, path, d);
        var k :| k in ks && d in Compare(Get(b.json, k), Get(a.json, k), ChildPath(path, k));
        ChildRecordsIncluded(a, b, path, k);
      }
      forall d | d in rhs ensures d in lhs {
        RecordFromChild(a, b, path, Swap(d));
        var k :| k in ks && Swap(d) in Compare(Get(a.json, k), Get(b.json, k), ChildPath(path, k));
        ChildRecordsIncluded(b, a, path, k);
      }
    }
  }

  /** `findDifferences(b, a)` holds the records of `findDifferences(a, b)` swapped, so
      one is empty exactly when the other is. */
  lemma FindDifferencesSymmetric(a: Json, b: Json)
    ensures FindDifferences(b, a) == SwapAll(FindDifferences(a, b))
    ensures FindDifferences(b, a) == {} <==> FindDifferences(a, b) == {}
  {
    CompareSymmetric(Defined(a), Defined(b), "");
    if FindDifferences(a, b) != {} {
      var d :| d in FindDifferences(a, b);
      assert Swap(d) in FindDifferences(b, a);
    }
  }

  // ---------------------------------------------------------------------------
  // Keys present on one side only
  // ---------------------------------------------------------------------------

  /** A key that only one side lists is reported at its child path, with `undefined`
      on the side that lacks it (an array's "length" is the one name that is never
      `undefined` on an array, though `Object.keys` does not list it). */
  lemma MissingKeyRecorded(a: Json, b: Json, path: string, k: string)
    requires IsContainer(a) && IsContainer(b)
    requires k in OwnKeys(a) && k !in OwnKeys(b) && !(b.Arr? && k == LengthKey)
    ensures Get(a, k).Defined?
    ensures Difference(ChildPath(path, k), Get(a, k), Undefined) in Compare(Defined(a), Defined(b), path)
  {
    assert Get(b, k) == Undefined;
    ChildRecordsIncluded(Defined(a), Defined(b), path, k);
  }

  /** For two objects: a member only the first has is reported against `undefined`. */
  lemma MissingMemberRecorded(f: map<string, Json>, g: map<string, Json>, path: string, k: string)
    requires k in f && k !in g
    ensures Difference(ChildPath(path, k), Defined(f[k]), Undefined) in Compare(Defined(Obj(f)), Defined(Obj(g)), path)
  {
    MissingKeyRecorded(Obj(f), Obj(g), path, k);
  }

  // ---------------------------------------------------------------------------
  // Arrays are walked by index, like objects keyed "0", "1", ...
  // ---------------------------------------------------------------------------

  /** The object `{"0": items[0], "1": items[1], ...}`. */
  function IndexObject(items: seq<Json>): (m: map<string, Json>)
    ensures forall i :: 0 <= i < |items| ==> IndexKey(i) in m && m[IndexKey(i)] == items[i]
    ensures forall k :: k in m ==> ParseIndex(k).Some? && ParseIndex(k).value < |items|
  {
    assert forall i, j :: 0 <= i < |items| && 0 <= j < |items| && IndexKey(i) == IndexKey(j) ==> i == j by {
      forall i, j | 0 <= i < |items| && 0 <= j < |items| && IndexKey(i) == IndexKey(j) ensures i == j {
        IndexKeyInjective(i, j);
      }
    }
    var m := map i | 0 <= i < |items| :: IndexKey(i) := items[i];
    assert forall k :: k in m ==> ParseIndex(k).Some? && ParseIndex(k).value < |items| by {
      forall k | k in m ensures ParseIndex(k).Some? && ParseIndex(k).value < |items| {
        var i :| 0 <= i < |items| && k == IndexKey(i);
        ParseIndexKey(i);
      }
    }
    m
  }

  /** An array and the object holding the same values under its index keys are not
      deeply equal, yet the walk finds no difference between them: an empty result
      does not mean equal documents. */
  lemma ArrayMatchesIndexObject(items: seq<Json>)
    ensures Arr(items) != Obj(IndexObject(items))
    ensures FindDifferences(Arr(items), Obj(IndexObject(items))) == {}
  {
    var a := Arr(items);
    var b := Obj(IndexObject(items));
    forall d | d in FindDifferences(a, b) ensures false {
      RecordFromChild(Defined(a), Defined(b), "", d);
    }
  }

  /** The smallest case: `[]` against `{}`. */
  lemma EmptyArrayMatchesEmptyObject()
    ensures Arr([]) != Obj(map[])
    ensures FindDifferences(Arr([]), Obj(map[])) == {}
  {
    ArrayMatchesIndexObject([]);
    assert IndexObject([]) == map[];
  }

  /** An object whose "length" member equals an array's length agrees with it too:
      reading "length" of the array gives its length, not `undefined`. */
  lemma LengthMemberMatchesArray()
    ensures FindDifferences(Arr([]), Obj(map[LengthKey := Num(0)])) == {}
  {
    var a := Arr([]);
    var b := Obj(map[LengthKey := Num(0)]);
    assert UnionKeys(a, b) == {LengthKey};
    assert Get(a, LengthKey) == Get(b, LengthKey);
    forall d | d in FindDifferences(a, b) ensures false {
      RecordFromChild(Defined(a), Defined(b), "", d);
    }
  }

  // ---------------------------------------------------------------------------
  // No difference means equal, as long as no array meets an object
  // ---------------------------------------------------------------------------

  /** Wherever both documents have something at the same place, they do not hold an
      array on one side and an object on the other. */
  predicate NoMixing(a: Json, b: Json) {
    match a
    case Arr(x) =>
      !b.Obj? && (b.Arr? ==> forall i :: 0 <= i < |x| && i < |b.items| ==> NoMixing(x[i], b.items[i]))
    case Obj(f) =>
      !b.Arr? && (b.Obj? ==> forall k :: k in f && k in b.fields ==> NoMixing(f[k], b.fields[k]))
    case _ => true
  }

  /** A key of one side only puts a record in the comparison. */
  lemma OneSidedKeyRecorded(a: Json, b: Json, path: string, k: string)
    requires IsContainer(a) && IsContainer(b)
    requires k in OwnKeys(a) && k !in OwnKeys(b) && !(b.Arr? && k == LengthKey)
    ensures Compare(Defined(a), Defined(b), path) != {}
    ensures Compare(Defined(b), Defined(a), path) != {}
  {
    MissingKeyRecorded(a, b, path, k);
    CompareSymmetric(Defined(a), Defined(b), path);
    assert Swap(Difference(ChildPath(path, k), Get(a, k), Undefined)) in Compare(Defined(b), Defined(a), path);
  }

  /** Two different documents without an array facing an object always differ somewhere. */
  lemma {:induction false} UnequalHasDifference(a: Json, b: Json, path: string)
    requires NoMixing(a, b) && a != b
    ensures Compare(Defined(a), Defined(b), path) != {}
    decreases a
  {
    if IsContainer(a) && IsContainer(b) {
      match a
      case Arr(x) =>
        var y := b.items;
        if |x| > |y| {
          var k := IndexKey(|y|);
          ParseIndexKey(|y|);
          LengthIsNotIndexKey(|y|);
          OneSidedKeyRecorded(a, b, path, k);
        } else if |y| > |x| {
          var k := IndexKey(|x|);
          ParseIndexKey(|x|);
          LengthIsNotIndexKey(|x|);
          OneSidedKeyRecorded(b, a, path, k);
        } else {
          var i :| 0 <= i < |x| && x[i] != y[i];
          var k := IndexKey(i);
          assert Get(a, k) == Defined(x[i]) && Get(b, k) == Defined(y[i]);
          UnequalHasDifference(x[i], y[i], ChildPath(path, k));
          ChildRecordsIncluded(Defined(a), Defined(b), path, k);
        }
      case Obj(f) =>
        var g := b.fields;
        if k :| k in f && k !in g {
          OneSidedKeyRecorded(a, b, path, k);
        } else if k :| k in g && k !in f {
          OneSidedKeyRecorded(b, a, path, k);
        } else {
          assert f.Keys == g.Keys;
          var k :| k in f && f[k] != g[k];
          UnequalHasDifference(f[k], g[k], ChildPath(path, k));
          ChildRecordsIncluded(Defined(a), Defined(b), path, k);
        }
    }
  }

  /** Unless an array faces an object somewhere, `findDifferences` is empty exactly when
      the two documents are deeply equal. */
  lemma NoDifferencesIffEqual(a: Json, b: Json)
    requires NoMixing(a, b)
    ensures FindDifferences(a, b) == {} <==> a == b
  {
    if a != b {
      UnequalHasDifference(a, b, "");
    }
  }
}
