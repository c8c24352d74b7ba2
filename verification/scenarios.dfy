/**
 * Worked examples: the comparator on small catalogs, and whole runs of the script.
 */
module Scenarios {
  import opened Wrappers
  import opened JsonValue
  import opened Normalization
  import opened Differences
  import opened FetchController

  /** `{"id":1}` against `{"id":2}` below "apps.0". */
  lemma ChangedIdMember()
    ensures Compare(Defined(Obj(map["id" := Num(1)])), Defined(Obj(map["id" := Num(2)])), "apps.0")
         == {Difference("apps.0.id", Defined(Num(1)), Defined(Num(2)))}
  {
    var id1 := Obj(map["id" := Num(1)]);
    var id2 := Obj(map["id" := Num(2)]);
    assert id1.fields["id"] != id2.fields["id"];
    assert UnionKeys(id1, id2) == {"id"};
    SingleKeyCompare(Defined(id1), Defined(id2), "apps.0", "id");
    assert Get(id1, "id") == Defined(Num(1));
    assert Get(id2, "id") == Defined(Num(2));
    assert ChildPath("apps.0", "id") == "apps.0.id";
  }

  /** `[x]` against `[y]` with x != y: the comparison of x and y below index "0". */
  lemma SingletonArrays(x: Json, y: Json, path: string)
    requires x != y
    ensures Compare(Defined(Arr([x])), Defined(Arr([y])), path)
         == Compare(Defined(x), Defined(y), ChildPath(path, "0"))
  {
    assert Arr([x]).items[0] != Arr([y]).items[0];
    assert IndexKey(0) == "0";
    ParseIndexKey(0);
    assert OwnKeys(Arr([x])) == {"0"};
    assert OwnKeys(Arr([y])) == {"0"};
    SingleKeyCompare(Defined(Arr([x])), Defined(Arr([y])), path, "0");
  }

  /** `{"apps":[{"id":1}]}` against `{"apps":[{"id":2}]}`: one record, at "apps.0.id",
      holding 1 and 2. The array is walked by index. */
  lemma ChangedIdReported()
    ensures FindDifferences(
              Obj(map["apps" := Arr([Obj(map["id" := Num(1)])])]),
              Obj(map["apps" := Arr([Obj(map["id" := Num(2)])])]))
         == {Difference("apps.0.id", Defined(Num(1)), Defined(Num(2)))}
  {
    var id1 := Obj(map["id" := Num(1)]);
    var id2 := Obj(map["id" := Num(2)]);
    var a := Obj(map["apps" := Arr([id1])]);
    var b := Obj(map["apps" := Arr([id2])]);
    assert id1 != id2 by {
      assert id1.fields["id"] != id2.fields["id"];
    }
    assert a.fields["apps"] != b.fields["apps"] by {
      assert Arr([id1]).items[0] != Arr([id2]).items[0];
    }
    assert UnionKeys(a, b) == {"apps"};
    SingleKeyCompare(Defined(a), Defined(b), "", "apps");
    assert Get(a, "apps") == Defined(Arr([id1]));
    assert Get(b, "apps") == Defined(Arr([id2]));
    assert ChildPath("", "apps") == "apps";
    SingletonArrays(id1, id2, "apps");
    assert ChildPath("apps", "0") == "apps.0";
    ChangedIdMember();
  }

  /** `{"a":1}` against `{"a":1,"b":2}`: one record, at "b", with `undefined` on the
      first side. */
  lemma AddedMemberReported()
    ensures FindDifferences(Obj(map["a" := Num(1)]), Obj(map["a" := Num(1), "b" := Num(2)]))
         == {Difference("b", Undefined, Defined(Num(2)))}
  {
    var a := Obj(map["a" := Num(1)]);
    var b := Obj(map["a" := Num(1), "b" := Num(2)]);
    var expected := Difference("b", Undefined, Defined(Num(2)));
    assert UnionKeys(a, b) == {"a", "b"};
    ChildRecordsIncluded(Defined(a), Defined(b), "", "b");
    forall d | d in FindDifferences(a, b) ensures d == expected {
      RecordFromChild(Defined(a), Defined(b), "", d);
    }
  }

  /** A catalog with one application. */
  function OneApp(id: int): Json {
    Obj(map["apps" := Arr([Obj(map["id" := Num(id)])])])
  }

  /** No catalog yet, a 200 with ETag "v1": the catalog and the token are written. */
  lemma FirstRunWritesBoth(env: Env)
    ensures Run(env, map[], Ok(200, OneApp(1), Some("v1")))
         == Outcome(map[CatalogFile := env.render(OneApp(1)), EtagFile := "v1"], 0, None, Saved)
  {
  }

  /** A catalog and a token on disk, and a thrown 304: the token is sent, nothing is
      written, the run succeeds. */
  lemma NotModifiedKeepsFiles(env: Env, catalog: string, message: string)
    ensures var store := map[CatalogFile := catalog, EtagFile := "v1"];
            Run(env, store, Thrown(Some(304), message)) == Outcome(store, 0, Some("v1"), NotModified)
  {
  }

  /** The cached name is "café" decomposed (e + combining acute), the fetched one is
      composed (é). Once both are normalized they agree: only the token is updated. */
  lemma DecomposedNameAgrees(env: Env, catalog: string)
    requires env.parse(catalog) == Some(Obj(map["name" := Str("cafe\U{0301}")]))
    requires env.nfc("cafe\U{0301}") == env.nfc("caf\U{e9}")
    ensures Run(env, map[CatalogFile := catalog], Ok(200, Obj(map["name" := Str("caf\U{e9}")]), Some("v2")))
         == Outcome(map[CatalogFile := catalog, EtagFile := "v2"], 0, None, Unchanged)
  {
    var cached := Obj(map["name" := Str("cafe\U{0301}")]);
    var fetched := Obj(map["name" := Str("caf\U{e9}")]);
    assert Normalize(env.nfc, cached) == Normalize(env.nfc, fetched) by {
      assert Normalize(env.nfc, cached).fields == Normalize(env.nfc, fetched).fields;
    }
  }

  /** A document without strings is untouched by normalization, whatever NFC does. */
  lemma OneAppNormalized(nfc: string -> string, id: int)
    ensures Normalize(nfc, OneApp(id)) == OneApp(id)
  {
    var app := Obj(map["id" := Num(id)]);
    assert InNormalForm(nfc, app) by {
      assert forall k :: k in app.fields ==> app.fields[k] == Num(id);
    }
    assert InNormalForm(nfc, Arr([app])) by {
      assert forall i :: 0 <= i < 1 ==> [app][i] == app;
    }
    NormalizeFixesNormalForm(nfc, OneApp(id));
  }

  /** A cached catalog and a fetched one that changed an id: fatal, the difference is
      reported, nothing is written. */
  lemma ChangedIdIsFatal(env: Env, catalog: string)
    requires env.parse(catalog) == Some(OneApp(1))
    ensures Run(env, map[CatalogFile := catalog], Ok(200, OneApp(2), None))
         == Outcome(map[CatalogFile := catalog], 1, None,
                    Diverged({Difference("apps.0.id", Defined(Num(1)), Defined(Num(2)))}))
  {
    OneAppNormalized(env.nfc, 1);
    OneAppNormalized(env.nfc, 2);
    ChangedIdReported();
  }

  /** A server error, thrown or resolved: fatal, nothing written. */
  lemma ServerErrorIsFatal(env: Env, store: Store, data: Json, message: string)
    ensures Run(env, store, Thrown(Some(500), message)) == Outcome(store, 1, RequestHeader(store), FetchFailed(message))
    ensures Run(env, store, Ok(500, data, None)) == Outcome(store, 1, RequestHeader(store), UnexpectedStatus(500))
  {
  }
}
