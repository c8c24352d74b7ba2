/**
 * `fetchLiveAppCatalog` as one pure step: given the files on disk and what the HTTP
 * client produced, decide which files are written, what the process exits with and
 * which conditional header was sent.
 *
 * The disk is a map from file name to contents. The HTTP client's answer is a
 * `Response`. `JSON.parse`, `JSON.stringify(data, null, 2)` and
 * `String.prototype.normalize()` are the functions in `Env`.
 */
module FetchController {
  import opened Wrappers
  import opened JsonValue
  import opened Normalization
  import opened Differences

  const CatalogFile: string := "live-app-catalog.json"
  const EtagFile: string := "etag.txt"

  /** File name to file contents. */
  type Store = map<string, string>

  /** What `await axios.get(url, options)` produced: a response it resolved with
      (`status`, `data`, `headers['etag']`), or an error it threw, with the status of
      `error.response` when there is a response. */
  datatype Response =
    | Ok(status: int, data: Json, etag: Option<string>)
    | Thrown(responseStatus: Option<int>, message: string)

  /** The library functions the script calls: `JSON.parse` (None when it throws),
      `JSON.stringify(_, null, 2)` and NFC normalization of a string. */
  datatype Env = Env(parse: string -> Option<Json>, render: Json -> string, nfc: string -> string)

  /** Which way the run went, with what it reports. */
  datatype Verdict =
    | NotModified
    | Saved
    | Unchanged
    | Diverged(differences: set<Difference>)
    | UnexpectedStatus(status: int)
    | CatalogUnreadable
    | FetchFailed(message: string)

  /** The files after the run, the process exit code and the `If-None-Match` header sent. */
  datatype Outcome = Outcome(store: Store, exitCode: int, ifNoneMatch: Option<string>, verdict: Verdict)

  /** `if (etag)`: a header that is present and not the empty string. */
  predicate Truthy(etag: Option<string>) {
    etag.Some? && etag.value != ""
  }

  /** The request header: the contents of the token file, when there is one. */
  function RequestHeader(store: Store): (h: Option<string>)
    ensures h.Some? <==> EtagFile in store
    ensures h.Some? ==> h.value == store[EtagFile]
  {
    if EtagFile in store then Some(store[EtagFile]) else None
  }

  /** The files differ at most in the catalog and the token file. */
  predicate OnlyScriptFilesChange(before: Store, after: Store) {
    && after.Keys <= before.Keys + {CatalogFile, EtagFile}
    && forall p :: p in before && p != CatalogFile && p != EtagFile ==> p in after && after[p] == before[p]
  }

  /** The token file was created or given new contents. */
  predicate EtagWritten(before: Store, after: Store) {
    EtagFile in after && (EtagFile !in before || after[EtagFile] != before[EtagFile])
  }

  /** Write the response's ETag to the token file if it is truthy. */
  function SaveEtag(store: Store, etag: Option<string>): (s: Store)
    ensures OnlyScriptFilesChange(store, s) && store.Keys <= s.Keys
    ensures CatalogFile in store ==> s[CatalogFile] == store[CatalogFile]
    ensures EtagWritten(store, s) ==> Truthy(etag) && s[EtagFile] == etag.value
    ensures Truthy(etag) ==> EtagFile in s && s[EtagFile] == etag.value
    ensures !Truthy(etag) ==> s == store
  {
    if Truthy(etag) then store[EtagFile := etag.value] else store
  }

  /** The normalized cached catalog compared with the normalized fresh document. */
  function Reconcile(env: Env, existing: Json, data: Json): (ds: set<Difference>)
    ensures existing == data ==> ds == {}
  {
    FindDifferences(Normalize(env.nfc, existing), Normalize(env.nfc, data))
  }

  /** The comparison is made after normalization: documents that agree once their
      strings are composed never diverge, and when no array faces an object in the
      normalized documents, agreeing after normalization is the only way not to. */
  lemma ReconcileUpToNormalization(env: Env, existing: Json, data: Json)
    ensures Normalize(env.nfc, existing) == Normalize(env.nfc, data) ==> Reconcile(env, existing, data) == {}
    ensures NoMixing(Normalize(env.nfc, existing), Normalize(env.nfc, data)) ==>
              (Reconcile(env, existing, data) == {} <==> Normalize(env.nfc, existing) == Normalize(env.nfc, data))
  {
    if NoMixing(Normalize(env.nfc, existing), Normalize(env.nfc, data)) {
      NoDifferencesIffEqual(Normalize(env.nfc, existing), Normalize(env.nfc, data));
    }
  }

  /** One run of the script. */
  function Run(env: Env, store: Store, response: Response): (o: Outcome)
    ensures o.ifNoneMatch.Some? <==> EtagFile in store
    ensures o.ifNoneMatch.Some? ==> o.ifNoneMatch.value == store[EtagFile]
    ensures o.exitCode == 0 || o.exitCode == 1
    ensures o.exitCode == 1 ==> o.store == store
    ensures OnlyScriptFilesChange(store, o.store)
    ensures CatalogFile in store ==> CatalogFile in o.store && o.store[CatalogFile] == store[CatalogFile]
    ensures EtagFile in store ==> EtagFile in o.store
    ensures EtagWritten(store, o.store) ==>
              && response.Ok? && response.status == 200 && Truthy(response.etag)
              && o.store[EtagFile] == response.etag.value
              && CatalogFile in o.store
  {
    var header := RequestHeader(store);
    match response
    case Thrown(status, message) =>
      if status == Some(304) then Outcome(store, 0, header, NotModified)
      else Outcome(store, 1, header, FetchFailed(message))
    case Ok(status, data, etag) =>
      if status == 200 then
        if CatalogFile in store then
          match env.parse(store[CatalogFile])
          case None => Outcome(store, 1, header, CatalogUnreadable)
          case Some(existing) =>
            var ds := Reconcile(env, existing, data);
            if ds != {} then Outcome(store, 1, header, Diverged(ds))
            else Outcome(SaveEtag(store, etag), 0, header, Unchanged)
        else
          Outcome(SaveEtag(store[CatalogFile := env.render(data)], etag), 0, header, Saved)
      else if status == 304 then Outcome(store, 0, header, NotModified)
      else Outcome(store, 1, header, UnexpectedStatus(status))
  }

  // ---------------------------------------------------------------------------
  // The branches
  // ---------------------------------------------------------------------------

  /** A 304, whether resolved or thrown, writes nothing and succeeds. */
  lemma NotModifiedWritesNothing(env: Env, store: Store, response: Response)
    requires (response.Ok? && response.status == 304) || (response.Thrown? && response.responseStatus == Some(304))
    ensures Run(env, store, response).store == store
    ensures Run(env, store, response).exitCode == 0
  {
  }

  /** A 200 with no catalog on disk saves the document, then the ETag if it is truthy. */
  lemma FirstFetchSaves(env: Env, store: Store, data: Json, etag: Option<string>)
    requires CatalogFile !in store
    ensures Run(env, store, Ok(200, data, etag)).exitCode == 0
    ensures Run(env, store, Ok(200, data, etag)).store
         == SaveEtag(store[CatalogFile := env.render(data)], etag)
  {
  }

  /** A 200 that agrees with the cached catalog keeps the catalog and saves the ETag if
      it is truthy. */
  lemma SameDataKeepsCatalog(env: Env, store: Store, data: Json, etag: Option<string>)
    requires CatalogFile in store && env.parse(store[CatalogFile]).Some?
    requires Reconcile(env, env.parse(store[CatalogFile]).value, data) == {}
    ensures Run(env, store, Ok(200, data, etag)).exitCode == 0
    ensures Run(env, store, Ok(200, data, etag)).store == SaveEtag(store, etag)
  {
  }

  /** The three ways a run fails: the document diverges from the cached catalog (or the
      cached catalog does not parse), the resolved status is neither 200 nor 304, or
      the error thrown does not carry a 304. */
  predicate Fails(env: Env, store: Store, response: Response) {
    match response
    case Ok(status, data, _) =>
      || (status != 200 && status != 304)
      || (status == 200 && CatalogFile in store &&
          (env.parse(store[CatalogFile]).None? || Reconcile(env, env.parse(store[CatalogFile]).value, data) != {}))
    case Thrown(status, _) => status != Some(304)
  }

  /** Exactly those runs exit with 1, and they leave every file as it was. */
  lemma FatalExactly(env: Env, store: Store, response: Response)
    ensures Run(env, store, response).exitCode == 1 <==> Fails(env, store, response)
    ensures Fails(env, store, response) ==> Run(env, store, response).store == store
  {
  }

  /** A divergent document is fatal, reports every difference and writes nothing. */
  lemma DivergenceIsFatal(env: Env, store: Store, data: Json, etag: Option<string>)
    requires CatalogFile in store && env.parse(store[CatalogFile]).Some?
    requires Reconcile(env, env.parse(store[CatalogFile]).value, data) != {}
    ensures Run(env, store, Ok(200, data, etag))
         == Outcome(store, 1, RequestHeader(store),
                    Diverged(Reconcile(env, env.parse(store[CatalogFile]).value, data)))
  {
  }

  // ---------------------------------------------------------------------------
  // What a successful run leaves behind
  // ---------------------------------------------------------------------------

  /** `JSON.parse(JSON.stringify(j, null, 2))` gives back `j`. */
  ghost predicate RoundTrips(env: Env) {
    forall j :: env.parse(env.render(j)) == Some(j)
  }

  /** After a successful 200 the catalog on disk parses, and agrees with the fetched
      document up to normalization. */
  lemma AcceptedCatalogAgrees(env: Env, store: Store, data: Json, etag: Option<string>)
    requires RoundTrips(env)
    requires Run(env, store, Ok(200, data, etag)).exitCode == 0
    ensures var after := Run(env, store, Ok(200, data, etag)).store;
            && CatalogFile in after
            && env.parse(after[CatalogFile]).Some?
            && Reconcile(env, env.parse(after[CatalogFile]).value, data) == {}
  {
  }

  /** Running again with the same response after a success changes nothing more and
      succeeds again: the script settles after one run. */
  lemma RunSettles(env: Env, store: Store, response: Response)
    requires RoundTrips(env)
    requires Run(env, store, response).exitCode == 0
    ensures Run(env, Run(env, store, response).store, response).exitCode == 0
    ensures Run(env, Run(env, store, response).store, response).store == Run(env, store, response).store
  {
    var after := Run(env, store, response).store;
    if response.Ok? && response.status == 200 {
      AcceptedCatalogAgrees(env, store, response.data, response.etag);
    }
  }
}
