/**
 * The long-term memory store: one append-only collection of documents,
 * registration, namespace listing, and search, which builds a filter, hands it
 * to the vector engine and rebuilds fragments from the engine's answer.
 */
module LongMemory {
  import opened Wrappers
  import opened Metadata
  import opened Filter

  /**
   * The engine's answer to one query: for each key, a list with one inner list
   * per query text (here one), or None when the key is missing.
   */
  datatype Response = Response(
    documents: Option<seq<seq<string>>>,
    metadatas: Option<seq<seq<Meta>>>,
    distances: Option<seq<seq<real>>>)

  /** Indexing the outer list of a present key that holds no inner list. */
  datatype SearchError = IndexError(key: string)

  /** Reconstructed fragments, most similar first, and the metadata mapping holding "distances". */
  datatype MemorySearchResult = MemorySearchResult(fragments: seq<Fragment>, metadata: map<string, seq<real>>)

  /** `result.get(key, [[]])[0]`: a missing key reads as one empty list; a present empty outer list has no first element. */
  function FirstList<T>(field: Option<seq<seq<T>>>): (r: Option<seq<T>>)
    ensures field.None? ==> r == Some([])
    ensures field.Some? ==> (r.Some? <==> |field.value| > 0)
    ensures field.Some? && r.Some? ==> r.value == field.value[0]
  {
    match field
    case None => Some([])
    case Some(outer) => if |outer| > 0 then Some(outer[0]) else None
  }

  function Min(a: int, b: int): (m: int) {
    if a <= b then a else b
  }

  /**
   * One fragment per (document, metadata) pair, pairing them up as `zip`
   * does: in order, stopping at the end of the shorter list.
   */
  function Rebuild(documents: seq<string>, metadatas: seq<Meta>): (r: seq<Fragment>)
    ensures |r| == Min(|documents|, |metadatas|)
    ensures forall i :: 0 <= i < |r| ==> r[i] == FragmentOf(documents[i], metadatas[i])
  {
    if documents == [] || metadatas == [] then []
    else [FragmentOf(documents[0], metadatas[0])] + Rebuild(documents[1..], metadatas[1..])
  }

  /**
   * The search result built from the engine's answer: fragments rebuilt from
   * the first document and metadata lists, distances passed through, or the
   * error from the first key (in the order read) whose outer list is empty.
   */
  function Reconstruct(response: Response): (r: Result<MemorySearchResult, SearchError>)
    ensures r.Ok? <==> response.documents != Some([]) && response.metadatas != Some([]) && response.distances != Some([])
    ensures r.Ok? ==> r.value.metadata.Keys == {"distances"}
    ensures r.Ok? ==> |r.value.fragments| <= |FirstList(response.documents).value|
    ensures r.Ok? ==> |r.value.fragments| <= |FirstList(response.metadatas).value|
  {
    match FirstList(response.documents)
    case None => Err(IndexError("documents"))
    case Some(documents) =>
      match FirstList(response.metadatas)
      case None => Err(IndexError("metadatas"))
      case Some(metadatas) =>
        match FirstList(response.distances)
        case None => Err(IndexError("distances"))
        case Some(distances) =>
          Ok(MemorySearchResult(Rebuild(documents, metadatas), map["distances" := distances]))
  }

  /**
   * What the rebuilt result holds: as many fragments as the shorter of the
   * two lists, fragment i built from document i and metadata i (namespace
   * "default" when absent), and the distances unchanged.
   */
  lemma ReconstructContents(response: Response)
    requires FirstList(response.documents).Some?
    requires FirstList(response.metadatas).Some?
    requires FirstList(response.distances).Some?
    ensures var documents, metadatas := FirstList(response.documents).value, FirstList(response.metadatas).value;
      && Reconstruct(response).Ok?
      && var fragments := Reconstruct(response).value.fragments;
      && |fragments| == Min(|documents|, |metadatas|)
      && (forall i :: 0 <= i < |fragments| ==>
            && fragments[i].content == documents[i]
            && fragments[i].owner == Get(metadatas[i], "owner")
            && fragments[i].timestamp == Get(metadatas[i], "timestamp")
            && fragments[i].namespace == (if "namespace" in metadatas[i] then metadatas[i]["namespace"] else Str("default")))
      && Reconstruct(response).value.metadata == map["distances" := FirstList(response.distances).value]
  {
  }

  /** A missing documents or metadatas key reads as an empty list: no fragments, not an error. */
  lemma MissingKeysGiveNoFragments(response: Response)
    requires response.documents.None? || response.metadatas.None?
    requires response.documents != Some([]) && response.metadatas != Some([]) && response.distances != Some([])
    ensures Reconstruct(response).Ok?
    ensures Reconstruct(response).value.fragments == []
  {
  }

  /** A missing distances key reads as an empty list: no distances, not an error, whatever the other keys hold. */
  lemma MissingDistancesGiveNone(response: Response)
    requires response.distances.None?
    requires response.documents != Some([]) && response.metadatas != Some([])
    ensures Reconstruct(response).Ok?
    ensures Reconstruct(response).value.metadata == map["distances" := []]
  {
  }

  /**
   * Without the engine's contract, fragments and distances need not line up:
   * one document and one metadata mapping but no distances key give one
   * fragment and no distance.
   */
  lemma UnalignedWithoutDistances()
    ensures var none: Meta := map[];
      var r := Reconstruct(Response(Some([["a"]]), Some([[none]]), None));
      r.Ok? && |r.value.fragments| == 1 && r.value.metadata["distances"] == []
  {
  }

  /** An answer with no keys at all is the empty result. */
  lemma EmptyAnswer()
    ensures Reconstruct(Response(None, None, None)) == Ok(MemorySearchResult([], map["distances" := []]))
  {
  }

  /** A present but empty outer list is an error, reported for the first such key read. */
  lemma EmptyOuterListFails(response: Response)
    requires response.documents == Some([]) || response.metadatas == Some([]) || response.distances == Some([])
    ensures Reconstruct(response).Err?
    ensures response.documents == Some([]) ==> Reconstruct(response) == Err(IndexError("documents"))
    ensures response.documents != Some([]) && response.metadatas == Some([]) ==>
      Reconstruct(response) == Err(IndexError("metadatas"))
    ensures response.documents != Some([]) && response.metadatas != Some([]) && response.distances == Some([]) ==>
      Reconstruct(response) == Err(IndexError("distances"))
  {
  }

  /**
   * The contract assumed of the vector engine (not checked by the store): one
   * inner list per key, index-aligned, at most `limit` results, each a stored
   * document whose metadata satisfies the where-predicate.
   */
  ghost predicate EngineHonours(response: Response, where: Where, limit: int, stored: seq<Document>) {
    && response.documents.Some? && |response.documents.value| == 1
    && response.metadatas.Some? && |response.metadatas.value| == 1
    && response.distances.Some? && |response.distances.value| == 1
    && var documents, metadatas, distances :=
         response.documents.value[0], response.metadatas.value[0], response.distances.value[0];
    && |documents| == |metadatas| == |distances| <= limit
    && forall i :: 0 <= i < |documents| ==>
         Holds(where, metadatas[i]) && Document(documents[i], metadatas[i]) in stored
  }

  /** The guarantees a search makes of every fragment it returns: right namespace, right owner, inside the window, and stored. */
  ghost predicate InScope(result: MemorySearchResult, namespace: Value, owner: Value, tf: Option<TimestampFilter>,
                          limit: int, stored: seq<Document>) {
    && "distances" in result.metadata
    && |result.fragments| == |result.metadata["distances"]| <= limit
    && forall f :: f in result.fragments ==>
         && f.namespace == namespace && f.owner == owner && Within(f.timestamp, tf)
         && exists d :: d in stored && f == FragmentOf(d.content, d.metadata)
  }

  /**
   * Isolation, scoping and the time window: when the engine honours its
   * contract for the filter search builds, the search succeeds and everything
   * it returns is in scope, with one distance per fragment.
   */
  lemma {:induction false} HonouredSearchInScope(response: Response, namespace: Value, owner: Value,
                                                 tf: Option<TimestampFilter>, limit: int, stored: seq<Document>)
    requires EngineHonours(response, WhereFor(namespace, owner, tf), limit, stored)
    ensures Reconstruct(response).Ok?
    ensures InScope(Reconstruct(response).value, namespace, owner, tf, limit, stored)
  {
    var documents, metadatas := response.documents.value[0], response.metadatas.value[0];
    var fragments := Reconstruct(response).value.fragments;
    forall f | f in fragments
      ensures f.namespace == namespace && f.owner == owner && Within(f.timestamp, tf)
      ensures exists d :: d in stored && f == FragmentOf(d.content, d.metadata)
    {
      var i :| 0 <= i < |fragments| && fragments[i] == f;
      WhereForMeaning(namespace, owner, tf, metadatas[i]);
      var d := Document(documents[i], metadatas[i]);
      assert d in stored && f == FragmentOf(d.content, d.metadata);
    }
  }

  /** Searching an empty collection, with an engine that honours its contract, returns no fragments and no distances. */
  lemma EmptyStoreSearch(response: Response, where: Where, limit: int)
    requires EngineHonours(response, where, limit, [])
    ensures Reconstruct(response) == Ok(MemorySearchResult([], map["distances" := []]))
  {
  }

  /** The store: one collection, created empty, that registration appends to. */
  class LongTermMemory {
    /** The documents of the collection, in insertion order. */
    var records: seq<Document>

    /** Every stored document carries the three reserved keys. */
    ghost predicate Valid()
      reads this
    {
      forall i :: 0 <= i < |records| ==> ReservedKeys <= records[i].metadata.Keys
    }

    /** The collection is created afresh, replacing any earlier one, so it starts empty. */
    constructor ()
      ensures Valid() && records == []
    {
      records := [];
    }

    /**
     * Store a fragment's content with its owner, namespace and timestamp,
     * updated with the caller's metadata if any. Exactly one document is
     * appended and nothing is deduplicated.
     */
    method Register(fragment: Fragment, metadata: Option<Meta>)
      requires Valid()
      modifies this
      ensures Valid()
      ensures records == old(records) + [Document(fragment.content, MergedMetadata(fragment, metadata))]
      ensures GetNamespaces() == old(GetNamespaces()) + [MergedMetadata(fragment, metadata)["namespace"]]
    {
      var complete := FragmentMetadata(fragment);
      if metadata.Some? && |metadata.value| != 0 {
        complete := complete + metadata.value;
      }
      records := records + [Document(fragment.content, complete)];
    }

    /** The namespace of every stored document, one per document in order, duplicates kept. */
    function GetNamespaces(): (namespaces: seq<Value>)
      reads this
      requires Valid()
      ensures |namespaces| == |records|
      ensures forall i :: 0 <= i < |records| ==> namespaces[i] == records[i].metadata["namespace"]
    {
      seq(|records|, i reads this requires 0 <= i < |records| && Valid() => records[i].metadata["namespace"])
    }

    /**
     * Search: build the where-predicate (namespace, owner, then the applied
     * bounds), ask the engine for up to `limit` results, and rebuild the
     * fragments. The engine is the parameter `query`; when it honours its
     * contract the result is in scope.
     */
    method Search(queryText: string, owner: string, limit: int, timestampFilter: Option<TimestampFilter>,
                  namespace: Option<string>, query: (string, int, Where) -> Response)
      returns (result: Result<MemorySearchResult, SearchError>)
      ensures var where := WhereFor(OptionalStr(namespace), Str(owner), timestampFilter);
        result == Reconstruct(query(queryText, limit, where))
      ensures var where := WhereFor(OptionalStr(namespace), Str(owner), timestampFilter);
        EngineHonours(query(queryText, limit, where), where, limit, records) ==>
          result.Ok? && InScope(result.value, OptionalStr(namespace), Str(owner), timestampFilter, limit, records)
    {
      var where := [Eq("namespace", OptionalStr(namespace)), Eq("owner", Str(owner))];
      if timestampFilter.Some? {
        if Truthy(timestampFilter.value.greaterThanValue) {
          where := where + [Gt("timestamp", timestampFilter.value.greaterThanValue.value)];
        }
        if Truthy(timestampFilter.value.lowerThanValue) {
          where := where + [Lt("timestamp", timestampFilter.value.lowerThanValue.value)];
        }
      }
      assert where == WhereFor(OptionalStr(namespace), Str(owner), timestampFilter);

      var response := query(queryText, limit, where);
      var documents := FirstList(response.documents);
      if documents.None? {
        return Err(IndexError("documents"));
      }
      var metadatas := FirstList(response.metadatas);
      if metadatas.None? {
        return Err(IndexError("metadatas"));
      }

      var fragments: seq<Fragment> := [];
      var n := Min(|documents.value|, |metadatas.value|);
      for i := 0 to n
        invariant |fragments| == i
        invariant forall j :: 0 <= j < i ==> fragments[j] == FragmentOf(documents.value[j], metadatas.value[j])
      {
        fragments := fragments + [FragmentOf(documents.value[i], metadatas.value[i])];
      }
      assert fragments == Rebuild(documents.value, metadatas.value);

      var distances := FirstList(response.distances);
      if distances.None? {
        return Err(IndexError("distances"));
      }
      result := Ok(MemorySearchResult(fragments, map["distances" := distances.value]));
      if EngineHonours(response, where, limit, records) {
        HonouredSearchInScope(response, OptionalStr(namespace), Str(owner), timestampFilter, limit, records);
      }
    }
  }

  /** Two fragments registered in one namespace are both listed: the namespace list is not deduplicated. */
  method DuplicateNamespaces() returns (namespaces: seq<Value>)
    ensures namespaces == [Str("work"), Str("work")]
  {
    var memory := new LongTermMemory();
    memory.Register(Fragment("likes tea", Str("u1"), Str("work"), Int(1000)), None);
    memory.Register(Fragment("likes tea", Str("u1"), Str("work"), Int(2000)), Some(map["topic" := Str("drinks")]));
    namespaces := memory.GetNamespaces();
  }

  /**
   * Register then search: with an engine that honours its contract, every
   * result of a search on a store holding one registered fragment is that
   * fragment.
   */
  method RegisterThenSearch(fragment: Fragment, owner: string, namespace: string,
                            query: (string, int, Where) -> Response)
      returns (result: Result<MemorySearchResult, SearchError>)
    requires fragment.owner == Str(owner) && fragment.namespace == Str(namespace)
    ensures var where := WhereFor(Str(namespace), Str(owner), None);
      EngineHonours(query(fragment.content, 3, where), where, 3,
                    [Document(fragment.content, MergedMetadata(fragment, None))]) ==>
        result.Ok? && forall f :: f in result.value.fragments ==> f == fragment
  {
    var memory := new LongTermMemory();
    memory.Register(fragment, None);
    result := memory.Search(fragment.content, owner, 3, None, Some(namespace), query);
    var where := WhereFor(Str(namespace), Str(owner), None);
    if EngineHonours(query(fragment.content, 3, where), where, 3, memory.records) {
      forall f | f in result.value.fragments ensures f == fragment {
        RoundTrip(fragment, None);
      }
    }
  }
}
