/** The "simple" retrieval policy. Its doc comment speaks of the most recent documents, but it
    makes the same `find_all(limit=top_k)` call as the mock policy, so it returns the OLDEST. */
module SimpleRagStrategy {
  import opened Documents
  import opened DocumentStore
  import MockRagStrategy

  /** `retrieve_documents`: `find_all(limit=top_k)`, whatever the query text; `top_k` defaults to 5. */
  function RetrieveDocuments(repository: InMemoryDocumentRepository, queryText: string, topK: nat := 5): (docs: seq<Document>)
    reads repository
    requires repository.Valid()
    ensures |docs| == Min(topK, |repository.documents|)
    ensures SortedByCreatedAt(docs)
    ensures |docs| <= |repository.order| && docs == SortByCreatedAt(Values(repository.documents, repository.order))[..|docs|]
    ensures forall d, e :: d in docs && e in repository.documents.Values && e !in docs ==> d.createdAt <= e.createdAt
  {
    FirstPageIsOldest(repository.documents, repository.order, topK);
    repository.FindAll(topK)
  }

  /** The two policies differ in name only. */
  lemma SameAsMock(repository: InMemoryDocumentRepository, queryText: string, topK: nat)
    requires repository.Valid()
    ensures RetrieveDocuments(repository, queryText, topK) == MockRagStrategy.RetrieveDocuments(repository, queryText, topK)
  {
  }

  /** A store holding an older and a newer document, saved newest first: asked for one
      document, the listing both policies return gives the older one, not the most recent. */
  lemma OldestNotMostRecent(older: Document, newer: Document)
    requires older.id == 1 && newer.id == 2 && older.createdAt < newer.createdAt
    ensures Listing(map[1 := older, 2 := newer], [2, 1], 1, 0) == [older]
  {
    var documents := map[1 := older, 2 := newer];
    var values := Values(documents, [2, 1]);
    assert values == [newer, older];
    assert values[1..] == [older];
    assert InsertByCreatedAt(older, []) == [older];
    assert SortByCreatedAt([older]) == [older];
    assert InsertByCreatedAt(newer, []) == [newer];
    assert InsertByCreatedAt(newer, [older]) == [older, newer];
    assert SortByCreatedAt(values) == [older, newer];
    assert Paginate([older, newer], 1, 0) == [older];
  }
}
