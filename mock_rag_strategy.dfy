/** The mock retrieval policy: the first `top_k` documents of the store's default listing. */
module MockRagStrategy {
  import opened Documents
  import opened DocumentStore

  /** `retrieve_documents`: `find_all(limit=top_k)`, whatever the query text; `top_k` defaults to 5. */
  function RetrieveDocuments(repository: InMemoryDocumentRepository, queryText: string, topK: nat := 5): (docs: seq<Document>)
    reads repository
    requires repository.Valid()
    ensures |docs| == Min(topK, |repository.documents|)
    ensures SortedByCreatedAt(docs)
    ensures |docs| <= |repository.order| && docs == SortByCreatedAt(Values(repository.documents, repository.order))[..|docs|]
    ensures forall d, e :: d in docs && e in repository.documents.Values && e !in docs ==> d.createdAt <= e.createdAt
  {
    FirstPageIsOldest(repository.documents, repository.order, topK);
    repository.FindAll(topK)
  }

  /** The query text plays no part in what is retrieved. */
  lemma IgnoresQueryText(repository: InMemoryDocumentRepository, text1: string, text2: string, topK: nat)
    requires repository.Valid()
    ensures RetrieveDocuments(repository, text1, topK) == RetrieveDocuments(repository, text2, topK)
  {
  }
}
