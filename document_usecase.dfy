/** Document CRUD: validation by construction, then delegation to the repository. */
module DocumentUseCases {
  import opened Wrappers
  import opened Text
  import opened Documents
  import opened DocumentStore

  class DocumentUseCase {
    const repository: InMemoryDocumentRepository

    constructor (repository: InMemoryDocumentRepository)
      ensures this.repository == repository
    {
      this.repository := repository;
    }

    /** `create`: builds the Document (id and clock reading supplied by the caller) and saves it;
        a rejected title or content fails before the repository is touched. */
    method Create(id: DocumentId, now: Timestamp, title: string, content: string, source: string := "")
      returns (r: Result<Document, seq<DocumentError>>)
      requires repository.Valid()
      modifies repository
      ensures repository.Valid()
      ensures r.Success? <==> !Blank(title) && !Blank(content)
      ensures r.Success? ==>
        && r.value == Document(id, title, content, source, now, now)
        && repository.documents == old(repository.documents)[id := r.value]
        && repository.order == (if id in old(repository.documents) then old(repository.order) else old(repository.order) + [id])
        && repository.FindById(id) == Some(r.value)
      ensures r.Failure? ==>
        && r.error == NewDocument(id, now, title, content, source).error
        && repository.documents == old(repository.documents)
        && repository.order == old(repository.order)
    {
      var document := NewDocument(id, now, title, content, source);
      if document.Failure? {
        return Failure(document.error);
      }
      var saved := repository.Save(document.value);
      r := Success(saved);
    }

    /** `get`: the stored document, or nothing for an unknown id. */
    function Get(id: DocumentId): (found: Option<Document>)
      reads repository
      requires repository.Valid()
      ensures found.Some? <==> id in repository.documents
      ensures found.Some? ==> found.value.id == id && found.value == repository.documents[id]
    {
      repository.FindById(id)
    }

    /** `list`: one page of the store's `created_at` listing; 100 from the start by default. */
    function List(limit: nat := 100, offset: nat := 0): (page: seq<Document>)
      reads repository
      requires repository.Valid()
      ensures |page| == Max(0, Min(limit, |repository.documents| - offset))
      ensures SortedByCreatedAt(page)
      ensures page == Listing(repository.documents, repository.order, limit, offset)
    {
      repository.FindAll(limit, offset)
    }

    /** `update`: look the document up, give it the new content and the current time, write it
        back. An unknown id gives nothing and changes nothing. */
    method Update(id: DocumentId, content: string, now: Timestamp) returns (r: Option<Document>)
      requires repository.Valid()
      modifies repository
      ensures repository.Valid()
      ensures repository.order == old(repository.order)
      ensures r.Some? <==> id in old(repository.documents)
      ensures r.None? ==> repository.documents == old(repository.documents)
      ensures r.Some? ==>
        && var before := old(repository.documents)[id];
        && r.value.content == content && r.value.updatedAt == now
        && r.value.id == id && r.value.title == before.title && r.value.source == before.source
        && r.value.createdAt == before.createdAt
        && repository.documents == old(repository.documents)[id := r.value]
    {
      var found := repository.FindById(id);
      if found.None? {
        return None;
      }
      var document := UpdateContent(found.value, content, now);
      var written := repository.Update(document);
      r := written.ToOption();
    }

    /** `delete`: true exactly when a document was stored under `id`; afterwards none is. */
    method Delete(id: DocumentId) returns (deleted: bool)
      requires repository.Valid()
      modifies repository
      ensures repository.Valid()
      ensures deleted == (id in old(repository.documents))
      ensures repository.documents == old(repository.documents) - {id}
      ensures repository.order == Without(old(repository.order), id)
      ensures Get(id) == None
    {
      deleted := repository.Delete(id);
    }

    /** `delete_all`: the number of documents there were; the listing is empty afterwards. */
    method DeleteAll() returns (count: nat)
      requires repository.Valid()
      modifies repository
      ensures repository.Valid()
      ensures count == old(|repository.documents|)
      ensures repository.documents == map[]
      ensures List() == []
    {
      count := repository.DeleteAll();
    }
  }
}
