/** The test sequences of the repository and of the document use case, replayed against the
    contracts alone. */
module Scenarios {
  import opened Wrappers
  import opened Text
  import opened Documents
  import opened DocumentStore
  import opened DocumentUseCases

  /** Save and find, save the same document again, update an absent id, delete twice, then
      save two documents and delete them all. */
  method SaveFindUpdateDelete(d: Document, absent: Document)
    returns (found: Option<Document>, sizeAfterResave: nat, updated: Result<Document, StoreError>,
             deletedFirst: bool, deletedAgain: bool, foundAfterDelete: Option<Document>, cleared: nat)
    requires absent.id != d.id
    ensures found == Some(d)
    ensures sizeAfterResave == 1
    ensures updated == Failure(NotFound(absent.id))
    ensures deletedFirst && !deletedAgain
    ensures foundAfterDelete == None
    ensures cleared == 2
  {
    var repository := new InMemoryDocumentRepository();
    var saved := repository.Save(d);
    found := repository.FindById(d.id);
    saved := repository.Save(d);
    sizeAfterResave := |repository.FindAll()|;
    var before := repository.documents;
    updated := repository.Update(absent);
    assert repository.documents == before;
    deletedFirst := repository.Delete(d.id);
    deletedAgain := repository.Delete(d.id);
    foundAfterDelete := repository.FindById(d.id);
    saved := repository.Save(d);
    saved := repository.Save(absent);
    cleared := repository.DeleteAll();
  }

  /** Save two documents, delete the first through the use case: the second is all that is
      left in the key order. */
  method SaveTwoDeleteFirst(first: Document, second: Document) returns (remaining: seq<DocumentId>)
    requires first.id != second.id
    ensures remaining == [second.id]
  {
    var repository := new InMemoryDocumentRepository();
    var saved := repository.Save(first);
    saved := repository.Save(second);
    var useCase := new DocumentUseCase(repository);
    var deleted := useCase.Delete(first.id);
    WithoutFirstOfTwo(first.id, second.id);
    remaining := repository.order;
  }

  /** Deleting the first of two keys leaves the second. */
  lemma WithoutFirstOfTwo(first: DocumentId, second: DocumentId)
    requires first != second
    ensures Without([first, second], first) == [second]
  {
    assert [first, second][1..] == [second];
    assert [second][1..] == [];
  }

  /** Create a document, update its content later, then delete it. */
  method CreateUpdateDelete(id: DocumentId, created: Timestamp, later: Timestamp,
                            title: string, content: string, newContent: string)
    returns (made: Result<Document, seq<DocumentError>>, updated: Option<Document>, gone: bool)
    requires created < later && !Text.Blank(title) && !Text.Blank(content)
    ensures made.Success? && made.value.source == ""
    ensures updated.Some? && updated.value.title == title && updated.value.content == newContent
    ensures updated.value.updatedAt > made.value.updatedAt
    ensures gone
  {
    var repository := new InMemoryDocumentRepository();
    var useCase := new DocumentUseCase(repository);
    made := useCase.Create(id, created, title, content);
    updated := useCase.Update(id, newContent, later);
    var deleted := useCase.Delete(id);
    gone := deleted && useCase.Get(id) == None;
  }
}
