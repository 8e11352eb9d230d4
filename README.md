# rag-backend: the document store and its validation rules, in Dafny

This project models the core of a small retrieval-augmented-generation backend:

- the **Document** entity, whose title and content must not be empty or whitespace-only,
  and its `update_content` operation;
- the **Query** (stripped, non-empty text and a `top_k` between 1 and 100, default 5) and the
  **QueryResult** record;
- the **in-memory document repository**: a dictionary from id to Document with save,
  lookup, paginated listing in `created_at` order, update, delete and delete-all;
- the two **retrieval policies** (mock and "simple"), which both return the first `top_k`
  documents of the repository's listing;
- the **document use case** (create, get, list, update, delete, delete-all over the
  repository) and the **RAG query use case** (validate, then delegate to the strategy).

Files and modules follow the source files:

| file | module | source file |
|---|---|---|
| `wrappers.dfy` | `Wrappers` | Option and Result for `None` and for raised errors |
| `text.dfy` | `Text` | Python's `str.strip()` used by the validators |
| `document.dfy` | `Documents` | `src/domain/document/models/document.py` |
| `query.dfy` | `Queries` | `src/domain/rag/models/query.py` |
| `document_store.dfy` | `DocumentStore` | `src/infrastructure/repositories/in_memory_document_repository.py` |
| `mock_rag_strategy.dfy` | `MockRagStrategy` | `src/infrastructure/algorithms/mock_rag_strategy.py` |
| `simple_rag_strategy.dfy` | `SimpleRagStrategy` | `src/infrastructure/algorithms/simple_rag_strategy.py` |
| `document_usecase.dfy` | `DocumentUseCases` | `src/usecase/document/document_usecase.py` |
| `rag_query_usecase.dfy` | `RagQueryUseCases` | `src/usecase/rag/rag_query_usecase.py` |
| `scenarios.dfy` | `Scenarios` | the repository and document use-case test sequences, replayed against the contracts |

Modelling choices:

- Documents are values (a `datatype`); the repository is a `class` whose `documents` map
  and `order` sequence its methods reassign. `order` is the dictionary's insertion order of
  keys: a new key is appended, an overwritten key keeps its place, a deleted key is removed.
  `Valid()` says that `order` lists every key exactly once and that every document is
  stored under its own id.
- `find_all` sorts a snapshot with Python's stable sort keyed on `created_at`. The sort is
  a library call; the model writes it as the insertion sort `SortByCreatedAt` and proves of
  it what the library promises: sorted, a permutation, and stable (documents created at the
  same instant keep their insertion order).
- Pydantic reports every failing field, not only the first, so `NewDocument` and `NewQuery`
  return the list of field errors in declaration order.
- Whitespace is the set of code points for which Python's `str.isspace()` holds.
- Ids are 128-bit naturals (UUIDs) and timestamps are integers; both are parameters
  supplied by the caller in place of `uuid4()` and `datetime.now(UTC)`.
- The "simple" strategy's doc comment (lines 25 and 36 of its file) says it returns the
  most recent documents; the code calls `find_all(limit=top_k)`, which returns the oldest.
  The model follows the code (`SimpleRagStrategy.OldestNotMostRecent`).
- QueryResult has no `len(sources) <= top_k` invariant: nothing in the code enforces one,
  and the model does not either (`Queries.QueryResultSourcesUnbounded`).

## Model

| member | source | states |
|---|---|---|
| `Text.SkipBlanksForward` | src/domain/rag/models/query.py:15 | the scan from the left stops at the first non-whitespace character (or the end) and passes only whitespace |
| `Text.SkipBlanksBackward` | src/domain/rag/models/query.py:15 | the scan from the right stops after the last non-whitespace character (or at the left bound) and passes only whitespace |
| `Text.Strip` | src/domain/document/models/document.py:20 | `str.strip()`: an infix of the input with blank margins and non-blank ends; empty exactly when the input is empty or whitespace-only, which is the `not v or not v.strip()` test |
| `Text.StripIdempotent` | src/domain/rag/models/query.py:15 | stripping an already stripped text changes nothing |
| `Documents.DocumentError.Message` | src/domain/document/models/document.py:17-29 | each validator failure carries a non-empty message, the one the validator raises |
| `Documents.DocumentMessageNamesField` | src/domain/document/models/document.py:17-29 | the two messages differ, so a message tells which field was rejected |
| `Documents.ValidateTitle` | src/domain/document/models/document.py:17-22 | a title is rejected with EmptyTitle exactly when blank, and otherwise kept as given, untrimmed |
| `Documents.ValidateContent` | src/domain/document/models/document.py:24-29 | a content is rejected with EmptyContent exactly when blank, and otherwise kept as given, untrimmed |
| `Documents.NewDocument` | src/domain/document/models/document.py:7-29 | construction succeeds iff title and content are non-blank; all fields are stored as given, source defaulting to ""; every failing field is reported, title first |
| `Documents.UpdateContent` | src/domain/document/models/document.py:31-34 | content becomes the argument and updated_at the current time; id, title, source and created_at are unchanged |
| `Documents.UpdateContentSkipsValidation` | src/domain/document/models/document.py:31-34 | update_content does not re-validate: a valid document can be given empty content |
| `Documents.UpdateContentKeepsWellFormed` | src/domain/document/models/document.py:31-34 | with non-blank content the title/content invariant is kept |
| `Queries.QueryError.Message` | src/domain/rag/models/query.py:8-14 | each failure carries a non-empty message: the validator's for the text, pydantic's `ge`/`le` wording for top_k |
| `Queries.QueryMessageNamesFailure` | src/domain/rag/models/query.py:8-14 | the three messages differ, so a message tells which field and which bound failed |
| `Queries.ValidateText` | src/domain/rag/models/query.py:10-15 | query text is rejected with EmptyText exactly when blank, otherwise stored stripped and non-empty |
| `Queries.ValidateTopK` | src/domain/rag/models/query.py:8 | top_k is accepted exactly when 1 <= top_k <= 100, with the bound it violates otherwise |
| `Queries.NewQuery` | src/domain/rag/models/query.py:4-15 | a Query is built iff the text is non-blank and 1 <= top_k <= 100 (top_k defaulting to 5); its text is the stripped input; every failing field is reported, once each, text first |
| `Queries.NewQueryOfValidQuery` | src/domain/rag/models/query.py:10-15 | re-validating a valid Query gives the same Query back |
| `Queries.QueryResultSourcesDefault` | src/domain/rag/models/query.py:23 | for every query and answer, a QueryResult built without sources has none |
| `Queries.QueryResultSourcesUnbounded` | src/domain/rag/models/query.py:18-23 | QueryResult keeps the sources it is given: nothing bounds them by top_k |
| `DocumentStore.InsertByCreatedAt` | src/infrastructure/repositories/in_memory_document_repository.py:26 | inserting into a sorted listing keeps it sorted and adds exactly the one document |
| `DocumentStore.SortByCreatedAt` | src/infrastructure/repositories/in_memory_document_repository.py:24-26 | the sorted listing is in non-decreasing created_at order and a permutation of the stored values |
| `DocumentStore.SortIsStable` | src/infrastructure/repositories/in_memory_document_repository.py:26 | the sort is stable: documents with equal created_at keep their insertion order |
| `DocumentStore.InsertKeepsTiesInOrder` | src/infrastructure/repositories/in_memory_document_repository.py:26 | an inserted document goes before every document created at the same instant |
| `DocumentStore.Paginate` | src/infrastructure/repositories/in_memory_document_repository.py:27 | the slice `[offset : offset + limit]` has max(0, min(limit, N - offset)) elements, the contiguous run starting at offset |
| `DocumentStore.Values` | src/infrastructure/repositories/in_memory_document_repository.py:24 | `list(self._documents.values())`: one entry per key of the insertion order, the document stored under that key |
| `DocumentStore.KeyOrderCount` | src/infrastructure/repositories/in_memory_document_repository.py:24 | the values list has as many entries as the dictionary has keys |
| `DocumentStore.Without` | src/infrastructure/repositories/in_memory_document_repository.py:39 | deleting a key removes exactly that key from the insertion order; the others stay distinct and keep their relative order (a subsequence) |
| `DocumentStore.Listing` | src/infrastructure/repositories/in_memory_document_repository.py:22-27 | a page of the sorted values: of the paginated size, sorted, a contiguous slice of the sorted list, made only of stored documents |
| `DocumentStore.FirstPageIsOldest` | src/infrastructure/repositories/in_memory_document_repository.py:24-27 | the first page holds the oldest documents: no stored document left out is older than one on it |
| `DocumentStore.InMemoryDocumentRepository.constructor` | src/infrastructure/repositories/in_memory_document_repository.py:10-11 | a new repository is empty |
| `DocumentStore.InMemoryDocumentRepository.Save` | src/infrastructure/repositories/in_memory_document_repository.py:13-16 | inserts or overwrites by id and returns the document; find_by_id then returns it; the size grows only for a new id; an existing key keeps its position |
| `DocumentStore.InMemoryDocumentRepository.FindById` | src/infrastructure/repositories/in_memory_document_repository.py:18-20 | the document stored under the id, which carries that id, or None when absent |
| `DocumentStore.InMemoryDocumentRepository.FindAll` | src/infrastructure/repositories/in_memory_document_repository.py:22-27 | limit 100 and offset 0 by default; max(0, min(limit, N - offset)) documents, sorted by created_at, a contiguous slice of the sorted store |
| `DocumentStore.InMemoryDocumentRepository.Update` | src/infrastructure/repositories/in_memory_document_repository.py:29-34 | fails with NotFound(id) and changes nothing when the id is absent; otherwise replaces the entry wholesale |
| `DocumentStore.InMemoryDocumentRepository.Delete` | src/infrastructure/repositories/in_memory_document_repository.py:36-41 | returns true iff the id was present, removes only that entry, and find_by_id then returns None |
| `DocumentStore.InMemoryDocumentRepository.DeleteAll` | src/infrastructure/repositories/in_memory_document_repository.py:43-47 | returns the prior size and leaves the store and its listing empty |
| `MockRagStrategy.RetrieveDocuments` | src/infrastructure/algorithms/mock_rag_strategy.py:12-29 | min(top_k, N) documents, top_k defaulting to 5: the prefix of the created_at-sorted store, none newer than a document left out |
| `MockRagStrategy.IgnoresQueryText` | src/infrastructure/algorithms/mock_rag_strategy.py:13 | the result does not depend on the query text |
| `SimpleRagStrategy.RetrieveDocuments` | src/infrastructure/algorithms/simple_rag_strategy.py:19-38 | min(top_k, N) documents, top_k defaulting to 5: the oldest, in ascending created_at order |
| `SimpleRagStrategy.SameAsMock` | src/infrastructure/algorithms/simple_rag_strategy.py:37 | the simple policy returns exactly what the mock policy returns |
| `SimpleRagStrategy.OldestNotMostRecent` | src/infrastructure/algorithms/simple_rag_strategy.py:36-37 | with an older and a newer document stored, asking for one returns the older, contrary to the comment |
| `DocumentUseCases.DocumentUseCase.Create` | src/usecase/document/document_usecase.py:15-31 | stores and returns a document with the given title, content and source (default ""); a new id is appended to the insertion order, an existing one keeps its place; blank title or content fails with the store untouched |
| `DocumentUseCases.DocumentUseCase.Get` | src/usecase/document/document_usecase.py:33-42 | the stored document for the id, or None |
| `DocumentUseCases.DocumentUseCase.List` | src/usecase/document/document_usecase.py:44-54 | limit 100 and offset 0 by default; the store's sorted page |
| `DocumentUseCases.DocumentUseCase.Update` | src/usecase/document/document_usecase.py:56-71 | an unknown id gives None and leaves the store unchanged; a known one changes only content and updated_at, title preserved |
| `DocumentUseCases.DocumentUseCase.Delete` | src/usecase/document/document_usecase.py:73-82 | true iff the id was stored; only that entry is removed, the insertion order loses just that key; get is None afterwards |
| `DocumentUseCases.DocumentUseCase.DeleteAll` | src/usecase/document/document_usecase.py:84-90 | the number of documents there were; list is empty afterwards |
| `RagQueryUseCases.Execute` | src/usecase/rag/rag_query_usecase.py:13-29 | fails with exactly the Query constructor's errors when the input is invalid (top_k defaulting to 5); otherwise returns the strategy's result for the Query with stripped text, unchanged |
| `RagQueryUseCases.RejectedBeforeStrategy` | src/usecase/rag/rag_query_usecase.py:24-27 | on invalid input the strategy is never consulted |
| `Scenarios.SaveFindUpdateDelete` | tests/test_infrastructure/test_repositories/test_in_memory_document_repository.py:31-141 | from the contracts alone: save then find returns the document, re-saving keeps one entry, updating an absent id fails with NotFound, a second delete returns false, delete_all counts what is stored |
| `Scenarios.CreateUpdateDelete` | tests/test_usecase/test_document/test_document_usecase.py:82-128 | from the contracts alone: create defaults source to "", update keeps the title, sets the new content and a strictly later updated_at when the clock advanced, and get returns None after delete |
| `Scenarios.SaveTwoDeleteFirst` | src/usecase/document/document_usecase.py:73-82 | from the contracts alone: with two documents saved, deleting the first through the use case leaves just the second in the key order |
| `RagQueryUseCases.StrategySeesValidQuery` | src/usecase/rag/rag_query_usecase.py:24-27 | the strategy receives only a valid Query |

## Left out

- `search_by_embedding`: declared by the repository interface, never implemented by the
  in-memory store, and defined over float vectors.
- The strategies' own `execute` (template answers, source filtering): not declared by the
  strategy interface and implemented by no strategy shown, so `RagQueryUseCases.Execute`
  takes it as a function parameter instead of inventing it.
- The interfaces `DocumentRepository` and `RAGStrategy` carry no behaviour; Dafny traits are
  not used, so the repository is the one concrete class and the strategy is a parameter.
- Context assembly, a "no relevant documents" sentinel and fallback source labels do not
  exist in the code and are not modelled.
- The HTTP layer, configuration, dependency wiring, the Azure OpenAI client and its test
  double: transport, environment and network, not logic.
- async/await and concurrency: every call is taken as one sequential step.
- `uuid4()` and `datetime.now(UTC)`: replaced by caller-supplied ids and timestamps.
  Integer timestamps also leave out the `TypeError` that `all_docs.sort` raises when the store
  mixes naive and timezone-aware datetimes (a Document built with an explicit naive
  `created_at` is accepted by the model); every timestamp is comparable here.
  `NewDocument` reads the clock once for both timestamps by default, where the source's two
  default factories may read it microseconds apart.
- Python object aliasing: documents are values, so mutating a document already held by
  the store has no effect until it is written back with `Update`. For the same reason
  `update_content` is a function returning the updated document rather than an in-place
  assignment.
- The in-place `list.sort`: modelled as a value-level stable sort, not as an array algorithm.
- Negative `limit`, `offset` and `top_k` in the slicing of `find_all` (Python's slices from
  the end): these are naturals in the model. Python's coercion of other types into `int`
  or `str` by pydantic is not modelled.
- Exception message formatting: `NotFound` carries the id rather than the formatted
  "Document with id … not found" text, and pydantic's "Value error, " prefix is dropped.
- DocumentUseCases.DocumentUseCase.Update: states `updated_at == now`; that this is
  strictly later than before holds only when the caller's clock has advanced.
