/** The in-memory document repository: a dictionary from id to Document, listed in
    `created_at` order by a stable sort and paginated by slicing. */
module DocumentStore {
  import opened Wrappers
  import opened Documents

  // ---------------------------------------------------------------------------------------
  // Ordering: `list.sort(key=lambda d: d.created_at)`, a stable sort.
  // ---------------------------------------------------------------------------------------

  ghost predicate SortedByCreatedAt(s: seq<Document>) {
    forall i, j :: 0 <= i < j < |s| ==> s[i].createdAt <= s[j].createdAt
  }

  /** Places `x` before the first element that is not older than it. */
  function InsertByCreatedAt(x: Document, s: seq<Document>): (r: seq<Document>)
    requires SortedByCreatedAt(s)
    ensures SortedByCreatedAt(r)
    ensures multiset(r) == multiset(s) + multiset{x}
    ensures forall d :: d in r ==> d == x || d in s
  {
    if s == [] || x.createdAt <= s[0].createdAt then
      [x] + s
    else
      var rest := InsertByCreatedAt(x, s[1..]);
      assert s == [s[0]] + s[1..];
      OlderFirstStaysSorted(s[0], rest, x, s[1..]);
      [s[0]] + rest
  }

  /** Putting a document in front of a sorted listing of documents no older than it keeps it sorted. */
  lemma OlderFirstStaysSorted(first: Document, rest: seq<Document>, x: Document, others: seq<Document>)
    requires SortedByCreatedAt(rest) && SortedByCreatedAt([first] + others)
    requires first.createdAt < x.createdAt
    requires forall d :: d in rest ==> d == x || d in others
    ensures SortedByCreatedAt([first] + rest)
  {
    forall j | 0 <= j < |rest| ensures first.createdAt <= rest[j].createdAt {
      assert rest[j] in rest;
      if rest[j] != x {
        var k :| 0 <= k < |others| && others[k] == rest[j];
        assert ([first] + others)[0] == first && ([first] + others)[k + 1] == rest[j];
      }
    }
    var r := [first] + rest;
    forall i, j | 0 <= i < j < |r| ensures r[i].createdAt <= r[j].createdAt {
      if i > 0 { assert r[i] == rest[i - 1] && r[j] == rest[j - 1]; } else { assert r[j] == rest[j - 1]; }
    }
  }

  /** Python's stable sort by `created_at`, written as an insertion sort. */
  function SortByCreatedAt(s: seq<Document>): (r: seq<Document>)
    ensures SortedByCreatedAt(r)
    ensures |r| == |s| && multiset(r) == multiset(s)
    ensures forall d :: d in r <==> d in s
  {
    if s == [] then
      []
    else
      assert s == [s[0]] + s[1..];
      var r := InsertByCreatedAt(s[0], SortByCreatedAt(s[1..]));
      assert forall d :: d in r <==> d in multiset(r);
      r
  }

  /** The documents of `s` created at instant `t`, in their order in `s`. */
  function CreatedAt(s: seq<Document>, t: Timestamp): seq<Document> {
    if s == [] then [] else (if s[0].createdAt == t then [s[0]] else []) + CreatedAt(s[1..], t)
  }

  lemma CreatedAtCons(d: Document, s: seq<Document>, t: Timestamp)
    ensures CreatedAt([d] + s, t) == (if d.createdAt == t then [d] else []) + CreatedAt(s, t)
  {
  }

  lemma {:induction false} InsertKeepsTiesInOrder(x: Document, s: seq<Document>, t: Timestamp)
    requires SortedByCreatedAt(s)
    ensures CreatedAt(InsertByCreatedAt(x, s), t) == (if x.createdAt == t then [x] else []) + CreatedAt(s, t)
  {
    if s == [] || x.createdAt <= s[0].createdAt {
      CreatedAtCons(x, s, t);
    } else {
      var rest := InsertByCreatedAt(x, s[1..]);
      assert InsertByCreatedAt(x, s) == [s[0]] + rest;
      InsertKeepsTiesInOrder(x, s[1..], t);
      CreatedAtCons(s[0], rest, t);
      CreatedAtCons(s[0], s[1..], t);
      assert [s[0]] + s[1..] == s;
    }
  }

  /** Stability: documents with equal `created_at` keep their relative order. */
  lemma {:induction false} SortIsStable(s: seq<Document>, t: Timestamp)
    ensures CreatedAt(SortByCreatedAt(s), t) == CreatedAt(s, t)
  {
    if s != [] {
      SortIsStable(s[1..], t);
      InsertKeepsTiesInOrder(s[0], SortByCreatedAt(s[1..]), t);
    }
  }

  // ---------------------------------------------------------------------------------------
  // Pagination: `all_docs[offset : offset + limit]` for natural limit and offset.
  // ---------------------------------------------------------------------------------------

  function Min(a: int, b: int): int { if a <= b then a else b }
  function Max(a: int, b: int): int { if a <= b then b else a }

  /** The page of `limit` items starting at `offset`, cut short at the end of `s`. */
  function Paginate<T>(s: seq<T>, limit: nat, offset: nat): (page: seq<T>)
    ensures |page| == Max(0, Min(limit, |s| - offset))
    ensures forall i :: 0 <= i < |page| ==> page[i] == s[offset + i]
  {
    if offset >= |s| then [] else s[offset..Min(offset + limit, |s|)]
  }

  // ---------------------------------------------------------------------------------------
  // The dictionary and its insertion order.
  // ---------------------------------------------------------------------------------------

  ghost predicate Distinct<T>(s: seq<T>) {
    forall i, j :: 0 <= i < j < |s| ==> s[i] != s[j]
  }

  /** `order` lists the dictionary's keys, each once, in the order they were first inserted. */
  ghost predicate KeyOrder(documents: map<DocumentId, Document>, order: seq<DocumentId>) {
    && (forall i :: 0 <= i < |order| ==> order[i] in documents)
    && (forall k :: k in documents ==> k in order)
    && Distinct(order)
  }

  /** Every document is stored under its own id. */
  ghost predicate KeyedById(documents: map<DocumentId, Document>) {
    forall k :: k in documents ==> documents[k].id == k
  }

  /** `list(self._documents.values())`: the stored documents in insertion order. */
  function Values(documents: map<DocumentId, Document>, order: seq<DocumentId>): (vs: seq<Document>)
    requires forall i :: 0 <= i < |order| ==> order[i] in documents
    ensures |vs| == |order|
    ensures forall i :: 0 <= i < |order| ==> vs[i] == documents[order[i]]
  {
    seq(|order|, i requires 0 <= i < |order| => documents[order[i]])
  }

  function Elements<T>(s: seq<T>): set<T> {
    set x | x in s
  }

  /** A distinct sequence has as many elements as its set. */
  lemma {:induction false} DistinctCardinality<T>(s: seq<T>)
    requires Distinct(s)
    ensures |Elements(s)| == |s|
  {
    if s != [] {
      DistinctCardinality(s[1..]);
      assert Elements(s) == {s[0]} + Elements(s[1..]);
      assert s[0] !in s[1..];
    }
  }

  /** The key order lists exactly as many keys as the dictionary holds. */
  lemma KeyOrderCount(documents: map<DocumentId, Document>, order: seq<DocumentId>)
    requires KeyOrder(documents, order)
    ensures |order| == |documents|
  {
    DistinctCardinality(order);
    assert Elements(order) == documents.Keys by {
      forall k | k in Elements(order) ensures k in documents {
        var i :| 0 <= i < |order| && order[i] == k;
      }
    }
    assert |documents| == |documents.Keys|;
  }

  /** Every stored document appears in the insertion-ordered listing. */
  lemma StoredAreListed(documents: map<DocumentId, Document>, order: seq<DocumentId>, d: Document)
    requires KeyOrder(documents, order)
    requires d in documents.Values
    ensures d in Values(documents, order)
  {
  }

  /** `r` is `s` with some entries left out, the rest in their order in `s`. */
  predicate Subsequence<T(==)>(r: seq<T>, s: seq<T>) {
    if r == [] then true
    else if s == [] then false
    else if r[0] == s[0] then Subsequence(r[1..], s[1..])
    else Subsequence(r, s[1..])
  }

  /** `order` with `k` removed: the key order after `del self._documents[k]`, which keeps the
      remaining keys in their insertion order. */
  function Without(order: seq<DocumentId>, k: DocumentId): (r: seq<DocumentId>)
    ensures forall x :: x in r <==> x in order && x != k
    ensures Distinct(order) ==> Distinct(r)
    ensures Subsequence(r, order)
  {
    if order == [] then
      []
    else
      var rest := Without(order[1..], k);
      if order[0] == k then
        assert rest != [] ==> rest[0] in rest;
        rest
      else
        assert Distinct(order) ==> order[0] !in order[1..];
        assert ([order[0]] + rest)[1..] == rest;
        [order[0]] + rest
  }

  // ---------------------------------------------------------------------------------------
  // The listing `find_all` returns, and what it promises.
  // ---------------------------------------------------------------------------------------

  /** Sort a snapshot of the values by `created_at`, then slice. */
  function Listing(documents: map<DocumentId, Document>, order: seq<DocumentId>, limit: nat, offset: nat): (page: seq<Document>)
    requires KeyOrder(documents, order)
    ensures |page| == Max(0, Min(limit, |documents| - offset))
    ensures SortedByCreatedAt(page)
    ensures forall i :: 0 <= i < |page| ==>
      offset + i < |order| && page[i] == SortByCreatedAt(Values(documents, order))[offset + i]
    ensures forall d :: d in page ==> d in documents.Values
  {
    KeyOrderCount(documents, order);
    ListedAreStored(documents, order);
    var sorted := SortByCreatedAt(Values(documents, order));
    PageOfSorted(sorted, limit, offset);
    Paginate(sorted, limit, offset)
  }

  /** A page of a sorted sequence is sorted and holds only elements of that sequence. */
  lemma PageOfSorted(s: seq<Document>, limit: nat, offset: nat)
    requires SortedByCreatedAt(s)
    ensures SortedByCreatedAt(Paginate(s, limit, offset))
    ensures forall d :: d in Paginate(s, limit, offset) ==> d in s
  {
  }

  /** Everything the insertion-ordered listing holds is stored. */
  lemma ListedAreStored(documents: map<DocumentId, Document>, order: seq<DocumentId>)
    requires KeyOrder(documents, order)
    ensures forall d :: d in Values(documents, order) ==> d in documents.Values
  {
  }

  /** The first page holds the oldest documents: no document left out of it is older than one in it. */
  lemma FirstPageIsOldest(documents: map<DocumentId, Document>, order: seq<DocumentId>, limit: nat)
    requires KeyOrder(documents, order)
    ensures forall d, e ::
      && d in Listing(documents, order, limit, 0)
      && e in documents.Values && e !in Listing(documents, order, limit, 0)
      ==> d.createdAt <= e.createdAt
  {
    var page := Listing(documents, order, limit, 0);
    var sorted := SortByCreatedAt(Values(documents, order));
    forall d, e | d in page && e in documents.Values && e !in page
      ensures d.createdAt <= e.createdAt
    {
      StoredAreListed(documents, order, e);
      assert e in multiset(sorted);
      var j :| 0 <= j < |sorted| && sorted[j] == e;
      var i :| 0 <= i < |page| && page[i] == d;
      assert page[i] == sorted[i];
    }
  }

  // ---------------------------------------------------------------------------------------
  // The repository object.
  // ---------------------------------------------------------------------------------------

  /** Why `update` refuses: no document is stored under the given id. */
  datatype StoreError = NotFound(id: DocumentId)

  class InMemoryDocumentRepository {
    /** `self._documents`. */
    var documents: map<DocumentId, Document>
    /** The dictionary's insertion order of keys, which `list(values())` follows. */
    var order: seq<DocumentId>

    ghost predicate Valid()
      reads this
    {
      KeyOrder(documents, order) && KeyedById(documents)
    }

    constructor ()
      ensures Valid()
      ensures documents == map[] && order == []
    {
      documents := map[];
      order := [];
    }

    /** `save`: inserts or overwrites by id; an overwritten key keeps its place in the order. */
    method Save(document: Document) returns (saved: Document)
      requires Valid()
      modifies this
      ensures Valid()
      ensures saved == document
      ensures documents == old(documents)[document.id := document]
      ensures order == if document.id in old(documents) then old(order) else old(order) + [document.id]
      ensures FindById(document.id) == Some(document)
      ensures |documents| == if document.id in old(documents) then old(|documents|) else old(|documents|) + 1
    {
      if document.id !in documents {
        order := order + [document.id];
      }
      documents := documents[document.id := document];
      saved := document;
    }

    /** `find_by_id`: the stored document, or nothing for an unknown id (a miss is not an error). */
    function FindById(id: DocumentId): (found: Option<Document>)
      reads this
      requires Valid()
      ensures found.Some? <==> id in documents
      ensures found.Some? ==> found.value == documents[id] && found.value.id == id
    {
      if id in documents then Some(documents[id]) else None
    }

    /** `find_all`: the stored documents sorted by `created_at` (ties in insertion order), then
        `limit` of them starting at `offset`. */
    function FindAll(limit: nat := 100, offset: nat := 0): (page: seq<Document>)
      reads this
      requires Valid()
      ensures |page| == Max(0, Min(limit, |documents| - offset))
      ensures SortedByCreatedAt(page)
      ensures forall d :: d in page ==> d in documents.Values
      ensures forall i :: 0 <= i < |page| ==>
        offset + i < |order| && page[i] == SortByCreatedAt(Values(documents, order))[offset + i]
    {
      Listing(documents, order, limit, offset)
    }

    /** `update`: replaces a stored document wholesale, or fails with NotFound and changes nothing. */
    method Update(document: Document) returns (r: Result<Document, StoreError>)
      requires Valid()
      modifies this
      ensures Valid()
      ensures order == old(order)
      ensures r.Success? <==> document.id in old(documents)
      ensures r.Success? ==> r.value == document && documents == old(documents)[document.id := document]
      ensures r.Failure? ==> r.error == NotFound(document.id) && documents == old(documents)
    {
      if document.id !in documents {
        return Failure(NotFound(document.id));
      }
      documents := documents[document.id := document];
      r := Success(document);
    }

    /** `delete`: removes the entry for `id` if there is one and says whether there was. */
    method Delete(id: DocumentId) returns (deleted: bool)
      requires Valid()
      modifies this
      ensures Valid()
      ensures deleted == (id in old(documents))
      ensures documents == old(documents) - {id}
      ensures order == Without(old(order), id)
      ensures FindById(id) == None
    {
      if id in documents {
        documents := documents - {id};
        order := Without(order, id);
        forall i | 0 <= i < |order| ensures order[i] in documents {
          assert order[i] in order;
        }
        return true;
      }
      assert Without(order, id) == order by { WithoutAbsent(order, id); }
      return false;
    }

    /** `delete_all`: empties the dictionary and returns how many documents it held. */
    method DeleteAll() returns (count: nat)
      requires Valid()
      modifies this
      ensures Valid()
      ensures count == old(|documents|)
      ensures documents == map[] && order == []
      ensures FindAll() == []
    {
      count := |documents|;
      documents := map[];
      order := [];
    }
  }

  /** Removing a key that is not in the order leaves the order as it was. */
  lemma {:induction false} WithoutAbsent(order: seq<DocumentId>, k: DocumentId)
    requires k !in order
    ensures Without(order, k) == order
  {
    if order != [] {
      WithoutAbsent(order[1..], k);
      assert order == [order[0]] + order[1..];
    }
  }
}
