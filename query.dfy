/** The Query a caller asks and the QueryResult a strategy answers with. */
module Queries {
  import opened Wrappers
  import opened Text

  const DefaultTopK: int := 5
  const MinTopK: int := 1
  const MaxTopK: int := 100

  /** A validated question: `text` is stripped and non-empty, `topK` lies in 1..100. */
  datatype Query = Query(text: string, topK: int)

  /** The failures pydantic reports for a Query, one per rejected field. */
  datatype QueryError = EmptyText | TopKTooSmall | TopKTooLarge {
    /** The message pydantic reports for the failing field. */
    function Message(): (m: string)
      ensures |m| > 0
    {
      match this
      case EmptyText => "Query text cannot be empty"
      case TopKTooSmall => "Input should be greater than or equal to 1"
      case TopKTooLarge => "Input should be less than or equal to 100"
    }
  }

  /** The message tells which field failed, and for `top_k` which bound. */
  lemma QueryMessageNamesFailure(e1: QueryError, e2: QueryError)
    ensures e1.Message() == e2.Message() <==> e1 == e2
  {
  }

  /** What every constructed Query satisfies. */
  predicate IsValidQuery(q: Query) {
    && q.text != []
    && !IsWhitespace(q.text[0])
    && !IsWhitespace(q.text[|q.text| - 1])
    && MinTopK <= q.topK <= MaxTopK
  }

  /** `text_not_empty`: rejects an empty or blank text, otherwise keeps it stripped. */
  function ValidateText(text: string): (r: Result<string, QueryError>)
    ensures r.Success? <==> !Blank(text)
    ensures r.Success? ==> r.value == Strip(text) && r.value != []
    ensures r.Failure? ==> r.error == EmptyText
  {
    if text == [] || Strip(text) == [] then Failure(EmptyText) else Success(Strip(text))
  }

  /** The `ge=1, le=100` constraint on `top_k`. */
  function ValidateTopK(topK: int): (r: Result<int, QueryError>)
    ensures r.Success? <==> MinTopK <= topK <= MaxTopK
    ensures r.Success? ==> r.value == topK
    ensures r.Failure? ==> r.error == (if topK < MinTopK then TopKTooSmall else TopKTooLarge)
  {
    if topK < MinTopK then Failure(TopKTooSmall)
    else if topK > MaxTopK then Failure(TopKTooLarge)
    else Success(topK)
  }

  /** Constructing a Query. Both fields are validated and every failure is reported, text first;
      `top_k` defaults to 5. */
  function NewQuery(text: string, topK: int := DefaultTopK): (r: Result<Query, seq<QueryError>>)
    ensures r.Success? <==> !Blank(text) && MinTopK <= topK <= MaxTopK
    ensures r.Success? ==> IsValidQuery(r.value) && r.value.text == Strip(text) && r.value.topK == topK
    ensures r.Failure? ==>
      && (EmptyText in r.error <==> Blank(text))
      && (TopKTooSmall in r.error <==> topK < MinTopK)
      && (TopKTooLarge in r.error <==> topK > MaxTopK)
      && |r.error| <= 2
      && (|r.error| == 2 ==> r.error[0] == EmptyText && r.error[1] != EmptyText)
  {
    match (ValidateText(text), ValidateTopK(topK))
    case (Success(t), Success(k)) => Success(Query(t, k))
    case (Failure(e), Success(_)) => Failure([e])
    case (Success(_), Failure(e)) => Failure([e])
    case (Failure(e1), Failure(e2)) => Failure([e1, e2])
  }

  /** A valid Query's text is its own stripped form, so building it again changes nothing. */
  lemma NewQueryOfValidQuery(q: Query)
    requires IsValidQuery(q)
    ensures NewQuery(q.text, q.topK) == Success(q)
  {
    assert Strip(q.text) == q.text by {
      assert SkipBlanksForward(q.text, 0) == 0;
      assert SkipBlanksBackward(q.text, 0, |q.text|) == |q.text|;
    }
  }

  /** The answer: the originating query, a generated answer and source labels (none unless given). */
  datatype QueryResult = QueryResult(query: Query, answer: string, sources: seq<string> := [])

  /** Sources default to none, whatever the query and answer. */
  lemma QueryResultSourcesDefault(q: Query, answer: string)
    ensures QueryResult(q, answer).sources == []
  {
  }

  /** The record keeps what it is given and adds nothing: nothing bounds its sources by `top_k`. */
  lemma QueryResultSourcesUnbounded(q: Query)
    requires q.topK == MinTopK
    ensures |QueryResult(q, "answer", ["a.pdf", "b.pdf"]).sources| > q.topK
  {
  }
}
