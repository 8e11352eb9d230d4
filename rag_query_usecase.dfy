/** Executing a RAG query: validate by constructing the Query, then hand it to the strategy. */
module RagQueryUseCases {
  import opened Wrappers
  import opened Text
  import opened Queries

  /** `execute`. The strategy's own `execute` is not declared by the strategy interface and no
      strategy shown implements it, so it is a parameter here. A rejected text or `top_k` fails
      before the strategy is consulted; otherwise the strategy's answer is returned as it is. */
  function Execute(strategyExecute: Query -> QueryResult, queryText: string, topK: int := DefaultTopK)
    : (r: Result<QueryResult, seq<QueryError>>)
    ensures r.Success? <==> !Blank(queryText) && MinTopK <= topK <= MaxTopK
    ensures r.Success? ==> r.value == strategyExecute(Query(Strip(queryText), topK))
    ensures r.Failure? ==>
      && r.error == NewQuery(queryText, topK).error
      && (EmptyText in r.error <==> Blank(queryText))
      && (TopKTooSmall in r.error <==> topK < MinTopK)
      && (TopKTooLarge in r.error <==> topK > MaxTopK)
  {
    var query :- NewQuery(queryText, topK);
    Success(strategyExecute(query))
  }

  /** On rejected input the strategy is never consulted: any two strategies give the same failure. */
  lemma RejectedBeforeStrategy(f: Query -> QueryResult, g: Query -> QueryResult, queryText: string, topK: int)
    requires Blank(queryText) || topK < MinTopK || topK > MaxTopK
    ensures Execute(f, queryText, topK) == Execute(g, queryText, topK)
  {
  }

  /** The strategy only ever sees a valid Query. */
  lemma StrategySeesValidQuery(f: Query -> QueryResult, queryText: string, topK: int)
    requires !Blank(queryText) && MinTopK <= topK <= MaxTopK
    ensures IsValidQuery(Query(Strip(queryText), topK))
    ensures Execute(f, queryText, topK) == Success(f(Query(Strip(queryText), topK)))
  {
  }
}
