/** The clauses of the external Lucene query builder, seen only through what
    this library asks of them: whether a clause is empty and the text it
    renders to. How the builder's own methods change a clause is not part of
    this model; the one the library calls, `matchTerm`, is a parameter. */
module Lucene {
  import opened Php

  /** A Lucene query clause: `isEmpty()` and `(string)$clause`. */
  datatype Clause = Clause(isEmpty: bool, rendered: string)

  /** `new LuceneQuery()`: an empty clause. Its rendering is never used,
      since the library renders only clauses that are not empty. */
  const EmptyClause := Clause(true, "")

  /** The three clauses a search query owns: the main query, the filter and
      the post-filter. */
  datatype Clauses = Clauses(query: Clause, filter: Clause, postFilter: Clause)

  /** The arguments of `matchTerm($field, $value, $boost, $fuzziness)`; the
      runner passes null as the boost. */
  datatype TermMatch = TermMatch(field: Value, value: Value, boost: Value, fuzziness: real)

  /** `$clause->matchTerm(...)`: whatever the builder does with a term. */
  type MatchTerm = (Clause, TermMatch) -> Clause
}
