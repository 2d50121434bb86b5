/**
 * The logical categories a client may request and their translation into
 * the upstream headlines service's vocabulary.
 */
module Categories {
  import opened Articles

  /** The category used when the request names none. */
  const DefaultCategory: string := "All"

  /** The upstream category used for any key the table does not know. */
  const GenericUpstream: string := "general"

  /** Logical category -> upstream category. */
  const CategoryMap: map<string, string> := map[
    "All" := "general",
    "Technology" := "technology",
    "Business" := "business",
    "Science" := "science",
    "Entertainment" := "entertainment",
    "Sports" := "sports"
  ]

  /** Every category name the upstream service is ever asked for. */
  const UpstreamVocabulary: set<string> :=
    {"general", "technology", "business", "science", "entertainment", "sports"}

  /** The `category` query parameter, defaulting to `All` when the request has none. */
  function RequestedCategory(query: Option<string>): (c: string)
    ensures query.None? ==> c == DefaultCategory
    ensures query.Some? ==> c == query.value
  {
    match query
    case None => DefaultCategory
    case Some(c) => c
  }

  /** `categoryMap[category] || 'general'`. */
  function UpstreamCategory(category: string): (r: string)
    ensures r in UpstreamVocabulary
    ensures category !in CategoryMap ==> r == GenericUpstream
  {
    if category in CategoryMap then CategoryMap[category] else GenericUpstream
  }

  /** The table, read back: the six known keys and the catch-all. */
  lemma UpstreamCategoryTable(category: string)
    ensures UpstreamCategory("All") == "general"
    ensures UpstreamCategory("Technology") == "technology"
    ensures UpstreamCategory("Business") == "business"
    ensures UpstreamCategory("Science") == "science"
    ensures UpstreamCategory("Entertainment") == "entertainment"
    ensures UpstreamCategory("Sports") == "sports"
    ensures UpstreamCategory(category) == GenericUpstream <==> category == "All" || category !in CategoryMap
  {
  }
}
