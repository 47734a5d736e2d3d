/**
 * `_validate_filters`: the shape check made on a filter before it is
 * converted for Qdrant (the conversion itself is not part of this model).
 */
module Filters {
  import opened StoreErrors

  /**
   * The value passed as `filters`: nothing, a Haystack filter dictionary
   * (only its keys matter here), a `qdrant_client` `Filter` object, or any
   * other Python value, of which only its truthiness matters here.
   */
  datatype FilterValue =
    | NoFilter
    | DictFilter(keys: set<string>)
    | QdrantFilter
    | OtherValue(truthy: bool)

  /** Python truthiness: `None` and an empty dict are false, a `Filter` object is true. */
  predicate Truthy(f: FilterValue) {
    match f
    case NoFilter => false
    case DictFilter(keys) => keys != {}
    case QdrantFilter => true
    case OtherValue(t) => t
  }

  function ValidateFilters(filters: FilterValue): (r: Outcome)
    ensures r == Accepted <==>
      !Truthy(filters) || filters.QdrantFilter? || (filters.DictFilter? && "operator" in filters.keys)
    ensures r == Rejected(ValueError(FilterNotDictOrFilter)) <==> Truthy(filters) && filters.OtherValue?
    ensures r == Rejected(ValueError(InvalidFilterSyntax)) <==>
      filters.DictFilter? && filters.keys != {} && "operator" !in filters.keys
  {
    if Truthy(filters) && !filters.DictFilter? && !filters.QdrantFilter? then
      Rejected(ValueError(FilterNotDictOrFilter))
    else if Truthy(filters) && !filters.QdrantFilter? && "operator" !in filters.keys then
      Rejected(ValueError(InvalidFilterSyntax))
    else
      Accepted
  }
}
