/** PropertyMatcher: decides whether a values rule applies to a property,
  * by the property's name, its type, or both. */
module PropertyMatchers {
  import opened Wrappers

  /** The matcher's name and type collections; null when not configured. */
  datatype PropertyMatcher = PropertyMatcher(names: Option<seq<string>>, types: Option<seq<string>>)

  predicate MatchName(m: PropertyMatcher, propertyName: Option<string>)
    requires m.names.Some?
  {
    propertyName.Some? && propertyName.value in m.names.value
  }

  predicate MatchType(m: PropertyMatcher, propertyType: Option<string>)
    requires m.types.Some?
  {
    propertyType.Some? && propertyType.value in m.types.value
  }

  /** match(metadata, model) on the metadata's name and type. */
  function Match(m: PropertyMatcher, propertyName: Option<string>, propertyType: Option<string>): (r: bool)
    ensures m.names.Some? && m.types.Some? ==> (r <==> MatchName(m, propertyName) && MatchType(m, propertyType))
    ensures m.names.Some? && m.types.None? ==> (r <==> MatchName(m, propertyName))
    ensures m.names.None? && m.types.Some? ==> (r <==> MatchType(m, propertyType))
    ensures m.names.None? && m.types.None? ==> !r
  {
    if m.names.Some? && m.types.Some? then MatchName(m, propertyName) && MatchType(m, propertyType)
    else if m.names.Some? then MatchName(m, propertyName)
    else if m.types.Some? then MatchType(m, propertyType)
    else false
  }

  /** A matcher with both collections matches exactly the properties that the
    * names-only and the types-only matchers both match. */
  lemma BothIsConjunction(names: seq<string>, types: seq<string>, propertyName: Option<string>, propertyType: Option<string>)
    ensures Match(PropertyMatcher(Some(names), Some(types)), propertyName, propertyType) <==>
      Match(PropertyMatcher(Some(names), None), propertyName, propertyType) &&
      Match(PropertyMatcher(None, Some(types)), propertyName, propertyType)
  {
  }
}
