/** ValuesRule: the values a rule offers for the properties its matcher
  * selects; empty and null values are dropped lazily, once per setValues. */
module ValuesRules {
  import opened Wrappers
  import opened ProjectInfos
  import opened PropertyMatchers

  predicate Kept(v: ValueHint) {
    v.value.Some? && v.value.value != ""
  }

  /** The filter of cleanValues. */
  function Clean(vs: seq<ValueHint>): seq<ValueHint> {
    if vs == [] then []
    else (if Kept(vs[0]) then [vs[0]] else []) + Clean(vs[1..])
  }

  /** Cleaning keeps exactly the hints with a non-empty value, in order: the
    * result is the subsequence of those hints, and cleaning it again changes
    * nothing. */
  lemma {:induction false} CleanSpec(vs: seq<ValueHint>)
    ensures forall v :: v in Clean(vs) <==> v in vs && Kept(v)
    ensures |Clean(vs)| <= |vs|
    ensures Clean(Clean(vs)) == Clean(vs)
  {
    if vs != [] {
      CleanSpec(vs[1..]);
      if Kept(vs[0]) {
        var c := Clean(vs);
        assert c[0] == vs[0] && c[1..] == Clean(vs[1..]);
        assert Clean(c) == [vs[0]] + Clean(Clean(vs[1..]));
      } else {
        assert Clean(vs) == Clean(vs[1..]);
      }
    }
  }

  /** Cleaning keeps the order of what it keeps: it distributes over
    * concatenation. */
  lemma {:induction false} CleanAppend(a: seq<ValueHint>, b: seq<ValueHint>)
    ensures Clean(a + b) == Clean(a) + Clean(b)
  {
    if a != [] {
      CleanAppend(a[1..], b);
      assert (a + b)[1..] == a[1..] + b;
    } else {
      assert a + b == b;
    }
  }

  class ValuesRule {
    var matcher: PropertyMatcher
    var values: Option<seq<ValueHint>>
    var valuesCleaned: bool

    constructor (matcher: PropertyMatcher)
      ensures this.matcher == matcher && values.None? && !valuesCleaned
    {
      this.matcher := matcher;
      values := None;
      valuesCleaned := false;
    }

    /** setValues: store the list and mark it as not yet cleaned. */
    method SetValues(vs: Option<seq<ValueHint>>)
      modifies this
      ensures matcher == old(matcher) && values == vs && !valuesCleaned
    {
      values := vs;
      valuesCleaned := false;
    }

    /** cleanValues: filter once; null and empty lists are left as they are
      * and do not count as cleaned. */
    method CleanValues()
      modifies this
      ensures matcher == old(matcher)
      ensures old(valuesCleaned) || old(values).None? || old(values) == Some([]) ==>
        values == old(values) && valuesCleaned == old(valuesCleaned)
      ensures !(old(valuesCleaned) || old(values).None? || old(values) == Some([])) ==>
        values == Some(Clean(old(values).value)) && valuesCleaned
    {
      if valuesCleaned || values.None? || values.value == [] {
        return;
      }
      values := Some(Clean(values.value));
      valuesCleaned := true;
    }

    /** getValues: the cleaned list. A second call returns the same list. */
    method GetValues() returns (r: Option<seq<ValueHint>>)
      modifies this
      ensures r == values && matcher == old(matcher)
      ensures old(valuesCleaned) ==> values == old(values)
      ensures old(values).Some? && old(values) != Some([]) && !old(valuesCleaned) ==>
        r == Some(Clean(old(values).value)) && valuesCleaned
      ensures old(values).None? || old(values) == Some([]) ==> r == old(values)
    {
      CleanValues();
      r := values;
    }

    /** match delegates to the matcher. */
    function Match(propertyName: Option<string>, propertyType: Option<string>): bool
      reads this
    {
      PropertyMatchers.Match(matcher, propertyName, propertyType)
    }
  }

  /** Two reads after one setValues give the same list, the first one cleaned. */
  method ReadTwice(rule: ValuesRule, vs: seq<ValueHint>) returns (first: Option<seq<ValueHint>>, second: Option<seq<ValueHint>>)
    modifies rule
    ensures first == second
    ensures first == (if vs == [] then Some([]) else Some(Clean(vs)))
  {
    rule.SetValues(Some(vs));
    first := rule.GetValues();
    second := rule.GetValues();
  }
}
