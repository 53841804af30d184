/** ExecutionMode: the SAFE/FULL switch of the configuration-value validator. */
module ExecutionModes {
  import opened Wrappers
  import opened JavaStrings

  /** The two modes, declared in this order (SAFE first). */
  datatype ExecutionMode = SAFE | FULL

  /** getValue: SAFE is 1, FULL is 2. */
  function Value(m: ExecutionMode): int {
    match m
    case SAFE => 1
    case FULL => 2
  }

  /** getName: the lower-case mode name. */
  function Name(m: ExecutionMode): string {
    match m
    case SAFE => "safe"
    case FULL => "full"
  }

  /** values(), in declaration order. */
  function Values(): seq<ExecutionMode> {
    [SAFE, FULL]
  }

  /** forValue(int): the mode at position value - 1 of values(), or an
    * IllegalArgumentException outside 1..values().length. */
  function ForValue(value: int): (r: Result<ExecutionMode, string>)
    ensures r.Success? <==> 1 <= value <= 2
    ensures r.Success? ==> Value(r.value) == value
    ensures r.Failure? ==> r.error == "Illegal enum value: " + IntToString(value)
  {
    if value < 1 || value > |Values()| then Failure("Illegal enum value: " + IntToString(value))
    else Success(Values()[value - 1])
  }

  /** forValue(String): the first mode whose name equals the value ignoring
    * case; SAFE for null and for anything unrecognised. */
  function ForName(value: Option<string>): ExecutionMode {
    match value
    case None => SAFE
    case Some(v) =>
      if EqualsIgnoreCase(Name(SAFE), v) then SAFE
      else if EqualsIgnoreCase(Name(FULL), v) then FULL
      else SAFE
  }

  /** forValue(m.getValue()) == m for both modes. */
  lemma ValueRoundTrip(m: ExecutionMode)
    ensures ForValue(Value(m)) == Success(m)
  {
  }

  /** forValue(m.getName()) == m for both modes. */
  lemma NameRoundTrip(m: ExecutionMode)
    ensures ForName(Some(Name(m))) == m
  {
    assert EqualsIgnoreCase(Name(m), Name(m));
    if m == FULL {
      assert !CharsEqualIgnoreCase(Name(SAFE)[0], Name(FULL)[0]);
    }
  }

  /** The upper-case spelling is recognised too. */
  lemma UpperCaseNameRoundTrip(m: ExecutionMode)
    ensures ForName(Some(ToUpper(Name(m)))) == m
  {
    var u := ToUpper(Name(m));
    assert EqualsIgnoreCase(Name(m), u);
    if m == FULL {
      assert u[0] == 'F';
      assert !CharsEqualIgnoreCase('s', 'F');
    }
  }

  /** A string decodes to FULL exactly when it equals "full" ignoring case;
    * null and every other string decode to SAFE. */
  lemma ForNameIsFullIff(value: Option<string>)
    ensures ForName(value) == FULL <==> value.Some? && EqualsIgnoreCase("full", value.value)
  {
    if value.Some? && EqualsIgnoreCase("full", value.value) {
      var v := value.value;
      assert CharsEqualIgnoreCase('f', v[0]);
      assert !CharsEqualIgnoreCase('s', v[0]);
    }
  }
}
