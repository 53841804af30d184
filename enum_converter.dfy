/** EnumTypeConverterValidator: checks a value against the constants of an
  * enum type that is known only by name, through a table keyed by the
  * hyphenated constant names. */
module EnumConverters {
  import opened Wrappers
  import opened JavaStrings
  import opened ConverterValidators

  /** getConverterSimpleClassName(); getConverterClassName() is null. */
  const ConverterSimpleClassName: string := "EnumConverter"

  /** ENUM_ERROR_MESSAGE formatted with the value, the enum type's name and
    * the table's keys joined by ",". */
  function EnumErrorMessage(value: string, typeName: string, allowed: seq<string>): string {
    "SRCFG00049: Cannot convert " + value + " to enum class " + typeName + ", allowed values: " + Join(allowed, ",")
  }

  /** The `values` table updateValues builds from the constants cs: each
    * put replaces the constant stored under the same hyphenated key. */
  function Table(cs: seq<string>, hyphenate: string -> string): map<string, string> {
    if cs == [] then map[]
    else Table(cs[..|cs| - 1], hyphenate)[hyphenate(cs[|cs| - 1]) := cs[|cs| - 1]]
  }

  /** The table's keys in first-insertion order: the one iteration order of
    * the HashMap key set this model fixes. */
  function KeyOrder(cs: seq<string>, hyphenate: string -> string): seq<string> {
    if cs == [] then []
    else
      var ks := KeyOrder(cs[..|cs| - 1], hyphenate);
      if hyphenate(cs[|cs| - 1]) in ks then ks else ks + [hyphenate(cs[|cs| - 1])]
  }

  /** The hyphenated forms of the constants. */
  function Hyphenated(cs: seq<string>, hyphenate: string -> string): set<string> {
    set c | c in cs :: hyphenate(c)
  }

  /** The table's keys are exactly the hyphenated constants, each key maps to
    * a constant that hyphenates to it, and the key order lists every key
    * once. */
  lemma {:induction false} TableSpec(cs: seq<string>, hyphenate: string -> string)
    ensures Table(cs, hyphenate).Keys == Hyphenated(cs, hyphenate)
    ensures forall k :: k in Table(cs, hyphenate) ==> Table(cs, hyphenate)[k] in cs && hyphenate(Table(cs, hyphenate)[k]) == k
    ensures forall k :: k in KeyOrder(cs, hyphenate) <==> k in Table(cs, hyphenate)
    ensures forall i, j :: 0 <= i < j < |KeyOrder(cs, hyphenate)| ==> KeyOrder(cs, hyphenate)[i] != KeyOrder(cs, hyphenate)[j]
  {
    if cs != [] {
      var init := cs[..|cs| - 1];
      TableSpec(init, hyphenate);
      assert cs == init + [cs[|cs| - 1]];
      assert Hyphenated(cs, hyphenate) == Hyphenated(init, hyphenate) + {hyphenate(cs[|cs| - 1])};
    }
  }

  class EnumTypeConverterValidator {
    /** The enum type's name. */
    const typeName: string
    /** StringUtil.skewer, a library function this model leaves uninterpreted. */
    const hyphenate: string -> string
    /** The constant list of the EnumType the validator was built for. */
    var constants: Option<seq<string>>
    /** values: hyphenated constant -> constant. */
    var values: map<string, string>
    /** values.keySet() in its iteration order. */
    var keys: seq<string>

    /** The table always reflects the current constants; a null list leaves
      * it empty (updateValues clears it before failing). */
    predicate Valid()
      reads this
    {
      match constants
      case None => values == map[] && keys == []
      case Some(cs) => values == Table(cs, hyphenate) && keys == KeyOrder(cs, hyphenate)
    }

    /** The constructor fills the table from the type's constants. With a
      * null list updateValues throws; ResolveConverter models that. */
    constructor (typeName: string, constants: seq<string>, hyphenate: string -> string)
      ensures this.typeName == typeName && this.hyphenate == hyphenate
      ensures this.constants == Some(constants)
      ensures Valid()
    {
      this.typeName := typeName;
      this.hyphenate := hyphenate;
      this.constants := Some(constants);
      this.values := map[];
      this.keys := [];
      new;
      var thrown := UpdateValues();
    }

    /** updateValues: clear the table and put every constant under its
      * hyphenated form; true when the list is null (NullPointerException). */
    method UpdateValues() returns (thrown: bool)
      modifies this
      ensures constants == old(constants)
      ensures thrown <==> constants.None?
      ensures Valid()
    {
      values := map[];
      keys := [];
      if constants.None? {
        return true;
      }
      var cs := constants.value;
      var i := 0;
      while i < |cs|
        invariant 0 <= i <= |cs|
        invariant constants == Some(cs)
        invariant values == Table(cs[..i], hyphenate) && keys == KeyOrder(cs[..i], hyphenate)
      {
        TableSpec(cs[..i], hyphenate);
        assert cs[..i + 1][..i] == cs[..i];
        var h := hyphenate(cs[i]);
        if h !in values {
          keys := keys + [h];
        }
        values := values[h := cs[i]];
        i := i + 1;
      }
      assert cs[..i] == cs;
      return false;
    }

    /** refreshEnumType: `provided` is what the provider answers for the
      * type's name. A different list (Objects.equals) is stored and the table
      * rebuilt; the answer is true when that rebuild throws. */
    method RefreshEnumType(provided: Option<seq<string>>) returns (thrown: bool)
      requires Valid()
      modifies this
      ensures Valid()
      ensures constants == provided
      ensures old(constants) == provided ==> values == old(values) && keys == old(keys)
      ensures thrown <==> old(constants) != provided && provided.None?
    {
      thrown := false;
      if constants != provided {
        constants := provided;
        thrown := UpdateValues();
      }
    }

    function CanValidate(): bool {
      true
    }

    /** The collector calls validate(value, start, collector) makes. */
    function Outcome(value: string, start: int): (ds: seq<Diagnostic>)
      reads this
      ensures |ds| <= 1
      ensures ds == [] <==> Trim(value) == "" || hyphenate(Trim(value)) in values
      ensures forall d :: d in ds ==> d == Diagnostic(EnumErrorMessage(value, typeName, keys), "microprofile-config", "value", start, |value|)
    {
      var trimmed := Trim(value);
      if trimmed == "" || hyphenate(trimmed) in values then []
      else [Diagnostic(EnumErrorMessage(value, typeName, keys), "microprofile-config", "value", start, |value|)]
    }

    method Validate(value: string, start: int) returns (ds: seq<Diagnostic>)
      ensures ds == Outcome(value, start)
    {
      var trimmedValue := Trim(value);
      if trimmedValue == "" {
        return [];
      }
      var hyphenatedValue := hyphenate(trimmedValue);
      if hyphenatedValue in values {
        return [];
      }
      var errorMessage := EnumErrorMessage(value, typeName, keys);
      ds := [Diagnostic(errorMessage, "microprofile-config", "value", start, |value|)];
    }
  }

  /** A value passes iff it is blank or its trimmed, hyphenated form is the
    * hyphenated form of one of the current constants; a failure lists every
    * hyphenated constant once. */
  lemma AcceptedIff(v: EnumTypeConverterValidator, value: string, start: int)
    requires v.Valid() && v.constants.Some?
    ensures v.Outcome(value, start) == [] <==>
      Trim(value) == "" || MatchesConstant(v.hyphenate, v.constants.value, Trim(value))
    ensures forall k :: k in v.keys <==> k in Hyphenated(v.constants.value, v.hyphenate)
  {
    TableSpec(v.constants.value, v.hyphenate);
  }

  /** Some constant hyphenates to the same key as t. */
  predicate MatchesConstant(hyphenate: string -> string, cs: seq<string>, t: string) {
    exists c :: c in cs && hyphenate(c) == hyphenate(t)
  }

  /** The enum test: "BLOCK" passes against DISCARD and BLOCK, "BLACK" is
    * reported with the allowed values listed in table order. */
  lemma OverflowActionExample(v: EnumTypeConverterValidator)
    requires v.Valid() && v.constants == Some(["DISCARD", "BLOCK"])
    requires v.hyphenate("DISCARD") == "discard" && v.hyphenate("BLOCK") == "block"
    requires v.hyphenate("BLACK") == "black"
    ensures v.Outcome("BLOCK", 0) == []
    ensures v.Outcome("BLACK", 0) == [Diagnostic(EnumErrorMessage("BLACK", v.typeName, ["discard", "block"]),
      "microprofile-config", "value", 0, 5)]
  {
    var cs := ["DISCARD", "BLOCK"];
    assert cs[..1] == ["DISCARD"] && cs[..1][..0] == [];
    assert KeyOrder(cs[..1], v.hyphenate) == ["discard"];
    assert v.keys == ["discard", "block"];
    TableSpec(cs, v.hyphenate);
    assert Trim("BLOCK") == "BLOCK" by { TrimClean("BLOCK"); }
    assert Trim("BLACK") == "BLACK" by { TrimClean("BLACK"); }
  }

  /** The refresh test: a validator built on WEB_APP and SERVICE rejects FOO;
    * once the provider also lists FOO it accepts it; once WEB_APP is removed
    * WEB_APP is rejected. */
  method RefreshScenario(hyphenate: string -> string) returns (foo1: seq<Diagnostic>, foo2: seq<Diagnostic>, webApp3: seq<Diagnostic>)
    requires hyphenate("WEB_APP") == "web-app" && hyphenate("SERVICE") == "service" && hyphenate("FOO") == "foo"
    ensures |foo1| == 1 && foo2 == [] && |webApp3| == 1
  {
    var v := new EnumTypeConverterValidator("ApplicationType", ["WEB_APP", "SERVICE"], hyphenate);
    RejectedKey(v, "FOO", "foo");
    foo1 := v.Validate("FOO", 0);
    var thrown := v.RefreshEnumType(Some(["WEB_APP", "SERVICE", "FOO"]));
    TrimClean("FOO");
    AcceptedIff(v, "FOO", 0);
    assert "FOO" in ["WEB_APP", "SERVICE", "FOO"];
    foo2 := v.Validate("FOO", 0);
    thrown := v.RefreshEnumType(Some(["SERVICE", "FOO"]));
    RejectedKey(v, "WEB_APP", "web-app");
    webApp3 := v.Validate("WEB_APP", 0);
  }

  /** A step of RefreshScenario: a clean value whose hyphenated form differs
    * from those of both current constants is reported once. */
  lemma RejectedKey(v: EnumTypeConverterValidator, value: string, key: string)
    requires v.Valid() && v.constants.Some? && |v.constants.value| == 2
    requires Trim(value) == value && value != "" && v.hyphenate(value) == key
    requires v.hyphenate(v.constants.value[0]) != key && v.hyphenate(v.constants.value[1]) != key
    ensures |v.Outcome(value, 0)| == 1
  {
    AcceptedIff(v, value, 0);
  }
}
