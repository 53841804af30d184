/** SimpleEnumConstantsProvider: a table of enum constant lists, keyed by the
  * enum type's name and created on first use. */
module EnumConstantsProviders {
  import opened Wrappers

  /** The provider's table; None while no list was ever added. A stored list
    * may itself be null. */
  type Enums = Option<map<string, Option<seq<string>>>>

  /** getConstants on a table. */
  function Lookup(enums: Enums, enumType: string): (r: Option<seq<string>>)
    ensures enums.None? ==> r.None?
  {
    if enums.Some? && enumType in enums.value then enums.value[enumType] else None
  }

  /** addEnumConstants on a table: create it when absent, then put. */
  function Added(enums: Enums, enumType: string, constants: Option<seq<string>>): Enums {
    Some((if enums.None? then map[] else enums.value)[enumType := constants])
  }

  /** After adding, the type reads back the added list, whatever was stored
    * before; every other type reads as before. */
  lemma AddedLookup(enums: Enums, enumType: string, constants: Option<seq<string>>, other: string)
    ensures Lookup(Added(enums, enumType, constants), enumType) == constants
    ensures other != enumType ==> Lookup(Added(enums, enumType, constants), other) == Lookup(enums, other)
  {
  }

  /** A second addition for the same type replaces the first. */
  lemma AddedTwice(enums: Enums, enumType: string, first: Option<seq<string>>, second: Option<seq<string>>)
    ensures Added(Added(enums, enumType, first), enumType, second) == Added(enums, enumType, second)
  {
    var m := if enums.None? then map[] else enums.value;
    assert Added(enums, enumType, first) == Some(m[enumType := first]);
    assert m[enumType := first][enumType := second] == m[enumType := second];
  }

  class SimpleEnumConstantsProvider {
    var enums: Enums

    constructor ()
      ensures enums == None
      ensures forall t :: GetConstants(t).None?
    {
      enums := None;
    }

    function GetConstants(enumType: string): Option<seq<string>>
      reads this
    {
      Lookup(enums, enumType)
    }

    method AddEnumConstants(enumType: string, enumConstNames: Option<seq<string>>)
      modifies this
      ensures enums == Added(old(enums), enumType, enumConstNames)
      ensures GetConstants(enumType) == enumConstNames
      ensures forall t :: t != enumType ==> GetConstants(t) == old(GetConstants(t))
    {
      if enums.None? {
        enums := Some(map[]);
      }
      enums := Some(enums.value[enumType := enumConstNames]);
    }
  }
}
