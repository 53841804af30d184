/** MicroProfileProjectInfo: the properties and hints of a project, which
  * doubles as a provider of enum constants through its hints. */
module ProjectInfos {
  import opened Wrappers

  /** A ValueHint; only its value (null when absent) is used here. */
  datatype ValueHint = ValueHint(value: Option<string>)

  /** An ItemHint: the hint's name and its values, in order. */
  datatype ItemHint = ItemHint(name: Option<string>, values: seq<ValueHint>)

  /** The project information: the names of its properties, its hints and
    * its project URI. */
  datatype ProjectInfo = ProjectInfo(properties: seq<string>, hints: seq<ItemHint>, projectURI: Option<string>)

  /** getHint(name): the first hint carrying that name. */
  function GetHint(info: ProjectInfo, name: string): (r: Option<nat>)
    ensures r.Some? ==> r.value < |info.hints| && info.hints[r.value].name == Some(name)
    ensures r.Some? ==> forall j :: 0 <= j < r.value ==> info.hints[j].name != Some(name)
    ensures r.None? ==> forall j :: 0 <= j < |info.hints| ==> info.hints[j].name != Some(name)
  {
    FirstNamed(info.hints, name, 0)
  }

  function FirstNamed(hints: seq<ItemHint>, name: string, from: nat): (r: Option<nat>)
    requires from <= |hints|
    ensures r.Some? ==> from <= r.value < |hints| && hints[r.value].name == Some(name)
    ensures forall j :: from <= j < |hints| && (r.None? || j < r.value) ==> hints[j].name != Some(name)
    decreases |hints| - from
  {
    if from == |hints| then None
    else if hints[from].name == Some(name) then Some(from)
    else FirstNamed(hints, name, from + 1)
  }

  /** The values of a hint, as getValue() of each ValueHint. */
  function HintValues(h: ItemHint): (r: seq<Option<string>>)
    ensures |r| == |h.values| && forall i :: 0 <= i < |r| ==> r[i] == h.values[i].value
  {
    seq(|h.values|, i requires 0 <= i < |h.values| => h.values[i].value)
  }

  /** getConstants: null when no hint has the name, otherwise the values of
    * the first hint with that name, in the hint's order. */
  function GetConstants(info: ProjectInfo, enumType: string): (r: Option<seq<Option<string>>>)
    ensures r.None? <==> forall j :: 0 <= j < |info.hints| ==> info.hints[j].name != Some(enumType)
    ensures r.Some? ==> exists j :: 0 <= j < |info.hints| && info.hints[j].name == Some(enumType) && r.value == HintValues(info.hints[j])
  {
    match GetHint(info, enumType)
    case None => None
    case Some(j) => Some(HintValues(info.hints[j]))
  }

  /** EMPTY_PROJECT_INFO: no properties, no hints, project URI "". */
  function EmptyProjectInfo(): (info: ProjectInfo)
    ensures info.properties == [] && info.hints == [] && info.projectURI == Some("")
    ensures forall t :: GetConstants(info, t).None?
  {
    ProjectInfo([], [], Some(""))
  }

  /** getConstants reads the hint's current values: appending a value to the
    * hint the lookup finds appends it to the answer. */
  lemma AppendedValueSeen(info: ProjectInfo, enumType: string, v: ValueHint)
    requires GetHint(info, enumType).Some?
    ensures var j := GetHint(info, enumType).value;
      var h := info.hints[j];
      var info' := info.(hints := info.hints[j := h.(values := h.values + [v])]);
      GetConstants(info', enumType) == Some(GetConstants(info, enumType).value + [v.value])
  {
    var j := GetHint(info, enumType).value;
    var h := info.hints[j];
    var info' := info.(hints := info.hints[j := h.(values := h.values + [v])]);
    assert info'.hints[j].name == Some(enumType);
    assert forall i :: 0 <= i < j ==> info'.hints[i] == info.hints[i];
    assert GetHint(info', enumType) == Some(j);
    assert HintValues(info'.hints[j]) == HintValues(h) + [v.value];
  }
}
