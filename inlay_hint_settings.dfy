/** MicroProfileInlayHintSettings: inlay hints on or off, and one setting
  * per kind of hint, filled with defaults on first read. */
module InlayHintSettings {
  import opened Wrappers

  /** The four kinds of inlay hint the settings cover. */
  datatype Kind = Converters | DefaultValues | ResolveExpressions | Types

  /** MicroProfileInlayHintTypeSettings, as far as equality sees it. */
  datatype TypeSettings = TypeSettings(enabled: bool)

  /** DEFAULT_CONVERTERS, DEFAULT_DEFAULT_VALUES, DEFAULT_RESOLVE_EXPRESSIONS,
    * DEFAULT_TYPES. */
  function Default(kind: Kind): TypeSettings {
    match kind
    case Converters => TypeSettings(false)
    case DefaultValues => TypeSettings(true)
    case ResolveExpressions => TypeSettings(true)
    case Types => TypeSettings(false)
  }

  /** The four kind settings after updateDefault: a kind that is set keeps
    * its setting, an unset one gets its default, and filling again changes
    * nothing. */
  function Filled(kinds: map<Kind, TypeSettings>): (r: map<Kind, TypeSettings>)
    ensures forall k: Kind :: k in r
    ensures forall k :: k in kinds ==> r[k] == kinds[k]
    ensures forall k :: k !in kinds ==> r[k] == Default(k)
  {
    AllKindsComplete();
    map k: Kind | k in AllKinds :: if k in kinds then kinds[k] else Default(k)
  }

  /** Filling twice is filling once. */
  lemma FilledIdempotent(kinds: map<Kind, TypeSettings>)
    ensures Filled(Filled(kinds)) == Filled(kinds)
  {
    AllKindsComplete();
  }

  const AllKinds: set<Kind> := {Converters, DefaultValues, ResolveExpressions, Types}

  lemma AllKindsComplete()
    ensures forall k: Kind :: k in AllKinds
  {
    forall k: Kind ensures k in AllKinds {
      match k
      case Converters =>
      case DefaultValues =>
      case ResolveExpressions =>
      case Types =>
    }
  }

  /** A map holding every kind is the display of its four entries. */
  lemma KindsDisplay(m: map<Kind, TypeSettings>)
    requires forall k: Kind :: k in m
    ensures map[Converters := m[Converters], DefaultValues := m[DefaultValues],
                ResolveExpressions := m[ResolveExpressions], Types := m[Types]] == m
  {
    AllKindsComplete();
    var d := map[Converters := m[Converters], DefaultValues := m[DefaultValues],
                 ResolveExpressions := m[ResolveExpressions], Types := m[Types]];
    assert d.Keys == AllKinds == m.Keys;
    forall k | k in d
      ensures d[k] == m[k]
    {
      match k
      case Converters =>
      case DefaultValues =>
      case ResolveExpressions =>
      case Types =>
    }
  }

  class MicroProfileInlayHintSettings {
    var enabled: bool
    /** The kind settings that are not null. */
    var kinds: map<Kind, TypeSettings>
    var updated: bool

    /** Once defaults are applied, every kind is set. */
    predicate Valid()
      reads this
    {
      updated ==> forall k: Kind :: k in kinds
    }

    constructor ()
      ensures enabled && kinds == map[] && !updated && Valid()
    {
      enabled := true;
      kinds := map[];
      updated := false;
    }

    method SetEnabled(e: bool)
      modifies this
      ensures enabled == e && kinds == old(kinds) && updated == old(updated)
    {
      enabled := e;
    }

    /** setConverters, setDefaultValues, setResolveExpressions, setTypes:
      * store the setting (None for null) and clear the updated flag. */
    method SetKind(kind: Kind, s: Option<TypeSettings>)
      modifies this
      ensures enabled == old(enabled) && !updated && Valid()
      ensures s.Some? ==> kinds == old(kinds)[kind := s.value]
      ensures s.None? ==> kinds == old(kinds) - {kind}
    {
      kinds := if s.Some? then kinds[kind := s.value] else kinds - {kind};
      updated := false;
    }

    /** updateDefault: fill unset kinds with their defaults, once. */
    method UpdateDefault()
      requires Valid()
      modifies this
      ensures Valid() && updated && enabled == old(enabled)
      ensures kinds == Filled(old(kinds))
    {
      if updated {
        AllKindsComplete();
        assert Filled(kinds) == kinds;
        return;
      }
      kinds := Filled(kinds);
      updated := true;
    }

    /** getConverters, getDefaultValues, getResolveExpressions, getTypes. */
    method GetKind(kind: Kind) returns (s: TypeSettings)
      requires Valid()
      modifies this
      ensures Valid() && updated && enabled == old(enabled)
      ensures kinds == Filled(old(kinds))
      ensures s == Filled(old(kinds))[kind]
    {
      UpdateDefault();
      s := kinds[kind];
    }

    /** equals: enabled and the four kind fields as they are, without
      * defaults applied. */
    predicate Equals(other: MicroProfileInlayHintSettings?)
      reads this, other
    {
      other != null && enabled == other.enabled && kinds == other.kinds
    }

    /** update: false for null or an equal object, and then neither object
      * changes; otherwise enabled and the four settings, read through the
      * other object's getters, are copied, and those getters leave the other
      * object with its defaults filled in and marked updated. */
    method Update(newInlayHint: MicroProfileInlayHintSettings?) returns (changed: bool)
      requires Valid() && (newInlayHint != null ==> newInlayHint.Valid())
      modifies this, newInlayHint
      ensures Valid()
      ensures changed <==> newInlayHint != null && !(old(enabled) == old(newInlayHint.enabled) && old(kinds) == old(newInlayHint.kinds))
      ensures !changed ==> enabled == old(enabled) && kinds == old(kinds) && updated == old(updated)
      ensures changed ==> enabled == old(newInlayHint.enabled) && kinds == Filled(old(newInlayHint.kinds)) && !updated
      ensures changed ==>
        newInlayHint.Valid() && newInlayHint.updated &&
        newInlayHint.enabled == old(newInlayHint.enabled) && newInlayHint.kinds == Filled(old(newInlayHint.kinds))
      ensures !changed && newInlayHint != null ==>
        newInlayHint.enabled == old(newInlayHint.enabled) && newInlayHint.kinds == old(newInlayHint.kinds) &&
        newInlayHint.updated == old(newInlayHint.updated)
    {
      if newInlayHint == null || Equals(newInlayHint) {
        return false;
      }
      assert newInlayHint != this;
      var full := Filled(newInlayHint.kinds);
      FilledIdempotent(newInlayHint.kinds);
      enabled := newInlayHint.enabled;
      var c := newInlayHint.GetKind(Converters);
      assert newInlayHint.kinds == full;
      var d := newInlayHint.GetKind(DefaultValues);
      var r := newInlayHint.GetKind(ResolveExpressions);
      var t := newInlayHint.GetKind(Types);
      KindsDisplay(full);
      kinds := map[Converters := c, DefaultValues := d, ResolveExpressions := r, Types := t];
      updated := false;
      return true;
    }
  }

  /** A new settings object reads as enabled, converters off, default values
    * on, resolve expressions on and types off. */
  method NewSettingsDefaults() returns (enabled: bool, converters: TypeSettings, defaultValues: TypeSettings,
                                        resolveExpressions: TypeSettings, types: TypeSettings)
    ensures enabled && !converters.enabled && defaultValues.enabled && resolveExpressions.enabled && !types.enabled
  {
    var s := new MicroProfileInlayHintSettings();
    enabled := s.enabled;
    converters := s.GetKind(Converters);
    defaultValues := s.GetKind(DefaultValues);
    resolveExpressions := s.GetKind(ResolveExpressions);
    types := s.GetKind(Types);
  }

  /** An explicitly set kind survives the defaults; setting a kind makes the
    * next read apply the defaults to the other kinds again. */
  method SetThenRead(s: MicroProfileInlayHintSettings, kind: Kind, other: Kind, setting: TypeSettings) returns (read: TypeSettings, otherRead: TypeSettings)
    requires s.Valid() && kind != other && other !in s.kinds
    modifies s
    ensures read == setting && otherRead == Default(other)
  {
    s.SetKind(kind, Some(setting));
    read := s.GetKind(kind);
    otherRead := s.GetKind(other);
  }
}
