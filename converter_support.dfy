/** The resolution half of AbstractConverterRuntimeSupport: which validator a
  * type gets, and the support object that loads the config once and caches
  * one validator per type signature. */
module ConverterSupport {
  import opened Wrappers
  import opened JavaTypes
  import opened ConverterValidators
  import opened EnumConverters
  import opened ExecutionModes
  import opened ConverterRuntime

  // ---------------------------------------------------------------------
  // resolveConverter
  // ---------------------------------------------------------------------

  const ListClass := ClassType("java.util.List")
  const SetClass := ClassType("java.util.Set")
  const MapClass := ClassType("java.util.Map")
  const OptionalClass := ClassType("java.util.Optional")
  const SupplierClass := ClassType("java.util.function.Supplier")
  const ProviderName := "jakarta.inject.Provider"

  /** What resolveConverter throws: the NullPointerException of an enum
    * validator built on a null constant list, the IllegalArgumentException of
    * a raw type that cannot be loaded, and the ArrayIndexOutOfBoundsException
    * of a missing type argument. */
  datatype ResolveError =
    | NullEnumConstants(typeName: string)
    | RawTypeNotFound(raw: string)
    | MissingTypeArgument(raw: string)

  /** The validator resolveConverter builds, without its objects: which
    * converter class, which enum, how many collection layers. */
  datatype Plan =
    | NullPlan
    | ConvertPlan(cls: LeafType)
    | EnumPlan(typeName: string, constants: seq<string>)
    | CollectionPlan(element: Plan)

  function Wrapped(r: Result<Plan, ResolveError>): Result<Plan, ResolveError> {
    match r
    case Success(p) => Success(CollectionPlan(p))
    case Failure(e) => Failure(e)
  }

  /** resolveConverter on a loaded type: an EnumType gets an enum validator,
    * an array class a collection around its component's converter, a plain
    * class its own converter, and an EmulateType nothing. */
  function ResolveLeaf(l: LeafType): Result<Plan, ResolveError> {
    match l
    case EnumType(n, cs) => if cs.None? then Failure(NullEnumConstants(n)) else Success(EnumPlan(n, cs.value))
    case ArrayClass(c) => Wrapped(ResolveLeaf(c))
    case ClassType(_) => Success(ConvertPlan(l))
    case EmulateType(_) => Success(NullPlan)
  }

  /** resolveConverter on a parsed type; `load` is the type lookup that
    * getRawType runs on the raw type's name. */
  function Resolve(t: JType, load: string -> Option<LeafType>): Result<Plan, ResolveError> {
    match t
    case Leaf(l) => ResolveLeaf(l)
    case Parameterized(raw, args) =>
      match load(raw)
      case None => Failure(RawTypeNotFound(raw))
      case Some(rawType) =>
        if rawType == ListClass || rawType == SetClass then
          if |args| == 0 then Failure(MissingTypeArgument(raw)) else Wrapped(Resolve(args[0], load))
        else if rawType == MapClass then
          if |args| == 0 then Failure(MissingTypeArgument(raw))
          else
            match Resolve(args[0], load)
            case Failure(e) => Failure(e)
            case Success(key) =>
              if |args| == 1 then Failure(MissingTypeArgument(raw))
              else
                match Resolve(args[1], load)
                case Failure(e) => Failure(e)
                case Success(_) => Success(key)
        else if rawType == OptionalClass || rawType == SupplierClass || TypeName(rawType) == ProviderName then
          if |args| == 0 then Failure(MissingTypeArgument(raw)) else Resolve(args[0], load)
        else Success(NullPlan)
  }

  /** A null type resolves to NULL_CONVERTER. */
  function ResolveType(t: Option<JType>, load: string -> Option<LeafType>): Result<Plan, ResolveError> {
    match t
    case None => Success(NullPlan)
    case Some(u) => Resolve(u, load)
  }

  /** What newConverter hands back for a class: what its initialize() answers
    * or throws, and what its convert does. */
  datatype ConverterSpec = ConverterSpec(initialize: Result<bool, Throwable>, convert: string -> Option<Throwable>)

  /** The handle loadConfig builds; the model never looks inside it. */
  datatype Config = Config(id: nat)

  /** Whether a validator built to plan p can validate. */
  function PlanReady(p: Plan, cfg: Config, newConverter: (Config, LeafType) -> ConverterSpec): bool {
    match p
    case NullPlan => false
    case ConvertPlan(cls) => Prepare(newConverter(cfg, cls).initialize)
    case EnumPlan(_, _) => true
    case CollectionPlan(q) => PlanReady(q, cfg, newConverter)
  }


  // ---------------------------------------------------------------------
  // The runtime support: config, cache, reset
  // ---------------------------------------------------------------------

  /** t under a stack of single-argument generic types, outermost first. */
  function Wrap(t: JType, raws: seq<string>): JType
    decreases |raws|
  {
    if raws == [] then t else Parameterized(raws[0], [Wrap(t, raws[1..])])
  }

  /** r wrapped in n collection layers. */
  function Nest(r: Result<Plan, ResolveError>, n: nat): Result<Plan, ResolveError> {
    if n == 0 then r else Wrapped(Nest(r, n - 1))
  }

  /** The component type with n array dimensions. */
  function Arrays(l: LeafType, n: nat): LeafType {
    if n == 0 then l else ArrayClass(Arrays(l, n - 1))
  }

  /** Optional, Supplier and jakarta.inject.Provider: the raw types whose
    * converter is the argument's own. */
  predicate Transparent(raw: Option<LeafType>) {
    raw == Some(OptionalClass) || raw == Some(SupplierClass) || (raw.Some? && TypeName(raw.value) == ProviderName)
  }

  /** Any stack of Optional, Supplier and Provider resolves as its innermost
    * type does. */
  lemma {:induction false} TransparentWrappers(t: JType, raws: seq<string>, load: string -> Option<LeafType>)
    requires forall i :: 0 <= i < |raws| ==> Transparent(load(raws[i]))
    ensures Resolve(Wrap(t, raws), load) == Resolve(t, load)
    decreases |raws|
  {
    if raws != [] {
      TransparentWrappers(t, raws[1..], load);
    }
  }

  /** Each List or Set layer adds one collection layer. */
  lemma {:induction false} CollectionWrappers(t: JType, raws: seq<string>, load: string -> Option<LeafType>)
    requires forall i :: 0 <= i < |raws| ==> load(raws[i]) == Some(ListClass) || load(raws[i]) == Some(SetClass)
    ensures Resolve(Wrap(t, raws), load) == Nest(Resolve(t, load), |raws|)
    decreases |raws|
  {
    if raws != [] {
      CollectionWrappers(t, raws[1..], load);
    }
  }

  /** Each array dimension adds one collection layer. */
  lemma {:induction false} ArrayDimensions(l: LeafType, n: nat)
    ensures ResolveLeaf(Arrays(l, n)) == Nest(ResolveLeaf(l), n)
  {
    if n > 0 {
      ArrayDimensions(l, n - 1);
    }
  }

  /** Map<K, V> gets K's converter; V's is built and dropped, so only its
    * failure shows. */
  lemma MapKeyConverter(raw: string, k: JType, v: JType, load: string -> Option<LeafType>)
    requires load(raw) == Some(MapClass)
    ensures Resolve(Parameterized(raw, [k, v]), load) ==
      if Resolve(k, load).Failure? || Resolve(v, load).Success? then Resolve(k, load)
      else Failure(Resolve(v, load).error)
  {
  }

  /** NULL_CONVERTER, or collections around it. */
  predicate Silent(v: Validator) {
    match v
    case NullConverter => true
    case Collection(d) => Silent(d)
    case _ => false
  }

  /** A silent validator cannot validate and reports nothing, whatever the
    * value. */
  lemma {:induction false} SilentOutcome(v: Validator, value: string, start: int)
    requires Silent(v)
    ensures !CanValidate(v) && Outcome(v, value, start) == []
    decreases v, 0
  {
    if v.Collection? {
      SilentOutcome(v.delegate, value, start);
      SilentOuts(v.delegate, Segments(value, start));
    }
  }

  lemma {:induction false} SilentOuts(d: Validator, ss: seq<Segment>)
    requires Silent(d)
    ensures Outs(d, ss) == []
    decreases d, |ss| + 1
  {
    if ss != [] {
      SilentOuts(d, ss[..|ss| - 1]);
      SilentOutcome(d, ss[|ss| - 1].text, ss[|ss| - 1].offset);
    }
  }

  /** The enum validators a cache holds exist already, so a call that
    * changes no existing object leaves their tables as they were. */
  lemma CachedAllocated(m: map<string, Validator>)
    ensures forall k, e :: k in m && e in EnumObjects(m[k]) ==> allocated(e)
  {
    forall k | k in m {
      EnumObjectsAllocated(m[k]);
    }
  }

  class ConverterRuntimeSupport {
    /** SAFE or FULL. */
    const mode: ExecutionMode
    /** The subclass's newConverter(config, class). */
    const newConverter: (Config, LeafType) -> ConverterSpec
    /** StringUtil.skewer, handed to the enum validators. */
    const hyphenate: string -> string
    var config: Option<Config>
    var initialized: bool
    /** converterCache: type signature -> validator. */
    var cache: map<string, Validator>
    /** How many times loadConfig ran since construction or the last reset. */
    ghost var loads: nat

    /** The enum validators held by the cache. */
    function Cached(): set<EnumTypeConverterValidator>
      reads this
    {
      set k, e | k in cache && e in EnumObjects(cache[k]) :: e
    }

    /** What validate reported for a value of the given signature: nothing
      * without a config or once it logged an exception, and otherwise the
      * outcome, at offset 0, of the validator cached for the signature. */
    predicate Reported(signature: string, value: string, logged: bool, ds: seq<Diagnostic>)
      reads this, Cached()
    {
      (config.None? || logged ==> ds == []) &&
      (config.Some? && !logged ==>
        signature in cache &&
        ds == if CanValidate(cache[signature]) then Outcome(cache[signature], value, 0) else [])
    }

    /** loadConfig has run once exactly when `initialized`; a non-null config
      * only comes from it; the cache fills only once there is a config; every
      * cached enum validator's table matches its constants. */
    ghost predicate Valid()
      reads this, Cached()
    {
      loads <= 1 && (initialized <==> loads == 1) &&
      (!initialized ==> config.None?) &&
      (config.None? ==> cache == map[]) &&
      forall k, e :: k in cache && e in EnumObjects(cache[k]) ==> e.Valid()
    }

    constructor (mode: ExecutionMode, newConverter: (Config, LeafType) -> ConverterSpec, hyphenate: string -> string)
      ensures this.mode == mode && this.newConverter == newConverter && this.hyphenate == hyphenate
      ensures config.None? && !initialized && cache == map[] && loads == 0
      ensures Valid()
    {
      this.mode := mode;
      this.newConverter := newConverter;
      this.hyphenate := hyphenate;
      config := None;
      initialized := false;
      cache := map[];
      loads := 0;
    }

    /** v is the validator built to plan p under cfg: the converter
      * newConverter gives, an enum validator on the plan's constants whose
      * table is built, and the same layers of collections. */
    ghost predicate Realizes(v: Validator, p: Plan, cfg: Config)
      reads EnumObjects(v)
    {
      match p
      case NullPlan => v.NullConverter?
      case ConvertPlan(cls) =>
        v.Base? && v.converter.forType == TypeName(cls) &&
        v.converter.prepared == Prepare(newConverter(cfg, cls).initialize) &&
        v.converter.convert == newConverter(cfg, cls).convert
      case EnumPlan(n, cs) =>
        v.Enum? && v.enumValidator.typeName == n && v.enumValidator.constants == Some(cs) &&
        v.enumValidator.hyphenate == hyphenate && v.enumValidator.Valid()
      case CollectionPlan(q) => v.Collection? && Realizes(v.delegate, q, cfg)
    }

    /** A realized validator can validate exactly when its plan says so, and
      * its enum validators have their tables built. */
    lemma {:induction false} RealizedReady(v: Validator, p: Plan, cfg: Config)
      requires Realizes(v, p, cfg)
      ensures CanValidate(v) <==> PlanReady(p, cfg, newConverter)
      ensures forall e :: e in EnumObjects(v) ==> e.Valid()
    {
      if p.CollectionPlan? {
        RealizedReady(v.delegate, p.element, cfg);
      }
    }

    /** resolveConverter on a loaded type. */
    method ResolveLeafConverter(l: LeafType, cfg: Config) returns (r: Result<Validator, ResolveError>)
      ensures match ResolveLeaf(l)
        case Failure(err) => r == Failure(err)
        case Success(p) => r.Success? && fresh(EnumObjects(r.value)) && Realizes(r.value, p, cfg)
    {
      match l
      case EnumType(n, cs) =>
        if cs.None? {
          return Failure(NullEnumConstants(n));
        }
        var e := new EnumTypeConverterValidator(n, cs.value, hyphenate);
        return Success(Enum(e));
      case ArrayClass(component) =>
        var inner := ResolveLeafConverter(component, cfg);
        if inner.Failure? {
          return Failure(inner.error);
        }
        return Success(Collection(inner.value));
      case ClassType(_) =>
        var spec := newConverter(cfg, l);
        var c := new AbstractConverterValidator(TypeName(l), spec.initialize, spec.convert);
        return Success(Base(c));
      case EmulateType(_) =>
        return Success(NullConverter);
    }

    /** resolveConverter: the recursion over the parsed type. */
    method ResolveConverter(t: JType, load: string -> Option<LeafType>, cfg: Config) returns (r: Result<Validator, ResolveError>)
      ensures match Resolve(t, load)
        case Failure(err) => r == Failure(err)
        case Success(p) => r.Success? && fresh(EnumObjects(r.value)) && Realizes(r.value, p, cfg)
    {
      match t
      case Leaf(l) =>
        r := ResolveLeafConverter(l, cfg);
      case Parameterized(raw, args) =>
        var rawType := load(raw);
        if rawType.None? {
          return Failure(RawTypeNotFound(raw));
        }
        var rt := rawType.value;
        if rt == ListClass || rt == SetClass {
          if |args| == 0 {
            return Failure(MissingTypeArgument(raw));
          }
          var inner := ResolveConverter(args[0], load, cfg);
          if inner.Failure? {
            return Failure(inner.error);
          }
          return Success(Collection(inner.value));
        }
        if rt == MapClass {
          if |args| == 0 {
            return Failure(MissingTypeArgument(raw));
          }
          var key := ResolveConverter(args[0], load, cfg);
          if key.Failure? {
            return key;
          }
          if |args| == 1 {
            return Failure(MissingTypeArgument(raw));
          }
          EnumObjectsAllocated(key.value);
          var value := ResolveConverter(args[1], load, cfg);
          if value.Failure? {
            return value;
          }
          return key;
        }
        if rt == OptionalClass || rt == SupplierClass || TypeName(rt) == ProviderName {
          if |args| == 0 {
            return Failure(MissingTypeArgument(raw));
          }
          r := ResolveConverter(args[0], load, cfg);
          return;
        }
        return Success(NullConverter);
    }

    /** getConfig: loadConfig runs only when no config is held and it has not
      * run yet; `loaded` is what it would return. */
    method GetConfig(loaded: Option<Config>) returns (cfg: Option<Config>)
      requires Valid()
      modifies this
      ensures Valid() && initialized && cache == old(cache)
      ensures old(initialized) ==> config == old(config) && loads == old(loads)
      ensures !old(initialized) ==> config == loaded && loads == 1
      ensures cfg == config
    {
      if config.Some? || initialized {
        return config;
      }
      config := loaded;
      initialized := true;
      loads := loads + 1;
      cfg := config;
    }

    /** hasConfigProviderResolver: loads the config if needed and answers
      * whether it is not null. */
    method HasConfigProviderResolver(loaded: Option<Config>) returns (r: bool)
      requires Valid()
      modifies this
      ensures Valid() && initialized && cache == old(cache)
      ensures old(initialized) ==> config == old(config) && loads == old(loads)
      ensures !old(initialized) ==> config == loaded && loads == 1
      ensures r <==> config.Some?
    {
      var _ := GetConfig(loaded);
      r := initialized && config.Some?;
    }

    /** reset: forgets the config, the flag and every cached validator. */
    method Reset()
      modifies this
      ensures config.None? && !initialized && cache == map[] && loads == 0
      ensures Valid()
    {
      config := None;
      initialized := false;
      cache := map[];
      loads := 0;
    }

    /** converterCache.computeIfAbsent: the cached validator, or a new one
      * stored under the type when resolution succeeds; a failed resolution
      * stores nothing. */
    method Lookup(signature: string, found: Option<JType>, load: string -> Option<LeafType>, cfg: Config)
      returns (r: Result<Validator, ResolveError>)
      requires Valid() && config == Some(cfg)
      modifies this
      ensures Valid() && config == old(config) && initialized == old(initialized) && loads == old(loads)
      ensures signature in old(cache) ==> r == Success(old(cache)[signature]) && cache == old(cache)
      ensures signature !in old(cache) ==>
        match ResolveType(found, load)
        case Failure(err) => r == Failure(err) && cache == old(cache)
        case Success(p) =>
          r.Success? && cache == old(cache)[signature := r.value] &&
          fresh(EnumObjects(r.value)) && Realizes(r.value, p, cfg)
    {
      if signature in cache {
        return Success(cache[signature]);
      }
      CachedAllocated(cache);
      if found.None? {
        r := Success(NullConverter);
      } else {
        r := ResolveConverter(found.value, load, cfg);
      }
      if r.Success? {
        RealizedReady(r.value, ResolveType(found, load).value, cfg);
        var next := cache[signature := r.value];
        forall k, e | k in next && e in EnumObjects(next[k])
          ensures e.Valid()
        {
          if k != signature {
            assert k in cache && next[k] == cache[k];
          }
        }
        cache := next;
      }
    }

    /** validate: loads the config, looks the validator up, refreshes an
      * enum validator's constants and validates at offset 0. Every exception
      * is logged and swallowed: `logged` says one was, and then nothing is
      * reported. */
    method Validate(value: string, signature: string, found: Option<JType>, load: string -> Option<LeafType>,
                    provided: string -> Option<seq<string>>, loaded: Option<Config>)
      returns (ds: seq<Diagnostic>, logged: bool)
      requires Valid()
      modifies this, Cached()
      ensures Valid() && initialized
      ensures old(initialized) ==> config == old(config) && loads == old(loads)
      ensures !old(initialized) ==> config == loaded && loads == 1
      ensures config.None? ==> ds == [] && !logged && cache == old(cache)
      ensures config.Some? && signature in old(cache) ==> cache == old(cache)
      ensures config.Some? && signature !in old(cache) ==>
        if ResolveType(found, load).Failure? then logged && cache == old(cache)
        else signature in cache && cache == old(cache)[signature := cache[signature]] && fresh(EnumObjects(cache[signature]))
      ensures config.Some? && signature !in old(cache) && ResolveType(found, load).Success? &&
              !ResolveType(found, load).value.EnumPlan? ==>
        Realizes(cache[signature], ResolveType(found, load).value, config.value)
      ensures config.Some? && signature !in old(cache) && ResolveType(found, load).Success? &&
              ResolveType(found, load).value.EnumPlan? ==>
        cache[signature].Enum? && cache[signature].enumValidator.typeName == ResolveType(found, load).value.typeName &&
        cache[signature].enumValidator.hyphenate == hyphenate
      ensures logged ==> ds == []
      ensures config.Some? && !logged ==>
        signature in cache && ds == if CanValidate(cache[signature]) then Outcome(cache[signature], value, 0) else []
      ensures config.Some? && signature in cache && cache[signature].Enum? ==>
        cache[signature].enumValidator.constants == provided(cache[signature].enumValidator.typeName)
      ensures logged ==> config.Some?
      ensures logged && !(signature !in old(cache) && ResolveType(found, load).Failure?) ==>
        signature in cache && cache[signature].Enum? && provided(cache[signature].enumValidator.typeName).None?
    {
      ds := [];
      logged := false;
      var cfg := GetConfig(loaded);
      if cfg.None? {
        return;
      }
      var r := Lookup(signature, found, load, cfg.value);
      if r.Failure? {
        logged := true;
        return;
      }
      var v := r.value;
      CachedAllocated(cache);
      if CanValidate(v) {
        if v.Enum? {
          assert v.enumValidator in EnumObjects(v);
          if signature in old(cache) {
            assert v.enumValidator in old(Cached());
          }
          label before:
          var thrown := v.enumValidator.RefreshEnumType(provided(v.enumValidator.typeName));
          forall k, e | k in cache && e in EnumObjects(cache[k])
            ensures e.Valid()
          {
            if e != v.enumValidator {
              assert old@before(e.Valid());
            }
          }
          if thrown {
            logged := true;
            return;
          }
        }
        ds := ConverterRuntime.Validate(v, value, 0);
      }
    }
  }

  /** loadConfig runs once between resets, even when it produces null; reset
    * lets it run again. */
  method ConfigScenario(newConverter: (Config, LeafType) -> ConverterSpec, hyphenate: string -> string)
    returns (first: Option<Config>, second: Option<Config>, afterNull: Option<Config>, has: bool, afterReset: Option<Config>)
    ensures first == Some(Config(1)) && second == Some(Config(1))
    ensures afterNull == None && !has
    ensures afterReset == Some(Config(4))
  {
    var support := new ConverterRuntimeSupport(SAFE, newConverter, hyphenate);
    first := support.GetConfig(Some(Config(1)));
    second := support.GetConfig(Some(Config(2)));
    support.Reset();
    var _ := support.GetConfig(None);
    afterNull := support.GetConfig(Some(Config(3)));
    has := support.HasConfigProviderResolver(Some(Config(3)));
    support.Reset();
    afterReset := support.GetConfig(Some(Config(4)));
  }

  /** The cache keeps the first validator resolved for a signature: a later
    * call that would resolve to nothing still reports with it, until reset. */
  method CacheScenario(newConverter: (Config, LeafType) -> ConverterSpec, hyphenate: string -> string,
                       load: string -> Option<LeafType>, provided: string -> Option<seq<string>>, bad: Throwable)
    returns (first: seq<Diagnostic>, cached: seq<Diagnostic>, afterReset: seq<Diagnostic>)
    requires newConverter(Config(0), ClassType("int")).initialize == Success(true)
    requires newConverter(Config(0), ClassType("int")).convert("1X") == Some(bad)
    requires ErrorMessage(bad) == Some("not an int")
    ensures first == [Diagnostic("not an int", "microprofile-config", "value", 0, 2)]
    ensures cached == first
    ensures afterReset == []
  {
    var support := new ConverterRuntimeSupport(FULL, newConverter, hyphenate);
    var logged;
    first, logged := support.Validate("1X", "int", Some(Leaf(ClassType("int"))), load, provided, Some(Config(0)));
    cached, logged := support.Validate("1X", "int", None, load, provided, Some(Config(0)));
    support.Reset();
    afterReset, logged := support.Validate("1X", "int", None, load, provided, Some(Config(0)));
  }
}
