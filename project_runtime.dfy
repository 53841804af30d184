/** MicroProfileProjectRuntime: the per-project registry of runtime supports
  * by mode, the SAFE fallback of validateValue, the class loader it rebuilds
  * on a classpath change, and the type lookup behind findClassType. */
module ProjectRuntimes {
  import opened Wrappers
  import opened JavaTypes
  import opened ExecutionModes
  import opened TypeSignatures
  import opened ConverterValidators
  import opened ConverterRuntime
  import opened ConverterSupport
  import opened ClassLoaders

  /** The class API the converter supports register under. */
  const ConverterApi := "ConverterRuntimeSupportApi"

  /** The nine primitive keywords forNameSmart maps to primitive classes. */
  const Primitives: set<string> := {"int", "boolean", "byte", "char", "short", "long", "float", "double", "void"}

  /** What forNameSmart throws: ClassNotFoundException from Class.forName,
    * the parser's IllegalArgumentException, the ClassCastException of an
    * array of a non-Class element, and the IllegalArgumentException of an
    * array of void. */
  datatype LookupError =
    | NotFound(name: string)
    | BadSignature(error: ParseError)
    | NotAClass(element: string)
    | VoidArray

  predicate EndsWithBrackets(s: string) {
    |s| >= 2 && s[|s| - 2..] == "[]"
  }

  /** forNameSmart: a primitive keyword, an array of whatever the name
    * without "[]" is, a plain class name loaded without initialisation
    * (`load` is Class.forName on the project's loader), or a generic
    * signature handed to the type-signature parser. */
  function ForNameSmart(name: string, load: string -> Option<LeafType>): Result<JType, LookupError>
    decreases |name|
  {
    if name in Primitives then Success(Leaf(ClassType(name)))
    else if EndsWithBrackets(name) then
      var element := name[..|name| - 2];
      match ForNameSmart(element, load)
      case Failure(e) => Failure(e)
      case Success(t) =>
        if !(t.Leaf? && IsClass(t.leaf)) then Failure(NotAClass(element))
        else if t.leaf == ClassType("void") then Failure(VoidArray)
        else Success(Leaf(ArrayClass(t.leaf)))
    else if '<' !in name then
      match load(name)
      case None => Failure(NotFound(name))
      case Some(l) => Success(Leaf(l))
    else
      match ParseSignature(name, load)
      case Success(t) => Success(t)
      case Failure(e) => Failure(BadSignature(e))
  }

  /** A class forNameSmart can find by its type name: a primitive or a
    * loadable plain class, or an array of such a class other than void. */
  predicate FindableClass(l: LeafType, load: string -> Option<LeafType>) {
    match l
    case ClassType(n) =>
      !EndsWithBrackets(n) && '<' !in n && (n in Primitives || load(n) == Some(l))
    case ArrayClass(c) => c != ClassType("void") && FindableClass(c, load)
    case _ => false
  }

  /** forNameSmart reads back what Type.getTypeName prints for a findable
    * class, arrays of any depth included. */
  lemma {:induction false} ForNameSmartTypeName(l: LeafType, load: string -> Option<LeafType>)
    requires FindableClass(l, load)
    ensures ForNameSmart(TypeName(l), load) == Success(Leaf(l))
  {
    match l
    case ClassType(n) =>
    case ArrayClass(c) =>
      ForNameSmartTypeName(c, load);
      ForNameSmartArray(c, load);
  }

  /** The array step of ForNameSmartTypeName: "[]" after a name forNameSmart
    * reads as a class other than void gives the array of that class. */
  lemma ForNameSmartArray(c: LeafType, load: string -> Option<LeafType>)
    requires IsClass(c) && c != ClassType("void")
    requires ForNameSmart(TypeName(c), load) == Success(Leaf(c))
    ensures ForNameSmart(TypeName(ArrayClass(c)), load) == Success(Leaf(ArrayClass(c)))
  {
    var name := TypeName(ArrayClass(c));
    assert name[..|name| - 2] == TypeName(c);
    BracketsNotPrimitive(name);
  }

  /** No primitive keyword ends in ']'. */
  lemma BracketsNotPrimitive(name: string)
    requires EndsWithBrackets(name)
    ensures name !in Primitives
  {
    assert name[|name| - 1] == ']';
  }

  class MicroProfileProjectRuntime {
    var safeSupports: map<string, ConverterRuntimeSupport>
    var fullSupports: map<string, ConverterRuntimeSupport>
    /** classTypes: findClassType's cache of successful lookups. */
    var classTypes: map<string, JType>
    var loader: ProjectClassLoader
    var classpath: seq<string>

    /** Every registered support. */
    function Supports(): set<ConverterRuntimeSupport>
      reads this
    {
      safeSupports.Values + fullSupports.Values
    }

    /** Both converter supports are registered; each map holds the supports
      * of its own mode. */
    ghost predicate Valid()
      reads this
    {
      ConverterApi in safeSupports && ConverterApi in fullSupports &&
      (forall k :: k in fullSupports ==> fullSupports[k].mode == FULL) &&
      (forall k :: k in safeSupports ==> safeSupports[k].mode == SAFE)
    }

    /** The constructor builds the loader, then registers one SAFE and one
      * FULL converter support. */
    constructor (classpath: seq<string>, env: Environment,
                 safeConverter: (Config, LeafType) -> ConverterSpec,
                 fullConverter: (Config, LeafType) -> ConverterSpec,
                 hyphenate: string -> string)
      ensures Valid() && fresh(loader) && loader.Valid()
      ensures this.classpath == classpath && loader.directories == Directories(classpath, env)
      ensures classTypes == map[]
      ensures safeSupports.Keys == {ConverterApi} && fullSupports.Keys == {ConverterApi}
      ensures fresh(safeSupports[ConverterApi]) && fresh(fullSupports[ConverterApi])
      ensures safeSupports[ConverterApi].newConverter == safeConverter
      ensures fullSupports[ConverterApi].newConverter == fullConverter
      ensures forall s :: s in Supports() ==>
        s.Valid() && s.config.None? && !s.initialized && s.cache == map[] && s.loads == 0
    {
      this.classpath := classpath;
      loader := new ProjectClassLoader(classpath, env);
      classTypes := map[];
      var safe := new ConverterRuntimeSupport(SAFE, safeConverter, hyphenate);
      var full := new ConverterRuntimeSupport(FULL, fullConverter, hyphenate);
      safeSupports := map[ConverterApi := safe];
      fullSupports := map[ConverterApi := full];
    }

    /** getRuntimeSupport: the FULL map for FULL, the SAFE map otherwise;
      * null when nothing is registered under the API. */
    function GetRuntimeSupport(api: string, mode: ExecutionMode): (r: Option<ConverterRuntimeSupport>)
      reads this
      ensures r.Some? <==> (if mode == FULL then api in fullSupports else api in safeSupports)
      ensures r.Some? ==> r.value in Supports()
    {
      if mode == FULL then
        if api in fullSupports then Some(fullSupports[api]) else None
      else if api in safeSupports then Some(safeSupports[api]) else None
    }

    /** registerRuntimeSupport: into the FULL map exactly when the support's
      * mode is FULL, replacing what was there under its API. */
    method RegisterRuntimeSupport(api: string, support: ConverterRuntimeSupport)
      requires Valid()
      modifies this
      ensures Valid()
      ensures support.mode == FULL ==> fullSupports == old(fullSupports)[api := support] && safeSupports == old(safeSupports)
      ensures support.mode != FULL ==> safeSupports == old(safeSupports)[api := support] && fullSupports == old(fullSupports)
      ensures classTypes == old(classTypes) && loader == old(loader) && classpath == old(classpath)
    {
      if support.mode == FULL {
        fullSupports := fullSupports[api := support];
      } else {
        safeSupports := safeSupports[api := support];
      }
    }

    /** validateValue: the preferred mode's converter support, or the SAFE
      * one when the preferred support has no config; `loaded` is what each
      * mode's loadConfig would produce. */
    method ValidateValue(value: string, signature: string, preferred: ExecutionMode, found: Option<JType>,
                         load: string -> Option<LeafType>, provided: string -> Option<seq<string>>,
                         loaded: ExecutionMode -> Option<Config>)
      returns (ds: seq<Diagnostic>, logged: bool, used: ConverterRuntimeSupport)
      requires Valid()
      requires safeSupports[ConverterApi].Valid() && fullSupports[ConverterApi].Valid()
      requires safeSupports[ConverterApi].Cached() !! fullSupports[ConverterApi].Cached()
      modifies safeSupports[ConverterApi], fullSupports[ConverterApi]
      modifies safeSupports[ConverterApi].Cached(), fullSupports[ConverterApi].Cached()
      ensures unchanged(this)
      ensures safeSupports[ConverterApi].Valid() && fullSupports[ConverterApi].Valid()
      ensures safeSupports[ConverterApi].Cached() !! fullSupports[ConverterApi].Cached()
      ensures var p := GetRuntimeSupport(ConverterApi, preferred).value;
        p.initialized && p.config == (if old(p.initialized) then old(p.config) else loaded(p.mode)) &&
        used == if p.config.Some? then p else safeSupports[ConverterApi]
      ensures used.initialized && used.config == if old(used.initialized) then old(used.config) else loaded(used.mode)
      ensures used.config.None? ==> ds == [] && !logged
      ensures used.config.Some? && !logged ==>
        signature in used.cache &&
        ds == if CanValidate(used.cache[signature]) then Outcome(used.cache[signature], value, 0) else []
      ensures used.config.Some? && signature !in old(used.cache) && ResolveType(found, load).Success? &&
              !ResolveType(found, load).value.EnumPlan? ==>
        signature in used.cache && used.Realizes(used.cache[signature], ResolveType(found, load).value, used.config.value)
      ensures used.config.Some? && signature !in old(used.cache) && ResolveType(found, load).Success? &&
              ResolveType(found, load).value.EnumPlan? ==>
        signature in used.cache && used.cache[signature].Enum? &&
        used.cache[signature].enumValidator.typeName == ResolveType(found, load).value.typeName &&
        used.cache[signature].enumValidator.hyphenate == used.hyphenate
      ensures used.config.Some? && signature in used.cache && used.cache[signature].Enum? ==>
        used.cache[signature].enumValidator.constants == provided(used.cache[signature].enumValidator.typeName)
      ensures used.cache == old(used.cache) ||
        (signature !in old(used.cache) && signature in used.cache && used.cache == old(used.cache)[signature := used.cache[signature]])
      ensures logged ==> ds == [] && used.config.Some?
      ensures logged && !(signature !in old(used.cache) && ResolveType(found, load).Failure?) ==>
        signature in used.cache && used.cache[signature].Enum? &&
        provided(used.cache[signature].enumValidator.typeName).None?
      ensures used == fullSupports[ConverterApi] ==> safeSupports[ConverterApi].cache == old(safeSupports[ConverterApi].cache)
      ensures used == safeSupports[ConverterApi] ==> fullSupports[ConverterApi].cache == old(fullSupports[ConverterApi].cache)
    {
      var safe := safeSupports[ConverterApi];
      var full := fullSupports[ConverterApi];
      assert safe != full by {
        assert safe.mode == SAFE && full.mode == FULL;
      }
      var support := if preferred == FULL then full else safe;
      var other := if preferred == FULL then safe else full;
      assert other.Valid() && other != support;
      CachedAllocated(other.cache);
      label start:
      var has := support.HasConfigProviderResolver(loaded(support.mode));
      assert other.Valid();
      if !has {
        support, other := safe, full;
      }
      used := support;
      ds, logged := ValidateBeside(used, other, value, signature, found, load, provided, loaded(used.mode));
    }

    /** Validate on one support, keeping the other support's invariant and
      * the two cache footprints apart. */
    static method ValidateBeside(used: ConverterRuntimeSupport, other: ConverterRuntimeSupport, value: string,
                                 signature: string, found: Option<JType>, load: string -> Option<LeafType>,
                                 provided: string -> Option<seq<string>>, loaded: Option<Config>)
      returns (ds: seq<Diagnostic>, logged: bool)
      requires used != other && used.Valid() && other.Valid() && used.Cached() !! other.Cached()
      modifies used, used.Cached()
      ensures used.Valid() && other.Valid() && used.Cached() !! other.Cached()
      ensures used.initialized && used.config == if old(used.initialized) then old(used.config) else loaded
      ensures used.config.None? ==> ds == [] && !logged
      ensures used.config.Some? && !logged ==>
        signature in used.cache &&
        ds == if CanValidate(used.cache[signature]) then Outcome(used.cache[signature], value, 0) else []
      ensures used.config.Some? && signature !in old(used.cache) && ResolveType(found, load).Success? &&
              !ResolveType(found, load).value.EnumPlan? ==>
        signature in used.cache && used.Realizes(used.cache[signature], ResolveType(found, load).value, used.config.value)
      ensures used.config.Some? && signature !in old(used.cache) && ResolveType(found, load).Success? &&
              ResolveType(found, load).value.EnumPlan? ==>
        signature in used.cache && used.cache[signature].Enum? &&
        used.cache[signature].enumValidator.typeName == ResolveType(found, load).value.typeName &&
        used.cache[signature].enumValidator.hyphenate == used.hyphenate
      ensures used.config.Some? && signature in used.cache && used.cache[signature].Enum? ==>
        used.cache[signature].enumValidator.constants == provided(used.cache[signature].enumValidator.typeName)
      ensures used.cache == old(used.cache) ||
        (signature !in old(used.cache) && signature in used.cache && used.cache == old(used.cache)[signature := used.cache[signature]])
      ensures logged ==> ds == [] && used.config.Some?
      ensures logged && !(signature !in old(used.cache) && ResolveType(found, load).Failure?) ==>
        signature in used.cache && used.cache[signature].Enum? &&
        provided(used.cache[signature].enumValidator.typeName).None?
      ensures unchanged(other)
    {
      CachedAllocated(other.cache);
      label before:
      ds, logged := used.Validate(value, signature, found, load, provided, loaded);
      assert other.Valid() && other.Cached() == old@before(other.Cached()) by {
        assert old@before(other.Valid());
      }
      forall e | e in used.Cached()
        ensures e !in other.Cached()
      {
        var k :| k in used.cache && e in EnumObjects(used.cache[k]);
        if k in old@before(used.cache) && used.cache[k] == old@before(used.cache[k]) {
          assert e in old@before(used.Cached());
        }
      }
    }

    /** updateClassPath: a new loader over the new classpath, and a reset of
      * every registered support of both modes. The type cache is kept. */
    method UpdateClassPath(newClasspath: seq<string>, env: Environment)
      requires Valid()
      modifies this, Supports()
      ensures Valid()
      ensures classpath == newClasspath && fresh(loader) && loader.Valid() && loader.cache == map[]
      ensures loader.directories == Directories(newClasspath, env) && loader.jars == Jars(newClasspath, env)
      ensures safeSupports == old(safeSupports) && fullSupports == old(fullSupports)
      ensures classTypes == old(classTypes)
      ensures forall s :: s in Supports() ==>
        s.config.None? && !s.initialized && s.cache == map[] && s.loads == 0
    {
      classpath := newClasspath;
      loader := new ProjectClassLoader(newClasspath, env);
      ResetSupports();
    }

    /** The reset half of updateClassPath: reset() on every registered
      * support, in no particular order. */
    method ResetSupports()
      modifies Supports()
      ensures forall s :: s in Supports() ==>
        s.config.None? && !s.initialized && s.cache == map[] && s.loads == 0
    {
      var todo := Supports();
      while todo != {}
        invariant todo <= Supports()
        invariant forall s :: s in Supports() - todo ==>
          s.config.None? && !s.initialized && s.cache == map[] && s.loads == 0
        decreases |todo|
      {
        var s :| s in todo;
        s.Reset();
        todo := todo - {s};
      }
    }

    /** findClassType: the cached type, or forNameSmart's answer, cached when
      * it succeeds; a failure gives null and caches nothing. */
    method FindClassType(name: string, load: string -> Option<LeafType>) returns (t: Option<JType>)
      modifies this
      ensures name in old(classTypes) ==> t == Some(old(classTypes)[name]) && classTypes == old(classTypes)
      ensures name !in old(classTypes) ==>
        match ForNameSmart(name, load)
        case Success(u) => t == Some(u) && classTypes == old(classTypes)[name := u]
        case Failure(_) => t.None? && classTypes == old(classTypes)
      ensures safeSupports == old(safeSupports) && fullSupports == old(fullSupports)
      ensures loader == old(loader) && classpath == old(classpath)
    {
      if name in classTypes {
        return Some(classTypes[name]);
      }
      var r := ForNameSmart(name, load);
      if r.Failure? {
        return None;
      }
      classTypes := classTypes[name := r.value];
      t := Some(r.value);
    }

    /** clearProjectClassCache: empties the classpath and the loader's class
      * cache; the type cache and the supports are untouched. */
    method ClearProjectClassCache()
      requires loader.Valid()
      modifies this, loader
      ensures classpath == [] && loader == old(loader) && loader.Valid()
      ensures loader.cache == map[] && loader.defined == old(loader.defined)
      ensures classTypes == old(classTypes)
      ensures safeSupports == old(safeSupports) && fullSupports == old(fullSupports)
    {
      classpath := [];
      loader.ClearProjectClassCache();
    }
  }

  /** A new runtime asked to validate "1X" as int in FULL mode, where the
    * FULL support finds no config provider resolver: the SAFE support does
    * the work and reports the converter's message. */
  method FallbackScenario(env: Environment, safeConverter: (Config, LeafType) -> ConverterSpec,
                          fullConverter: (Config, LeafType) -> ConverterSpec, hyphenate: string -> string,
                          load: string -> Option<LeafType>, provided: string -> Option<seq<string>>, bad: Throwable)
    returns (ds: seq<Diagnostic>, usedMode: ExecutionMode)
    requires safeConverter(Config(0), ClassType("int")).initialize == Success(true)
    requires safeConverter(Config(0), ClassType("int")).convert("1X") == Some(bad)
    requires ErrorMessage(bad) == Some("not an int")
    ensures usedMode == SAFE
    ensures ds == [Diagnostic("not an int", "microprofile-config", "value", 0, 2)]
  {
    var runtime := new MicroProfileProjectRuntime(["out"], env, safeConverter, fullConverter, hyphenate);
    var loaded := (m: ExecutionMode) => if m == FULL then None else Some(Config(0));
    var safe := runtime.safeSupports[ConverterApi];
    assert safe in runtime.Supports();
    var logged, used;
    ds, logged, used := runtime.ValidateValue("1X", "int", FULL, Some(Leaf(ClassType("int"))), load, provided, loaded);
    assert used == safe && used.config == Some(Config(0));
    usedMode := used.mode;
  }

  /** A plain class name goes straight to Class.forName: found exactly
    * when the loader finds it. */
  lemma PlainClassName(name: string, load: string -> Option<LeafType>)
    requires name !in Primitives && !EndsWithBrackets(name) && '<' !in name
    ensures ForNameSmart(name, load).Success? <==> load(name).Some?
    ensures load(name).Some? ==> ForNameSmart(name, load) == Success(Leaf(load(name).value))
  {
  }

  /** Array names of primitives need no loader, and void has no arrays. */
  lemma PrimitiveArrays(load: string -> Option<LeafType>)
    ensures ForNameSmart("int[][]", load) == Success(Leaf(ArrayClass(ArrayClass(ClassType("int")))))
    ensures ForNameSmart("void[]", load) == Failure(VoidArray)
  {
    assert "int[][]"[..5] == "int[]" && "int[]"[..3] == "int";
    assert "void[]"[..4] == "void";
  }

  /** findClassType keeps its answers across a classpath change: a type
    * found on the old classpath is still returned after the class is gone. */
  method StaleTypeScenario(env: Environment, safeConverter: (Config, LeafType) -> ConverterSpec,
                           fullConverter: (Config, LeafType) -> ConverterSpec, hyphenate: string -> string,
                           before: string -> Option<LeafType>, after: string -> Option<LeafType>)
    returns (first: Option<JType>, second: Option<JType>, missing: Option<JType>)
    requires before("a.B") == Some(ClassType("a.B"))
    requires forall n :: after(n) == None
    ensures first == Some(Leaf(ClassType("a.B")))
    ensures second == first
    ensures missing.None?
  {
    assert "a.B"[|"a.B"| - 2..] == ".B";
    PlainClassName("a.B", before);
    var runtime := new MicroProfileProjectRuntime(["out"], env, safeConverter, fullConverter, hyphenate);
    first := runtime.FindClassType("a.B", before);
    second, missing := StaleAfterUpdate(runtime, env, after);
  }

  /** The second half of StaleTypeScenario: after a.B is cached, a classpath
    * change and a cleared class cache leave it cached, while a.C, which the
    * new loader cannot find, stays missing. */
  method StaleAfterUpdate(runtime: MicroProfileProjectRuntime, env: Environment, after: string -> Option<LeafType>)
    returns (second: Option<JType>, missing: Option<JType>)
    requires runtime.Valid() && runtime.classTypes == map["a.B" := Leaf(ClassType("a.B"))]
    requires forall n :: after(n) == None
    modifies runtime, runtime.Supports()
    ensures second == Some(Leaf(ClassType("a.B")))
    ensures missing.None?
  {
    assert "a.C"[|"a.C"| - 2..] == ".C";
    PlainClassName("a.C", after);
    runtime.UpdateClassPath([], env);
    second := runtime.FindClassType("a.B", after);
    runtime.ClearProjectClassCache();
    missing := runtime.FindClassType("a.C", after);
  }
}
