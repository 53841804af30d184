/** JavaDiagnosticsContext: the diagnostics list of one compilation unit, the
  * rendering of a field's type binding into the signature text the project
  * runtime parses, and validateWithConverter, which reports a wrong default
  * value at its place in the annotation. */
module JavaDiagnostics {
  import opened Wrappers
  import opened JavaTypes
  import opened TypeSignatures
  import opened ExecutionModes
  import opened ConverterValidators
  import opened EnumConstantsProviders
  import opened ConverterSupport
  import opened ProjectRuntimes
  import opened Lsp

  /** The error codes this context reports with. */
  datatype ErrorCode = DefaultValueIsWrongType

  /** MicroProfileJavaDiagnosticsSettings; each field may be null. */
  datatype DiagnosticsSettings = DiagnosticsSettings(patterns: Option<seq<string>>, valueSeverity: Option<Severity>,
                                                     mode: Option<ExecutionMode>)

  /** One reported diagnostic: its range kept as offset and length in the
    * compilation unit. */
  datatype JavaDiagnostic = JavaDiagnostic(message: string, source: string, offset: int, length: int,
                                           code: Option<ErrorCode>, severity: Severity)

  /** A declared field of a type binding. */
  datatype FieldBinding = FieldBinding(name: string, isEnumConstant: bool)

  /** The parts of a JDT ITypeBinding the rendering looks at: getName,
    * isPrimitive, the component type of an array, the erasure's binary
    * name, isEnum, the declared fields and the type arguments. */
  datatype TypeBinding = TypeBinding(name: string, primitive: bool, component: Option<TypeBinding>,
                                     binaryName: string, isEnum: bool, fields: seq<FieldBinding>,
                                     arguments: seq<TypeBinding>)

  /** A primitive, or an array whose component is primitive: rendered by
    * its plain name. */
  predicate PrimitiveLike(b: TypeBinding) {
    b.primitive || (b.component.Some? && b.component.value.primitive)
  }

  /** The signature text of a binding: the plain name of a primitive or
    * primitive array, otherwise the binary name followed by the rendered
    * type arguments, when there are any, in angle brackets. */
  function Qualified(b: TypeBinding): string
    decreases b, 0
  {
    if PrimitiveLike(b) then b.name
    else if |b.arguments| == 0 then b.binaryName
    else b.binaryName + "<" + QualifiedArgs(b.arguments) + ">"
  }

  /** Rendered arguments joined by ", ". */
  function QualifiedArgs(args: seq<TypeBinding>): string
    decreases args, 1
  {
    if |args| == 0 then ""
    else if |args| == 1 then Qualified(args[0])
    else Qualified(args[0]) + ", " + QualifiedArgs(args[1..])
  }

  /** The names of the enum constants among the fields, in declaration order. */
  function EnumConstNames(fields: seq<FieldBinding>): (names: seq<string>)
    ensures |names| <= |fields|
    ensures forall n :: n in names <==> exists k :: 0 <= k < |fields| && fields[k].isEnumConstant && fields[k].name == n
  {
    if |fields| == 0 then []
    else
      var init := fields[..|fields| - 1];
      var last := fields[|fields| - 1];
      assert forall k :: 0 <= k < |init| ==> init[k] == fields[k];
      EnumConstNames(init) + if last.isEnumConstant then [last.name] else []
  }

  /** The provider's table after rendering b: every enum binding met,
    * outside primitives, registers its constants under its binary name, a
    * binding before its arguments and the arguments left to right. */
  function Registered(b: TypeBinding, e: Enums): Enums
    decreases b, 0
  {
    if PrimitiveLike(b) then e
    else ArgsRegistered(b.arguments, if b.isEnum then Added(e, b.binaryName, Some(EnumConstNames(b.fields))) else e)
  }

  function ArgsRegistered(args: seq<TypeBinding>, e: Enums): Enums
    decreases args, 1
  {
    if |args| == 0 then e else ArgsRegistered(args[1..], Registered(args[0], e))
  }

  /** The binary names of the enum bindings rendering meets. */
  function EnumNames(b: TypeBinding): set<string>
    decreases b, 0
  {
    if PrimitiveLike(b) then {}
    else (if b.isEnum then {b.binaryName} else {}) + ArgsEnumNames(b.arguments)
  }

  function ArgsEnumNames(args: seq<TypeBinding>): set<string>
    decreases args, 1
  {
    if |args| == 0 then {} else EnumNames(args[0]) + ArgsEnumNames(args[1..])
  }

  /** Rendering registers a constant list under every enum name it meets and
    * under no other name. */
  lemma {:induction false} RegisteredNames(b: TypeBinding, e: Enums, n: string)
    ensures n in EnumNames(b) ==> Lookup(Registered(b, e), n).Some?
    ensures n !in EnumNames(b) ==> Lookup(Registered(b, e), n) == Lookup(e, n)
    decreases b, 0
  {
    if !PrimitiveLike(b) {
      var e1 := if b.isEnum then Added(e, b.binaryName, Some(EnumConstNames(b.fields))) else e;
      if b.isEnum {
        AddedLookup(e, b.binaryName, Some(EnumConstNames(b.fields)), n);
      }
      ArgsRegisteredNames(b.arguments, e1, n);
    }
  }

  lemma {:induction false} ArgsRegisteredNames(args: seq<TypeBinding>, e: Enums, n: string)
    ensures Lookup(e, n).Some? ==> Lookup(ArgsRegistered(args, e), n).Some?
    ensures n in ArgsEnumNames(args) ==> Lookup(ArgsRegistered(args, e), n).Some?
    ensures n !in ArgsEnumNames(args) ==> Lookup(ArgsRegistered(args, e), n) == Lookup(e, n)
    decreases args, 1
  {
    if |args| > 0 {
      RegisteredNames(args[0], e, n);
      RegisteredKeeps(args[0], e, n);
      ArgsRegisteredNames(args[1..], Registered(args[0], e), n);
    }
  }

  /** A name that has a list keeps having one. */
  lemma {:induction false} RegisteredKeeps(b: TypeBinding, e: Enums, n: string)
    ensures Lookup(e, n).Some? ==> Lookup(Registered(b, e), n).Some?
    decreases b, 0
  {
    if !PrimitiveLike(b) {
      var e1 := if b.isEnum then Added(e, b.binaryName, Some(EnumConstNames(b.fields))) else e;
      if b.isEnum {
        AddedLookup(e, b.binaryName, Some(EnumConstNames(b.fields)), n);
      }
      ArgsRegisteredNames(b.arguments, e1, n);
    }
  }

  /** A plain enum field type: its constants, in declaration order, under
    * its binary name. */
  lemma PlainEnumRegistered(b: TypeBinding, e: Enums)
    requires !PrimitiveLike(b) && b.isEnum && |b.arguments| == 0
    ensures Lookup(Registered(b, e), b.binaryName) == Some(EnumConstNames(b.fields))
  {
    AddedLookup(e, b.binaryName, Some(EnumConstNames(b.fields)), b.binaryName);
  }

  /** b is a binding for the type tree t: the leaves and raw types carry the
    * names the rendering prints. */
  predicate Describes(b: TypeBinding, t: JType)
    decreases b, 0
  {
    if PrimitiveLike(b) then t.Leaf? && TypeName(t.leaf) == b.name
    else if |b.arguments| == 0 then t.Leaf? && TypeName(t.leaf) == b.binaryName
    else t.Parameterized? && t.raw == b.binaryName && ArgsDescribe(b.arguments, t.args)
  }

  predicate ArgsDescribe(bs: seq<TypeBinding>, ts: seq<JType>)
    decreases bs, 1
  {
    |bs| == |ts| && (|bs| == 0 || (Describes(bs[0], ts[0]) && ArgsDescribe(bs[1..], ts[1..])))
  }

  /** The rendering is the signature of the tree the binding describes. */
  lemma {:induction false} QualifiedSignature(b: TypeBinding, t: JType)
    requires Describes(b, t)
    ensures Qualified(b) == Signature(t)
    decreases b, 0
  {
    if !PrimitiveLike(b) && |b.arguments| > 0 {
      ArgsQualifiedSignature(b.arguments, t.args);
    }
  }

  lemma {:induction false} ArgsQualifiedSignature(bs: seq<TypeBinding>, ts: seq<JType>)
    requires ArgsDescribe(bs, ts)
    ensures QualifiedArgs(bs) == ArgsSignature(ts)
    decreases bs, 1
  {
    if |bs| > 0 {
      QualifiedSignature(bs[0], ts[0]);
      if |bs| > 1 {
        ArgsQualifiedSignature(bs[1..], ts[1..]);
      }
    }
  }

  /** What the context renders, the runtime's type-signature parser reads
    * back as the same tree, whenever each name in it loads. */
  lemma QualifiedReparses(b: TypeBinding, t: JType, load: string -> Option<LeafType>)
    requires Describes(b, t) && Readable(t, load)
    ensures ParseSignature(Qualified(b), load) == Success(t)
  {
    QualifiedSignature(b, t);
    ParseSignatureRoundTrip(t, load);
  }

  lemma {:induction false} QualifiedArgsSnoc(xs: seq<TypeBinding>, x: TypeBinding)
    ensures QualifiedArgs(xs + [x]) == if |xs| == 0 then Qualified(x) else QualifiedArgs(xs) + ", " + Qualified(x)
  {
    if |xs| > 1 {
      assert (xs + [x])[1..] == xs[1..] + [x];
      QualifiedArgsSnoc(xs[1..], x);
    } else if |xs| == 1 {
      assert (xs + [x])[1..] == [x];
    }
  }

  lemma {:induction false} ArgsRegisteredSnoc(xs: seq<TypeBinding>, x: TypeBinding, e: Enums)
    ensures ArgsRegistered(xs + [x], e) == Registered(x, ArgsRegistered(xs, e))
  {
    if |xs| > 0 {
      assert (xs + [x])[1..] == xs[1..] + [x];
      ArgsRegisteredSnoc(xs[1..], x, Registered(xs[0], e));
    } else {
      assert (xs + [x])[1..] == [];
    }
  }

  /** The loop over the declared fields collecting enum constant names. */
  method CollectEnumConstants(fields: seq<FieldBinding>) returns (names: seq<string>)
    ensures names == EnumConstNames(fields)
  {
    names := [];
    for i := 0 to |fields|
      invariant names == EnumConstNames(fields[..i])
    {
      assert fields[..i + 1][..i] == fields[..i];
      if fields[i].isEnumConstant {
        names := names + [fields[i].name];
      }
    }
    assert fields[..|fields|] == fields;
  }

  /** toQualifiedTypeString on a binding: the rendering, with each enum met
    * registered in the provider. */
  method Render(b: TypeBinding, provider: SimpleEnumConstantsProvider) returns (s: string)
    modifies provider
    ensures s == Qualified(b)
    ensures provider.enums == Registered(b, old(provider.enums))
    decreases b, 1
  {
    if PrimitiveLike(b) {
      return b.name;
    }
    var base := b.binaryName;
    if b.isEnum {
      var names := CollectEnumConstants(b.fields);
      provider.AddEnumConstants(base, Some(names));
    }
    var sb := base;
    var args := b.arguments;
    if |args| > 0 {
      sb := sb + "<";
      ghost var e0 := provider.enums;
      for i := 0 to |args|
        invariant sb == base + "<" + QualifiedArgs(args[..i])
        invariant provider.enums == ArgsRegistered(args[..i], e0)
      {
        sb := RenderArgument(b, i, base + "<", sb, provider, e0);
      }
      assert args[..|args|] == args;
      sb := sb + ">";
    }
    s := sb;
  }

  /** One turn of Render's loop over the type arguments: a ", " unless it is
    * the first, then the rendered argument i. */
  method RenderArgument(b: TypeBinding, i: int, prefix: string, sb: string,
                        provider: SimpleEnumConstantsProvider, ghost e0: Enums) returns (sb': string)
    requires 0 <= i < |b.arguments|
    requires sb == prefix + QualifiedArgs(b.arguments[..i])
    requires provider.enums == ArgsRegistered(b.arguments[..i], e0)
    modifies provider
    ensures sb' == prefix + QualifiedArgs(b.arguments[..i + 1])
    ensures provider.enums == ArgsRegistered(b.arguments[..i + 1], e0)
    decreases b, 0
  {
    var args := b.arguments;
    assert args[..i + 1] == args[..i] + [args[i]];
    QualifiedArgsSnoc(args[..i], args[i]);
    ArgsRegisteredSnoc(args[..i], args[i], e0);
    sb' := sb;
    if i > 0 {
      sb' := sb' + ", ";
    }
    var a := Render(args[i], provider);
    sb' := sb' + a;
  }

  /** toQualifiedTypeString: "" for a null binding. */
  method ToQualifiedTypeString(binding: Option<TypeBinding>, provider: SimpleEnumConstantsProvider) returns (s: string)
    modifies provider
    ensures binding.None? ==> s == "" && provider.enums == old(provider.enums)
    ensures binding.Some? ==> s == Qualified(binding.value) && provider.enums == Registered(binding.value, old(provider.enums))
  {
    if binding.None? {
      return "";
    }
    s := Render(binding.value, provider);
  }

  /** A converter diagnostic moved into the compilation unit: its start is
    * taken from just after the opening quote of the default value, whose
    * literal starts at exprStart; its length is kept. */
  function Placed(d: Diagnostic, exprStart: int, severity: Severity): (r: JavaDiagnostic)
    ensures r.offset - exprStart - 1 == d.start && r.length == d.end
    ensures r.message == d.message && r.source == d.source
  {
    JavaDiagnostic(d.message, d.source, exprStart + d.start + 1, d.end, Some(DefaultValueIsWrongType), severity)
  }

  function AllPlaced(ds: seq<Diagnostic>, exprStart: int, severity: Severity): (r: seq<JavaDiagnostic>)
    ensures |r| == |ds|
  {
    if |ds| == 0 then []
    else AllPlaced(ds[..|ds| - 1], exprStart, severity) + [Placed(ds[|ds| - 1], exprStart, severity)]
  }

  /** Each reported diagnostic lands, in order, one character past its
    * start within the default value. */
  lemma {:induction false} AllPlacedAt(ds: seq<Diagnostic>, exprStart: int, severity: Severity, k: nat)
    requires k < |ds|
    ensures AllPlaced(ds, exprStart, severity)[k] == Placed(ds[k], exprStart, severity)
    ensures AllPlaced(ds, exprStart, severity)[k].offset == exprStart + ds[k].start + 1
  {
    if k < |ds| - 1 {
      AllPlacedAt(ds[..|ds| - 1], exprStart, severity, k);
    }
  }

  /** The settings used when none are given. */
  const DefaultSettings := DiagnosticsSettings(Some([]), Some(Error), Some(SAFE))

  class JavaDiagnosticsContext {
    var diagnostics: seq<JavaDiagnostic>
    const settings: DiagnosticsSettings
    /** The project's runtime; null when the project manager could not
      * give one. */
    const runtime: Option<MicroProfileProjectRuntime>

    /** Null settings fall back to no patterns, Error severity and SAFE. */
    constructor (settings: Option<DiagnosticsSettings>, runtime: Option<MicroProfileProjectRuntime>)
      ensures this.settings == if settings.None? then DefaultSettings else settings.value
      ensures this.settings.valueSeverity.None? ==> settings.Some?
      ensures this.runtime == runtime && diagnostics == []
    {
      this.settings := if settings.None? then DefaultSettings else settings.value;
      this.runtime := runtime;
      diagnostics := [];
    }

    /** addDiagnostic relative to a node: at the node's start plus start,
      * with length end. */
    method AddDiagnostic(message: string, source: string, nodeStart: int, code: Option<ErrorCode>,
                         severity: Severity, start: int, end: int)
      modifies this
      ensures diagnostics == old(diagnostics) + [JavaDiagnostic(message, source, nodeStart + start, end, code, severity)]
    {
      diagnostics := diagnostics + [JavaDiagnostic(message, source, nodeStart + start, end, code, severity)];
    }

    /** validateWithConverter: nothing without a runtime or a value
      * severity; otherwise the runtime validates the default value against
      * the rendered field type, and each diagnostic it reports is added one
      * character further than its start, past the quote. */
    method ValidateWithConverter(defValue: string, binding: Option<TypeBinding>, exprStart: int,
                                 findType: string -> Option<JType>, load: string -> Option<LeafType>,
                                 loaded: ExecutionMode -> Option<Config>)
      returns (fqn: string, reported: seq<Diagnostic>, logged: bool, used: ConverterRuntimeSupport?)
      requires runtime.Some? ==> SupportsReady(runtime.value)
      modifies this
      modifies if runtime.Some? then {runtime.value.safeSupports[ConverterApi], runtime.value.fullSupports[ConverterApi]} else {}
      modifies if runtime.Some? then runtime.value.safeSupports[ConverterApi].Cached() + runtime.value.fullSupports[ConverterApi].Cached() else {}
      ensures runtime.None? || settings.valueSeverity.None? ==>
        diagnostics == old(diagnostics) && reported == [] && used == null
      ensures runtime.Some? && settings.valueSeverity.Some? ==>
        fqn == (if binding.None? then "" else Qualified(binding.value)) &&
        diagnostics == old(diagnostics) + AllPlaced(reported, exprStart, settings.valueSeverity.value)
      ensures runtime.Some? ==> SupportsReady(runtime.value)
      ensures runtime.Some? && settings.valueSeverity.Some? ==>
        var p := runtime.value.GetRuntimeSupport(ConverterApi, Preferred(settings)).value;
        used == if p.config.Some? then p else runtime.value.safeSupports[ConverterApi]
      ensures used != null ==>
        used.initialized && used.config == if old(used.initialized) then old(used.config) else loaded(used.mode)
      ensures used != null ==> used.Reported(fqn, defValue, logged, reported)
      ensures used != null && used.config.Some? && fqn !in old(used.cache) &&
              ResolveType(findType(fqn), load).Success? && ResolveType(findType(fqn), load).value.EnumPlan? ==>
        fqn in used.cache && used.cache[fqn].Enum? &&
        used.cache[fqn].enumValidator.typeName == ResolveType(findType(fqn), load).value.typeName &&
        used.cache[fqn].enumValidator.hyphenate == used.hyphenate
      ensures used != null && used.config.Some? && fqn in used.cache && used.cache[fqn].Enum? ==>
        used.cache[fqn].enumValidator.constants == Lookup(RenderedEnums(binding), used.cache[fqn].enumValidator.typeName)
      ensures used != null && binding.Some? && !PrimitiveLike(binding.value) && binding.value.isEnum &&
              |binding.value.arguments| == 0 && used.config.Some? && fqn in used.cache && used.cache[fqn].Enum? &&
              used.cache[fqn].enumValidator.typeName == binding.value.binaryName ==>
        used.cache[fqn].enumValidator.constants == Some(EnumConstNames(binding.value.fields))
      ensures used != null ==>
        (used.cache == old(used.cache) ||
         (fqn !in old(used.cache) && fqn in used.cache && used.cache == old(used.cache)[fqn := used.cache[fqn]]))
      ensures used != null && used == runtime.value.fullSupports[ConverterApi] ==>
        runtime.value.safeSupports[ConverterApi].cache == old(runtime.value.safeSupports[ConverterApi].cache)
      ensures used != null && used == runtime.value.safeSupports[ConverterApi] ==>
        runtime.value.fullSupports[ConverterApi].cache == old(runtime.value.fullSupports[ConverterApi].cache)
    {
      fqn := "";
      reported := [];
      logged := false;
      used := null;
      if runtime.None? || settings.valueSeverity.None? {
        return;
      }
      var rt := runtime.value;
      var preferred := Preferred(settings);
      fqn, reported, logged, used := RunConverter(rt, defValue, binding, preferred, findType, load, loaded);
      assert used == rt.safeSupports[ConverterApi] || used == rt.fullSupports[ConverterApi];
      CachedAllocated(rt.safeSupports[ConverterApi].cache);
      CachedAllocated(rt.fullSupports[ConverterApi].cache);
      AddAllPlaced(reported, exprStart, settings.valueSeverity.value);
    }

    /** The collector of validateWithConverter, called once per reported
      * diagnostic in order. */
    method AddAllPlaced(reported: seq<Diagnostic>, exprStart: int, severity: Severity)
      modifies this
      ensures diagnostics == old(diagnostics) + AllPlaced(reported, exprStart, severity)
    {
      for i := 0 to |reported|
        invariant diagnostics == old(diagnostics) + AllPlaced(reported[..i], exprStart, severity)
      {
        assert reported[..i + 1][..i] == reported[..i];
        AddDiagnostic(reported[i].message, reported[i].source, exprStart, Some(DefaultValueIsWrongType),
                      severity, reported[i].start + 1, reported[i].end);
      }
      assert reported[..|reported|] == reported;
    }
  }

  /** The mode validateWithConverter asks for: FULL when the settings say
    * so, SAFE otherwise. */
  function Preferred(settings: DiagnosticsSettings): ExecutionMode {
    if settings.mode == Some(FULL) then FULL else SAFE
  }

  /** Both converter supports of a runtime are registered and valid, with
    * their enum validators apart. */
  ghost predicate SupportsReady(rt: MicroProfileProjectRuntime)
    reads rt, rt.Supports()
    reads if ConverterApi in rt.safeSupports then rt.safeSupports[ConverterApi].Cached() else {}
    reads if ConverterApi in rt.fullSupports then rt.fullSupports[ConverterApi].Cached() else {}
  {
    rt.Valid() &&
    rt.safeSupports[ConverterApi].Valid() && rt.fullSupports[ConverterApi].Valid() &&
    rt.safeSupports[ConverterApi].Cached() !! rt.fullSupports[ConverterApi].Cached()
  }

  /** The runtime half of validateWithConverter: the field type rendered
    * with a fresh enum provider, then validated in the preferred mode. The
    * support used is the preferred one when it has a config and the SAFE
    * one otherwise; it reports nothing without a config or once it has
    * logged an exception, and otherwise the outcome of the validator it
    * keeps for the rendered signature, on the value at offset 0. */
  method RunConverter(rt: MicroProfileProjectRuntime, defValue: string, binding: Option<TypeBinding>,
                      preferred: ExecutionMode, findType: string -> Option<JType>,
                      load: string -> Option<LeafType>, loaded: ExecutionMode -> Option<Config>)
    returns (fqn: string, reported: seq<Diagnostic>, logged: bool, used: ConverterRuntimeSupport)
    requires SupportsReady(rt)
    modifies rt.safeSupports[ConverterApi], rt.fullSupports[ConverterApi]
    modifies rt.safeSupports[ConverterApi].Cached(), rt.fullSupports[ConverterApi].Cached()
    ensures SupportsReady(rt)
    ensures fqn == if binding.None? then "" else Qualified(binding.value)
    ensures var p := rt.GetRuntimeSupport(ConverterApi, preferred).value;
      used == if p.config.Some? then p else rt.safeSupports[ConverterApi]
    ensures used.initialized && used.config == if old(used.initialized) then old(used.config) else loaded(used.mode)
    ensures used.Reported(fqn, defValue, logged, reported)
    ensures used.config.Some? && fqn !in old(used.cache) && ResolveType(findType(fqn), load).Success? &&
            ResolveType(findType(fqn), load).value.EnumPlan? ==>
      fqn in used.cache && used.cache[fqn].Enum? &&
      used.cache[fqn].enumValidator.typeName == ResolveType(findType(fqn), load).value.typeName &&
      used.cache[fqn].enumValidator.hyphenate == used.hyphenate
    ensures used.config.Some? && fqn in used.cache && used.cache[fqn].Enum? ==>
      used.cache[fqn].enumValidator.constants == Lookup(RenderedEnums(binding), used.cache[fqn].enumValidator.typeName)
    ensures binding.Some? && !PrimitiveLike(binding.value) && binding.value.isEnum && |binding.value.arguments| == 0 &&
            used.config.Some? && fqn in used.cache && used.cache[fqn].Enum? &&
            used.cache[fqn].enumValidator.typeName == binding.value.binaryName ==>
      used.cache[fqn].enumValidator.constants == Some(EnumConstNames(binding.value.fields))
    ensures used.cache == old(used.cache) ||
      (fqn !in old(used.cache) && fqn in used.cache && used.cache == old(used.cache)[fqn := used.cache[fqn]])
    ensures used == rt.fullSupports[ConverterApi] ==>
      rt.safeSupports[ConverterApi].cache == old(rt.safeSupports[ConverterApi].cache)
    ensures used == rt.safeSupports[ConverterApi] ==>
      rt.fullSupports[ConverterApi].cache == old(rt.fullSupports[ConverterApi].cache)
  {
    CachedAllocated(rt.safeSupports[ConverterApi].cache);
    CachedAllocated(rt.fullSupports[ConverterApi].cache);
    var provider := new SimpleEnumConstantsProvider();
    fqn := ToQualifiedTypeString(binding, provider);
    var enums := provider.enums;
    var provided := (t: string) => Lookup(enums, t);
    assert enums == RenderedEnums(binding);
    reported, logged, used := rt.ValidateValue(defValue, fqn, preferred, findType(fqn), load, provided, loaded);
    if binding.Some? && !PrimitiveLike(binding.value) && binding.value.isEnum && |binding.value.arguments| == 0 {
      PlainEnumRegistered(binding.value, None);
    }
  }

  /** The enum constants rendering the field type registers in a fresh
    * provider. */
  function RenderedEnums(binding: Option<TypeBinding>): Enums {
    if binding.None? then None else Registered(binding.value, None)
  }
}
