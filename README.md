# lsp4mp configuration-value validation, modelled in Dafny

This project models the configuration-value validation engine of Eclipse
LSP4MP, the MicroProfile language server and its JDT extension. It also
models the smaller pieces of the server that sit around that engine. Each
Java class of the core is one Dafny module. Classes whose fields the Java
code updates become Dafny classes. Pure helpers become functions.

The engine, in the order a value passes through it:

- **TypeSignatureParser** (`type_signature_parser.dfy`). A recursive-descent
  parser with a mutable cursor. It reads a type signature such as
  `java.util.Map<java.lang.String, java.util.List<java.lang.Integer>>` into a
  tree of loaded leaves and parameterized types, as in section 4.5 of the Java
  Language Specification. The `Parser` class and its methods are proved
  against a functional parse. That parse is proved to read back every
  signature the model prints.
- **MicroProfileProjectRuntime.forNameSmart** (`project_runtime.dfy`). Adds
  primitive keywords and `[]` array suffixes on top of the parser.
- **AbstractConverterRuntimeSupport** (`converter_runtime.dfy`,
  `converter_support.dfy`). The per-mode support that loads the config once.
  `resolveConverter` picks a validator for a type tree: List, Set, arrays,
  Map, Optional, Supplier and Provider are decomposed. The support keeps one
  validator per type signature until `reset`. The comma-splitting
  `CollectionConverter` hands each piece, with its offset, to the element
  validator.
- **AbstractConverterValidator** (`converter_validator.dfy`). Prepares its
  converter once, at construction. Reports at most one diagnostic per failed
  value, with the message found along the cause chain.
- **EnumTypeConverterValidator** (`enum_converter.dfy`). Checks membership
  among the hyphenated constant names. Refreshes its table in place from an
  enum-constant provider.
- **The providers**:
  - `SimpleEnumConstantsProvider` (`enum_constants_provider.dfy`);
  - `MicroProfileProjectInfo` as a provider of its hints
    (`project_info.dfy`).
- **ProjectClassLoader** (`project_class_loader.dfy`). A parent-last loader:
  its own cache, then the output directories, then the jars, then the parent.
- **MicroProfileProjectRuntime** (`project_runtime.dfy`):
  - registers supports by mode and falls back to SAFE;
  - rebuilds its loader and resets every support on a classpath change;
  - caches `findClassType` lookups.
- **JavaDiagnosticsContext** (`java_diagnostics_context.dfy`). Its
  `toQualifiedTypeString` renders a field's type binding as the signature
  text the parser reads. `validateWithConverter` reports a wrong default
  value at its place in the annotation.

The smaller pieces:

- `ItemMetadata` (`item_metadata.dfy`):
  - the memoised simple rendering of a type, a second generic-type parser;
  - the type-kind predicates;
  - the hint type;
  - the dotted path of a property name.
- `PropertiesFileValidator` (`properties_validator.dfy`):
  - the boolean, integral and placeholder value checks;
  - the grouping of a file's properties;
  - the duplicate, missing-required and required-without-value diagnostics.
- The dotted-key lookup of `YamlConfigSource` (`yaml_config_source.dfy`).
- `MicroProfilePropertiesListenerManager` (`listener_manager.dfy`):
  - the event kinds it reacts to;
  - how it merges pending `propertiesChanged` events
    (`properties_change_event.dfy`).
- The eviction rules of `MicroProfileProjectInfoCache`
  (`project_info_cache.dfy`).
- `JavaTextDocumentSnippetRegistry` (`snippet_registry.dfy`):
  - the in-place rewrite of a snippet's package line;
  - the memoised list of context types.
- `ValuesRule` and `PropertyMatcher` (`values_rule.dfy`,
  `property_matcher.dfy`).
- `ExecutionMode` (`execution_mode.dfy`) and the execution and inlay-hint
  settings (`execution_settings.dfy`, `inlay_hint_settings.dfy`).
- `JaxRsContext` URL building (`jaxrs_context.dfy`).

Shared definitions:

- `java_strings.dfy`: the `String` and `Character` operations the code
  relies on.
- `java_types.dfy`: the reflected `Type` values.
- `lsp.dfy`: diagnostic severities.
- `wrappers.dfy`: `Option` and `Result`.

Two copies of the converter classes exist, under `microprofile.ls` and
`microprofile.jdt`, and they differ. The model combines them behind one
interface:

- it uses the `microprofile.ls` converter family, with `refreshEnumType` and
  the enum-constant provider;
- it uses the `microprofile.jdt` runtime's registry and SAFE fallback;
- `validateValue` therefore takes the provider that
  `JavaDiagnosticsContext.validateWithConverter` passes.

Where a comment and the code disagree, the model follows the code. The
javadoc of `hasConfigProviderResolver`
(AbstractConverterRuntimeSupport.java:150-161) says that SAFE mode always
answers false. But the SAFE support's `loadConfig`
(SafeConverterRuntimeSupport.java:64-66) returns the embedded SmallRye config,
which is never null, so the method at lines 162-165 answers true in SAFE mode.
`ConverterSupport.ConverterRuntimeSupport.HasConfigProviderResolver` answers
true exactly when the loaded config is non-null, and
`ProjectRuntimes.FallbackScenario` relies on SAFE having a config. The
comment may describe an intended design, but the code gives no sign of one,
so this is not a Findings row.

## Model

| member | source | states |
|---|---|---|
| ConverterValidators.FirstSettled | microprofile.ls/org.eclipse.lsp4mp.ls/src/main/java/org/eclipse/lsp4mp/commons/runtime/converter/AbstractConverterValidator.java:128-135 | the first throwable of the cause chain that is neither an InvocationTargetException nor caused by one; every throwable before it is |
| ConverterValidators.UnwrapIsFirstSettled | microprofile.ls/org.eclipse.lsp4mp.ls/src/main/java/org/eclipse/lsp4mp/commons/runtime/converter/AbstractConverterValidator.java:129-133 | the unwrapping loop stops at that first settled throwable, and runs off the chain (null) when there is none |
| ConverterValidators.ErrorMessageIsFirstSettled | microprofile.ls/org.eclipse.lsp4mp.ls/src/main/java/org/eclipse/lsp4mp/commons/runtime/converter/AbstractConverterValidator.java:128-135 | getErrorMessage is the message of the first settled throwable, or the original throwable's message when the chain has none |
| ConverterValidators.WrappedMessage | microprofile.ls/org.eclipse.lsp4mp.ls/src/main/java/org/eclipse/lsp4mp/commons/runtime/converter/AbstractConverterValidator.java:128-135 | an InvocationTargetException wrapping a plain exception reports the wrapped exception's message |
| ConverterValidators.GetErrorMessage | microprofile.ls/org.eclipse.lsp4mp.ls/src/main/java/org/eclipse/lsp4mp/commons/runtime/converter/AbstractConverterValidator.java:128-135 | the while loop over getCause() returns exactly getErrorMessage's specified message |
| ConverterValidators.Prepare | microprofile.ls/org.eclipse.lsp4mp.ls/src/main/java/org/eclipse/lsp4mp/commons/runtime/converter/AbstractConverterValidator.java:112-119 | prepare() is true iff initialize() returns true; a thrown exception gives false |
| ConverterValidators.AbstractConverterValidator.constructor | microprofile.ls/org.eclipse.lsp4mp.ls/src/main/java/org/eclipse/lsp4mp/commons/runtime/converter/AbstractConverterValidator.java:66-70 | the prepared flag is fixed at construction and canValidate is true iff initialize() returned true |
| ConverterValidators.AbstractConverterValidator.Outcome | microprofile.ls/org.eclipse.lsp4mp.ls/src/main/java/org/eclipse/lsp4mp/commons/runtime/converter/AbstractConverterValidator.java:91-104 | at most one diagnostic; one exactly when prepared, convert threw and the message is non-null; source "microprofile-config", code "value", the given start, end = value length, the unwrapped message |
| ConverterValidators.AbstractConverterValidator.Validate | microprofile.ls/org.eclipse.lsp4mp.ls/src/main/java/org/eclipse/lsp4mp/commons/runtime/converter/AbstractConverterValidator.java:91-104 | validate reports exactly Outcome's diagnostics |
| EnumConverters.TableSpec | microprofile.ls/org.eclipse.lsp4mp.ls/src/main/java/org/eclipse/lsp4mp/commons/runtime/converter/safe/EnumTypeConverterValidator.java:135-140 | after updateValues the keys are exactly the hyphenated constants, each maps to a constant that hyphenates to it, and the key listing has no repeats |
| EnumConverters.EnumTypeConverterValidator.constructor | microprofile.ls/org.eclipse.lsp4mp.ls/src/main/java/org/eclipse/lsp4mp/commons/runtime/converter/safe/EnumTypeConverterValidator.java:68-71 | construction stores the type and its constants and fills the table (Valid: table == hyphenated constants) |
| EnumConverters.EnumTypeConverterValidator.UpdateValues | microprofile.ls/org.eclipse.lsp4mp.ls/src/main/java/org/eclipse/lsp4mp/commons/runtime/converter/safe/EnumTypeConverterValidator.java:135-140 | rebuilds the table from the current constants; throws iff the list is null |
| EnumConverters.EnumTypeConverterValidator.RefreshEnumType | microprofile.ls/org.eclipse.lsp4mp.ls/src/main/java/org/eclipse/lsp4mp/commons/runtime/converter/safe/EnumTypeConverterValidator.java:86-95 | stores the provider's list; the table is untouched when the list is Objects.equals to the current one and rebuilt otherwise; throws only when rebuilding from null |
| EnumConverters.EnumTypeConverterValidator.Outcome | microprofile.ls/org.eclipse.lsp4mp.ls/src/main/java/org/eclipse/lsp4mp/commons/runtime/converter/safe/EnumTypeConverterValidator.java:112-129 | no diagnostic iff the trimmed value is empty or its hyphenation is a key; otherwise exactly one SRCFG00049 diagnostic at start with end = value length listing the keys |
| EnumConverters.EnumTypeConverterValidator.Validate | microprofile.ls/org.eclipse.lsp4mp.ls/src/main/java/org/eclipse/lsp4mp/commons/runtime/converter/safe/EnumTypeConverterValidator.java:112-129 | validate reports exactly Outcome's diagnostics |
| EnumConverters.AcceptedIff | microprofile.ls/org.eclipse.lsp4mp.ls/src/main/java/org/eclipse/lsp4mp/commons/runtime/converter/safe/EnumTypeConverterValidator.java:113-123 | a value passes iff it is blank or hyphenate(trim(value)) is the hyphenation of a current constant; the keys are exactly the hyphenated constants |
| EnumConverters.OverflowActionExample | microprofile.ls/org.eclipse.lsp4mp.ls/src/main/java/org/eclipse/lsp4mp/commons/runtime/converter/safe/EnumTypeConverterValidator.java:118-128 | against DISCARD and BLOCK, "BLOCK" passes and "BLACK" gives one diagnostic of length 5 listing "discard,block" |
| EnumConverters.RefreshScenario | microprofile.ls/org.eclipse.lsp4mp.ls/src/main/java/org/eclipse/lsp4mp/commons/runtime/converter/safe/EnumTypeConverterValidator.java:86-95 | FOO is rejected, then accepted once the provider lists it; WEB_APP is rejected once the provider drops it |
| EnumConverters.RejectedKey | microprofile.ls/org.eclipse.lsp4mp.ls/src/main/java/org/eclipse/lsp4mp/commons/runtime/converter/safe/EnumTypeConverterValidator.java:118-128 | a clean value hyphenating to neither constant gives exactly one diagnostic |
| EnumConstantsProviders.Lookup | microprofile.ls/org.eclipse.lsp4mp.ls/src/main/java/org/eclipse/lsp4mp/commons/runtime/EnumConstantsProvider.java:53-55 | getConstants is null while the table has not been created |
| EnumConstantsProviders.AddedLookup | microprofile.ls/org.eclipse.lsp4mp.ls/src/main/java/org/eclipse/lsp4mp/commons/runtime/EnumConstantsProvider.java:57-62 | after addEnumConstants(t, l), getConstants(t) is l whatever was stored before, and every other type reads as before |
| EnumConstantsProviders.AddedTwice | microprofile.ls/org.eclipse.lsp4mp.ls/src/main/java/org/eclipse/lsp4mp/commons/runtime/EnumConstantsProvider.java:61 | a second addEnumConstants for the same type replaces the first |
| EnumConstantsProviders.SimpleEnumConstantsProvider.constructor | microprofile.ls/org.eclipse.lsp4mp.ls/src/main/java/org/eclipse/lsp4mp/commons/runtime/EnumConstantsProvider.java:48-50 | a new provider has no table and answers null for every type |
| EnumConstantsProviders.SimpleEnumConstantsProvider.AddEnumConstants | microprofile.ls/org.eclipse.lsp4mp.ls/src/main/java/org/eclipse/lsp4mp/commons/runtime/EnumConstantsProvider.java:57-62 | creates the table when absent and puts the list; the type reads it back and no other type changes |
| ProjectInfos.GetHint | microprofile.ls/org.eclipse.lsp4mp.ls/src/main/java/org/eclipse/lsp4mp/commons/MicroProfileProjectInfo.java:95 | the first hint with that name: it carries the name and no earlier hint does; none when no hint does |
| ProjectInfos.HintValues | microprofile.ls/org.eclipse.lsp4mp.ls/src/main/java/org/eclipse/lsp4mp/commons/MicroProfileProjectInfo.java:97-101 | getValue() of each value hint, in the hint's order |
| ProjectInfos.GetConstants | microprofile.ls/org.eclipse.lsp4mp.ls/src/main/java/org/eclipse/lsp4mp/commons/MicroProfileProjectInfo.java:94-105 | null iff no hint has the name; otherwise the values of a hint with that name |
| ProjectInfos.EmptyProjectInfo | microprofile.ls/org.eclipse.lsp4mp.ls/src/main/java/org/eclipse/lsp4mp/commons/MicroProfileProjectInfo.java:34-41 | EMPTY_PROJECT_INFO has no properties, no hints, project URI "" and answers null for every enum type |
| ProjectInfos.AppendedValueSeen | microprofile.ls/org.eclipse.lsp4mp.ls/src/main/java/org/eclipse/lsp4mp/commons/MicroProfileProjectInfo.java:96-101 | each call reads the hint's current values: a value appended to the hint shows up at the end of the next answer |
| ExecutionModes.ForValue | microprofile.jdt/org.eclipse.lsp4mp.jdt.core/src/main/java/org/eclipse/lsp4mp/commons/runtime/ExecutionMode.java:86-92 | succeeds iff the value is 1 or 2, giving the mode with that value; otherwise the "Illegal enum value: " failure |
| ExecutionModes.ValueRoundTrip | microprofile.jdt/org.eclipse.lsp4mp.jdt.core/src/main/java/org/eclipse/lsp4mp/commons/runtime/ExecutionMode.java:50-92 | forValue(m.getValue()) == m for both modes |
| ExecutionModes.NameRoundTrip | microprofile.jdt/org.eclipse.lsp4mp.jdt.core/src/main/java/org/eclipse/lsp4mp/commons/runtime/ExecutionMode.java:50-107 | forValue(m.getName()) == m for both modes |
| ExecutionModes.UpperCaseNameRoundTrip | microprofile.jdt/org.eclipse.lsp4mp.jdt.core/src/main/java/org/eclipse/lsp4mp/commons/runtime/ExecutionMode.java:101-105 | the name lookup ignores case: the upper-case name decodes to the same mode |
| ExecutionModes.ForNameIsFullIff | microprofile.jdt/org.eclipse.lsp4mp.jdt.core/src/main/java/org/eclipse/lsp4mp/commons/runtime/ExecutionMode.java:98-107 | a string decodes to FULL iff it equals "full" ignoring case; null and every other string decode to SAFE |
| ExecutionSettings.MicroProfileExecutionSettings.constructor | microprofile.ls/org.eclipse.lsp4mp.ls/src/main/java/org/eclipse/lsp4mp/settings/MicroProfileExecutionSettings.java:11-13 | a new settings object holds "safe", i.e. execution mode SAFE |
| ExecutionSettings.MicroProfileExecutionSettings.ExecutionMode | microprofile.ls/org.eclipse.lsp4mp.ls/src/main/java/org/eclipse/lsp4mp/settings/MicroProfileExecutionSettings.java:15-17 | getExecutionMode decodes the mode string; a null mode reads as SAFE |
| ExecutionSettings.MicroProfileExecutionSettings.SetMode | microprofile.ls/org.eclipse.lsp4mp.ls/src/main/java/org/eclipse/lsp4mp/settings/MicroProfileExecutionSettings.java:23-25 | setMode stores the string |
| ExecutionSettings.MicroProfileExecutionSettings.Update | microprofile.ls/org.eclipse.lsp4mp.ls/src/main/java/org/eclipse/lsp4mp/settings/MicroProfileExecutionSettings.java:32-55 | answers true iff the argument is non-null with a different mode (equality is equality of mode); then the mode is copied, otherwise nothing changes |
| ExecutionSettings.ExecutionModeIsFullIff | microprofile.ls/org.eclipse.lsp4mp.ls/src/main/java/org/eclipse/lsp4mp/settings/MicroProfileExecutionSettings.java:15-17 | a settings object reads as FULL only when its mode string is "full" ignoring case |
| InlayHintSettings.Filled | microprofile.jdt/org.eclipse.lsp4mp.jdt.core/src/main/java/org/eclipse/lsp4mp/commons/MicroProfileInlayHintSettings.java:104-113 | after updateDefault every kind is present: a set kind keeps its setting, an unset one gets its default |
| InlayHintSettings.FilledIdempotent | microprofile.jdt/org.eclipse.lsp4mp.jdt.core/src/main/java/org/eclipse/lsp4mp/commons/MicroProfileInlayHintSettings.java:104-113 | applying the defaults twice is applying them once |
| InlayHintSettings.MicroProfileInlayHintSettings.constructor | microprofile.jdt/org.eclipse.lsp4mp.jdt.core/src/main/java/org/eclipse/lsp4mp/commons/MicroProfileInlayHintSettings.java:49-51 | a new settings object is enabled, with no kind set and defaults not yet applied |
| InlayHintSettings.MicroProfileInlayHintSettings.SetEnabled | microprofile.jdt/org.eclipse.lsp4mp.jdt.core/src/main/java/org/eclipse/lsp4mp/commons/MicroProfileInlayHintSettings.java:57-59 | setEnabled changes only enabled |
| InlayHintSettings.MicroProfileInlayHintSettings.SetKind | microprofile.jdt/org.eclipse.lsp4mp.jdt.core/src/main/java/org/eclipse/lsp4mp/commons/MicroProfileInlayHintSettings.java:66-99 | each kind setter stores its setting (null clears it), leaves the other kinds alone and clears the updated flag |
| InlayHintSettings.MicroProfileInlayHintSettings.UpdateDefault | microprofile.jdt/org.eclipse.lsp4mp.jdt.core/src/main/java/org/eclipse/lsp4mp/commons/MicroProfileInlayHintSettings.java:104-113 | fills unset kinds with their defaults and sets the updated flag |
| InlayHintSettings.MicroProfileInlayHintSettings.GetKind | microprofile.jdt/org.eclipse.lsp4mp.jdt.core/src/main/java/org/eclipse/lsp4mp/commons/MicroProfileInlayHintSettings.java:61-94 | each kind getter applies the defaults first and answers the filled setting |
| InlayHintSettings.MicroProfileInlayHintSettings.Update | microprofile.jdt/org.eclipse.lsp4mp.jdt.core/src/main/java/org/eclipse/lsp4mp/commons/MicroProfileInlayHintSettings.java:120-150 | false for null or an equal object (enabled and the four kinds compared), and then neither object changes; otherwise enabled and the other object's filled kinds are copied, and the other object's getters leave it with its defaults filled in and marked updated |
| InlayHintSettings.NewSettingsDefaults | microprofile.jdt/org.eclipse.lsp4mp.jdt.core/src/main/java/org/eclipse/lsp4mp/commons/MicroProfileInlayHintSettings.java:31-51 | a new object reads as enabled, converters off, default values on, resolve expressions on, types off |
| InlayHintSettings.SetThenRead | microprofile.jdt/org.eclipse.lsp4mp.jdt.core/src/main/java/org/eclipse/lsp4mp/commons/MicroProfileInlayHintSettings.java:66-111 | an explicitly set kind is read back unchanged, and an unset kind reads as its default after a setter call |
| JaxRs.LocalBaseURL | microprofile.jdt/org.eclipse.lsp4mp.jdt.core/src/main/java/org/eclipse/lsp4mp/jdt/core/jaxrs/JaxRsContext.java:79-86 | "http://localhost:" then the port in decimal, then the root path only when it is non-null |
| JaxRs.PortReadsBack | microprofile.jdt/org.eclipse.lsp4mp.jdt.core/src/main/java/org/eclipse/lsp4mp/jdt/core/jaxrs/JaxRsContext.java:79-86 | the text between the prefix and the root path parses back to the port |
| JaxRs.JaxRsContext.constructor | microprofile.jdt/org.eclipse.lsp4mp.jdt.core/src/main/java/org/eclipse/lsp4mp/jdt/core/jaxrs/JaxRsContext.java:26-37 | a new context uses port 8080 and no root path, so its base URL is "http://localhost:8080" |
| JaxRs.JaxRsContext.SetServerPort | microprofile.jdt/org.eclipse.lsp4mp.jdt.core/src/main/java/org/eclipse/lsp4mp/jdt/core/jaxrs/JaxRsContext.java:43-45 | setServerPort changes only the port |
| JaxRs.JaxRsContext.SetRootPath | microprofile.jdt/org.eclipse.lsp4mp.jdt.core/src/main/java/org/eclipse/lsp4mp/jdt/core/jaxrs/JaxRsContext.java:61-63 | setRootPath changes only the root path |
| JaxRs.GetJaxRsContext | microprofile.jdt/org.eclipse.lsp4mp.jdt.core/src/main/java/org/eclipse/lsp4mp/jdt/core/jaxrs/JaxRsContext.java:65-72 | returns the context stored in the code-lens context, or stores and returns a fresh one on port 8080 |
| JaxRs.SameInstance | microprofile.jdt/org.eclipse.lsp4mp.jdt.core/src/main/java/org/eclipse/lsp4mp/jdt/core/jaxrs/JaxRsContext.java:65-72 | two calls on the same code-lens context return the same instance |
| ValuesRules.CleanSpec | microprofile.ls/org.eclipse.lsp4mp.ls/src/main/java/org/eclipse/lsp4mp/model/values/ValuesRule.java:67-68 | cleaning keeps exactly the hints with a non-null, non-empty value, never grows the list, and is idempotent |
| ValuesRules.CleanAppend | microprofile.ls/org.eclipse.lsp4mp.ls/src/main/java/org/eclipse/lsp4mp/model/values/ValuesRule.java:67-68 | cleaning keeps the order of what it keeps (it distributes over concatenation) |
| ValuesRules.ValuesRule.constructor | microprofile.ls/org.eclipse.lsp4mp.ls/src/main/java/org/eclipse/lsp4mp/model/values/ValuesRule.java:34-42 | a new rule has its matcher, no values and the cleaned flag off |
| ValuesRules.ValuesRule.SetValues | microprofile.ls/org.eclipse.lsp4mp.ls/src/main/java/org/eclipse/lsp4mp/model/values/ValuesRule.java:52-55 | stores the list and clears the cleaned flag |
| ValuesRules.ValuesRule.CleanValues | microprofile.ls/org.eclipse.lsp4mp.ls/src/main/java/org/eclipse/lsp4mp/model/values/ValuesRule.java:62-72 | leaves a cleaned, null or empty list alone; otherwise replaces it by its cleaned form and sets the flag |
| ValuesRules.ValuesRule.GetValues | microprofile.ls/org.eclipse.lsp4mp.ls/src/main/java/org/eclipse/lsp4mp/model/values/ValuesRule.java:57-72 | answers the cleaned list, null and empty lists as they are, and cleans at most once per setValues |
| ValuesRules.ReadTwice | microprofile.ls/org.eclipse.lsp4mp.ls/src/main/java/org/eclipse/lsp4mp/model/values/ValuesRule.java:52-72 | two reads after one setValues give the same, cleaned list |
| PropertyMatchers.Match | microprofile.ls/org.eclipse.lsp4mp.ls/src/main/java/org/eclipse/lsp4mp/model/values/PropertyMatcher.java:58-78 | with both collections, name in names and type in types; with names only, name in names; with types only, type in types; with neither, false |
| PropertyMatchers.BothIsConjunction | microprofile.ls/org.eclipse.lsp4mp.ls/src/main/java/org/eclipse/lsp4mp/model/values/PropertyMatcher.java:61-66 | a matcher with both collections matches exactly what the names-only and the types-only matchers both match |
| YamlConfig.Final | microprofile.jdt/org.eclipse.lsp4mp.jdt.core/src/main/java/org/eclipse/lsp4mp/jdt/internal/core/project/YamlConfigSource.java:56-71 | an absent last segment reads as null; a map reads as its `~` entry; never throws |
| YamlConfig.Walk | microprofile.jdt/org.eclipse.lsp4mp.jdt.core/src/main/java/org/eclipse/lsp4mp/jdt/internal/core/project/YamlConfigSource.java:47-54 | an empty split throws; a missing or string-valued intermediate segment gives null |
| YamlConfig.GetProperty | microprofile.jdt/org.eclipse.lsp4mp.jdt.core/src/main/java/org/eclipse/lsp4mp/jdt/internal/core/project/YamlConfigSource.java:42-72 | getProperty is the walk of the key split on '.' (Java String.split, trailing empty segments dropped) over the config, which it does not change |
| YamlConfig.WalkNest | microprofile.jdt/org.eclipse.lsp4mp.jdt.core/src/main/java/org/eclipse/lsp4mp/jdt/internal/core/project/YamlConfigSource.java:47-71 | walking the segments of a nesting of maps reaches the scalar at its bottom |
| YamlConfig.DottedLookup | microprofile.jdt/org.eclipse.lsp4mp.jdt.core/src/main/java/org/eclipse/lsp4mp/jdt/internal/core/project/YamlConfigSource.java:43-71 | the dotted key a.b.c reads the value nested as a: b: c: |
| YamlConfig.TildeEntry | microprofile.jdt/org.eclipse.lsp4mp.jdt.core/src/main/java/org/eclipse/lsp4mp/jdt/internal/core/project/YamlConfigSource.java:57-65 | a value under `~` answers for its parent key (cors: ~: true) |
| ClassLoaders.Partition | microprofile.ls/org.eclipse.lsp4mp.ls/src/main/java/org/eclipse/lsp4mp/commons/runtime/ProjectClassLoader.java:52-70 | construction sorts every classpath entry into exactly one place: the directories (in order), the jars, or nowhere when its URL is malformed |
| ClassLoaders.Slashed | microprofile.ls/org.eclipse.lsp4mp.ls/src/main/java/org/eclipse/lsp4mp/commons/runtime/ProjectClassLoader.java:119 | name.replace('.', '/'): dots become slashes, every other character is kept |
| ClassLoaders.FirstDir | microprofile.ls/org.eclipse.lsp4mp.ls/src/main/java/org/eclipse/lsp4mp/commons/runtime/ProjectClassLoader.java:121-133 | the first directory holding the file: it holds it and no earlier one does |
| ClassLoaders.DirHitsMembers | microprofile.ls/org.eclipse.lsp4mp.ls/src/main/java/org/eclipse/lsp4mp/commons/runtime/ProjectClassLoader.java:167-172 | the directory hits are exactly the URLs of the directories holding the file |
| ClassLoaders.ProjectClassLoader.constructor | microprofile.ls/org.eclipse.lsp4mp.ls/src/main/java/org/eclipse/lsp4mp/commons/runtime/ProjectClassLoader.java:49-71 | the loader keeps the directories and jars of the partition, with an empty cache |
| ClassLoaders.ProjectClassLoader.FindClass | microprofile.ls/org.eclipse.lsp4mp.ls/src/main/java/org/eclipse/lsp4mp/commons/runtime/ProjectClassLoader.java:113-136 | a cache hit is returned as is; otherwise the first directory holding name/with/slashes.class defines the class, which is cached; else ClassNotFoundException |
| ClassLoaders.ProjectClassLoader.LoadClass | microprofile.ls/org.eclipse.lsp4mp.ls/src/main/java/org/eclipse/lsp4mp/commons/runtime/ProjectClassLoader.java:77-107 | cache, then directories, then jars, then parent; directory and jar hits are cached, parent hits are not |
| ClassLoaders.ProjectClassLoader.FindResource | microprofile.ls/org.eclipse.lsp4mp.ls/src/main/java/org/eclipse/lsp4mp/commons/runtime/ProjectClassLoader.java:139-160 | the first directory holding the resource, else the jars' answer; the parent is never asked |
| ClassLoaders.ProjectClassLoader.FindResources | microprofile.ls/org.eclipse.lsp4mp.ls/src/main/java/org/eclipse/lsp4mp/commons/runtime/ProjectClassLoader.java:163-187 | all directory hits, then all jar hits, then all parent hits, in that order |
| ClassLoaders.ProjectClassLoader.LoadIdempotent | microprofile.ls/org.eclipse.lsp4mp.ls/src/main/java/org/eclipse/lsp4mp/commons/runtime/ProjectClassLoader.java:79-127 | loading a name twice gives the same answer and the second call changes nothing |
| ClassLoaders.ProjectClassLoader.ParentLast | microprofile.ls/org.eclipse.lsp4mp.ls/src/main/java/org/eclipse/lsp4mp/commons/runtime/ProjectClassLoader.java:86-106 | the parent's class is returned only when no directory holds the class file and the jars lack it |
| ClassLoaders.ProjectClassLoader.ReloadAfterClear | microprofile.ls/org.eclipse.lsp4mp.ls/src/main/java/org/eclipse/lsp4mp/commons/runtime/ProjectClassLoader.java:113-136 | after the cache is cleared, a class once defined from a directory is defined again, which the JVM refuses as a duplicate definition (with lines 192-194) |
| ClassLoaders.ProjectClassLoader.ClearProjectClassCache | microprofile.ls/org.eclipse.lsp4mp.ls/src/main/java/org/eclipse/lsp4mp/commons/runtime/ProjectClassLoader.java:192-194 | empties only the cache; directories, jars and the classes already defined are unchanged |
| ClassLoaders.FirstHit | microprofile.ls/org.eclipse.lsp4mp.ls/src/main/java/org/eclipse/lsp4mp/commons/runtime/ProjectClassLoader.java:139-172 | findResource's directory answer is the first of findResources' directory hits, and exists exactly when there is a hit |
| ClassLoaders.ReloadScenario | microprofile.ls/org.eclipse.lsp4mp.ls/src/main/java/org/eclipse/lsp4mp/commons/runtime/ProjectClassLoader.java:77-136 | one directory holding a/B.class: the first load defines a.B, the second is a cache hit, and the load after clearing fails as a duplicate definition (with lines 192-194) |
| ProjectRuntimes.ForNameSmartTypeName | microprofile.jdt/org.eclipse.lsp4mp.jdt.core/src/main/java/org/eclipse/lsp4mp/commons/runtime/MicroProfileProjectRuntime.java:183-216 | forNameSmart reads back the type name of every findable class, primitive keywords and arrays of any depth included |
| ProjectRuntimes.ForNameSmartArray | microprofile.jdt/org.eclipse.lsp4mp.jdt.core/src/main/java/org/eclipse/lsp4mp/commons/runtime/MicroProfileProjectRuntime.java:207-210 | "X[]" resolves X and wraps it in an array class |
| ProjectRuntimes.BracketsNotPrimitive | microprofile.jdt/org.eclipse.lsp4mp.jdt.core/src/main/java/org/eclipse/lsp4mp/commons/runtime/MicroProfileProjectRuntime.java:186-207 | a name ending in "[]" is none of the nine primitive keywords, so the array branch is reached |
| ProjectRuntimes.PlainClassName | microprofile.jdt/org.eclipse.lsp4mp.jdt.core/src/main/java/org/eclipse/lsp4mp/commons/runtime/MicroProfileProjectRuntime.java:211-212 | a non-primitive name without "[]" or '<' goes to the loader, uninitialized: found exactly when the loader finds it |
| ProjectRuntimes.PrimitiveArrays | microprofile.jdt/org.eclipse.lsp4mp.jdt.core/src/main/java/org/eclipse/lsp4mp/commons/runtime/MicroProfileProjectRuntime.java:186-210 | "int[][]" needs no loader, and "void[]" fails since void has no array class |
| ProjectRuntimes.MicroProfileProjectRuntime.constructor | microprofile.jdt/org.eclipse.lsp4mp.jdt.core/src/main/java/org/eclipse/lsp4mp/commons/runtime/MicroProfileProjectRuntime.java:70-87 | builds the loader over the classpath, an empty type cache, and registers one fresh SAFE and one fresh FULL converter support under the converter API (the supports ServiceLoader would add are left out) |
| ProjectRuntimes.MicroProfileProjectRuntime.GetRuntimeSupport | microprofile.jdt/org.eclipse.lsp4mp.jdt.core/src/main/java/org/eclipse/lsp4mp/commons/runtime/MicroProfileProjectRuntime.java:121-126 | reads the FULL map for FULL and the SAFE map for any other mode; null when nothing is registered |
| ProjectRuntimes.MicroProfileProjectRuntime.RegisterRuntimeSupport | microprofile.jdt/org.eclipse.lsp4mp.jdt.core/src/main/java/org/eclipse/lsp4mp/commons/runtime/MicroProfileProjectRuntime.java:133-140 | stores into the FULL map iff the support's mode is FULL, else the SAFE map, replacing any earlier entry under the API; nothing else changes |
| ProjectRuntimes.MicroProfileProjectRuntime.ValidateValue | microprofile.jdt/org.eclipse.lsp4mp.jdt.core/src/main/java/org/eclipse/lsp4mp/commons/runtime/MicroProfileProjectRuntime.java:89-96 | the preferred mode's support loads its config once; when it has none the SAFE support validates instead; the diagnostics are that support's cached converter's; a type string resolving to an enum gets an enum validator for that enum, whose constants are the provider's; the used support's cache gains at most that type string's entry, and the other support's cache is kept |
| ProjectRuntimes.MicroProfileProjectRuntime.UpdateClassPath | microprofile.jdt/org.eclipse.lsp4mp.jdt.core/src/main/java/org/eclipse/lsp4mp/commons/runtime/MicroProfileProjectRuntime.java:154-160 | installs a fresh loader over the new classpath and resets every registered support of both modes; the type cache is kept |
| ProjectRuntimes.MicroProfileProjectRuntime.ResetSupports | microprofile.jdt/org.eclipse.lsp4mp.jdt.core/src/main/java/org/eclipse/lsp4mp/commons/runtime/MicroProfileProjectRuntime.java:158-159 | reset() on every registered support clears its config, flag and cache |
| ProjectRuntimes.MicroProfileProjectRuntime.FindClassType | microprofile.jdt/org.eclipse.lsp4mp.jdt.core/src/main/java/org/eclipse/lsp4mp/commons/runtime/MicroProfileProjectRuntime.java:169-181 | a cached type is returned as is; otherwise forNameSmart's answer, cached only on success; a failure gives null |
| ProjectRuntimes.MicroProfileProjectRuntime.ClearProjectClassCache | microprofile.jdt/org.eclipse.lsp4mp.jdt.core/src/main/java/org/eclipse/lsp4mp/commons/runtime/MicroProfileProjectRuntime.java:221-224 | empties the stored classpath and the loader's class cache; the type cache and the supports stay |
| ProjectRuntimes.FallbackScenario | microprofile.jdt/org.eclipse.lsp4mp.jdt.core/src/main/java/org/eclipse/lsp4mp/commons/runtime/MicroProfileProjectRuntime.java:89-96 | with no FULL config provider resolver, a FULL-mode validation of "1X" as int is done by the SAFE support and reports its message at 0 with length 2 |
| ProjectRuntimes.StaleTypeScenario | microprofile.jdt/org.eclipse.lsp4mp.jdt.core/src/main/java/org/eclipse/lsp4mp/commons/runtime/MicroProfileProjectRuntime.java:154-181 | a type found before a classpath change is still returned after the class is gone, while a new name stays missing (with lines 221-224) |
| ProjectRuntimes.StaleAfterUpdate | microprofile.jdt/org.eclipse.lsp4mp.jdt.core/src/main/java/org/eclipse/lsp4mp/commons/runtime/MicroProfileProjectRuntime.java:154-181 | the second half of that scenario: the cached a.B survives updateClassPath and clearProjectClassCache |
| ConverterSupport.TransparentWrappers | microprofile.ls/org.eclipse.lsp4mp.ls/src/main/java/org/eclipse/lsp4mp/commons/runtime/converter/AbstractConverterRuntimeSupport.java:205-226 | any stack of Optional, Supplier and jakarta.inject.Provider resolves exactly as its innermost type does |
| ConverterSupport.CollectionWrappers | microprofile.ls/org.eclipse.lsp4mp.ls/src/main/java/org/eclipse/lsp4mp/commons/runtime/converter/AbstractConverterRuntimeSupport.java:199-234 | each List or Set layer wraps the element's converter in one CollectionConverter |
| ConverterSupport.ArrayDimensions | microprofile.ls/org.eclipse.lsp4mp.ls/src/main/java/org/eclipse/lsp4mp/commons/runtime/converter/AbstractConverterRuntimeSupport.java:212-216 | each array dimension wraps the component's converter in one CollectionConverter |
| ConverterSupport.MapKeyConverter | microprofile.ls/org.eclipse.lsp4mp.ls/src/main/java/org/eclipse/lsp4mp/commons/runtime/converter/AbstractConverterRuntimeSupport.java:202-230 | Map<K, V> resolves to K's converter; V's is built and discarded, so only its failure shows |
| ConverterSupport.SilentOutcome | microprofile.ls/org.eclipse.lsp4mp.ls/src/main/java/org/eclipse/lsp4mp/commons/runtime/converter/AbstractConverterRuntimeSupport.java:68-78 | NULL_CONVERTER (and anything made only of it) cannot validate and reports nothing |
| ConverterSupport.SilentOuts | microprofile.ls/org.eclipse.lsp4mp.ls/src/main/java/org/eclipse/lsp4mp/commons/runtime/converter/AbstractConverterRuntimeSupport.java:279-295 | a collection over a silent converter reports nothing for any segments (with lines 68-78) |
| ConverterSupport.ConverterRuntimeSupport.constructor | microprofile.ls/org.eclipse.lsp4mp.ls/src/main/java/org/eclipse/lsp4mp/commons/runtime/converter/AbstractConverterRuntimeSupport.java:95-97 | a new support holds no config, has not loaded, and has an empty cache |
| ConverterSupport.ConverterRuntimeSupport.RealizedReady | microprofile.ls/org.eclipse.lsp4mp.ls/src/main/java/org/eclipse/lsp4mp/commons/runtime/converter/AbstractConverterRuntimeSupport.java:189-222 | a built converter can validate exactly when its resolution plan says so, and its enum validators have their tables built (with lines 273-276) |
| ConverterSupport.ConverterRuntimeSupport.ResolveLeafConverter | microprofile.ls/org.eclipse.lsp4mp.ls/src/main/java/org/eclipse/lsp4mp/commons/runtime/converter/AbstractConverterRuntimeSupport.java:189-222 | resolveConverter on a loaded class: enum, array or plain class, built as the resolution plan says |
| ConverterSupport.ConverterRuntimeSupport.ResolveConverter | microprofile.ls/org.eclipse.lsp4mp.ls/src/main/java/org/eclipse/lsp4mp/commons/runtime/converter/AbstractConverterRuntimeSupport.java:189-222 | resolveConverter builds the converter its resolution plan describes, or fails as the plan does |
| ConverterSupport.ConverterRuntimeSupport.GetConfig | microprofile.ls/org.eclipse.lsp4mp.ls/src/main/java/org/eclipse/lsp4mp/commons/runtime/converter/AbstractConverterRuntimeSupport.java:136-143 | loadConfig runs only when no config is held and it has not run yet; the answer is the held config |
| ConverterSupport.ConverterRuntimeSupport.HasConfigProviderResolver | microprofile.ls/org.eclipse.lsp4mp.ls/src/main/java/org/eclipse/lsp4mp/commons/runtime/converter/AbstractConverterRuntimeSupport.java:162-165 | loads the config if needed and is true iff it is non-null |
| ConverterSupport.ConverterRuntimeSupport.Reset | microprofile.ls/org.eclipse.lsp4mp.ls/src/main/java/org/eclipse/lsp4mp/commons/runtime/converter/AbstractConverterRuntimeSupport.java:171-175 | clears the config, the initialized flag and the converter cache |
| ConverterSupport.ConverterRuntimeSupport.Lookup | microprofile.ls/org.eclipse.lsp4mp.ls/src/main/java/org/eclipse/lsp4mp/commons/runtime/converter/AbstractConverterRuntimeSupport.java:118-119 | computeIfAbsent: a cached converter is returned as is; otherwise the resolved one is stored, and a failed resolution stores nothing |
| ConverterSupport.ConverterRuntimeSupport.Validate | microprofile.ls/org.eclipse.lsp4mp.ls/src/main/java/org/eclipse/lsp4mp/commons/runtime/converter/AbstractConverterRuntimeSupport.java:110-129 | nothing without config; one converter per type string until reset; a type string resolving to an enum is given an enum validator for that enum, and an enum converter is refreshed from the provider's constants first; a converter that cannot validate reports nothing; every exception is swallowed with nothing reported |
| ConverterSupport.ConfigScenario | microprofile.ls/org.eclipse.lsp4mp.ls/src/main/java/org/eclipse/lsp4mp/commons/runtime/converter/AbstractConverterRuntimeSupport.java:136-175 | loadConfig runs once between resets, even when it produces null, and runs again after reset |
| ConverterSupport.CacheScenario | microprofile.ls/org.eclipse.lsp4mp.ls/src/main/java/org/eclipse/lsp4mp/commons/runtime/converter/AbstractConverterRuntimeSupport.java:118-175 | the first converter resolved for a type string is reused until reset, even when resolution would now give nothing |
| ConverterRuntime.ScanStep | microprofile.ls/org.eclipse.lsp4mp.ls/src/main/java/org/eclipse/lsp4mp/commons/runtime/converter/AbstractConverterRuntimeSupport.java:282-290 | one more character read: a comma opens an empty segment just after it, any other character extends the current segment |
| ConverterRuntime.ScanJoin | microprofile.ls/org.eclipse.lsp4mp.ls/src/main/java/org/eclipse/lsp4mp/commons/runtime/converter/AbstractConverterRuntimeSupport.java:282-290 | the segment texts hold no comma and their comma-join is the value read so far (nothing is lost or trimmed) |
| ConverterRuntime.ScanSplits | microprofile.ls/org.eclipse.lsp4mp.ls/src/main/java/org/eclipse/lsp4mp/commons/runtime/converter/AbstractConverterRuntimeSupport.java:282-290 | the segment texts are exactly the pieces between commas, empty ones included |
| ConverterRuntime.ScanPositions | microprofile.ls/org.eclipse.lsp4mp.ls/src/main/java/org/eclipse/lsp4mp/commons/runtime/converter/AbstractConverterRuntimeSupport.java:280-290 | every segment's text sits at its offset in the value, and every segment but the first starts right after a comma |
| ConverterRuntime.SegmentsSpec | microprofile.ls/org.eclipse.lsp4mp.ls/src/main/java/org/eclipse/lsp4mp/commons/runtime/converter/AbstractConverterRuntimeSupport.java:279-295 | the forwarded segments: each text sits at offset - start in the value, each after the first right after a comma, and the texts are the comma-separated pieces with an empty last piece dropped |
| ConverterRuntime.AsWrittenOffsetExample | microprofile.ls/org.eclipse.lsp4mp.ls/src/main/java/org/eclipse/lsp4mp/commons/runtime/converter/AbstractConverterRuntimeSupport.java:287 | as written, "a,b" at offset 5 forwards "b" at 2, outside the value, where the corrected scan places it at 7 |
| ConverterRuntime.AsWrittenAgrees | microprofile.ls/org.eclipse.lsp4mp.ls/src/main/java/org/eclipse/lsp4mp/commons/runtime/converter/AbstractConverterRuntimeSupport.java:279-295 | the loop as written and the corrected one forward the same segments at offset 0 and, at any offset, for a value without a comma |
| ConverterRuntime.AsWrittenDiffers | microprofile.ls/org.eclipse.lsp4mp.ls/src/main/java/org/eclipse/lsp4mp/commons/runtime/converter/AbstractConverterRuntimeSupport.java:283-290 | as written, at any non-zero offset the text after the value's last comma is forwarded at a different offset than the corrected scan gives |
| ConverterRuntime.ScanPiece | microprofile.ls/org.eclipse.lsp4mp.ls/src/main/java/org/eclipse/lsp4mp/commons/runtime/converter/AbstractConverterRuntimeSupport.java:282-290 | a comma-free value is one segment, at the start |
| ConverterRuntime.ScanAppendPiece | microprofile.ls/org.eclipse.lsp4mp.ls/src/main/java/org/eclipse/lsp4mp/commons/runtime/converter/AbstractConverterRuntimeSupport.java:284-289 | a comma and a comma-free piece add one segment, placed right after the comma |
| ConverterRuntime.IntArraySegments | microprofile.ls/org.eclipse.lsp4mp.ls/src/main/java/org/eclipse/lsp4mp/commons/runtime/converter/AbstractConverterRuntimeSupport.java:279-295 | "1,2X,3x,4" from offset 0 is cut into "1", "2X", "3x", "4" at 0, 2, 5 and 8 |
| ConverterRuntime.SegmentsFinish | microprofile.ls/org.eclipse.lsp4mp.ls/src/main/java/org/eclipse/lsp4mp/commons/runtime/converter/AbstractConverterRuntimeSupport.java:292-294 | after the loop the finished segments are forwarded, and the current one too unless it is empty |
| ConverterRuntime.Validate | microprofile.ls/org.eclipse.lsp4mp.ls/src/main/java/org/eclipse/lsp4mp/commons/runtime/converter/AbstractConverterRuntimeSupport.java:68-78 | dispatching over NULL_CONVERTER, a converter or a CollectionConverter reports exactly Outcome's diagnostics |
| ConverterRuntime.ValidateCollection | microprofile.ls/org.eclipse.lsp4mp.ls/src/main/java/org/eclipse/lsp4mp/commons/runtime/converter/AbstractConverterRuntimeSupport.java:279-295 | CollectionConverter.validate reports what the element validator reports for each segment of the value, in order, each at its own offset counted from start (the corrected offset of the Findings row; AsWrittenAgrees shows the two agree wherever the runtime calls it) |
| ConverterRuntime.CollectionStep | microprofile.ls/org.eclipse.lsp4mp.ls/src/main/java/org/eclipse/lsp4mp/commons/runtime/converter/AbstractConverterRuntimeSupport.java:283-290 | one loop turn advances the segments exactly as the corrected scan does (start + i + 1 after a comma), and the diagnostics so far are those of the finished segments |
| ConverterRuntime.OutsLast | microprofile.ls/org.eclipse.lsp4mp.ls/src/main/java/org/eclipse/lsp4mp/commons/runtime/converter/AbstractConverterRuntimeSupport.java:285-293 | the diagnostics for all segments are those for every segment but the last, then the last's |
| ConverterRuntime.IntArrayExample | microprofile.ls/org.eclipse.lsp4mp.ls/src/main/java/org/eclipse/lsp4mp/commons/runtime/converter/AbstractConverterRuntimeSupport.java:279-295 | "1,2X,3x,4" as int[] yields exactly two diagnostics, "2X" at 2 and "3x" at 5, each spanning its own text |
| ConverterRuntime.BaseAccepts | microprofile.ls/org.eclipse.lsp4mp.ls/src/main/java/org/eclipse/lsp4mp/commons/runtime/converter/AbstractConverterValidator.java:96-98 | a converter that converts the value reports nothing |
| ConverterRuntime.BaseRejects | microprofile.ls/org.eclipse.lsp4mp.ls/src/main/java/org/eclipse/lsp4mp/commons/runtime/converter/AbstractConverterValidator.java:96-103 | a converter that throws with a message reports that message over the whole value |
| JavaDiagnostics.EnumConstNames | microprofile.jdt/org.eclipse.lsp4mp.jdt.core/src/main/java/org/eclipse/lsp4mp/jdt/core/java/diagnostics/JavaDiagnosticsContext.java:188-193 | the names collected are exactly those of the declared fields that are enum constants, never more names than fields |
| JavaDiagnostics.RegisteredNames | microprofile.jdt/org.eclipse.lsp4mp.jdt.core/src/main/java/org/eclipse/lsp4mp/jdt/core/java/diagnostics/JavaDiagnosticsContext.java:170-210 | rendering a binding registers a constant list under every enum name it meets, at any depth of type arguments, and leaves every other name as it was |
| JavaDiagnostics.ArgsRegisteredNames | microprofile.jdt/org.eclipse.lsp4mp.jdt.core/src/main/java/org/eclipse/lsp4mp/jdt/core/java/diagnostics/JavaDiagnosticsContext.java:200-208 | the same for the type arguments rendered in turn, and a name that already had a list keeps one |
| JavaDiagnostics.RegisteredKeeps | microprofile.jdt/org.eclipse.lsp4mp.jdt.core/src/main/java/org/eclipse/lsp4mp/jdt/core/java/diagnostics/JavaDiagnosticsContext.java:187-195 | a name that has a constant list keeps having one after rendering |
| JavaDiagnostics.PlainEnumRegistered | microprofile.jdt/org.eclipse.lsp4mp.jdt.core/src/main/java/org/eclipse/lsp4mp/jdt/core/java/diagnostics/JavaDiagnosticsContext.java:186-195 | a plain enum type has its constants, in declaration order, registered under its binary name |
| JavaDiagnostics.QualifiedSignature | microprofile.jdt/org.eclipse.lsp4mp.jdt.core/src/main/java/org/eclipse/lsp4mp/jdt/core/java/diagnostics/JavaDiagnosticsContext.java:170-211 | the rendering of a binding is the signature of the type tree it describes: primitive name, binary name, and "<", ", "-separated arguments, ">" |
| JavaDiagnostics.ArgsQualifiedSignature | microprofile.jdt/org.eclipse.lsp4mp.jdt.core/src/main/java/org/eclipse/lsp4mp/jdt/core/java/diagnostics/JavaDiagnosticsContext.java:200-209 | the rendered type arguments are the tree's argument signatures joined with ", " |
| JavaDiagnostics.QualifiedReparses | microprofile.jdt/org.eclipse.lsp4mp.jdt.core/src/main/java/org/eclipse/lsp4mp/jdt/core/java/diagnostics/JavaDiagnosticsContext.java:170-211 | what the context renders, TypeSignatureParser reads back as the same type tree, whenever every name in it loads |
| JavaDiagnostics.QualifiedArgsSnoc | microprofile.jdt/org.eclipse.lsp4mp.jdt.core/src/main/java/org/eclipse/lsp4mp/jdt/core/java/diagnostics/JavaDiagnosticsContext.java:203-206 | one more argument adds ", " (unless it is the first) and its rendering |
| JavaDiagnostics.ArgsRegisteredSnoc | microprofile.jdt/org.eclipse.lsp4mp.jdt.core/src/main/java/org/eclipse/lsp4mp/jdt/core/java/diagnostics/JavaDiagnosticsContext.java:206 | one more argument registers that argument's enums after the earlier ones' |
| JavaDiagnostics.CollectEnumConstants | microprofile.jdt/org.eclipse.lsp4mp.jdt.core/src/main/java/org/eclipse/lsp4mp/jdt/core/java/diagnostics/JavaDiagnosticsContext.java:188-193 | the loop over the declared fields returns exactly the enum constant names, in order |
| JavaDiagnostics.Render | microprofile.jdt/org.eclipse.lsp4mp.jdt.core/src/main/java/org/eclipse/lsp4mp/jdt/core/java/diagnostics/JavaDiagnosticsContext.java:170-211 | toQualifiedTypeString on a binding returns its rendering and leaves the provider holding exactly the registrations of the enums it met |
| JavaDiagnostics.RenderArgument | microprofile.jdt/org.eclipse.lsp4mp.jdt.core/src/main/java/org/eclipse/lsp4mp/jdt/core/java/diagnostics/JavaDiagnosticsContext.java:203-207 | one turn of the argument loop appends the i-th argument's rendering (after ", " unless first) and registers its enums |
| JavaDiagnostics.ToQualifiedTypeString | microprofile.jdt/org.eclipse.lsp4mp.jdt.core/src/main/java/org/eclipse/lsp4mp/jdt/core/java/diagnostics/JavaDiagnosticsContext.java:170-211 | a null binding renders as "" and registers nothing; otherwise as Render |
| JavaDiagnostics.Placed | microprofile.jdt/org.eclipse.lsp4mp.jdt.core/src/main/java/org/eclipse/lsp4mp/jdt/core/java/diagnostics/JavaDiagnosticsContext.java:162-166 | a converter diagnostic starting at start within the value lands one character further in the compilation unit (past the opening quote), keeping its message, source and length |
| JavaDiagnostics.AllPlacedAt | microprofile.jdt/org.eclipse.lsp4mp.jdt.core/src/main/java/org/eclipse/lsp4mp/jdt/core/java/diagnostics/JavaDiagnosticsContext.java:162-166 | each reported diagnostic, in order, lands at the expression's start plus its own start plus one |
| JavaDiagnostics.JavaDiagnosticsContext.constructor | microprofile.jdt/org.eclipse.lsp4mp.jdt.core/src/main/java/org/eclipse/lsp4mp/jdt/core/java/diagnostics/JavaDiagnosticsContext.java:61-72 | null settings fall back to no patterns, Error severity and SAFE mode; the list of diagnostics starts empty |
| JavaDiagnostics.JavaDiagnosticsContext.AddDiagnostic | microprofile.jdt/org.eclipse.lsp4mp.jdt.core/src/main/java/org/eclipse/lsp4mp/jdt/core/java/diagnostics/JavaDiagnosticsContext.java:148-151 | a diagnostic relative to a node is appended at the node's start plus start, with length end, and nothing else changes |
| JavaDiagnostics.JavaDiagnosticsContext.ValidateWithConverter | microprofile.jdt/org.eclipse.lsp4mp.jdt.core/src/main/java/org/eclipse/lsp4mp/jdt/core/java/diagnostics/JavaDiagnosticsContext.java:153-168 | nothing is added without a runtime or a value severity; otherwise the support picked by the settings' mode (SAFE when it has no config) validates the default value against the rendered field type, and exactly the diagnostics it reports (its cached validator's outcome, or nothing) are appended, in order, past the opening quote with the value severity; a field type that resolves to an enum is checked by an enum validator for it whose constants are the ones its rendering registered (a plain enum field: its own constants); the used support's cache gains at most the signature's entry and the other support's cache is kept |
| JavaDiagnostics.JavaDiagnosticsContext.AddAllPlaced | microprofile.jdt/org.eclipse.lsp4mp.jdt.core/src/main/java/org/eclipse/lsp4mp/jdt/core/java/diagnostics/JavaDiagnosticsContext.java:162-166 | the collector appends every reported diagnostic, in order, placed |
| JavaDiagnostics.RunConverter | microprofile.jdt/org.eclipse.lsp4mp.jdt.core/src/main/java/org/eclipse/lsp4mp/jdt/core/java/diagnostics/JavaDiagnosticsContext.java:158-167 | the runtime half: the binding's rendering ("" for null) is validated by the preferred support when it has a config and by the SAFE one otherwise; what is reported is nothing without a config or after a logged exception, and otherwise the outcome of the validator cached for that signature on the default value at offset 0; an enum-typed signature gets an enum validator for that enum whose constants are the ones the rendering registered in the fresh provider (for a plain enum field, the field type's own constants); the used support's cache gains at most the signature's entry and the other support's cache is kept |
| ItemMetadatas.RawEnd | microprofile.jdt/org.eclipse.lsp4mp.jdt.core/src/main/java/org/eclipse/lsp4mp/commons/metadata/ItemMetadata.java:271-277 | the raw-name loop never moves backwards and stops within the input |
| ItemMetadatas.RawEndAt | microprofile.jdt/org.eclipse.lsp4mp.jdt.core/src/main/java/org/eclipse/lsp4mp/commons/metadata/ItemMetadata.java:271-277 | the raw-name loop stops exactly at the first '<', ',' or '>' (or the end) |
| ItemMetadatas.SimpleName | microprofile.jdt/org.eclipse.lsp4mp.jdt.core/src/main/java/org/eclipse/lsp4mp/commons/metadata/ItemMetadata.java:311-314 | simpleName keeps no '.', and a name without '.' is returned unchanged |
| ItemMetadatas.SimpleAfterDot | microprofile.jdt/org.eclipse.lsp4mp.jdt.core/src/main/java/org/eclipse/lsp4mp/commons/metadata/ItemMetadata.java:311-314 | a trimmed name with its last '.' at i renders as exactly what follows that '.' |
| ItemMetadatas.TreeAt | microprofile.jdt/org.eclipse.lsp4mp.jdt.core/src/main/java/org/eclipse/lsp4mp/commons/metadata/ItemMetadata.java:269-308 | parseSimpleType from a position reads a type and never moves the shared index backwards or past the end |
| ItemMetadatas.ArgsAt | microprofile.jdt/org.eclipse.lsp4mp.jdt.core/src/main/java/org/eclipse/lsp4mp/commons/metadata/ItemMetadata.java:286-295 | the argument loop reads at least one argument more than it started with, under the raw name it was given |
| ItemMetadatas.TreeAtHead | microprofile.jdt/org.eclipse.lsp4mp.jdt.core/src/main/java/org/eclipse/lsp4mp/commons/metadata/ItemMetadata.java:280-284 | after the raw-name loop, a '<' starts the argument loop after it; anything else ends a type without arguments |
| ItemMetadatas.ArgsAtStep | microprofile.jdt/org.eclipse.lsp4mp.jdt.core/src/main/java/org/eclipse/lsp4mp/commons/metadata/ItemMetadata.java:286-295 | one turn of the argument loop: an argument, then stop at the end, stop after '>', or skip the separator and read another |
| ItemMetadatas.SimpleArgs | microprofile.jdt/org.eclipse.lsp4mp.jdt.core/src/main/java/org/eclipse/lsp4mp/commons/metadata/ItemMetadata.java:298-303 | each argument is rendered on its own, in order |
| ItemMetadatas.WrittenAt | microprofile.jdt/org.eclipse.lsp4mp.jdt.core/src/main/java/org/eclipse/lsp4mp/commons/metadata/ItemMetadata.java:269-308 | a well-formed type text followed by the end, ',' or '>' is read back as that very type, stopping right after its text |
| ItemMetadatas.SimpleTypeOfWritten | microprofile.jdt/org.eclipse.lsp4mp.jdt.core/src/main/java/org/eclipse/lsp4mp/commons/metadata/ItemMetadata.java:252-308 | reading a well-formed type text gives the type back, so getSimpleType renders it with packages dropped from every name and ", " between arguments, at any depth |
| ItemMetadatas.SimpleHasNoDot | microprofile.jdt/org.eclipse.lsp4mp.jdt.core/src/main/java/org/eclipse/lsp4mp/commons/metadata/ItemMetadata.java:280-314 | no '.' is left anywhere in the rendering |
| ItemMetadatas.UnterminatedExample | microprofile.jdt/org.eclipse.lsp4mp.jdt.core/src/main/java/org/eclipse/lsp4mp/commons/metadata/ItemMetadata.java:286-295 | an argument list that runs off the end is still closed: "a.List<b.C" renders as "List<C>" |
| ItemMetadatas.UnterminatedRead | microprofile.jdt/org.eclipse.lsp4mp.jdt.core/src/main/java/org/eclipse/lsp4mp/commons/metadata/ItemMetadata.java:286-292 | "a.List<b.C" is read as a.List with the one argument b.C, ending at the end of the input |
| ItemMetadatas.UnterminatedRender | microprofile.jdt/org.eclipse.lsp4mp.jdt.core/src/main/java/org/eclipse/lsp4mp/commons/metadata/ItemMetadata.java:280-304 | a one-letter package before each of two names, the second the argument of the first, renders as "Outer<Inner>" |
| ItemMetadatas.SimpleDotted | microprofile.jdt/org.eclipse.lsp4mp.jdt.core/src/main/java/org/eclipse/lsp4mp/commons/metadata/ItemMetadata.java:311-314 | only the part after the package's '.' is rendered |
| ItemMetadatas.SimpleOneArg | microprofile.jdt/org.eclipse.lsp4mp.jdt.core/src/main/java/org/eclipse/lsp4mp/commons/metadata/ItemMetadata.java:298-304 | a type with one argument renders as its simple name, then the argument's rendering in angle brackets |
| ItemMetadatas.HintType | microprofile.jdt/org.eclipse.lsp4mp.jdt.core/src/main/java/org/eclipse/lsp4mp/commons/metadata/ItemMetadata.java:377-385 | getHintType: null for null, the text between "java.util.Optional<" and the last character when the type starts with that prefix, the type unchanged otherwise; the bare prefix makes substring throw |
| ItemMetadatas.HintTypeOfOptional | microprofile.jdt/org.eclipse.lsp4mp.jdt.core/src/main/java/org/eclipse/lsp4mp/commons/metadata/ItemMetadata.java:381-382 | getHintType undoes the Optional wrapping of any type text |
| ItemMetadatas.NotOptional | microprofile.jdt/org.eclipse.lsp4mp.jdt.core/src/main/java/org/eclipse/lsp4mp/commons/metadata/ItemMetadata.java:381-384 | a type text without '<' where the prefix would end is returned as it is |
| ItemMetadatas.HintTypeKeepsKind | microprofile.jdt/org.eclipse.lsp4mp.jdt.core/src/main/java/org/eclipse/lsp4mp/commons/metadata/ItemMetadata.java:377-385 | every type of one of the ten kinds keeps its kind through getHintType: the Optional form turns into the boxed form, the others stay (with lines 172-230) |
| ItemMetadatas.Paths | microprofile.jdt/org.eclipse.lsp4mp.jdt.core/src/main/java/org/eclipse/lsp4mp/commons/metadata/ItemMetadata.java:236-242 | getPaths is null exactly when the name is null |
| ItemMetadatas.PathsOfDotted | microprofile.jdt/org.eclipse.lsp4mp.jdt.core/src/main/java/org/eclipse/lsp4mp/commons/metadata/ItemMetadata.java:236-242 | a dotted name of non-empty segments splits back into those segments |
| ItemMetadatas.ItemMetadata.constructor | microprofile.jdt/org.eclipse.lsp4mp.jdt.core/src/main/java/org/eclipse/lsp4mp/commons/metadata/ItemMetadata.java:51-54 | the metadata starts with its name and type and no memoised simple type |
| ItemMetadatas.ItemMetadata.SetType | microprofile.jdt/org.eclipse.lsp4mp.jdt.core/src/main/java/org/eclipse/lsp4mp/commons/metadata/ItemMetadata.java:74-78 | setType stores the type and drops the memo, leaving the name alone |
| ItemMetadatas.ItemMetadata.GetSimpleType | microprofile.jdt/org.eclipse.lsp4mp.jdt.core/src/main/java/org/eclipse/lsp4mp/commons/metadata/ItemMetadata.java:252-261 | getSimpleType returns null for a null type and the rendering otherwise, memoising it; a second call returns the same |
| ItemMetadatas.ParseSimpleType | microprofile.jdt/org.eclipse.lsp4mp.jdt.core/src/main/java/org/eclipse/lsp4mp/commons/metadata/ItemMetadata.java:269-308 | the loop-and-index parser returns exactly the rendering of the type read from index and leaves the index where the reading stops |
| ItemMetadatas.JoinLoop | microprofile.jdt/org.eclipse.lsp4mp.jdt.core/src/main/java/org/eclipse/lsp4mp/commons/metadata/ItemMetadata.java:298-303 | the StringBuilder loop puts ", " between the arguments and nothing else |
| ItemMetadatas.ParseParams | microprofile.jdt/org.eclipse.lsp4mp.jdt.core/src/main/java/org/eclipse/lsp4mp/commons/metadata/ItemMetadata.java:286-295 | the while(true) loop collects the rendering of each argument the argument loop reads, in order, and stops where it stops |
| TypeSignatures.IdentEnd | microprofile.ls/org.eclipse.lsp4mp.ls/src/main/java/org/eclipse/lsp4mp/commons/runtime/TypeSignatureParser.java:171-176 | readIdentifier never moves the cursor backwards or past the end |
| TypeSignatures.IdentEndAt | microprofile.ls/org.eclipse.lsp4mp.ls/src/main/java/org/eclipse/lsp4mp/commons/runtime/TypeSignatureParser.java:171-183 | readIdentifier stops exactly at the first '<', '>', ',' or whitespace (or the end) |
| TypeSignatures.SkipSpaces | microprofile.ls/org.eclipse.lsp4mp.ls/src/main/java/org/eclipse/lsp4mp/commons/runtime/TypeSignatureParser.java:202-205 | skipSpaces never moves the cursor backwards or past the end |
| TypeSignatures.SkipSpacesAt | microprofile.ls/org.eclipse.lsp4mp.ls/src/main/java/org/eclipse/lsp4mp/commons/runtime/TypeSignatureParser.java:202-205 | skipSpaces stops exactly at the first non-whitespace character (or the end) |
| TypeSignatures.ParseTypeAt | microprofile.ls/org.eclipse.lsp4mp.ls/src/main/java/org/eclipse/lsp4mp/commons/runtime/TypeSignatureParser.java:139-165 | parseType from a position, when it succeeds, leaves the cursor within the input and not before where it started |
| TypeSignatures.ParseArgsAt | microprofile.ls/org.eclipse.lsp4mp.ls/src/main/java/org/eclipse/lsp4mp/commons/runtime/TypeSignatureParser.java:151-161 | a turn of the argument loop, when the type succeeds, leaves the cursor within the input and not before where it started |
| TypeSignatures.AfterArgAt | microprofile.ls/org.eclipse.lsp4mp.ls/src/main/java/org/eclipse/lsp4mp/commons/runtime/TypeSignatureParser.java:156-163 | after an argument, ',' continues and anything else must be '>'; on success the cursor stays within the input |
| TypeSignatures.Parser.constructor | microprofile.ls/org.eclipse.lsp4mp.ls/src/main/java/org/eclipse/lsp4mp/commons/runtime/TypeSignatureParser.java:128-132 | a new parser holds the signature and the class lookup, with the cursor at 0 |
| TypeSignatures.Parser.Peek | microprofile.ls/org.eclipse.lsp4mp.ls/src/main/java/org/eclipse/lsp4mp/commons/runtime/TypeSignatureParser.java:188-190 | peek is the character under the cursor, '\0' past the end |
| TypeSignatures.Parser.Next | microprofile.ls/org.eclipse.lsp4mp.ls/src/main/java/org/eclipse/lsp4mp/commons/runtime/TypeSignatureParser.java:195-197 | next advances the cursor by one unless it is at the end |
| TypeSignatures.Parser.ReadIdentifier | microprofile.ls/org.eclipse.lsp4mp.ls/src/main/java/org/eclipse/lsp4mp/commons/runtime/TypeSignatureParser.java:171-176 | readIdentifier moves the cursor to the first boundary and returns the trimmed text it passed over |
| TypeSignatures.Parser.SkipSpacesHere | microprofile.ls/org.eclipse.lsp4mp.ls/src/main/java/org/eclipse/lsp4mp/commons/runtime/TypeSignatureParser.java:202-205 | skipSpaces moves the cursor past the whitespace under it |
| TypeSignatures.Parser.Expect | microprofile.ls/org.eclipse.lsp4mp.ls/src/main/java/org/eclipse/lsp4mp/commons/runtime/TypeSignatureParser.java:210-215 | expect consumes c when it is under the cursor, and otherwise fails naming c and the cursor position, which it leaves unmoved |
| TypeSignatures.Parser.ParseType | microprofile.ls/org.eclipse.lsp4mp.ls/src/main/java/org/eclipse/lsp4mp/commons/runtime/TypeSignatureParser.java:139-165 | the recursive method yields the type, or the failure, that the parse of the signature from the cursor specifies, and leaves the cursor just after the type |
| TypeSignatures.Parser.ParseArgs | microprofile.ls/org.eclipse.lsp4mp.ls/src/main/java/org/eclipse/lsp4mp/commons/runtime/TypeSignatureParser.java:148-164 | the argument loop after '<' and the expect('>') yield the specified parameterized type or failure |
| TypeSignatures.Parser.ArgTurn | microprofile.ls/org.eclipse.lsp4mp.ls/src/main/java/org/eclipse/lsp4mp/commons/runtime/TypeSignatureParser.java:152-160 | one turn of the argument loop either ends the loop with the specified outcome or moves forward to a turn with the same specified outcome |
| TypeSignatures.Parser.AfterArg | microprofile.ls/org.eclipse.lsp4mp.ls/src/main/java/org/eclipse/lsp4mp/commons/runtime/TypeSignatureParser.java:154-163 | after an argument: ',' moves on to another turn with the same specified outcome, anything else ends in expect('>') |
| TypeSignatures.Parse | microprofile.ls/org.eclipse.lsp4mp.ls/src/main/java/org/eclipse/lsp4mp/commons/runtime/TypeSignatureParser.java:82-84 | parse on a fresh parser returns exactly the specified parse of the signature |
| TypeSignatures.LeafAt | microprofile.ls/org.eclipse.lsp4mp.ls/src/main/java/org/eclipse/lsp4mp/commons/runtime/TypeSignatureParser.java:140-146 | a clean name followed by the end, ',' or '>' parses as the type the lookup gives for it, or fails naming it when the lookup finds nothing (with lines 231-233) |
| TypeSignatures.ParseLeaf | microprofile.ls/org.eclipse.lsp4mp.ls/src/main/java/org/eclipse/lsp4mp/commons/runtime/TypeSignatureParser.java:139-146 | a lone class name, e.g. "java.math.BigDecimal", parses to the class the lookup gives, and an unknown name is an IllegalArgumentException |
| TypeSignatures.UnclosedFails | microprofile.ls/org.eclipse.lsp4mp.ls/src/main/java/org/eclipse/lsp4mp/commons/runtime/TypeSignatureParser.java:151-163 | "raw<arg" without the closing '>' fails expect('>') at the end of the input instead of producing a type (with lines 210-213) |
| TypeSignatures.SignatureStart | microprofile.ls/org.eclipse.lsp4mp.ls/src/main/java/org/eclipse/lsp4mp/commons/runtime/TypeSignatureParser.java:171-183 | the text of a readable type starts with a character readIdentifier does not stop at |
| TypeSignatures.ParseAt | microprofile.ls/org.eclipse.lsp4mp.ls/src/main/java/org/eclipse/lsp4mp/commons/runtime/TypeSignatureParser.java:139-165 | the signature of a readable type tree, followed by the end, ',' or '>', parses back to that tree and stops right after it |
| TypeSignatures.ParameterizedAt | microprofile.ls/org.eclipse.lsp4mp.ls/src/main/java/org/eclipse/lsp4mp/commons/runtime/TypeSignatureParser.java:139-165 | raw<args> parses to the parameterized type of raw over args and stops right after the '>' |
| TypeSignatures.FirstArgs | microprofile.ls/org.eclipse.lsp4mp.ls/src/main/java/org/eclipse/lsp4mp/commons/runtime/TypeSignatureParser.java:148-164 | the argument loop entered after '<' collects every argument and stops after the '>' |
| TypeSignatures.ArgThenComma | microprofile.ls/org.eclipse.lsp4mp.ls/src/main/java/org/eclipse/lsp4mp/commons/runtime/TypeSignatureParser.java:152-158 | an argument followed by ',' leads to another turn right after the ',' |
| TypeSignatures.ArgThenClose | microprofile.ls/org.eclipse.lsp4mp.ls/src/main/java/org/eclipse/lsp4mp/commons/runtime/TypeSignatureParser.java:152-164 | an argument followed by '>' closes the parameterized type with all the arguments collected |
| TypeSignatures.ArgThenEnd | microprofile.ls/org.eclipse.lsp4mp.ls/src/main/java/org/eclipse/lsp4mp/commons/runtime/TypeSignatureParser.java:152-163 | an argument running to the end of the input fails expect('>') at the end (with lines 210-213) |
| TypeSignatures.ParseSignatureRoundTrip | microprofile.ls/org.eclipse.lsp4mp.ls/src/main/java/org/eclipse/lsp4mp/commons/runtime/TypeSignatureParser.java:139-165 | parsing the signature a type tree prints as (raw, "<", arguments joined with ", ", ">") gives the tree back (with lines 82-84 and 239-262) |
| PropertiesValidation.BooleanStringIff | microprofile.ls/org.eclipse.lsp4mp.ls/src/main/java/org/eclipse/lsp4mp/services/properties/PropertiesFileValidator.java:352-359 | isBooleanString accepts exactly TRUE, FALSE, Y, YES, 1 and ON, ignoring case |
| PropertiesValidation.IntegralStringOf | microprofile.ls/org.eclipse.lsp4mp.ls/src/main/java/org/eclipse/lsp4mp/services/properties/PropertiesFileValidator.java:361-419 | the decimal text of a number passes isIntegerString, isLongString or isShortString exactly when the number lies in that type's range |
| PropertiesValidation.TypeMismatch | microprofile.ls/org.eclipse.lsp4mp.ls/src/main/java/org/eclipse/lsp4mp/services/properties/PropertiesFileValidator.java:322-350 | getErrorIfValueTypeMismatch never reports a build-time placeholder "${...}" (with lines 445-447) |
| PropertiesValidation.BooleanValueCheck | microprofile.ls/org.eclipse.lsp4mp.ls/src/main/java/org/eclipse/lsp4mp/services/properties/PropertiesFileValidator.java:336-339 | a boolean-typed value is reported exactly when it is not one of the boolean words |
| PropertiesValidation.IntegralValueCheck | microprofile.ls/org.eclipse.lsp4mp.ls/src/main/java/org/eclipse/lsp4mp/services/properties/PropertiesFileValidator.java:341-347 | an int-, long- or short-typed value is reported exactly when it is not a decimal within that type's range |
| PropertiesValidation.UnknownKindAccepted | microprofile.ls/org.eclipse.lsp4mp.ls/src/main/java/org/eclipse/lsp4mp/services/properties/PropertiesFileValidator.java:322-350 | a type of none of the checked kinds is never reported |
| PropertiesValidation.ValueDiagnostic | microprofile.ls/org.eclipse.lsp4mp.ls/src/main/java/org/eclipse/lsp4mp/services/properties/PropertiesFileValidator.java:148-169 | validatePropertyValue: nothing for missing metadata, an empty value or a switched-off severity; otherwise the enum message when the enum check fails, and failing that exactly the type-mismatch message, at the value's range with the value code (with lines 305-311) |
| PropertiesValidation.PlaceholderOnlyEnum | microprofile.ls/org.eclipse.lsp4mp.ls/src/main/java/org/eclipse/lsp4mp/services/properties/PropertiesFileValidator.java:159-162 | a build-time placeholder that passes the enum check gets no value diagnostic (with lines 324-326) |
| PropertiesValidation.FillLookup | microprofile.ls/org.eclipse.lsp4mp.ls/src/main/java/org/eclipse/lsp4mp/services/properties/PropertiesFileValidator.java:278-294 | fill appends to each name's list exactly that document's properties of the name, in document order; unnamed properties are skipped and a name gets a list exactly when it occurs |
| PropertiesValidation.CurrentOnlyGroups | microprofile.ls/org.eclipse.lsp4mp.ls/src/main/java/org/eclipse/lsp4mp/services/properties/PropertiesFileValidator.java:251-276 | without config sources, the lists are those of the current document |
| PropertiesValidation.MessageInjective | microprofile.ls/org.eclipse.lsp4mp.ls/src/main/java/org/eclipse/lsp4mp/services/properties/PropertiesFileValidator.java:458-474 | two duplicate or missing-property messages are equal only for equal names |
| PropertiesValidation.CountDuplicatesOf | microprofile.ls/org.eclipse.lsp4mp.ls/src/main/java/org/eclipse/lsp4mp/services/properties/PropertiesFileValidator.java:450-461 | the diagnostics for one name carry that name's duplicate message, once per occurrence, only when it occurs twice or more |
| PropertiesValidation.DuplicateCount | microprofile.ls/org.eclipse.lsp4mp.ls/src/main/java/org/eclipse/lsp4mp/services/properties/PropertiesFileValidator.java:449-462 | over the whole map, a name occurring two or more times gets one duplicate diagnostic per occurrence, and a name occurring once or not at all gets none |
| PropertiesValidation.RequiredIfNoValue | microprofile.ls/org.eclipse.lsp4mp.ls/src/main/java/org/eclipse/lsp4mp/services/properties/PropertiesFileValidator.java:482-496 | nothing when some occurrence has a non-empty value; otherwise one "Missing required property value" diagnostic at each occurrence |
| PropertiesValidation.CountRequiredOf | microprofile.ls/org.eclipse.lsp4mp.ls/src/main/java/org/eclipse/lsp4mp/services/properties/PropertiesFileValidator.java:466-478 | one metadata entry yields the missing-property message for its name exactly when it is required, has a severity and no file sets it |
| PropertiesValidation.MissingRequiredCount | microprofile.ls/org.eclipse.lsp4mp.ls/src/main/java/org/eclipse/lsp4mp/services/properties/PropertiesFileValidator.java:464-480 | a required property no file sets gets one "Missing required property" diagnostic per required entry of that name; one that some file sets gets none |
| PropertiesValidation.PropertiesFileValidator.constructor | microprofile.ls/org.eclipse.lsp4mp.ls/src/main/java/org/eclipse/lsp4mp/services/properties/PropertiesFileValidator.java:66-76 | the validator starts with its settings, project and diagnostics list, and no memoised property map |
| PropertiesValidation.PropertiesFileValidator.ValidatePropertyValue | microprofile.ls/org.eclipse.lsp4mp.ls/src/main/java/org/eclipse/lsp4mp/services/properties/PropertiesFileValidator.java:148-169 | appends the value diagnostic when there is one and nothing else |
| PropertiesValidation.PropertiesFileValidator.Fill | microprofile.ls/org.eclipse.lsp4mp.ls/src/main/java/org/eclipse/lsp4mp/services/properties/PropertiesFileValidator.java:278-294 | the loop over the document's nodes computes exactly the specified grouping |
| PropertiesValidation.PropertiesFileValidator.GetAllPropertiesFromFiles | microprofile.ls/org.eclipse.lsp4mp.ls/src/main/java/org/eclipse/lsp4mp/services/properties/PropertiesFileValidator.java:251-276 | the map is built from the config sources' documents in order, then from the current document unless it was one of them, memoised, and served from the memo afterwards |
| PropertiesValidation.PropertiesFileValidator.AddDiagnosticsForDuplicates | microprofile.ls/org.eclipse.lsp4mp.ls/src/main/java/org/eclipse/lsp4mp/services/properties/PropertiesFileValidator.java:449-462 | appends the duplicate diagnostics of every name, in the map's iteration order |
| PropertiesValidation.PropertiesFileValidator.AddDuplicatesOf | microprofile.ls/org.eclipse.lsp4mp.ls/src/main/java/org/eclipse/lsp4mp/services/properties/PropertiesFileValidator.java:450-461 | the action for one name appends one duplicate diagnostic per occurrence when there are two or more |
| PropertiesValidation.PropertiesFileValidator.AddDiagnosticsForMissingRequired | microprofile.ls/org.eclipse.lsp4mp.ls/src/main/java/org/eclipse/lsp4mp/services/properties/PropertiesFileValidator.java:464-480 | appends, for each metadata entry in order, exactly what RequiredOf specifies |
| PropertiesValidation.PropertiesFileValidator.AddDiagnosticsForRequired | microprofile.ls/org.eclipse.lsp4mp.ls/src/main/java/org/eclipse/lsp4mp/services/properties/PropertiesFileValidator.java:466-478 | one loop turn: a missing required property is reported on the document, a present one is checked for a value |
| PropertiesValidation.PropertiesFileValidator.AddDiagnosticsForRequiredIfNoValue | microprofile.ls/org.eclipse.lsp4mp.ls/src/main/java/org/eclipse/lsp4mp/services/properties/PropertiesFileValidator.java:482-496 | appends exactly RequiredIfNoValue's diagnostics for the name's occurrences |
| PropertiesListeners.MergeScope | microprofile.jdt/org.eclipse.lsp4mp.jdt.core/src/main/java/org/eclipse/lsp4mp/jdt/internal/core/MicroProfilePropertiesListenerManager.java:245-253 | the merged scope is the wider of the two, SOURCES_AND_DEPENDENCIES > ONLY_SOURCES > ONLY_CONFIG_FILES, and is one of them |
| PropertiesListeners.MergeScopeCases | microprofile.jdt/org.eclipse.lsp4mp.jdt.core/src/main/java/org/eclipse/lsp4mp/jdt/internal/core/MicroProfilePropertiesListenerManager.java:248-253 | a SOURCES_AND_DEPENDENCIES source always wins, an ONLY_SOURCES source upgrades anything but SOURCES_AND_DEPENDENCIES, an ONLY_CONFIG_FILES source changes nothing |
| PropertiesListeners.MergeScopeJoin | microprofile.jdt/org.eclipse.lsp4mp.jdt.core/src/main/java/org/eclipse/lsp4mp/jdt/internal/core/MicroProfilePropertiesListenerManager.java:238-254 | merging scopes is commutative, associative and idempotent, so the order in which events arrive does not matter |
| PropertiesListeners.MergeUris | microprofile.jdt/org.eclipse.lsp4mp.jdt.core/src/main/java/org/eclipse/lsp4mp/jdt/internal/core/MicroProfilePropertiesListenerManager.java:240-245 | the merged project URIs are the union of both sets; the result is null only when both are |
| PropertiesListeners.MergeEvents | microprofile.jdt/org.eclipse.lsp4mp.jdt.core/src/main/java/org/eclipse/lsp4mp/jdt/internal/core/MicroProfilePropertiesListenerManager.java:238-254 | mergeEvents updates the target in place to the merge of both events and leaves the source as it was |
| PropertiesListeners.AccumulatedSpec | microprofile.jdt/org.eclipse.lsp4mp.jdt.core/src/main/java/org/eclipse/lsp4mp/jdt/internal/core/MicroProfilePropertiesListenerManager.java:203-254 | the pending event has the widest scope among the events merged into it, and exactly the union of their project URIs |
| PropertiesListeners.ClasspathChangedIff | microprofile.jdt/org.eclipse.lsp4mp.jdt.core/src/main/java/org/eclipse/lsp4mp/jdt/internal/core/MicroProfilePropertiesListenerManager.java:144-147 | isClasspathChanged holds exactly when one of F_CLASSPATH_CHANGED, F_RESOLVED_CLASSPATH_CHANGED, F_CLOSED, F_OPENED is set |
| PropertiesListeners.OtherFlagsIgnored | microprofile.jdt/org.eclipse.lsp4mp.jdt.core/src/main/java/org/eclipse/lsp4mp/jdt/internal/core/MicroProfilePropertiesListenerManager.java:144-147 | setting any other flag bits does not change the answer |
| PropertiesListeners.WithProjectsTwice | microprofile.jdt/org.eclipse.lsp4mp.jdt.core/src/main/java/org/eclipse/lsp4mp/jdt/internal/core/MicroProfilePropertiesListenerManager.java:114-121 | adding two sets of project URIs to the event in turn adds their union |
| PropertiesListeners.ProcessDeltaSpec | microprofile.jdt/org.eclipse.lsp4mp.jdt.core/src/main/java/org/eclipse/lsp4mp/jdt/internal/core/MicroProfilePropertiesListenerManager.java:98-137 | processDelta adds exactly the URIs of the projects created, deleted or with a changed classpath anywhere under the delta, with scope SOURCES_AND_DEPENDENCIES, and makes no event when there is none; the class-cache clear it makes for those projects is ElementChanged's |
| PropertiesListeners.ProcessChildrenSpec | microprofile.jdt/org.eclipse.lsp4mp.jdt.core/src/main/java/org/eclipse/lsp4mp/jdt/internal/core/MicroProfilePropertiesListenerManager.java:98-104 | processDeltaChildren does the same for the children from i on |
| PropertiesListeners.VisitEventKinds | microprofile.jdt/org.eclipse.lsp4mp.jdt.core/src/main/java/org/eclipse/lsp4mp/jdt/internal/core/MicroProfilePropertiesListenerManager.java:167-201 | only a content change to a file makes an event: a saved Java file one with scope ONLY_SOURCES, a saved config source one with scope ONLY_CONFIG_FILES, each naming the file's project alone (with lines 272-282) |
| PropertiesListeners.MicroProfileListener.constructor | microprofile.jdt/org.eclipse.lsp4mp.jdt.core/src/main/java/org/eclipse/lsp4mp/jdt/internal/core/MicroProfilePropertiesListenerManager.java:82-84 | the listener starts with no pending event |
| PropertiesListeners.MicroProfileListener.FireAsyncEvent | microprofile.jdt/org.eclipse.lsp4mp.jdt.core/src/main/java/org/eclipse/lsp4mp/jdt/internal/core/MicroProfilePropertiesListenerManager.java:203-211 | the first event becomes the pending one as it is; later events merge into it, so the pending event is the accumulation of every event fired since the last notification |
| PropertiesListeners.MicroProfileListener.TakePendingEvent | microprofile.jdt/org.eclipse.lsp4mp.jdt.core/src/main/java/org/eclipse/lsp4mp/jdt/internal/core/MicroProfilePropertiesListenerManager.java:218-224 | the scheduled task takes the pending event, which is the accumulation of the events fired since, and clears it |
| PropertiesListeners.MicroProfileListener.ElementChanged | microprofile.jdt/org.eclipse.lsp4mp.jdt.core/src/main/java/org/eclipse/lsp4mp/jdt/internal/core/MicroProfilePropertiesListenerManager.java:86-137 | with listeners, the runtime of every project processDelta reports drops its class cache (classpath and loader cache emptied; loader, the classes it defined, type cache and supports kept) and the event processDelta makes, if any, is fired; without listeners nothing changes |
| PropertiesListeners.MicroProfileListener.Visit | microprofile.jdt/org.eclipse.lsp4mp.jdt.core/src/main/java/org/eclipse/lsp4mp/jdt/internal/core/MicroProfilePropertiesListenerManager.java:167-201 | visit fires the event a saved Java or config file makes and descends exactly into accessible roots, projects and folders; for a saved Java file the project's runtime, when there is one, drops its class cache and keeps its loader, the classes it defined, its type cache and its supports |
| PropertiesListeners.SaveKeepsRuntime | microprofile.jdt/org.eclipse.lsp4mp.jdt.core/src/main/java/org/eclipse/lsp4mp/jdt/internal/core/MicroProfilePropertiesListenerManager.java:180-191 | after a saved Java file the project's runtime is still valid, its class cache is empty and its loader still remembers every class it defined; nothing is descended into |
| PropertiesListeners.SavedJavaFileIff | microprofile.jdt/org.eclipse.lsp4mp.jdt.core/src/main/java/org/eclipse/lsp4mp/jdt/internal/core/MicroProfilePropertiesListenerManager.java:180-199 | the runtime's class cache is dropped exactly for the deltas whose event has scope ONLY_SOURCES |
| PropertiesListeners.ClearProjectClassCaches | microprofile.jdt/org.eclipse.lsp4mp.jdt.core/src/main/java/org/eclipse/lsp4mp/jdt/internal/core/MicroProfilePropertiesListenerManager.java:121-130 | every given project the project manager has a runtime for ends with its class cache cleared, and every runtime keeps its loader, the classes it defined, its type cache and its supports |
| ProjectInfoCaches.ExtendedProjectInfo.constructor | microprofile.ls/org.eclipse.lsp4mp.ls/src/main/java/org/eclipse/lsp4mp/ls/properties/MicroProfileProjectInfoCache.java:78 | a freshly fetched project information has no sources' part and asks for no reload |
| ProjectInfoCaches.ExtendedProjectInfo.ClearPropertiesFromSource | microprofile.ls/org.eclipse.lsp4mp.ls/src/main/java/org/eclipse/lsp4mp/ls/properties/MicroProfileProjectInfoCache.java:145 | clearPropertiesFromSource forgets the sources' properties and hints and asks for a reload |
| ProjectInfoCaches.ExtendedProjectInfo.UpdateSourcesProperties | microprofile.ls/org.eclipse.lsp4mp.ls/src/main/java/org/eclipse/lsp4mp/ls/properties/MicroProfileProjectInfoCache.java:102 | updateSourcesProperties replaces the sources' part with the reloaded one and ends the reload request |
| ProjectInfoCaches.MatchingURIs | microprofile.ls/org.eclipse.lsp4mp.ls/src/main/java/org/eclipse/lsp4mp/ls/properties/MicroProfileProjectInfoCache.java:160-168 | getPropertiesFileURIs returns exactly the keys whose completed entry belongs to one of the given projects, in the map's iteration order |
| ProjectInfoCaches.Settled | microprofile.ls/org.eclipse.lsp4mp.ls/src/main/java/org/eclipse/lsp4mp/ls/properties/MicroProfileProjectInfoCache.java:62-98 | a failed fetch settles as EMPTY_PROJECT_INFO (no properties, no hints, project URI ""); a successful one as its value |
| ProjectInfoCaches.ProjectInfoCache.constructor | microprofile.ls/org.eclipse.lsp4mp.ls/src/main/java/org/eclipse/lsp4mp/ls/properties/MicroProfileProjectInfoCache.java:48-51 | the cache starts empty |
| ProjectInfoCaches.ProjectInfoCache.GetProjectInfoFromCache | microprofile.ls/org.eclipse.lsp4mp.ls/src/main/java/org/eclipse/lsp4mp/ls/properties/MicroProfileProjectInfoCache.java:71-109 | a missing, cancelled or failed entry is replaced by a fresh SOURCES_AND_DEPENDENCIES fetch; a pending one is returned as it is; a completed one is returned unless it asks for a reload, which starts an ONLY_SOURCES fetch and leaves the cache as it was |
| ProjectInfoCaches.ProjectInfoCache.SourcesReloaded | microprofile.ls/org.eclipse.lsp4mp.ls/src/main/java/org/eclipse/lsp4mp/ls/properties/MicroProfileProjectInfoCache.java:93-104 | the end of a sources-only fetch writes its properties and hints, or EMPTY_PROJECT_INFO's on failure, into the cached information and ends the reload request |
| ProjectInfoCaches.ProjectInfoCache.GetPropertiesFileURIs | microprofile.ls/org.eclipse.lsp4mp.ls/src/main/java/org/eclipse/lsp4mp/ls/properties/MicroProfileProjectInfoCache.java:160-168 | the stream filter computes exactly the matching keys, in iteration order |
| ProjectInfoCaches.ProjectInfoCache.PropertiesChanged | microprofile.ls/org.eclipse.lsp4mp.ls/src/main/java/org/eclipse/lsp4mp/ls/properties/MicroProfileProjectInfoCache.java:116-132 | ONLY_CONFIG_FILES changes nothing and returns nothing; ONLY_SOURCES keeps every entry and clears the sources' part of the matching ones only; otherwise exactly the matching entries are evicted; the matching keys are returned |
| ProjectInfoCaches.ProjectInfoCache.ClasspathChanged | microprofile.ls/org.eclipse.lsp4mp.ls/src/main/java/org/eclipse/lsp4mp/ls/properties/MicroProfileProjectInfoCache.java:134-138 | exactly the entries belonging to the given projects are evicted, and their keys returned |
| ProjectInfoCaches.ProjectInfoCache.JavaSourceChanged | microprofile.ls/org.eclipse.lsp4mp.ls/src/main/java/org/eclipse/lsp4mp/ls/properties/MicroProfileProjectInfoCache.java:140-149 | every matching entry stays cached but forgets its sources' part and asks for a reload; no other entry changes |
| ProjectInfoCaches.RepeatedLookup | microprofile.ls/org.eclipse.lsp4mp.ls/src/main/java/org/eclipse/lsp4mp/ls/properties/MicroProfileProjectInfoCache.java:74-85 | an unusable entry is fetched afresh, and a second lookup then finds the pending fetch instead of fetching again |
| JavaSnippets.PreprocessedUnchanged | microprofile.ls/org.eclipse.lsp4mp.ls/src/main/java/org/eclipse/lsp4mp/ls/java/JavaTextDocumentSnippetRegistry.java:98-104 | an empty body, or one whose first line does not hold both "${" and "packagename", is left as it is |
| JavaSnippets.PreprocessedHeader | microprofile.ls/org.eclipse.lsp4mp.ls/src/main/java/org/eclipse/lsp4mp/ls/java/JavaTextDocumentSnippetRegistry.java:104-126 | the three-line header (package line, empty line, import line) collapses to "${packagename}" followed by the import line, and the rest of the body is kept |
| JavaSnippets.PreprocessedNoBlank | microprofile.ls/org.eclipse.lsp4mp.ls/src/main/java/org/eclipse/lsp4mp/ls/java/JavaTextDocumentSnippetRegistry.java:113-125 | without an empty second line, only the second line is merged into the first |
| JavaSnippets.PreprocessedShape | microprofile.ls/org.eclipse.lsp4mp.ls/src/main/java/org/eclipse/lsp4mp/ls/java/JavaTextDocumentSnippetRegistry.java:104-126 | the rewrite replaces the first one, two or three lines by one line starting with "${packagename}" and keeps the rest of the body unchanged |
| JavaSnippets.PreprocessSnippetBody | microprofile.ls/org.eclipse.lsp4mp.ls/src/main/java/org/eclipse/lsp4mp/ls/java/JavaTextDocumentSnippetRegistry.java:98-127 | the removals and the set on the body list compute exactly the specified rewrite of the snippet's body, in place |
| JavaSnippets.DistinctSpec | microprofile.ls/org.eclipse.lsp4mp.ls/src/main/java/org/eclipse/lsp4mp/ls/java/JavaTextDocumentSnippetRegistry.java:71-84 | the collected list holds exactly the types seen, each once, in first-occurrence order |
| JavaSnippets.AllTypesMembers | microprofile.ls/org.eclipse.lsp4mp.ls/src/main/java/org/eclipse/lsp4mp/ls/java/JavaTextDocumentSnippetRegistry.java:72-83 | a type is collected exactly when some snippet's Java context names it |
| JavaSnippets.SnippetRegistry.constructor | microprofile.ls/org.eclipse.lsp4mp.ls/src/main/java/org/eclipse/lsp4mp/ls/java/JavaTextDocumentSnippetRegistry.java:50-52 | a new registry has no snippets and no memoised type list |
| JavaSnippets.SnippetRegistry.RegisterSnippet | microprofile.ls/org.eclipse.lsp4mp.ls/src/main/java/org/eclipse/lsp4mp/ls/java/JavaTextDocumentSnippetRegistry.java:87-91 | the snippet's body is preprocessed, then the snippet is appended to the registry; the type memo is left as it is |
| JavaSnippets.SnippetRegistry.CollectTypesOf | microprofile.ls/org.eclipse.lsp4mp.ls/src/main/java/org/eclipse/lsp4mp/ls/java/JavaTextDocumentSnippetRegistry.java:67-85 | the nested loops with the contains check compute exactly the distinct Java context types in first-occurrence order |
| JavaSnippets.SnippetRegistry.GetTypes | microprofile.ls/org.eclipse.lsp4mp.ls/src/main/java/org/eclipse/lsp4mp/ls/java/JavaTextDocumentSnippetRegistry.java:59-65 | the first call computes the types and memoises them; later calls return the memo |
| JavaSnippets.PackageStatement | microprofile.ls/org.eclipse.lsp4mp.ls/src/main/java/org/eclipse/lsp4mp/ls/java/JavaTextDocumentSnippetRegistry.java:133-155 | the package statement is empty for the default package (an empty package name) |
| JavaSnippets.ExpandedHeader | microprofile.ls/org.eclipse.lsp4mp.ls/src/main/java/org/eclipse/lsp4mp/ls/java/JavaTextDocumentSnippetRegistry.java:104-156 | expanding a preprocessed first line with the package statement restores the header it replaced: package line, empty line and import line joined by the document's delimiter, with the real package name or the placeholder |
| JavaStrings.StripLeadingSpec | microprofile.ls/org.eclipse.lsp4mp.ls/src/main/java/org/eclipse/lsp4mp/commons/runtime/TypeSignatureParser.java:175 | trim's leading pass removes exactly a prefix of characters up to ' ' and stops at the first other one |
| JavaStrings.StripTrailingSpec | microprofile.ls/org.eclipse.lsp4mp.ls/src/main/java/org/eclipse/lsp4mp/commons/runtime/TypeSignatureParser.java:175 | trim's trailing pass removes exactly a suffix of characters up to ' ' and stops at the last other one |
| JavaStrings.TrimEmptyIff | microprofile.jdt/org.eclipse.lsp4mp.jdt.core/src/main/java/org/eclipse/lsp4mp/commons/metadata/ItemMetadata.java:280 | trim() is empty exactly when every character is at most ' ' |
| JavaStrings.TrimClean | microprofile.jdt/org.eclipse.lsp4mp.jdt.core/src/main/java/org/eclipse/lsp4mp/commons/metadata/ItemMetadata.java:280 | trim() leaves alone a string with no such character at either end |
| JavaStrings.LastIndexOf | microprofile.jdt/org.eclipse.lsp4mp.jdt.core/src/main/java/org/eclipse/lsp4mp/commons/metadata/ItemMetadata.java:312 | lastIndexOf('.') is the last position of '.', or -1 when there is none |
| JavaStrings.SplitAllJoin | microprofile.ls/org.eclipse.lsp4mp.ls/src/main/java/org/eclipse/lsp4mp/commons/runtime/converter/AbstractConverterRuntimeSupport.java:282-291 | joining the comma-separated pieces with commas gives the value back |
| JavaStrings.JoinSplitAll | microprofile.ls/org.eclipse.lsp4mp.ls/src/main/java/org/eclipse/lsp4mp/commons/runtime/converter/AbstractConverterRuntimeSupport.java:282-291 | cutting a comma-join of comma-free pieces gives the pieces back |
| JavaStrings.JavaSplitJoin | microprofile.jdt/org.eclipse.lsp4mp.jdt.core/src/main/java/org/eclipse/lsp4mp/commons/metadata/ItemMetadata.java:239 | String.split on '.' inverts a '.'-join of non-empty pieces without '.' |
| JavaStrings.IntToStringParses | microprofile.ls/org.eclipse.lsp4mp.ls/src/main/java/org/eclipse/lsp4mp/services/properties/PropertiesFileValidator.java:361-371 | the decimal text of any integer is read back by the decimal grammar of Integer.parseInt as that integer |
| TypeSignatures.TrailingInputIgnored | microprofile.ls/org.eclipse.lsp4mp.ls/src/main/java/org/eclipse/lsp4mp/commons/runtime/TypeSignatureParser.java:139-165 | parse stops after the outermost type: a readable signature followed by ',' or '>' and anything else still parses to its tree (with lines 82-84) |

## Left out

- SmallRye's converters, their messages (for example SRCFG00029) and a converter's `initialize` step are oracles. A `ConverterSpec` gives the outcome of `initialize` and a `convert` function. The result is either nothing or the thrown `Throwable` chain.
- FullConverterRuntimeSupport and FullConverterValidator reach a ConfigProviderResolver through reflection and ServiceLoader. SafeConverterRuntimeSupport and SafeConverterValidator wrap `Config.getConverter`. Neither is modelled. `loadConfig` is reduced to its result, an optional `Config`, and each support's converters to its `newConverter` oracle.
- ConverterRuntime.ValidateCollection: uses the corrected offset `start + i + 1` after a comma, where line 287 of AbstractConverterRuntimeSupport.java has `i + 1` (see Findings). `ConverterRuntime.AsWrittenAgrees` proves the two agree at offset 0 and on comma-free values, which covers every call the runtime makes. `ConverterRuntime.AsWrittenDiffers` shows where they part.
- ConverterRuntime.CollectionStep: the same corrected offset, one loop turn at a time.
- ProjectRuntimes.MicroProfileProjectRuntime.constructor: registers only the SAFE and FULL converter supports. The other supports that `loadRuntimeSupports` finds through ServiceLoader, keyed by their class API, are not modelled, because ServiceLoader discovery is class-path I/O and those supports serve APIs outside the validation engine.
- EnumConverters.EnumTypeConverterValidator.RefreshEnumType: each validator keeps its own copy of the constant list. In the source the list lives on the EnumType, which `setEnumConstNames` updates in place. If two validators shared one EnumType, the second would see the refreshed list as unchanged and keep a stale table. The model does not capture that aliasing.
- `StringUtil.skewer` is the uninterpreted function `hyphenate`. The enum examples constrain it only by the names they use (WEB_APP to web-app, BLOCK to block).
- Class loading is an oracle:
  - `Class.forName`, `defineClass`, file reads, the jar `URLClassLoader` and the parent loader are the fields of `ClassLoaders.Environment`;
  - `Array.newInstance` is the `ArrayClass` constructor of a leaf type;
  - the lookups the parser and the language-server runtime use (`load`, `findType`) are parameters.
- The raw type of a parameterized type stays a name in the tree. It is looked up only when converter resolution asks for it, as the lazy `getRawType` does. Resolution performs the same lookup every time.
- `HashMap` iteration order is not modelled. The order of the enum validator's table and of the grouped properties is fixed:
  - the enum validator keeps its keys in first-insertion order;
  - the grouped properties follow an `order` parameter, so any one iteration order is a valid input.
  The allowed-values list in the enum error message inherits that order.
- Concurrency and timing are left out:
  - the listener manager's debounce scheduling, executor shutdown, listener registration and `notifyListeners`;
  - `synchronized` blocks and the `ConcurrentHashMap` behaviour of the loader and the converter cache;
  - the `CompletableFuture` composition of the project-info cache. Each future is a state: pending, done with its information, failed or cancelled.
  Every operation is one atomic step.
- Parsing by other libraries is an oracle in `PropertiesValidation.Oracles`:
  - `Float`, `Double`, `BigDecimal` and `BigInteger` parsing;
  - `Pattern.compile` and its message;
  - the platform line separator;
  - the enum check against the project's hints.
- SnakeYAML's loading of the file is out. The lookup starts from the loaded nested maps.
- LSP ranges, document positions and the AST nodes are out. Diagnostics carry offsets or a position id. A properties document is identified by an id.
- `PropertiesFileValidator.validate`, `validateProperty`, and the syntax, unknown-property and expression checks are out. What the model covers is the value checks and the three per-file diagnostics.
- Some classes are not part of this model's sources:
  - `MicroProfilePropertiesChangeEvent` and its scope enumeration, modelled from how the listener and the cache use them;
  - `ExtendedMicroProfileProjectInfo`, modelled from how the cache uses it;
  - the snippet model classes and `SnippetContextForJava`;
  - the `TextDocumentSnippetRegistry` superclass;
  - the language server's `findType`.
- `JavaSnippets.SnippetRegistry.RegisterSnippet` leaves the memoised types list alone, as the source does. A snippet registered after the first `getTypes` call is therefore missing from the list.
- `ItemMetadata.equals` and `hashCode` are out. So are the settings classes' `hashCode` and JSON binding.
- Characters are UTF-16 code units of the Basic Multilingual Plane:
  - `Character.isWhitespace` is written out for that plane in `JavaStrings.IsWhitespace`;
  - upper and lower casing maps only the letters whose case maps onto an ASCII letter. Every other letter is left as it is, which leaves comparisons against ASCII words unchanged;
  - integer parsing accepts ASCII digits only.
- Logging is reduced to a flag: the support's `Validate` reports whether an exception was logged and swallowed.
- The listener and editor-protocol glue (code lenses, completion, hover, inlay-hint providers) is out.

## Findings

| source | as written | input that shows it | evidently intended | confidence | as-written member | corrected member |
|---|---|---|---|---|---|---|
| microprofile.ls/org.eclipse.lsp4mp.ls/src/main/java/org/eclipse/lsp4mp/commons/runtime/converter/AbstractConverterRuntimeSupport.java:287 | after a ',' the next piece's offset is `i + 1`, counted from the start of the value and ignoring `start` | the value "a,b" at start 5: "b" is reported at offset 2 instead of 7 | `start + i + 1`, so every piece is placed where it lies in the document. The runtime calls the converter with start 0, so the defect is latent there. | not executed | ConverterRuntime.AsWrittenOffsetExample | ConverterRuntime.SegmentsSpec |
