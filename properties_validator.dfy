/** PropertiesFileValidator: the value checks of a properties file (booleans,
  * integral ranges, build-time placeholders, the enum check before the type
  * check), the grouping of the file's properties by name with profile, and
  * the duplicate, missing-required and required-without-value diagnostics. */
module PropertiesValidation {
  import opened Wrappers
  import opened JavaStrings
  import opened Lsp
  import opened ItemMetadatas

  /** A property line: its position id, its key with the profile, its key
    * without it (both "" when absent), and its value text (None when the line
    * has no value node). */
  datatype Property = Property(id: nat, nameWithProfile: string, name: string, value: Option<string>)

  /** A child of a properties document. */
  datatype Node = PropertyNode(property: Property) | CommentNode

  /** A properties document: its identity and its children in order. */
  datatype Document = Document(id: nat, nodes: seq<Node>)

  /** Where a diagnostic is reported. */
  datatype Place = KeyOf(property: nat) | WholeProperty(property: nat) | WholeDocument(document: nat) | Span(start: int, end: int)

  /** ValidationType: the diagnostic codes this model emits. */
  datatype ValidationType = Value | Duplicate | Required | RequiredValue

  datatype Diagnostic = Diagnostic(message: string, place: Place, severity: Option<Severity>, source: string,
                                   code: ValidationType)

  /** Every diagnostic of the validator names this source. */
  const DiagnosticSource := "microprofile"

  /** What the validator needs of a property's metadata. */
  datatype Metadata = Metadata(name: string, itemType: Option<string>, required: bool)

  /** The per-name severity lookups of the validation settings; None turns
    * the check off for that name. */
  datatype Severities = Severities(value: string -> Option<Severity>, duplicate: string -> Option<Severity>,
                                   required: string -> Option<Severity>)

  /** The checks done by libraries outside this model: the enum check against
    * the project's hints, Pattern.compile (its message on a syntax error),
    * the floating-point and big-number parsers, and the platform's line
    * separator. */
  datatype Oracles = Oracles(validEnum: (Metadata, string) -> bool, regexError: string -> Option<string>,
                             isFloat: string -> bool, isDouble: string -> bool,
                             isBigDecimal: string -> bool, isBigInteger: string -> bool,
                             lineSeparator: string)

  /** isBooleanString: the upper-cased value is one of six words. */
  predicate IsBooleanString(str: string) {
    var upper := ToUpper(str);
    upper == "TRUE" || upper == "FALSE" || upper == "Y" || upper == "YES" || upper == "1" || upper == "ON"
  }

  /** The characters of the boolean words. */
  predicate BooleanWordChar(c: char) {
    c == 'T' || c == 'R' || c == 'U' || c == 'E' || c == 'F' || c == 'A' || c == 'L' || c == 'S' ||
    c == 'Y' || c == 'O' || c == 'N' || c == '1'
  }

  /** On these characters upper-casing and comparing ignoring case agree. */
  lemma UpperCharIgnoreCase(c: char, d: char)
    requires BooleanWordChar(d)
    ensures UpperChar(c) == d <==> CharsEqualIgnoreCase(c, d)
  {
  }

  lemma ToUpperIgnoreCase(s: string, w: string)
    requires forall k :: 0 <= k < |w| ==> BooleanWordChar(w[k])
    ensures ToUpper(s) == w <==> EqualsIgnoreCase(s, w)
  {
    if |s| == |w| {
      forall k | 0 <= k < |s| ensures UpperChar(s[k]) == w[k] <==> CharsEqualIgnoreCase(s[k], w[k]) {
        UpperCharIgnoreCase(s[k], w[k]);
      }
      if EqualsIgnoreCase(s, w) {
        assert ToUpper(s) == w;
      }
    }
  }

  /** isBooleanString accepts exactly the six words, ignoring case. */
  lemma BooleanStringIff(s: string)
    ensures IsBooleanString(s) <==>
      EqualsIgnoreCase(s, "TRUE") || EqualsIgnoreCase(s, "FALSE") || EqualsIgnoreCase(s, "Y") ||
      EqualsIgnoreCase(s, "YES") || EqualsIgnoreCase(s, "1") || EqualsIgnoreCase(s, "ON")
  {
    ToUpperIgnoreCase(s, "TRUE");
    ToUpperIgnoreCase(s, "FALSE");
    ToUpperIgnoreCase(s, "Y");
    ToUpperIgnoreCase(s, "YES");
    ToUpperIgnoreCase(s, "1");
    ToUpperIgnoreCase(s, "ON");
  }

  /** The integral ranges of int, long and short. */
  const IntMin := -0x8000_0000
  const IntMax := 0x7fff_ffff
  const LongMin := -0x8000_0000_0000_0000
  const LongMax := 0x7fff_ffff_ffff_ffff
  const ShortMin := -0x8000
  const ShortMax := 0x7fff

  /** isIntegerString, isLongString, isShortString: text, and a decimal that
    * parseInt, parseLong or parseShort accepts. */
  predicate IsIntegerString(str: string) {
    HasText(str) && ParsesInRange(str, IntMin, IntMax)
  }

  predicate IsLongString(str: string) {
    HasText(str) && ParsesInRange(str, LongMin, LongMax)
  }

  predicate IsShortString(str: string) {
    HasText(str) && ParsesInRange(str, ShortMin, ShortMax)
  }

  /** The decimal text of a number is accepted exactly when the number lies
    * in the type's range. */
  lemma IntegralStringOf(i: int)
    ensures IsIntegerString(IntToString(i)) <==> IntMin <= i <= IntMax
    ensures IsLongString(IntToString(i)) <==> LongMin <= i <= LongMax
    ensures IsShortString(IntToString(i)) <==> ShortMin <= i <= ShortMax
  {
    IntToStringParses(i);
    var s := IntToString(i);
    assert !IsWhitespace(s[|s| - 1]);
  }

  /** isBuildtimePlaceholder: starts with "${" and ends with "}". */
  predicate IsBuildtimePlaceholder(str: string) {
    |str| >= 2 && str[..2] == "${" && str[|str| - 1] == '}'
  }

  /** String concatenation of a possibly null type text. */
  function TypeText(t: Option<string>): string {
    if t.None? then "null" else t.value
  }

  /** Whether an integral, floating-point or big-number typed value fails
    * its parser. */
  predicate NumberMismatch(t: Option<string>, value: string, lib: Oracles) {
    (IsIntegerType(t) && !IsIntegerString(value)) || (IsFloatType(t) && !(HasText(value) && lib.isFloat(value))) ||
    (IsDoubleType(t) && !(HasText(value) && lib.isDouble(value))) || (IsLongType(t) && !IsLongString(value)) ||
    (IsShortType(t) && !IsShortString(value)) ||
    (IsBigDecimalType(t) && !(HasText(value) && lib.isBigDecimal(value))) ||
    (IsBigIntegerType(t) && !(HasText(value) && lib.isBigInteger(value)))
  }

  /** getErrorIfValueTypeMismatch: no message for a build-time placeholder;
    * the compiler's message for a bad pattern; the boolean message for a
    * boolean that is not one of the words; the number message for a value
    * its type's parser refuses. */
  function TypeMismatch(t: Option<string>, value: string, lib: Oracles): (r: Option<string>)
    ensures IsBuildtimePlaceholder(value) ==> r.None?
  {
    if IsBuildtimePlaceholder(value) then None
    else if IsRegexType(t) then
      match lib.regexError(value)
      case None => None
      case Some(message) => Some(message + lib.lineSeparator)
    else if IsBooleanType(t) && !IsBooleanString(value) then
      Some("Type mismatch: " + TypeText(t) + " expected. By default, this value will be interpreted as 'false'")
    else if NumberMismatch(t, value, lib) then
      Some("Type mismatch: " + TypeText(t) + " expected")
    else None
  }

  /** A boolean-typed value is reported exactly when it is not one of the
    * boolean words and not a placeholder. */
  lemma BooleanValueCheck(t: Option<string>, value: string, lib: Oracles)
    requires IsBooleanType(t) && !IsBuildtimePlaceholder(value)
    ensures TypeMismatch(t, value, lib).Some? <==> !IsBooleanString(value)
  {
    BooleanKindOnly(t);
  }

  /** An int-, long- or short-typed value is reported exactly when it is not
    * a decimal within the type's range and not a placeholder. */
  lemma IntegralValueCheck(t: Option<string>, value: string, lib: Oracles)
    requires IsIntegerType(t) || IsLongType(t) || IsShortType(t)
    requires !IsBuildtimePlaceholder(value)
    ensures IsIntegerType(t) ==> (TypeMismatch(t, value, lib).Some? <==> !IsIntegerString(value))
    ensures IsLongType(t) ==> (TypeMismatch(t, value, lib).Some? <==> !IsLongString(value))
    ensures IsShortType(t) ==> (TypeMismatch(t, value, lib).Some? <==> !IsShortString(value))
  {
    if IsIntegerType(t) {
      IntegerKindOnly(t);
    } else if IsLongType(t) {
      LongKindOnly(t);
    } else {
      ShortKindOnly(t);
    }
  }

  /** A type of no kind is never reported. */
  lemma UnknownKindAccepted(t: Option<string>, value: string, lib: Oracles)
    requires !IsRegexType(t) && !IsBooleanType(t) && !IsIntegerType(t) && !IsFloatType(t) && !IsDoubleType(t)
    requires !IsLongType(t) && !IsShortType(t) && !IsBigDecimalType(t) && !IsBigIntegerType(t)
    ensures TypeMismatch(t, value, lib).None?
  {
  }

  lemma BooleanKindOnly(t: Option<string>)
    requires IsBooleanType(t)
    ensures !IsRegexType(t) && !IsIntegerType(t) && !IsFloatType(t) && !IsDoubleType(t) && !IsLongType(t)
    ensures !IsShortType(t) && !IsBigDecimalType(t) && !IsBigIntegerType(t)
  {
  }

  lemma IntegerKindOnly(t: Option<string>)
    requires IsIntegerType(t)
    ensures !IsRegexType(t) && !IsBooleanType(t) && !IsFloatType(t) && !IsDoubleType(t) && !IsLongType(t)
    ensures !IsShortType(t) && !IsBigDecimalType(t) && !IsBigIntegerType(t)
  {
  }

  lemma LongKindOnly(t: Option<string>)
    requires IsLongType(t)
    ensures !IsRegexType(t) && !IsBooleanType(t) && !IsFloatType(t) && !IsDoubleType(t) && !IsIntegerType(t)
    ensures !IsShortType(t) && !IsBigDecimalType(t) && !IsBigIntegerType(t)
  {
  }

  lemma ShortKindOnly(t: Option<string>)
    requires IsShortType(t)
    ensures !IsRegexType(t) && !IsBooleanType(t) && !IsFloatType(t) && !IsDoubleType(t) && !IsIntegerType(t)
    ensures !IsLongType(t) && !IsBigDecimalType(t) && !IsBigIntegerType(t)
  {
  }

  /** The message of getErrorIfInvalidEnum. */
  function InvalidEnumMessage(value: string, t: Option<string>): string {
    "Invalid enum value: '" + value + "' is invalid for type " + TypeText(t)
  }

  /** validatePropertyValue: nothing for unknown metadata, an empty value or
    * a value check turned off; otherwise the enum message, or failing that
    * the type message, at the value's range. */
  function ValueDiagnostic(propertyName: string, metadata: Option<Metadata>, value: Option<string>,
                           start: int, end: int, severities: Severities, lib: Oracles): (r: Option<Diagnostic>)
    ensures metadata.None? || value.None? || value == Some("") || severities.value(propertyName).None? ==> r.None?
    ensures r.Some? ==> r.value.place == Span(start, end) && r.value.severity == severities.value(propertyName) &&
                        r.value.code == Value && r.value.source == DiagnosticSource
    ensures metadata.Some? && value.Some? && value.value != "" && severities.value(propertyName).Some? ==>
      if !lib.validEnum(metadata.value, value.value) then
        r.Some? && r.value.message == InvalidEnumMessage(value.value, metadata.value.itemType)
      else
        (r.Some? <==> TypeMismatch(metadata.value.itemType, value.value, lib).Some?) &&
        (r.Some? ==> r.value.message == TypeMismatch(metadata.value.itemType, value.value, lib).value)
  {
    if metadata.None? || value.None? || value.value == "" then None
    else
      var severity := severities.value(propertyName);
      if severity.None? then None
      else
        var m := metadata.value;
        var message :=
          if !lib.validEnum(m, value.value) then Some(InvalidEnumMessage(value.value, m.itemType))
          else TypeMismatch(m.itemType, value.value, lib);
        if message.None? then None
        else Some(Diagnostic(message.value, Span(start, end), severity, DiagnosticSource, Value))
  }

  /** A build-time placeholder is never reported as a type mismatch: the
    * only message it can get is the enum one. */
  lemma PlaceholderOnlyEnum(propertyName: string, metadata: Metadata, value: string, start: int, end: int,
                            severities: Severities, lib: Oracles)
    requires IsBuildtimePlaceholder(value) && lib.validEnum(metadata, value)
    ensures ValueDiagnostic(propertyName, Some(metadata), Some(value), start, end, severities, lib).None?
  {
  }

  /** The properties grouped by name with profile. */
  type Groups = map<string, seq<Property>>

  /** The group of a name, empty when the name has none. */
  function Lookup(groups: Groups, name: string): seq<Property> {
    if name in groups then groups[name] else []
  }

  /** One node of fill: a property with a name joins the end of its group. */
  function AddNode(groups: Groups, node: Node): Groups {
    if node.PropertyNode? && node.property.nameWithProfile != "" then
      groups[node.property.nameWithProfile := Lookup(groups, node.property.nameWithProfile) + [node.property]]
    else groups
  }

  /** fill: the nodes taken in document order. */
  function FillSpec(nodes: seq<Node>, groups: Groups): Groups
    decreases |nodes|
  {
    if nodes == [] then groups else FillSpec(nodes[1..], AddNode(groups, nodes[0]))
  }

  /** The properties among the nodes whose name with profile is name, in
    * document order. */
  function Named(nodes: seq<Node>, name: string): seq<Property>
    decreases |nodes|
  {
    if nodes == [] then [] else Here(nodes[0], name) + Named(nodes[1..], name)
  }

  /** The node's property when its name with profile is name. */
  function Here(node: Node, name: string): seq<Property> {
    if node.PropertyNode? && node.property.nameWithProfile == name then [node.property] else []
  }

  /** fill appends to each name's group exactly the document's properties of
    * that name, in document order; properties without a name are skipped,
    * and a name gets a group exactly when it occurs. */
  lemma {:induction false} FillLookup(nodes: seq<Node>, groups: Groups, name: string)
    ensures Lookup(FillSpec(nodes, groups), name) ==
      if name == "" then Lookup(groups, name) else Lookup(groups, name) + Named(nodes, name)
    ensures name in FillSpec(nodes, groups) <==> name in groups || (name != "" && Named(nodes, name) != [])
    decreases |nodes|
  {
    if nodes != [] {
      var next := AddNode(groups, nodes[0]);
      FillLookup(nodes[1..], next, name);
      AddNodeLookup(groups, nodes[0], name);
      if name != "" {
        AppendAssocProperties(Lookup(groups, name), Here(nodes[0], name), Named(nodes[1..], name));
      }
    }
  }

  /** One node of fill, seen from one name. */
  lemma AddNodeLookup(groups: Groups, node: Node, name: string)
    ensures name != "" ==> Lookup(AddNode(groups, node), name) == Lookup(groups, name) + Here(node, name)
    ensures name == "" ==> Lookup(AddNode(groups, node), name) == Lookup(groups, name)
    ensures name in AddNode(groups, node) <==> name in groups || (name != "" && Here(node, name) != [])
  {
  }

  lemma AppendAssocProperties(a: seq<Property>, b: seq<Property>, c: seq<Property>)
    ensures (a + b) + c == a + (b + c)
  {
  }

  /** fill over the models of the config sources, in the order given; a
    * source without a model is skipped. */
  function FillSources(docs: seq<Option<Document>>, groups: Groups): Groups
    decreases |docs|
  {
    if docs == [] then groups
    else
      var before := FillSources(docs[..|docs| - 1], groups);
      var last := docs[|docs| - 1];
      if last.Some? then FillSpec(last.value.nodes, before) else before
  }

  /** Whether one of the models is the current document. */
  predicate HasDocument(docs: seq<Option<Document>>, current: Document) {
    exists k :: 0 <= k < |docs| && docs[k].Some? && docs[k].value.id == current.id
  }

  /** getAllPropertiesFromFiles: every config source's model filled in, then
    * the current document when none of them was it. */
  function AllFromFiles(current: Document, configSources: Option<seq<Option<Document>>>): Groups {
    var docs := if configSources.Some? then configSources.value else [];
    var filled := FillSources(docs, map[]);
    if HasDocument(docs, current) then filled else FillSpec(current.nodes, filled)
  }

  /** Without config sources the groups are those of the current document. */
  lemma CurrentOnlyGroups(current: Document, name: string)
    requires name != ""
    ensures Lookup(AllFromFiles(current, None), name) == Named(current.nodes, name)
  {
    FillLookup(current.nodes, map[], name);
  }

  /** The diagnostic at one property of a duplicated name. */
  function DuplicateMessage(name: string): string {
    "Duplicate property '" + name + "'"
  }

  /** The duplicate diagnostics of one name: one at each of its keys when it
    * occurs at least twice. */
  function DuplicatesOf(groups: Groups, name: string, severities: Severities): seq<Diagnostic> {
    var list := Lookup(groups, name);
    if |list| <= 1 then []
    else
      seq(|list|, k requires 0 <= k < |list| =>
        Diagnostic(DuplicateMessage(name), KeyOf(list[k].id), severities.duplicate(name), DiagnosticSource, Duplicate))
  }

  /** addDiagnosticsForDuplicates: the names taken in the map's iteration
    * order. */
  function DuplicateDiagnostics(groups: Groups, order: seq<string>, severities: Severities): seq<Diagnostic>
    decreases |order|
  {
    if order == [] then []
    else DuplicateDiagnostics(groups, order[..|order| - 1], severities) + DuplicatesOf(groups, order[|order| - 1], severities)
  }

  /** A HashMap iteration order: each key once. */
  ghost predicate IterationOrder(order: seq<string>, groups: Groups) {
    (forall i, j :: 0 <= i < j < |order| ==> order[i] != order[j]) &&
    (forall n :: n in groups <==> n in order)
  }

  /** How many diagnostics carry the code and the message. */
  function Count(ds: seq<Diagnostic>, code: ValidationType, message: string): nat
    decreases |ds|
  {
    if ds == [] then 0
    else Count(ds[..|ds| - 1], code, message) + (if ds[|ds| - 1].code == code && ds[|ds| - 1].message == message then 1 else 0)
  }

  lemma {:induction false} CountAppend(a: seq<Diagnostic>, b: seq<Diagnostic>, code: ValidationType, message: string)
    ensures Count(a + b, code, message) == Count(a, code, message) + Count(b, code, message)
    decreases |b|
  {
    if b != [] {
      assert (a + b)[..|a + b| - 1] == a + b[..|b| - 1];
      assert (a + b)[|a + b| - 1] == b[|b| - 1];
      CountAppend(a, b[..|b| - 1], code, message);
    } else {
      assert a + b == a;
    }
  }

  lemma {:induction false} CountUniform(ds: seq<Diagnostic>, code: ValidationType, message: string, d: Diagnostic)
    requires forall k :: 0 <= k < |ds| ==> ds[k].code == d.code && ds[k].message == d.message
    ensures Count(ds, code, message) == if d.code == code && d.message == message then |ds| else 0
    decreases |ds|
  {
    if ds != [] {
      CountUniform(ds[..|ds| - 1], code, message, d);
    }
  }

  /** Two messages built around names are equal only for equal names. */
  lemma MessageInjective(prefix: string, a: string, b: string, suffix: string)
    requires prefix + a + suffix == prefix + b + suffix
    ensures a == b
  {
    var s := prefix + a + suffix;
    assert |a| == |b|;
    assert a == s[|prefix|..|prefix| + |a|];
    assert b == (prefix + b + suffix)[|prefix|..|prefix| + |b|];
  }

  lemma CountDuplicatesOf(groups: Groups, n: string, name: string, severities: Severities)
    ensures Count(DuplicatesOf(groups, n, severities), Duplicate, DuplicateMessage(name)) ==
      if n == name && |Lookup(groups, n)| >= 2 then |Lookup(groups, n)| else 0
  {
    var ds := DuplicatesOf(groups, n, severities);
    var d := Diagnostic(DuplicateMessage(n), WholeDocument(0), None, DiagnosticSource, Duplicate);
    if n != name && DuplicateMessage(n) == DuplicateMessage(name) {
      MessageInjective("Duplicate property '", n, name, "'");
    }
    CountUniform(ds, Duplicate, DuplicateMessage(name), d);
  }

  /** A name occurring two or more times gets one duplicate diagnostic per
    * occurrence; a name occurring once, or not at all, gets none. */
  lemma {:induction false} DuplicateCount(groups: Groups, order: seq<string>, severities: Severities, name: string)
    requires forall i, j :: 0 <= i < j < |order| ==> order[i] != order[j]
    ensures Count(DuplicateDiagnostics(groups, order, severities), Duplicate, DuplicateMessage(name)) ==
      if name in order && |Lookup(groups, name)| >= 2 then |Lookup(groups, name)| else 0
    decreases |order|
  {
    if order != [] {
      var init := order[..|order| - 1];
      var last := order[|order| - 1];
      DuplicateCount(groups, init, severities, name);
      CountAppend(DuplicateDiagnostics(groups, init, severities), DuplicatesOf(groups, last, severities),
                  Duplicate, DuplicateMessage(name));
      CountDuplicatesOf(groups, last, name, severities);
      assert order == init + [last];
      assert name in order <==> name in init || name == last;
      assert name == last ==> name !in init;
    }
  }

  /** The diagnostic of a required property no file sets. */
  function MissingMessage(name: string): string {
    "Missing required property '" + name + "'"
  }

  /** The diagnostic at each occurrence of a required property that has no
    * value anywhere. */
  function MissingValueMessage(name: string): string {
    "Missing required property value for '" + name + "'"
  }

  /** A property line with a non-empty value. */
  predicate HasValue(p: Property) {
    p.value.Some? && p.value.value != ""
  }

  /** addDiagnosticsForRequiredIfNoValue: nothing when some occurrence has a
    * value, otherwise one diagnostic at each occurrence. */
  function RequiredIfNoValue(list: seq<Property>, name: string, severity: Severity): (r: seq<Diagnostic>)
    ensures (exists k :: 0 <= k < |list| && HasValue(list[k])) ==> r == []
    ensures (forall k :: 0 <= k < |list| ==> !HasValue(list[k])) ==>
      |r| == |list| && forall k :: 0 <= k < |list| ==>
        r[k] == Diagnostic(MissingValueMessage(name), WholeProperty(list[k].id), Some(severity), DiagnosticSource, RequiredValue)
  {
    if exists k :: 0 <= k < |list| && HasValue(list[k]) then []
    else
      seq(|list|, k requires 0 <= k < |list| =>
        Diagnostic(MissingValueMessage(name), WholeProperty(list[k].id), Some(severity), DiagnosticSource, RequiredValue))
  }

  /** The required-property diagnostics of one metadata entry. */
  function RequiredOf(groups: Groups, m: Metadata, severities: Severities, document: Document): seq<Diagnostic> {
    var severity := severities.required(m.name);
    if severity.None? || !m.required then []
    else if m.name !in groups then
      [Diagnostic(MissingMessage(m.name), WholeDocument(document.id), severity, DiagnosticSource, Required)]
    else RequiredIfNoValue(groups[m.name], m.name, severity.value)
  }

  /** addDiagnosticsForMissingRequired: the project's properties in order. */
  function MissingRequiredDiagnostics(groups: Groups, properties: seq<Metadata>, severities: Severities,
                                      document: Document): seq<Diagnostic>
    decreases |properties|
  {
    if properties == [] then []
    else
      MissingRequiredDiagnostics(groups, properties[..|properties| - 1], severities, document) +
      RequiredOf(groups, properties[|properties| - 1], severities, document)
  }

  lemma AppendAssoc(a: seq<Diagnostic>, b: seq<Diagnostic>, c: seq<Diagnostic>)
    ensures a + (b + c) == (a + b) + c
  {
  }

  /** MissingRequiredDiagnostics one entry further. */
  lemma MissingRequiredStep(groups: Groups, properties: seq<Metadata>, i: int, severities: Severities, document: Document)
    requires 0 <= i < |properties|
    ensures MissingRequiredDiagnostics(groups, properties[..i + 1], severities, document) ==
      MissingRequiredDiagnostics(groups, properties[..i], severities, document) +
      RequiredOf(groups, properties[i], severities, document)
  {
    assert properties[..i + 1][..i] == properties[..i];
  }

  /** How many entries of the project's properties are required and named
    * name. */
  function RequiredEntries(properties: seq<Metadata>, name: string): nat
    decreases |properties|
  {
    if properties == [] then 0
    else
      var last := properties[|properties| - 1];
      RequiredEntries(properties[..|properties| - 1], name) + (if last.required && last.name == name then 1 else 0)
  }

  lemma CountRequiredOf(groups: Groups, m: Metadata, severities: Severities, document: Document, name: string)
    ensures Count(RequiredOf(groups, m, severities, document), Required, MissingMessage(name)) ==
      if m.name == name && m.required && name !in groups && severities.required(name).Some? then 1 else 0
  {
    var ds := RequiredOf(groups, m, severities, document);
    if m.name != name && MissingMessage(m.name) == MissingMessage(name) {
      MessageInjective("Missing required property '", m.name, name, "'");
    }
    if ds != [] {
      CountUniform(ds, Required, MissingMessage(name), ds[0]);
    }
  }

  /** A required property that no file sets gets one "Missing required
    * property" diagnostic for each required entry of that name (exactly one
    * when the name is listed once), and a property some file sets gets
    * none. */
  lemma {:induction false} MissingRequiredCount(groups: Groups, properties: seq<Metadata>, severities: Severities,
                                               document: Document, name: string)
    ensures Count(MissingRequiredDiagnostics(groups, properties, severities, document), Required, MissingMessage(name)) ==
      if name !in groups && severities.required(name).Some? then RequiredEntries(properties, name) else 0
    decreases |properties|
  {
    if properties != [] {
      var init := properties[..|properties| - 1];
      var last := properties[|properties| - 1];
      MissingRequiredCount(groups, init, severities, document, name);
      CountAppend(MissingRequiredDiagnostics(groups, init, severities, document),
                  RequiredOf(groups, last, severities, document), Required, MissingMessage(name));
      CountRequiredOf(groups, last, severities, document, name);
    }
  }

  /** The validator of one properties file: the diagnostics it reports and
    * the lazily built groups of every file's properties. */
  class PropertiesFileValidator {
    const severities: Severities
    const lib: Oracles
    /** The models of the project's config sources in the set's iteration
      * order (None for a source without a model), or None when the project
      * has no config sources. */
    const configSources: Option<seq<Option<Document>>>
    /** The project's property metadata, in the project's order. */
    const properties: seq<Metadata>
    var diagnostics: seq<Diagnostic>
    var allPropertiesFromFiles: Option<Groups>

    /** The memo, once built, holds the groups of the current document. */
    ghost predicate Valid(current: Document)
      reads this
    {
      allPropertiesFromFiles.Some? ==> allPropertiesFromFiles.value == AllFromFiles(current, configSources)
    }

    constructor (severities: Severities, lib: Oracles, configSources: Option<seq<Option<Document>>>,
                 properties: seq<Metadata>, diagnostics: seq<Diagnostic>)
      ensures this.severities == severities && this.lib == lib && this.configSources == configSources
      ensures this.properties == properties && this.diagnostics == diagnostics
      ensures allPropertiesFromFiles.None?
    {
      this.severities := severities;
      this.lib := lib;
      this.configSources := configSources;
      this.properties := properties;
      this.diagnostics := diagnostics;
      allPropertiesFromFiles := None;
    }

    /** validatePropertyValue: reports at most the one value diagnostic. */
    method ValidatePropertyValue(propertyName: string, metadata: Option<Metadata>, value: Option<string>,
                                 start: int, end: int)
      modifies this
      ensures var d := ValueDiagnostic(propertyName, metadata, value, start, end, severities, lib);
        diagnostics == old(diagnostics) + (if d.Some? then [d.value] else [])
      ensures allPropertiesFromFiles == old(allPropertiesFromFiles)
    {
      if metadata.None? || value.None? || value.value == "" {
        return;
      }
      var severity := severities.value(propertyName);
      if severity.None? {
        return;
      }
      var errorMessage := if lib.validEnum(metadata.value, value.value) then None
                          else Some(InvalidEnumMessage(value.value, metadata.value.itemType));
      if errorMessage.None? {
        errorMessage := TypeMismatch(metadata.value.itemType, value.value, lib);
      }
      if errorMessage.Some? {
        diagnostics := diagnostics + [Diagnostic(errorMessage.value, Span(start, end), severity, DiagnosticSource, Value)];
      }
    }

    /** fill: adds the document's properties to the groups. */
    method Fill(document: Document, groups: Groups) returns (filled: Groups)
      ensures filled == FillSpec(document.nodes, groups)
    {
      filled := groups;
      for i := 0 to |document.nodes|
        invariant FillSpec(document.nodes[i..], filled) == FillSpec(document.nodes, groups)
      {
        assert document.nodes[i..][1..] == document.nodes[i + 1..];
        var node := document.nodes[i];
        ghost var previous := filled;
        if node.PropertyNode? {
          var property := node.property;
          var name := property.nameWithProfile;
          if name != "" {
            if name !in filled {
              filled := filled[name := []];
            }
            filled := filled[name := filled[name] + [property]];
          }
        }
        assert filled == AddNode(previous, node);
      }
    }

    /** getAllPropertiesFromFiles: built once, then served from the memo. */
    method GetAllPropertiesFromFiles(current: Document) returns (groups: Groups)
      requires Valid(current)
      modifies this
      ensures groups == AllFromFiles(current, configSources)
      ensures allPropertiesFromFiles == Some(groups) && diagnostics == old(diagnostics)
    {
      if allPropertiesFromFiles.Some? {
        return allPropertiesFromFiles.value;
      }
      groups := map[];
      var fillWithCurrent := false;
      var docs := if configSources.Some? then configSources.value else [];
      if configSources.Some? {
        for i := 0 to |docs|
          invariant groups == FillSources(docs[..i], map[])
          invariant fillWithCurrent <==> HasDocument(docs[..i], current)
          invariant diagnostics == old(diagnostics)
        {
          assert docs[..i + 1][..i] == docs[..i];
          var document := docs[i];
          if document.Some? {
            if document.value.id == current.id {
              fillWithCurrent := true;
            }
            groups := Fill(document.value, groups);
          }
          if HasDocument(docs[..i + 1], current) && !HasDocument(docs[..i], current) {
            assert document.Some? && document.value.id == current.id;
          }
        }
        assert docs[..|docs|] == docs;
      }
      if !fillWithCurrent {
        groups := Fill(current, groups);
      }
      allPropertiesFromFiles := Some(groups);
    }

    /** addDiagnosticsForDuplicates, with the names in the map's iteration
      * order. */
    method AddDiagnosticsForDuplicates(document: Document, order: seq<string>)
      requires Valid(document)
      requires IterationOrder(order, AllFromFiles(document, configSources))
      modifies this
      ensures diagnostics == old(diagnostics) + DuplicateDiagnostics(AllFromFiles(document, configSources), order, severities)
      ensures allPropertiesFromFiles == Some(AllFromFiles(document, configSources))
    {
      var all := GetAllPropertiesFromFiles(document);
      for i := 0 to |order|
        invariant diagnostics == old(diagnostics) + DuplicateDiagnostics(all, order[..i], severities)
        invariant allPropertiesFromFiles == Some(all)
      {
        assert order[..i + 1][..i] == order[..i];
        AppendAssoc(old(diagnostics), DuplicateDiagnostics(all, order[..i], severities),
                    DuplicatesOf(all, order[i], severities));
        AddDuplicatesOf(all, order[i]);
      }
      assert order[..|order|] == order;
    }

    /** The action addDiagnosticsForDuplicates runs for one name and its
      * properties. */
    method AddDuplicatesOf(all: Groups, propertyName: string)
      requires propertyName in all
      modifies this
      ensures diagnostics == old(diagnostics) + DuplicatesOf(all, propertyName, severities)
      ensures allPropertiesFromFiles == old(allPropertiesFromFiles)
    {
      var propertyList := all[propertyName];
      if |propertyList| <= 1 {
        return;
      }
      var severity := severities.duplicate(propertyName);
      ghost var duplicates := DuplicatesOf(all, propertyName, severities);
      for j := 0 to |propertyList|
        invariant diagnostics == old(diagnostics) + duplicates[..j]
        invariant allPropertiesFromFiles == old(allPropertiesFromFiles)
      {
        var d := Diagnostic(DuplicateMessage(propertyName), KeyOf(propertyList[j].id), severity, DiagnosticSource, Duplicate);
        assert duplicates[..j + 1] == duplicates[..j] + [d];
        AppendAssoc(old(diagnostics), duplicates[..j], [d]);
        diagnostics := diagnostics + [d];
      }
      assert duplicates[..|propertyList|] == duplicates;
    }

    /** addDiagnosticsForMissingRequired. */
    method AddDiagnosticsForMissingRequired(document: Document)
      requires Valid(document)
      modifies this
      ensures diagnostics == old(diagnostics) +
        MissingRequiredDiagnostics(AllFromFiles(document, configSources), properties, severities, document)
      ensures Valid(document)
    {
      ghost var groups := AllFromFiles(document, configSources);
      for i := 0 to |properties|
        invariant Valid(document)
        invariant diagnostics == old(diagnostics) + MissingRequiredDiagnostics(groups, properties[..i], severities, document)
      {
        MissingRequiredStep(groups, properties, i, severities, document);
        AppendAssoc(old(diagnostics), MissingRequiredDiagnostics(groups, properties[..i], severities, document),
                    RequiredOf(groups, properties[i], severities, document));
        AddDiagnosticsForRequired(document, properties[i]);
      }
      assert properties[..|properties|] == properties;
    }

    /** One turn of addDiagnosticsForMissingRequired's loop: a required
      * property with a severity is reported when no file sets it, and
      * otherwise checked for a value. */
    method AddDiagnosticsForRequired(document: Document, property: Metadata)
      requires Valid(document)
      modifies this
      ensures diagnostics == old(diagnostics) +
        RequiredOf(AllFromFiles(document, configSources), property, severities, document)
      ensures Valid(document)
    {
      var propertyName := property.name;
      var severity := severities.required(propertyName);
      if severity.Some? && property.required {
        var all := GetAllPropertiesFromFiles(document);
        if propertyName !in all {
          diagnostics := diagnostics + [Diagnostic(MissingMessage(propertyName), WholeDocument(document.id), severity,
                                                   DiagnosticSource, Required)];
        } else {
          AddDiagnosticsForRequiredIfNoValue(document, propertyName, severity.value);
        }
      }
    }

    /** addDiagnosticsForRequiredIfNoValue, for a name the files set. */
    method AddDiagnosticsForRequiredIfNoValue(document: Document, propertyName: string, severity: Severity)
      requires Valid(document)
      requires propertyName in AllFromFiles(document, configSources)
      modifies this
      ensures diagnostics == old(diagnostics) +
        RequiredIfNoValue(AllFromFiles(document, configSources)[propertyName], propertyName, severity)
      ensures allPropertiesFromFiles == Some(AllFromFiles(document, configSources))
    {
      var all := GetAllPropertiesFromFiles(document);
      var propertyList := all[propertyName];
      for j := 0 to |propertyList|
        invariant forall k :: 0 <= k < j ==> !HasValue(propertyList[k])
        invariant diagnostics == old(diagnostics) && allPropertiesFromFiles == Some(all)
      {
        if propertyList[j].value.Some? && propertyList[j].value.value != "" {
          assert HasValue(propertyList[j]);
          return;
        }
      }
      ghost var before := diagnostics;
      ghost var expected := RequiredIfNoValue(propertyList, propertyName, severity);
      for j := 0 to |propertyList|
        invariant diagnostics == before + expected[..j]
        invariant allPropertiesFromFiles == Some(all)
      {
        diagnostics := diagnostics + [Diagnostic(MissingValueMessage(propertyName), WholeProperty(propertyList[j].id),
                                                 Some(severity), DiagnosticSource, RequiredValue)];
      }
      assert expected[..|propertyList|] == expected;
    }
  }
}
