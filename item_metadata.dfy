/** ItemMetadata: a configuration property's type text, its memoised simple
  * rendering (every class name without its package, generic arguments
  * rebuilt with ", "), the type-kind predicates, the hint type and the
  * dotted path of the name. */
module ItemMetadatas {
  import opened Wrappers
  import opened JavaStrings

  /** The characters that end a raw type name. */
  predicate IsDelimiter(c: char) {
    c == '<' || c == ',' || c == '>'
  }

  /** A raw name with no delimiter in it. */
  predicate CleanRaw(n: string) {
    forall k :: 0 <= k < |n| ==> !IsDelimiter(n[k])
  }

  /** Where the raw-name loop of parseSimpleType stops when started at i:
    * the first delimiter at or after i, or the end of the input. */
  function RawEnd(input: string, i: nat): (j: nat)
    requires i <= |input|
    ensures i <= j <= |input|
    decreases |input| - i
  {
    if i < |input| && !IsDelimiter(input[i]) then RawEnd(input, i + 1) else i
  }

  /** simpleName: what follows the last '.', or the whole name. */
  function SimpleName(fullName: string): (r: string)
    ensures '.' !in r
    ensures '.' !in fullName ==> r == fullName
  {
    var lastDot := LastIndexOf(fullName, '.');
    if lastDot != -1 then fullName[lastDot + 1..] else fullName
  }

  /** A type as parseSimpleType reads it: a raw name (untrimmed, with its
    * package) and the arguments when a '<' follows the name. */
  datatype Generic = Generic(name: string, args: seq<Generic>)

  /** parseSimpleType started at i: the type read and the position after it.
    * A '<' after the raw name starts the argument loop. */
  function TreeAt(input: string, i: nat): (r: (Generic, nat))
    requires i <= |input|
    ensures i <= r.1 <= |input|
    decreases |input| - i, 0
  {
    var j := RawEnd(input, i);
    if j < |input| && input[j] == '<' then ArgsAt(input, j + 1, input[i..j], [])
    else (Generic(input[i..j], []), j)
  }

  /** The argument loop started at i, with the arguments acc read so far:
    * one argument, then stop at the end of the input or after a '>', or skip
    * whatever character follows and go on. */
  function ArgsAt(input: string, i: nat, raw: string, acc: seq<Generic>): (r: (Generic, nat))
    requires i <= |input|
    ensures i <= r.1 <= |input|
    ensures r.0.name == raw && |r.0.args| > |acc|
    decreases |input| - i, 1
  {
    var (t, k) := TreeAt(input, i);
    if k >= |input| then (Generic(raw, acc + [t]), k)
    else if input[k] == '>' then (Generic(raw, acc + [t]), k + 1)
    else ArgsAt(input, k + 1, raw, acc + [t])
  }

  /** TreeAt once the raw-name loop has stopped at j. */
  lemma TreeAtHead(input: string, i: nat, j: nat)
    requires i <= j <= |input| && RawEnd(input, i) == j
    ensures TreeAt(input, i) ==
      if j < |input| && input[j] == '<' then ArgsAt(input, j + 1, input[i..j], [])
      else (Generic(input[i..j], []), j)
  {
  }

  /** One turn of the argument loop at i: the argument read there, then the
    * end, a '>' or another turn. */
  lemma ArgsAtStep(input: string, i: nat, raw: string, acc: seq<Generic>)
    requires i <= |input|
    ensures var (t, k) := TreeAt(input, i);
      ArgsAt(input, i, raw, acc) ==
        if k >= |input| then (Generic(raw, acc + [t]), k)
        else if input[k] == '>' then (Generic(raw, acc + [t]), k + 1)
        else ArgsAt(input, k + 1, raw, acc + [t])
  {
  }

  /** The type read at i is r. */
  predicate TreeReadAt(input: string, i: nat, r: (Generic, nat)) {
    i <= |input| && TreeAt(input, i) == r
  }

  /** The argument loop from i, with acc read so far, gives r. */
  predicate ArgsReadAt(input: string, i: nat, raw: string, acc: seq<Generic>, r: (Generic, nat)) {
    i <= |input| && ArgsAt(input, i, raw, acc) == r
  }

  /** The rendering: each trimmed name cut to its simple name, arguments
    * joined by ", " inside "<" and ">". */
  function Simple(g: Generic): string
    decreases g, 0
  {
    var n := SimpleName(Trim(g.name));
    if |g.args| == 0 then n else n + "<" + Join(SimpleArgs(g.args), ", ") + ">"
  }

  /** Each argument rendered on its own. */
  function SimpleArgs(gs: seq<Generic>): (r: seq<string>)
    ensures |r| == |gs| && forall k :: 0 <= k < |gs| ==> r[k] == Simple(gs[k])
    decreases gs, 1
  {
    if |gs| == 0 then [] else [Simple(gs[0])] + SimpleArgs(gs[1..])
  }

  /** getSimpleType's rendering of a type text. */
  function SimpleType(t: string): string {
    Simple(TreeAt(t, 0).0)
  }

  /** The type text, with "," between arguments. */
  function Written(g: Generic): string
    decreases g, 0
  {
    if |g.args| == 0 then g.name else g.name + "<" + WrittenArgs(g.args) + ">"
  }

  function WrittenArgs(gs: seq<Generic>): string
    decreases gs, 1
  {
    if |gs| == 0 then ""
    else if |gs| == 1 then Written(gs[0])
    else Written(gs[0]) + "," + WrittenArgs(gs[1..])
  }

  /** Names free of delimiters. */
  predicate WellWritten(g: Generic)
    decreases g, 0
  {
    CleanRaw(g.name) && AllWellWritten(g.args)
  }

  predicate AllWellWritten(gs: seq<Generic>)
    decreases gs, 1
  {
    |gs| == 0 || (WellWritten(gs[0]) && AllWellWritten(gs[1..]))
  }

  /** The raw-name loop stops exactly at the first delimiter. */
  lemma {:induction false} RawEndAt(input: string, i: nat, j: nat)
    requires i <= j <= |input|
    requires forall k :: i <= k < j ==> !IsDelimiter(input[k])
    requires j == |input| || IsDelimiter(input[j])
    ensures RawEnd(input, i) == j
    decreases j - i
  {
    if i < j {
      RawEndAt(input, i + 1, j);
    }
  }

  /** A clean raw name at i followed by the end, ',' or '>' is read as a
    * type without arguments. */
  lemma NameAt(input: string, i: nat, j: nat)
    requires i <= j <= |input| && CleanRaw(input[i..j])
    requires j == |input| || input[j] == ',' || input[j] == '>'
    ensures TreeReadAt(input, i, (Generic(input[i..j], []), j))
  {
    var n := input[i..j];
    forall k | i <= k < j ensures !IsDelimiter(input[k]) {
      assert input[k] == n[k - i];
    }
    RawEndAt(input, i, j);
  }

  /** A clean raw name at i followed by '<' starts the argument loop right
    * after the '<'. */
  lemma HeadAt(input: string, i: nat, e: nat, raw: string, r: (Generic, nat))
    requires i <= e < |input| && input[i..e] == raw && CleanRaw(raw) && input[e] == '<'
    requires ArgsReadAt(input, e + 1, raw, [], r)
    ensures TreeReadAt(input, i, r)
  {
    forall k | i <= k < e ensures !IsDelimiter(input[k]) {
      assert input[k] == raw[k - i];
    }
    RawEndAt(input, i, e);
  }

  /** A turn of the argument loop whose argument is followed by anything but
    * '>' goes on with another turn after that character. */
  lemma ArgThenSep(input: string, i: nat, raw: string, acc: seq<Generic>, t: Generic, k: nat, r: (Generic, nat))
    requires TreeReadAt(input, i, (t, k))
    requires k < |input| && input[k] != '>'
    requires ArgsReadAt(input, k + 1, raw, acc + [t], r)
    ensures ArgsReadAt(input, i, raw, acc, r)
  {
  }

  /** A turn of the argument loop whose argument is followed by '>' closes
    * the type. */
  lemma ArgThenClose(input: string, i: nat, raw: string, acc: seq<Generic>, t: Generic, k: nat,
                     all: seq<Generic>, end: nat)
    requires TreeReadAt(input, i, (t, k))
    requires k < |input| && input[k] == '>'
    requires all == acc + [t] && end == k + 1
    ensures ArgsReadAt(input, i, raw, acc, (Generic(raw, all), end))
  {
  }

  /** A turn of the argument loop whose argument runs to the end of the
    * input closes the type there all the same. */
  lemma ArgThenEnd(input: string, i: nat, raw: string, acc: seq<Generic>, t: Generic, all: seq<Generic>)
    requires TreeReadAt(input, i, (t, |input|))
    requires all == acc + [t]
    ensures ArgsReadAt(input, i, raw, acc, (Generic(raw, all), |input|))
  {
  }

  /** A well-written type found at i and followed by the end, ',' or '>' is
    * read back as itself, stopping right after its text. */
  lemma {:induction false} WrittenAt(s: string, i: nat, g: Generic)
    requires WellWritten(g)
    requires i + |Written(g)| <= |s| && s[i..i + |Written(g)|] == Written(g)
    requires i + |Written(g)| == |s| || s[i + |Written(g)|] == ',' || s[i + |Written(g)|] == '>'
    ensures TreeReadAt(s, i, (g, i + |Written(g)|))
    decreases g, 2
  {
    if |g.args| == 0 {
      NameAt(s, i, i + |g.name|);
    } else {
      Regroup(g.name, "<", WrittenArgs(g.args), ">");
      HeadSplit(s, i, g.name, g.args);
      GenericAt(s, i, g.name, g.args, i + |Written(g)|);
    }
  }

  /** name<args> found at i is read as that type, stopping right after the
    * '>'. */
  lemma {:induction false} GenericAt(s: string, i: nat, name: string, args: seq<Generic>, end: nat)
    requires CleanRaw(name) && |args| >= 1 && AllWellWritten(args)
    requires i + |name| < |s| && s[i..i + |name|] == name && s[i + |name|] == '<'
    requires ArgsWrittenAt(s, i + |name| + 1, args) && end == i + |name| + 1 + |WrittenArgs(args)| + 1
    ensures TreeReadAt(s, i, (Generic(name, args), end))
    decreases args, 6
  {
    FirstArgs(s, i + |name| + 1, name, args, end);
    HeadAt(s, i, i + |name|, name, (Generic(name, args), end));
  }

  /** Where the pieces of name<args> lie. */
  lemma HeadSplit(s: string, i: nat, name: string, args: seq<Generic>)
    requires i + |name| + 1 + |WrittenArgs(args)| + 1 <= |s|
    requires s[i..i + |name| + 1 + |WrittenArgs(args)| + 1] == name + ("<" + (WrittenArgs(args) + ">"))
    ensures s[i..i + |name|] == name && s[i + |name|] == '<' && ArgsWrittenAt(s, i + |name| + 1, args)
  {
    var body := WrittenArgs(args);
    SplitAt(s, i, name, "<" + (body + ">"));
    SplitAt(s, i + |name|, "<", body + ">");
  }

  /** The arguments' text, then '>', found at j. */
  predicate ArgsWrittenAt(s: string, j: nat, args: seq<Generic>) {
    j + |WrittenArgs(args)| + 1 <= |s| && s[j..j + |WrittenArgs(args)| + 1] == WrittenArgs(args) + ">"
  }

  /** The arguments' text and '>' right after '<' at j - 1: the argument loop
    * reads them all and stops after the '>'. */
  lemma FirstArgs(s: string, j: nat, raw: string, args: seq<Generic>, end: nat)
    requires |args| >= 1 && AllWellWritten(args) && ArgsWrittenAt(s, j, args)
    requires end == j + |WrittenArgs(args)| + 1
    ensures ArgsReadAt(s, j, raw, [], (Generic(raw, args), end))
    decreases args, 5
  {
    assert [] + args == args;
    ParseArgsList(s, j, raw, [], args, args, end);
  }

  /** The arguments' text and '>' at j: the argument loop reads them after
    * acc and stops after the '>'. */
  lemma {:induction false} ParseArgsList(s: string, j: nat, raw: string, acc: seq<Generic>,
                                        args: seq<Generic>, all: seq<Generic>, end: nat)
    requires |args| >= 1 && AllWellWritten(args) && ArgsWrittenAt(s, j, args)
    requires all == acc + args && end == j + |WrittenArgs(args)| + 1
    ensures ArgsReadAt(s, j, raw, acc, (Generic(raw, all), end))
    decreases args, 4
  {
    if |args| == 1 {
      LastArg(s, j, raw, acc, args);
    } else {
      NextArg(s, j, raw, acc, args);
    }
  }

  /** The single remaining argument, then '>'. */
  lemma {:induction false} LastArg(s: string, j: nat, raw: string, acc: seq<Generic>, args: seq<Generic>)
    requires |args| == 1 && AllWellWritten(args) && ArgsWrittenAt(s, j, args)
    ensures ArgsReadAt(s, j, raw, acc, (Generic(raw, acc + args), j + |WrittenArgs(args)| + 1))
    decreases args, 3
  {
    LastArgTurn(s, j, args);
    assert acc + args == acc + [args[0]];
    ArgThenClose(s, j, raw, acc, args[0], j + |Written(args[0])|, acc + args, j + |WrittenArgs(args)| + 1);
  }

  /** The turn of the argument loop at j reads the single remaining argument,
    * which is followed by '>'. */
  lemma LastArgTurn(s: string, j: nat, args: seq<Generic>)
    requires |args| == 1 && AllWellWritten(args) && ArgsWrittenAt(s, j, args)
    ensures TreeReadAt(s, j, (args[0], j + |Written(args[0])|))
    ensures |WrittenArgs(args)| == |Written(args[0])|
    ensures j + |Written(args[0])| < |s| && s[j + |Written(args[0])|] == '>'
    decreases args, 1
  {
    var w := Written(args[0]);
    assert WrittenArgs(args) + ">" == w + ">";
    SplitAt(s, j, w, ">");
    WrittenAt(s, j, args[0]);
  }

  /** The first of several remaining arguments, then ',' and the rest. */
  lemma {:induction false} NextArg(s: string, j: nat, raw: string, acc: seq<Generic>, args: seq<Generic>)
    requires |args| >= 2 && AllWellWritten(args) && ArgsWrittenAt(s, j, args)
    ensures ArgsReadAt(s, j, raw, acc, (Generic(raw, acc + args), j + |WrittenArgs(args)| + 1))
    decreases args, 3
  {
    RestArgs(s, j, raw, acc, args);
    FirstArgComma(s, j, raw, acc, args, (Generic(raw, acc + args), j + |WrittenArgs(args)| + 1));
  }

  /** The first of several remaining arguments is read and the ',' after it
    * skipped. */
  lemma FirstArgComma(s: string, j: nat, raw: string, acc: seq<Generic>, args: seq<Generic>, r: (Generic, nat))
    requires |args| >= 2 && AllWellWritten(args) && ArgsWrittenAt(s, j, args)
    requires ArgsReadAt(s, j + |Written(args[0])| + 1, raw, acc + [args[0]], r)
    ensures ArgsReadAt(s, j, raw, acc, r)
    decreases args, 2
  {
    FirstArgReads(s, j, args);
    ArgThenSep(s, j, raw, acc, args[0], j + |Written(args[0])|, r);
  }

  /** The first of several arguments is read from j and followed by ','. */
  lemma FirstArgReads(s: string, j: nat, args: seq<Generic>)
    requires |args| >= 2 && AllWellWritten(args) && ArgsWrittenAt(s, j, args)
    ensures TreeReadAt(s, j, (args[0], j + |Written(args[0])|))
    ensures j + |Written(args[0])| < |s| && s[j + |Written(args[0])|] == ','
    decreases args, 1
  {
    SplitArgsHead(s, j, args);
    WrittenAt(s, j, args[0]);
  }

  /** After the first of several arguments and its ',', the argument loop
    * reads the rest and stops after the '>'. */
  lemma {:induction false} RestArgs(s: string, j: nat, raw: string, acc: seq<Generic>, args: seq<Generic>)
    requires |args| >= 2 && AllWellWritten(args) && ArgsWrittenAt(s, j, args)
    ensures ArgsReadAt(s, j + |Written(args[0])| + 1, raw, acc + [args[0]],
                       (Generic(raw, acc + args), j + |WrittenArgs(args)| + 1))
    decreases args, 2
  {
    SplitArgsTail(s, j, args);
    assert acc + [args[0]] + args[1..] == acc + args;
    ParseArgsList(s, j + |Written(args[0])| + 1, raw, acc + [args[0]], args[1..],
                  acc + args, j + |WrittenArgs(args)| + 1);
  }

  /** Several arguments' text is the first one's, ',' and the rest's. */
  lemma ArgsCons(s: string, j: nat, args: seq<Generic>)
    requires |args| >= 2 && ArgsWrittenAt(s, j, args)
    ensures |WrittenArgs(args)| == |Written(args[0])| + 1 + |WrittenArgs(args[1..])|
    ensures s[j..j + |Written(args[0])| + 1 + (|WrittenArgs(args[1..])| + 1)]
      == Written(args[0]) + ("," + (WrittenArgs(args[1..]) + ">"))
  {
    var w := Written(args[0]);
    var rest := WrittenArgs(args[1..]);
    assert WrittenArgs(args) == w + "," + rest;
    Regroup(w, ",", rest, ">");
  }

  /** Where the first of several arguments and the ',' after it lie. */
  lemma SplitArgsHead(s: string, j: nat, args: seq<Generic>)
    requires |args| >= 2 && ArgsWrittenAt(s, j, args)
    ensures s[j..j + |Written(args[0])|] == Written(args[0]) && s[j + |Written(args[0])|] == ','
  {
    ArgsCons(s, j, args);
    SplitAt(s, j, Written(args[0]), "," + (WrittenArgs(args[1..]) + ">"));
  }

  /** Where the rest of several arguments lies, after the ','. */
  lemma SplitArgsTail(s: string, j: nat, args: seq<Generic>)
    requires |args| >= 2 && ArgsWrittenAt(s, j, args)
    ensures |WrittenArgs(args)| == |Written(args[0])| + 1 + |WrittenArgs(args[1..])|
    ensures ArgsWrittenAt(s, j + |Written(args[0])| + 1, args[1..])
  {
    var w := Written(args[0]);
    var rest := WrittenArgs(args[1..]);
    ArgsCons(s, j, args);
    SplitAt(s, j, w, "," + (rest + ">"));
    SplitAt(s, j + |w|, ",", rest + ">");
  }

  /** Reading a well-written type text gives back the type it was written
    * from, so getSimpleType renders it: packages dropped from every name,
    * arguments in order, ", " between them, at any depth. */
  lemma SimpleTypeOfWritten(g: Generic)
    requires WellWritten(g)
    ensures TreeAt(Written(g), 0) == (g, |Written(g)|)
    ensures SimpleType(Written(g)) == Simple(g)
  {
    var s := Written(g);
    assert s[0..|s|] == s;
    WrittenAt(s, 0, g);
  }

  /** The rendering keeps no package: no '.' is left anywhere in it. */
  lemma {:induction false} SimpleHasNoDot(g: Generic)
    ensures '.' !in Simple(g)
    decreases g, 0
  {
    if |g.args| > 0 {
      var parts := SimpleArgs(g.args);
      forall k | 0 <= k < |parts| ensures '.' !in parts[k] {
        SimpleHasNoDot(g.args[k]);
      }
      JoinAvoids(parts, ", ", '.');
    }
  }

  /** An unterminated argument list is still closed: "a.List<b.C" reads as
    * "List<C>". */
  lemma UnterminatedExample()
    ensures SimpleType("a.List<b.C") == "List<C>"
  {
    UnterminatedRead();
    UnterminatedRender("a.List", 'a', "List", "b.C", 'b', "C", "List<C>");
  }

  lemma UnterminatedRead()
    ensures TreeAt("a.List<b.C", 0) == (Generic("a.List", [Generic("b.C", [])]), 10)
  {
    var s := "a.List<b.C";
    var c := Generic("b.C", []);
    assert s[7..10] == "b.C" && s[0..6] == "a.List";
    NameAt(s, 7, 10);
    ArgThenEnd(s, 7, "a.List", [], c, [c]);
    HeadAt(s, 0, 6, "a.List", (Generic("a.List", [c]), 10));
  }

  /** A one-letter package before each of two clean names, the second the
    * argument of the first, renders as "Outer<Inner>". */
  lemma UnterminatedRender(n: string, p: char, outer: string, m: string, q: char, inner: string, r: string)
    requires Dotted(p, outer) && n == [p, '.'] + outer
    requires Dotted(q, inner) && m == [q, '.'] + inner
    requires r == outer + "<" + inner + ">"
    ensures Simple(Generic(n, [Generic(m, [])])) == r
  {
    SimpleOneArg(Generic(n, [Generic(m, [])]));
    SimpleDotted(p, outer);
    SimpleDotted(q, inner);
  }

  /** p, then '.', then rest is a clean qualified name with nothing to trim. */
  predicate Dotted(p: char, rest: string) {
    !IsTrimmable(p) && |rest| >= 1 && !IsTrimmable(rest[|rest| - 1]) && '.' !in rest
  }

  /** Only the part after the package's '.' is rendered. */
  lemma SimpleDotted(p: char, rest: string)
    requires Dotted(p, rest)
    ensures Simple(Generic([p, '.'] + rest, [])) == rest
  {
    var n := [p, '.'] + rest;
    forall k | 1 < k < |n| ensures n[k] != '.' {
      assert n[k] == rest[k - 2];
    }
    assert n[2..] == rest;
    SimpleAfterDot(n, 1);
  }

  /** A type with one argument renders as its name, then the argument in
    * angle brackets. */
  lemma SimpleOneArg(g: Generic)
    requires |g.args| == 1
    ensures Simple(g) == Simple(Generic(g.name, [])) + "<" + Simple(g.args[0]) + ">"
  {
    assert SimpleArgs(g.args) == [Simple(g.args[0])];
  }

  /** A name with its last '.' at i and nothing trim() would remove at its
    * ends renders as what follows the '.'. */
  lemma SimpleAfterDot(n: string, i: nat)
    requires i < |n| && n[i] == '.' && forall k :: i < k < |n| ==> n[k] != '.'
    requires !IsTrimmable(n[0]) && !IsTrimmable(n[|n| - 1])
    ensures Simple(Generic(n, [])) == n[i + 1..]
  {
    TrimClean(n);
  }

  /** The prefix getHintType strips. */
  const OptionalPrefix := "java.util.Optional<"

  /** What getHintType throws: substring with its end before its start. */
  datatype HintError = IndexOutOfBounds

  /** getHintType: null for a null type; the text between the Optional
    * prefix and the last character when the type starts with it; the type
    * itself otherwise. The bare prefix leaves no last character to drop and
    * makes substring throw. */
  function HintType(t: Option<string>): (r: Result<Option<string>, HintError>)
    ensures t.None? ==> r == Success(None)
    ensures t.Some? && !(|OptionalPrefix| <= |t.value| && t.value[..|OptionalPrefix|] == OptionalPrefix) ==>
      r == Success(t)
    ensures t.Some? && |OptionalPrefix| < |t.value| && t.value[..|OptionalPrefix|] == OptionalPrefix ==>
      r.Success? && r.value.Some? && t.value == OptionalPrefix + r.value.value + [t.value[|t.value| - 1]]
    ensures t == Some(OptionalPrefix) ==> r.Failure?
  {
    if t.None? then Success(None)
    else
      var s := t.value;
      if |OptionalPrefix| <= |s| && s[..|OptionalPrefix|] == OptionalPrefix then
        if |s| - 1 < |OptionalPrefix| then Failure(IndexOutOfBounds)
        else Success(Some(s[|OptionalPrefix|..|s| - 1]))
      else Success(t)
  }

  /** The type kinds: each holds for exactly its listed names. */
  predicate IsStringType(t: Option<string>) {
    t == Some("java.lang.String") || t == Some("java.util.Optional<java.lang.String>")
  }

  predicate IsBooleanType(t: Option<string>) {
    t == Some("boolean") || t == Some("java.lang.Boolean") || t == Some("java.util.Optional<java.lang.Boolean>")
  }

  predicate IsIntegerType(t: Option<string>) {
    t == Some("int") || t == Some("java.lang.Integer") || t == Some("java.util.OptionalInt") ||
    t == Some("java.util.Optional<java.lang.Integer>")
  }

  predicate IsFloatType(t: Option<string>) {
    t == Some("float") || t == Some("java.lang.Float") || t == Some("java.util.Optional<java.lang.Float>")
  }

  predicate IsLongType(t: Option<string>) {
    t == Some("long") || t == Some("java.lang.Long") || t == Some("java.util.OptionalLong") ||
    t == Some("java.util.Optional<java.lang.Long>")
  }

  predicate IsDoubleType(t: Option<string>) {
    t == Some("double") || t == Some("java.lang.Double") || t == Some("java.util.OptionalDouble") ||
    t == Some("java.util.Optional<java.lang.Double>")
  }

  predicate IsShortType(t: Option<string>) {
    t == Some("short") || t == Some("java.lang.Short") || t == Some("java.util.Optional<java.lang.Short>")
  }

  predicate IsBigDecimalType(t: Option<string>) {
    t == Some("java.math.BigDecimal") || t == Some("java.util.Optional<java.math.BigDecimal>")
  }

  predicate IsBigIntegerType(t: Option<string>) {
    t == Some("java.math.BigInteger") || t == Some("java.util.Optional<java.math.BigInteger>")
  }

  predicate IsRegexType(t: Option<string>) {
    t == Some("java.util.regex.Pattern") || t == Some("java.util.Optional<java.util.regex.Pattern>")
  }

  /** getHintType undoes the Optional wrapping of any type text. */
  lemma HintTypeOfOptional(x: string)
    ensures HintType(Some(OptionalPrefix + x + ">")) == Success(Some(x))
  {
    var s := OptionalPrefix + x + ">";
    assert s[..|OptionalPrefix|] == OptionalPrefix;
    assert s[|OptionalPrefix|..|s| - 1] == x;
  }

  /** A type text without '<' where the prefix would end is not Optional,
    * and getHintType leaves it as it is. */
  lemma NotOptional(v: string)
    requires |v| < |OptionalPrefix| || v[|OptionalPrefix| - 1] != '<'
    ensures HintType(Some(v)) == Success(Some(v))
  {
    if |OptionalPrefix| <= |v| {
      assert v[..|OptionalPrefix|][|OptionalPrefix| - 1] != OptionalPrefix[|OptionalPrefix| - 1];
    }
  }

  /** Every type of a kind keeps that kind through getHintType: the Optional
    * form turns into the boxed form, the other forms are left as they are. */
  lemma HintTypeKeepsKind(t: Option<string>)
    requires IsStringType(t) || IsBooleanType(t) || IsIntegerType(t) || IsFloatType(t) || IsLongType(t) ||
             IsDoubleType(t) || IsShortType(t) || IsBigDecimalType(t) || IsBigIntegerType(t) || IsRegexType(t)
    ensures HintType(t).Success?
    ensures IsStringType(t) ==> IsStringType(HintType(t).value)
    ensures IsBooleanType(t) ==> IsBooleanType(HintType(t).value)
    ensures IsIntegerType(t) ==> IsIntegerType(HintType(t).value)
    ensures IsFloatType(t) ==> IsFloatType(HintType(t).value)
    ensures IsLongType(t) ==> IsLongType(HintType(t).value)
    ensures IsDoubleType(t) ==> IsDoubleType(HintType(t).value)
    ensures IsShortType(t) ==> IsShortType(HintType(t).value)
    ensures IsBigDecimalType(t) ==> IsBigDecimalType(HintType(t).value)
    ensures IsBigIntegerType(t) ==> IsBigIntegerType(HintType(t).value)
    ensures IsRegexType(t) ==> IsRegexType(HintType(t).value)
  {
    if IsStringType(t) {
      StringKept(t);
    }
    if IsBooleanType(t) {
      BooleanKept(t);
    }
    if IsIntegerType(t) {
      IntegerKept(t);
    }
    if IsFloatType(t) {
      FloatKept(t);
    }
    if IsLongType(t) {
      LongKept(t);
    }
    if IsDoubleType(t) {
      DoubleKept(t);
    }
    if IsShortType(t) {
      ShortKept(t);
    }
    if IsBigDecimalType(t) {
      BigDecimalKept(t);
    }
    if IsBigIntegerType(t) {
      BigIntegerKept(t);
    }
    if IsRegexType(t) {
      RegexKept(t);
    }
  }

  lemma StringKept(t: Option<string>)
    requires IsStringType(t)
    ensures HintType(t).Success? && IsStringType(HintType(t).value)
  {
    if t.value == "java.util.Optional<java.lang.String>" {
      assert t.value == OptionalPrefix + "java.lang.String" + ">";
      HintTypeOfOptional("java.lang.String");
    } else {
      NotOptional(t.value);
    }
  }

  lemma BooleanKept(t: Option<string>)
    requires IsBooleanType(t)
    ensures HintType(t).Success? && IsBooleanType(HintType(t).value)
  {
    if t.value == "java.util.Optional<java.lang.Boolean>" {
      assert t.value == OptionalPrefix + "java.lang.Boolean" + ">";
      HintTypeOfOptional("java.lang.Boolean");
    } else {
      NotOptional(t.value);
    }
  }

  lemma IntegerKept(t: Option<string>)
    requires IsIntegerType(t)
    ensures HintType(t).Success? && IsIntegerType(HintType(t).value)
  {
    if t.value == "java.util.Optional<java.lang.Integer>" {
      assert t.value == OptionalPrefix + "java.lang.Integer" + ">";
      HintTypeOfOptional("java.lang.Integer");
    } else {
      NotOptional(t.value);
    }
  }

  lemma FloatKept(t: Option<string>)
    requires IsFloatType(t)
    ensures HintType(t).Success? && IsFloatType(HintType(t).value)
  {
    if t.value == "java.util.Optional<java.lang.Float>" {
      assert t.value == OptionalPrefix + "java.lang.Float" + ">";
      HintTypeOfOptional("java.lang.Float");
    } else {
      NotOptional(t.value);
    }
  }

  lemma LongKept(t: Option<string>)
    requires IsLongType(t)
    ensures HintType(t).Success? && IsLongType(HintType(t).value)
  {
    if t.value == "java.util.Optional<java.lang.Long>" {
      assert t.value == OptionalPrefix + "java.lang.Long" + ">";
      HintTypeOfOptional("java.lang.Long");
    } else {
      NotOptional(t.value);
    }
  }

  lemma DoubleKept(t: Option<string>)
    requires IsDoubleType(t)
    ensures HintType(t).Success? && IsDoubleType(HintType(t).value)
  {
    if t.value == "java.util.Optional<java.lang.Double>" {
      assert t.value == OptionalPrefix + "java.lang.Double" + ">";
      HintTypeOfOptional("java.lang.Double");
    } else {
      NotOptional(t.value);
    }
  }

  lemma ShortKept(t: Option<string>)
    requires IsShortType(t)
    ensures HintType(t).Success? && IsShortType(HintType(t).value)
  {
    if t.value == "java.util.Optional<java.lang.Short>" {
      assert t.value == OptionalPrefix + "java.lang.Short" + ">";
      HintTypeOfOptional("java.lang.Short");
    } else {
      NotOptional(t.value);
    }
  }

  lemma BigDecimalKept(t: Option<string>)
    requires IsBigDecimalType(t)
    ensures HintType(t).Success? && IsBigDecimalType(HintType(t).value)
  {
    if t.value == "java.util.Optional<java.math.BigDecimal>" {
      assert t.value == OptionalPrefix + "java.math.BigDecimal" + ">";
      HintTypeOfOptional("java.math.BigDecimal");
    } else {
      NotOptional(t.value);
    }
  }

  lemma BigIntegerKept(t: Option<string>)
    requires IsBigIntegerType(t)
    ensures HintType(t).Success? && IsBigIntegerType(HintType(t).value)
  {
    if t.value == "java.util.Optional<java.math.BigInteger>" {
      assert t.value == OptionalPrefix + "java.math.BigInteger" + ">";
      HintTypeOfOptional("java.math.BigInteger");
    } else {
      NotOptional(t.value);
    }
  }

  lemma RegexKept(t: Option<string>)
    requires IsRegexType(t)
    ensures HintType(t).Success? && IsRegexType(HintType(t).value)
  {
    if t.value == "java.util.Optional<java.util.regex.Pattern>" {
      assert t.value == OptionalPrefix + "java.util.regex.Pattern" + ">";
      HintTypeOfOptional("java.util.regex.Pattern");
    } else {
      NotOptional(t.value);
    }
  }

  /** getPaths: the name split on '.' (trailing empty pieces dropped), null
    * for a null name. */
  function Paths(name: Option<string>): (r: Option<seq<string>>)
    ensures r.Some? <==> name.Some?
  {
    if name.None? then None else Some(JavaSplit(name.value, '.'))
  }

  /** A dotted name of non-empty segments splits back into its segments. */
  lemma PathsOfDotted(segments: seq<string>)
    requires |segments| >= 1
    requires forall k :: 0 <= k < |segments| ==> '.' !in segments[k] && segments[k] != ""
    ensures Paths(Some(Join(segments, "."))) == Some(segments)
  {
    JavaSplitJoin(segments, '.');
  }

  /** The item: its name and type text, and the memo of getSimpleType. */
  class ItemMetadata {
    var name: Option<string>
    var itemType: Option<string>
    var simpleType: Option<string>

    /** The memo, when present, is the rendering of the current type. */
    ghost predicate Valid()
      reads this
    {
      simpleType.Some? ==> itemType.Some? && simpleType.value == SimpleType(itemType.value)
    }

    constructor (name: Option<string>, itemType: Option<string>)
      ensures this.name == name && this.itemType == itemType && simpleType.None?
      ensures Valid()
    {
      this.name := name;
      this.itemType := itemType;
      simpleType := None;
    }

    /** setType: the new type, and the memo dropped. */
    method SetType(t: Option<string>)
      modifies this
      ensures itemType == t && simpleType.None? && name == old(name)
      ensures Valid()
    {
      itemType := t;
      simpleType := None;
    }

    /** getSimpleType: the memo, or null for a null type, or the rendering,
      * which is then memoised. */
    method GetSimpleType() returns (r: Option<string>)
      requires Valid()
      modifies this
      ensures Valid() && itemType == old(itemType) && name == old(name)
      ensures r == if itemType.None? then None else Some(SimpleType(itemType.value))
      ensures itemType.Some? ==> simpleType == r
    {
      if simpleType.Some? {
        return simpleType;
      }
      if itemType.None? {
        return None;
      }
      var s, _ := ParseSimpleType(itemType.value, 0);
      simpleType := Some(s);
      r := simpleType;
    }
  }

  /** parseSimpleType: the raw-name loop, then the argument loop, each
    * argument parsed recursively from the shared index, then the rebuild of
    * the argument list. */
  method ParseSimpleType(input: string, index: nat) returns (s: string, next: nat)
    requires index <= |input|
    ensures var r := TreeAt(input, index); s == Simple(r.0) && next == r.1
    decreases |input| - index, 0
  {
    var idx := index;
    while idx < |input| && !IsDelimiter(input[idx])
      invariant index <= idx <= |input|
      invariant RawEnd(input, idx) == RawEnd(input, index)
    {
      idx := idx + 1;
    }
    assert RawEnd(input, idx) == idx;
    TreeAtHead(input, index, idx);
    var typeName := SimpleName(Trim(input[index..idx]));
    if idx < |input| && input[idx] == '<' {
      var params;
      params, next := ParseParams(input, idx + 1, input[index..idx]);
      assert SimpleArgs(ArgsAt(input, idx + 1, input[index..idx], []).0.args) == params;
      var joined := JoinLoop(params);
      s := typeName + "<" + joined + ">";
    } else {
      s, next := typeName, idx;
    }
  }

  /** The StringBuilder loop that puts ", " between the arguments. */
  method JoinLoop(params: seq<string>) returns (s: string)
    ensures s == Join(params, ", ")
  {
    s := "";
    for i := 0 to |params|
      invariant s == Join(params[..i], ", ")
    {
      assert params[..i + 1] == params[..i] + [params[i]];
      if i > 0 {
        JoinSnoc(params[..i], params[i], ", ");
        s := s + ", ";
      }
      s := s + params[i];
    }
    assert params[..|params|] == params;
  }

  /** The `while (true)` argument loop of parseSimpleType, for the type whose
    * raw name is raw: each argument rendered, and the position after the
    * loop. */
  method ParseParams(input: string, index: nat, ghost raw: string) returns (params: seq<string>, next: nat)
    requires index <= |input|
    ensures var r := ArgsAt(input, index, raw, []);
      |params| == |r.0.args| && (forall k :: 0 <= k < |params| ==> params[k] == Simple(r.0.args[k])) &&
      next == r.1
    decreases |input| - index, 1
  {
    var idx := index;
    params := [];
    ghost var read: seq<Generic> := [];
    while true
      invariant index <= idx <= |input|
      invariant |params| == |read| && forall k :: 0 <= k < |read| ==> params[k] == Simple(read[k])
      invariant ArgsAt(input, idx, raw, read) == ArgsAt(input, index, raw, [])
      decreases |input| - idx
    {
      var p, after := ParseSimpleType(input, idx);
      ghost var t := TreeAt(input, idx).0;
      ArgsAtStep(input, idx, raw, read);
      params := params + [p];
      read := read + [t];
      if after >= |input| {
        return params, after;
      }
      if input[after] == '>' {
        return params, after + 1;
      }
      idx := after + 1;
    }
  }
}
