/**
 * TypeSignatureParser: a recursive-descent parser with a mutable cursor that
 * turns "raw<arg, arg>" signatures (the parameterized-type syntax of section
 * 4.5 of the Java Language Specification) into type trees. Leaf names go to a
 * type lookup, given here as the function `load`; a lookup that fails is the
 * IllegalArgumentException the parser lets through.
 */
module TypeSignatures {
  import opened Wrappers
  import opened JavaStrings
  import opened JavaTypes

  /** The two IllegalArgumentExceptions a parse can end with. */
  datatype ParseError =
    | Expected(expected: char, position: nat)
    | UnknownType(name: string)

  /** The exception text of a failed expect(c). */
  function ExpectedMessage(c: char, position: nat, s: string): string {
    "Expected '" + [c] + "' at position " + IntToString(position) + " in: " + s
  }

  /** isBoundary: the characters that end an identifier. */
  predicate IsBoundary(c: char) {
    c == '<' || c == '>' || c == ',' || IsWhitespace(c)
  }

  /** Where readIdentifier stops when started at i: the first boundary at or
    * after i, or the end of the input. */
  function IdentEnd(s: string, i: nat): (j: nat)
    requires i <= |s|
    ensures i <= j <= |s|
    decreases |s| - i
  {
    if i < |s| && !IsBoundary(s[i]) then IdentEnd(s, i + 1) else i
  }

  /** Where skipSpaces stops when started at i. */
  function SkipSpaces(s: string, i: nat): (j: nat)
    requires i <= |s|
    ensures i <= j <= |s|
    decreases |s| - i
  {
    if i < |s| && IsWhitespace(s[i]) then SkipSpaces(s, i + 1) else i
  }

  /** peek: the character at i, or '\0' past the end. */
  function PeekAt(s: string, i: nat): char {
    if i < |s| then s[i] else '\0'
  }

  /** parseType started at position i: the tree and the position after it. */
  function ParseTypeAt(s: string, i: nat, load: string -> Option<LeafType>): (r: Result<(JType, nat), ParseError>)
    requires i <= |s|
    ensures r.Success? ==> i <= r.value.1 <= |s|
    decreases |s| - i, 0
  {
    var e := IdentEnd(s, i);
    var raw := Trim(s[i..e]);
    var j := SkipSpaces(s, e);
    if PeekAt(s, j) != '<' then
      match load(raw)
      case None => Failure(UnknownType(raw))
      case Some(l) => Success((Leaf(l), j))
    else
      ParseArgsAt(s, j + 1, load, raw, [])
  }

  /** One turn of the argument loop of parseType, started at position i with
    * the arguments acc already collected: an argument, then the rest. */
  function ParseArgsAt(s: string, i: nat, load: string -> Option<LeafType>, raw: string, acc: seq<JType>)
    : (r: Result<(JType, nat), ParseError>)
    requires i <= |s|
    ensures r.Success? ==> i <= r.value.1 <= |s|
    decreases |s| - i, 2
  {
    var arg := ParseTypeAt(s, SkipSpaces(s, i), load);
    if arg.Failure? then Failure(arg.error)
    else AfterArgAt(s, arg.value.1, load, raw, acc + [arg.value.0])
  }

  /** What follows an argument ending at k: ',' and another turn, or
    * expect('>'). */
  function AfterArgAt(s: string, k: nat, load: string -> Option<LeafType>, raw: string, args: seq<JType>)
    : (r: Result<(JType, nat), ParseError>)
    requires k <= |s|
    ensures r.Success? ==> k <= r.value.1 <= |s|
    decreases |s| - k, 1
  {
    var m := SkipSpaces(s, k);
    if PeekAt(s, m) == ',' then ParseArgsAt(s, m + 1, load, raw, args)
    else if PeekAt(s, m) == '>' then Success((Parameterized(raw, args), m + 1))
    else Failure(Expected('>', m))
  }

  /** TypeSignatureParser.parse: the outermost type; input after it is not
    * looked at. */
  function ParseSignature(s: string, load: string -> Option<LeafType>): Result<JType, ParseError> {
    match ParseTypeAt(s, 0, load)
    case Success((t, _)) => Success(t)
    case Failure(err) => Failure(err)
  }

  /** How a parser run agrees with the functional parse: the same result, and
    * on success the cursor at the position the functional parse reports. */
  predicate Agrees(spec: Result<(JType, nat), ParseError>, r: Result<JType, ParseError>, pos: nat) {
    match spec
    case Success((t, end)) => r == Success(t) && pos == end
    case Failure(err) => r == Failure(err)
  }

  /** The parser object: the input and the lookup are fixed, the cursor moves. */
  class Parser {
    const s: string
    const load: string -> Option<LeafType>
    var pos: nat

    predicate Valid()
      reads this
    {
      pos <= |s|
    }

    constructor (s: string, load: string -> Option<LeafType>)
      ensures Valid() && this.s == s && this.load == load && pos == 0
    {
      this.s := s;
      this.load := load;
      pos := 0;
    }

    /** peek: the character under the cursor, '\0' past the end. */
    function Peek(): (c: char)
      reads this
      requires Valid()
      ensures c == PeekAt(s, pos)
      ensures pos < |s| ==> c == s[pos]
    {
      if pos < |s| then s[pos] else '\0'
    }

    /** next: consumes one character when there is one. */
    method Next()
      requires Valid()
      modifies this
      ensures Valid()
      ensures pos == if old(pos) < |s| then old(pos) + 1 else old(pos)
    {
      if pos < |s| {
        pos := pos + 1;
      }
    }

    /** readIdentifier: consumes up to the next boundary and returns what it
      * consumed, trimmed. */
    method ReadIdentifier() returns (id: string)
      requires Valid()
      modifies this
      ensures Valid()
      ensures pos == IdentEnd(s, old(pos)) && id == Trim(s[old(pos)..pos])
    {
      var start := pos;
      while pos < |s| && !IsBoundary(s[pos])
        invariant start <= pos <= |s|
        invariant IdentEnd(s, pos) == IdentEnd(s, start)
        decreases |s| - pos
      {
        pos := pos + 1;
      }
      id := Trim(s[start..pos]);
    }

    /** skipSpaces. */
    method SkipSpacesHere()
      requires Valid()
      modifies this
      ensures Valid() && pos == SkipSpaces(s, old(pos))
    {
      ghost var start := pos;
      while pos < |s| && IsWhitespace(s[pos])
        invariant start <= pos <= |s|
        invariant SkipSpaces(s, pos) == SkipSpaces(s, start)
        decreases |s| - pos
      {
        pos := pos + 1;
      }
    }

    /** expect: consumes c, or fails with an IllegalArgumentException naming
      * c and the position. The parser only ever expects '>'. */
    method Expect(c: char) returns (err: Option<ParseError>)
      requires Valid() && c != '\0'
      modifies this
      ensures Valid()
      ensures PeekAt(s, old(pos)) == c ==> err == None && pos == old(pos) + 1
      ensures PeekAt(s, old(pos)) != c ==> err == Some(Expected(c, old(pos))) && pos == old(pos)
    {
      if Peek() != c {
        return Some(Expected(c, pos));
      }
      pos := pos + 1;
      return None;
    }

    /** parseType: on success the cursor stands just after the parsed type. */
    method ParseType() returns (r: Result<JType, ParseError>)
      requires Valid()
      modifies this
      ensures Valid() && Agrees(ParseTypeAt(s, old(pos), load), r, pos)
      decreases |s| - pos, 0
    {
      var raw := ReadIdentifier();
      SkipSpacesHere();
      if Peek() != '<' {
        match load(raw)
        case None => return Failure(UnknownType(raw));
        case Some(l) => return Success(Leaf(l));
      }
      Next();
      r := ParseArgs(raw);
    }

    /** The argument loop of parseType, entered just after '<', followed by
      * expect('>'). */
    method ParseArgs(raw: string) returns (r: Result<JType, ParseError>)
      requires Valid()
      modifies this
      ensures Valid() && Agrees(ParseArgsAt(s, old(pos), load, raw, []), r, pos)
      decreases |s| - pos, 2
    {
      ghost var start := pos;
      var args: seq<JType> := [];
      while true
        invariant Valid() && start <= pos
        invariant ParseArgsAt(s, pos, load, raw, args) == ParseArgsAt(s, start, load, raw, [])
        decreases |s| - pos
      {
        var done;
        done, args := ArgTurn(raw, args);
        if done.Some? {
          return done.value;
        }
      }
    }

    /** One turn of the argument loop: an argument, then what follows it. */
    method ArgTurn(raw: string, args: seq<JType>) returns (done: Option<Result<JType, ParseError>>, args': seq<JType>)
      requires Valid()
      modifies this
      ensures Valid()
      ensures done.Some? ==> Agrees(ParseArgsAt(s, old(pos), load, raw, args), done.value, pos)
      ensures done.None? ==> old(pos) < pos && ParseArgsAt(s, pos, load, raw, args') == ParseArgsAt(s, old(pos), load, raw, args)
      decreases |s| - pos, 1
    {
      SkipSpacesHere();
      var arg := ParseType();
      if arg.Failure? {
        return Some(Failure(arg.error)), args;
      }
      args' := args + [arg.value];
      done := AfterArg(raw, args');
    }

    /** After an argument: ',' (another turn follows) or expect('>') (the
      * loop's outcome). */
    method AfterArg(raw: string, args: seq<JType>) returns (done: Option<Result<JType, ParseError>>)
      requires Valid()
      modifies this
      ensures Valid()
      ensures done.Some? ==> Agrees(AfterArgAt(s, old(pos), load, raw, args), done.value, pos)
      ensures done.None? ==> old(pos) < pos && ParseArgsAt(s, pos, load, raw, args) == AfterArgAt(s, old(pos), load, raw, args)
    {
      SkipSpacesHere();
      if Peek() == ',' {
        Next();
        return None;
      }
      var err := Expect('>');
      if err.Some? {
        return Some(Failure(err.value));
      }
      return Some(Success(Parameterized(raw, args)));
    }
  }

  /** TypeSignatureParser.parse, run on a fresh parser. */
  method Parse(signature: string, load: string -> Option<LeafType>) returns (r: Result<JType, ParseError>)
    ensures r == ParseSignature(signature, load)
  {
    var p := new Parser(signature, load);
    r := p.ParseType();
  }

  // ---------------------------------------------------------------------
  // Properties of the parser

  /** readIdentifier stops exactly at the first boundary. */
  lemma {:induction false} IdentEndAt(s: string, i: nat, j: nat)
    requires i <= j <= |s|
    requires forall k :: i <= k < j ==> !IsBoundary(s[k])
    requires j == |s| || IsBoundary(s[j])
    ensures IdentEnd(s, i) == j
    decreases j - i
  {
    if i < j {
      IdentEndAt(s, i + 1, j);
    }
  }

  /** skipSpaces stops exactly at the first non-whitespace character. */
  lemma {:induction false} SkipSpacesAt(s: string, i: nat, j: nat)
    requires i <= j <= |s|
    requires forall k :: i <= k < j ==> IsWhitespace(s[k])
    requires j == |s| || !IsWhitespace(s[j])
    ensures SkipSpaces(s, i) == j
    decreases j - i
  {
    if i < j {
      SkipSpacesAt(s, i + 1, j);
    }
  }

  /** A name that reads back as itself: non-empty, no boundary character and
    * nothing trim() would remove. */
  predicate CleanName(n: string) {
    |n| >= 1 && forall k :: 0 <= k < |n| ==> !IsBoundary(n[k]) && !IsTrimmable(n[k])
  }

  /** The functional parse of one type at i gives r. */
  predicate TypeParsesAt(s: string, i: nat, load: string -> Option<LeafType>, r: Result<(JType, nat), ParseError>) {
    i <= |s| && ParseTypeAt(s, i, load) == r
  }

  /** The functional argument loop from i, with acc collected so far, gives r. */
  predicate ArgsParseAt(s: string, i: nat, load: string -> Option<LeafType>, raw: string, acc: seq<JType>,
                        r: Result<(JType, nat), ParseError>) {
    i <= |s| && ParseArgsAt(s, i, load, raw, acc) == r
  }

  /** A clean name at i followed by the end, ',' or '>' parses as the leaf the
    * lookup gives for it. */
  lemma LeafAt(s: string, i: nat, j: nat, load: string -> Option<LeafType>)
    requires i < j <= |s| && CleanName(s[i..j])
    requires j == |s| || s[j] == ',' || s[j] == '>'
    ensures load(s[i..j]).None? ==> ParseTypeAt(s, i, load) == Failure(UnknownType(s[i..j]))
    ensures load(s[i..j]).Some? ==> ParseTypeAt(s, i, load) == Success((Leaf(load(s[i..j]).value), j))
  {
    var n := s[i..j];
    forall k | i <= k < j ensures !IsBoundary(s[k]) {
      assert s[k] == n[k - i];
    }
    IdentEndAt(s, i, j);
    TrimClean(n);
    SkipSpacesAt(s, j, j);
  }

  /** An identifier with nothing after it is the looked-up leaf for that
    * identifier, e.g. "java.math.BigDecimal"; an unknown one is an
    * IllegalArgumentException. */
  lemma ParseLeaf(name: string, load: string -> Option<LeafType>)
    requires CleanName(name)
    ensures load(name).Some? ==> ParseSignature(name, load) == Success(Leaf(load(name).value))
    ensures load(name).None? ==> ParseSignature(name, load) == Failure(UnknownType(name))
  {
    assert name[0..|name|] == name;
    LeafAt(name, 0, |name|, load);
  }

  /** A clean name at i followed by '<' starts the argument loop right after
    * the '<', with that name as the raw type. */
  lemma HeadAt(s: string, i: nat, e: nat, raw: string, load: string -> Option<LeafType>, r: Result<(JType, nat), ParseError>)
    requires i < e < |s| && s[i..e] == raw && CleanName(raw) && s[e] == '<'
    requires ArgsParseAt(s, e + 1, load, raw, [], r)
    ensures TypeParsesAt(s, i, load, r)
  {
    var n := s[i..e];
    forall k | i <= k < e ensures !IsBoundary(s[k]) {
      assert s[k] == n[k - i];
    }
    IdentEndAt(s, i, e);
    TrimClean(n);
    SkipSpacesAt(s, e, e);
  }

  /** A turn of the argument loop whose argument is followed by ',' goes on
    * with another turn right after the ','. */
  lemma ArgThenComma(s: string, i: nat, load: string -> Option<LeafType>, raw: string, acc: seq<JType>, t: JType, k: nat,
                     r: Result<(JType, nat), ParseError>)
    requires i <= |s| && TypeParsesAt(s, SkipSpaces(s, i), load, Success((t, k)))
    requires k < |s| && s[k] == ','
    requires ArgsParseAt(s, k + 1, load, raw, acc + [t], r)
    ensures ArgsParseAt(s, i, load, raw, acc, r)
  {
    SkipSpacesAt(s, k, k);
  }

  /** A turn of the argument loop whose argument is followed by '>' closes
    * the parameterized type. */
  lemma ArgThenClose(s: string, i: nat, load: string -> Option<LeafType>, raw: string, acc: seq<JType>, t: JType, k: nat,
                     all: seq<JType>, end: nat)
    requires i <= |s| && TypeParsesAt(s, SkipSpaces(s, i), load, Success((t, k)))
    requires k < |s| && s[k] == '>'
    requires all == acc + [t] && end == k + 1
    ensures ArgsParseAt(s, i, load, raw, acc, Success((Parameterized(raw, all), end)))
  {
    SkipSpacesAt(s, k, k);
  }

  /** A turn of the argument loop whose argument runs to the end of the
    * input fails expect('>') there. */
  lemma ArgThenEnd(s: string, i: nat, load: string -> Option<LeafType>, raw: string, acc: seq<JType>, t: JType)
    requires i <= |s| && TypeParsesAt(s, SkipSpaces(s, i), load, Success((t, |s|)))
    ensures ArgsParseAt(s, i, load, raw, acc, Failure(Expected('>', |s|)))
  {
    SkipSpacesAt(s, |s|, |s|);
  }

  /** "raw<arg" with no closing '>' fails at the end of the input instead of
    * producing a type, e.g. "java.util.Optional<java.math.BigDecimal". */
  lemma UnclosedFails(raw: string, arg: string, load: string -> Option<LeafType>)
    requires CleanName(raw) && CleanName(arg) && load(arg).Some?
    ensures ParseSignature(raw + "<" + arg, load) == Failure(Expected('>', |raw| + 1 + |arg|))
  {
    var s := raw + "<" + arg;
    var a := |raw| + 1;
    assert s[a..|s|] == arg;
    SkipSpacesAt(s, a, a);
    LeafAt(s, a, |s|, load);
    ArgThenEnd(s, a, load, raw, [], Leaf(load(arg).value));
    assert s[0..|raw|] == raw && s[|raw|] == '<';
    HeadAt(s, 0, |raw|, raw, load, Failure(Expected('>', |s|)));
  }

  /** The text a type tree is written as: a leaf by its type name, a
    * parameterized type as raw<arg, arg>, the form toQualifiedTypeString
    * writes and the parser reads. */
  function Signature(t: JType): string
    decreases t, 0
  {
    match t
    case Leaf(l) => TypeName(l)
    case Parameterized(raw, args) => raw + "<" + ArgsSignature(args) + ">"
  }

  function ArgsSignature(args: seq<JType>): string
    decreases args, 1
  {
    if |args| == 0 then ""
    else if |args| == 1 then Signature(args[0])
    else Signature(args[0]) + ", " + ArgsSignature(args[1..])
  }

  /** A tree the parser can read back from its signature: clean names, at
    * least one argument per parameterized type, and every leaf found again
    * by the lookup under its own type name. */
  predicate Readable(t: JType, load: string -> Option<LeafType>)
    decreases t, 0
  {
    match t
    case Leaf(l) => CleanName(TypeName(l)) && load(TypeName(l)) == Some(t.leaf)
    case Parameterized(raw, args) => CleanName(raw) && |args| >= 1 && ArgsReadable(args, load)
  }

  predicate ArgsReadable(args: seq<JType>, load: string -> Option<LeafType>)
    decreases args, 1
  {
    |args| == 0 || (Readable(args[0], load) && ArgsReadable(args[1..], load))
  }

  /** A readable signature starts with a character that is neither
    * whitespace nor a boundary. */
  lemma SignatureStart(t: JType, load: string -> Option<LeafType>)
    requires Readable(t, load)
    ensures |Signature(t)| >= 1 && !IsBoundary(Signature(t)[0])
  {
    match t
    case Leaf(l) =>
    case Parameterized(raw, args) =>
      assert Signature(t)[0] == raw[0];
  }

  /** The signature of a readable tree, found at i and followed by the end,
    * ',' or '>', parses back to the tree and stops right after it. */
  lemma {:induction false} ParseAt(s: string, i: nat, t: JType, load: string -> Option<LeafType>)
    requires Readable(t, load)
    requires i + |Signature(t)| <= |s| && s[i..i + |Signature(t)|] == Signature(t)
    requires i + |Signature(t)| == |s| || s[i + |Signature(t)|] == ',' || s[i + |Signature(t)|] == '>'
    ensures TypeParsesAt(s, i, load, Success((t, i + |Signature(t)|)))
    decreases t, 2
  {
    match t
    case Leaf(l) =>
      LeafAt(s, i, i + |Signature(t)|, load);
      assert load(s[i..i + |Signature(t)|]) == Some(l);
    case Parameterized(raw, args) =>
      Regroup(raw, "<", ArgsSignature(args), ">");
      HeadSplit(s, i, raw, args);
      ParameterizedAt(s, i, raw, args, load, i + |Signature(t)|);
  }

  /** raw<args> found at i parses to the parameterized type and stops right
    * after the '>'. */
  lemma {:induction false} ParameterizedAt(s: string, i: nat, raw: string, args: seq<JType>,
                                          load: string -> Option<LeafType>, end: nat)
    requires CleanName(raw) && |args| >= 1 && ArgsReadable(args, load)
    requires i + |raw| < |s| && s[i..i + |raw|] == raw && s[i + |raw|] == '<'
    requires ArgsAt(s, i + |raw| + 1, args) && end == i + |raw| + 1 + |ArgsSignature(args)| + 1
    ensures TypeParsesAt(s, i, load, Success((Parameterized(raw, args), end)))
    decreases args, 6
  {
    FirstArgs(s, i + |raw| + 1, raw, args, load, end);
    HeadAt(s, i, i + |raw|, raw, load, Success((Parameterized(raw, args), end)));
  }

  /** The arguments' signatures and '>' right after '<' at j - 1: the argument
    * loop collects them all and stops after the '>'. */
  lemma FirstArgs(s: string, j: nat, raw: string, args: seq<JType>, load: string -> Option<LeafType>, end: nat)
    requires |args| >= 1 && ArgsReadable(args, load) && ArgsAt(s, j, args)
    requires end == j + |ArgsSignature(args)| + 1
    ensures ArgsParseAt(s, j, load, raw, [], Success((Parameterized(raw, args), end)))
    decreases args, 5
  {
    assert [] + args == args;
    ParseArgsList(s, j, j, raw, [], args, load, args, end);
  }

  /** Where the pieces of raw<args> lie. */
  lemma HeadSplit(s: string, i: nat, raw: string, args: seq<JType>)
    requires i + |raw| + 1 + |ArgsSignature(args)| + 1 <= |s|
    requires s[i..i + |raw| + 1 + |ArgsSignature(args)| + 1] == raw + ("<" + (ArgsSignature(args) + ">"))
    ensures s[i..i + |raw|] == raw && s[i + |raw|] == '<' && ArgsAt(s, i + |raw| + 1, args)
  {
    var body := ArgsSignature(args);
    SplitAt(s, i, raw, "<" + (body + ">"));
    SplitAt(s, i + |raw|, "<", body + ">");
  }

  /** At most one space on [i, j), then the arguments' signatures and '>' at
    * j: the argument loop collects them after acc and stops after the '>'. */
  lemma {:induction false} ParseArgsList(s: string, i: nat, j: nat, raw: string, acc: seq<JType>,
                                        args: seq<JType>, load: string -> Option<LeafType>,
                                        all: seq<JType>, end: nat)
    requires |args| >= 1 && ArgsReadable(args, load)
    requires Gap(s, i, j) && ArgsAt(s, j, args)
    requires all == acc + args && end == j + |ArgsSignature(args)| + 1
    ensures ArgsParseAt(s, i, load, raw, acc, Success((Parameterized(raw, all), end)))
    decreases args, 4
  {
    if |args| == 1 {
      LastArg(s, i, j, raw, acc, args, load);
    } else {
      NextArg(s, i, j, raw, acc, args, load);
    }
  }

  /** Nothing or a single space on [i, j). */
  predicate Gap(s: string, i: nat, j: nat) {
    i == j || (i + 1 == j && j <= |s| && s[i] == ' ')
  }

  /** The arguments' signatures, then '>', found at j. */
  predicate ArgsAt(s: string, j: nat, args: seq<JType>) {
    j + |ArgsSignature(args)| + 1 <= |s| && s[j..j + |ArgsSignature(args)| + 1] == ArgsSignature(args) + ">"
  }

  /** The first argument is readable and its signature starts at j. */
  lemma FirstArgAt(s: string, i: nat, j: nat, args: seq<JType>, load: string -> Option<LeafType>)
    requires |args| >= 1 && ArgsReadable(args, load)
    requires Gap(s, i, j) && ArgsAt(s, j, args)
    ensures Readable(args[0], load) && SkipSpaces(s, i) == j
  {
    var body := ArgsSignature(args);
    SignatureStart(args[0], load);
    assert s[j] == (body + ">")[0] == Signature(args[0])[0];
    SkipSpacesAt(s, i, j);
  }

  /** The single remaining argument, then '>'. */
  lemma {:induction false} LastArg(s: string, i: nat, j: nat, raw: string, acc: seq<JType>,
                                  args: seq<JType>, load: string -> Option<LeafType>)
    requires |args| == 1 && ArgsReadable(args, load)
    requires Gap(s, i, j) && ArgsAt(s, j, args)
    ensures ArgsParseAt(s, i, load, raw, acc, Success((Parameterized(raw, acc + args), j + |ArgsSignature(args)| + 1)))
    decreases args, 3
  {
    LastArgTurn(s, i, j, args, load);
    assert acc + args == acc + [args[0]];
    ArgThenClose(s, i, load, raw, acc, args[0], j + |Signature(args[0])|, acc + args, j + |ArgsSignature(args)| + 1);
  }

  /** The turn of the argument loop at i reads the single remaining argument,
    * which is followed by '>'. */
  lemma LastArgTurn(s: string, i: nat, j: nat, args: seq<JType>, load: string -> Option<LeafType>)
    requires |args| == 1 && ArgsReadable(args, load)
    requires Gap(s, i, j) && ArgsAt(s, j, args)
    ensures i <= |s| && TypeParsesAt(s, SkipSpaces(s, i), load, Success((args[0], j + |Signature(args[0])|)))
    ensures |ArgsSignature(args)| == |Signature(args[0])|
    ensures j + |Signature(args[0])| < |s| && s[j + |Signature(args[0])|] == '>'
    decreases args, 1
  {
    var sig := Signature(args[0]);
    FirstArgAt(s, i, j, args, load);
    assert ArgsSignature(args) + ">" == sig + ">";
    SplitAt(s, j, sig, ">");
    ParseAt(s, j, args[0], load);
  }

  /** The first of several remaining arguments, then ", " and the rest. */
  lemma {:induction false} NextArg(s: string, i: nat, j: nat, raw: string, acc: seq<JType>,
                                  args: seq<JType>, load: string -> Option<LeafType>)
    requires |args| >= 2 && ArgsReadable(args, load)
    requires Gap(s, i, j) && ArgsAt(s, j, args)
    ensures ArgsParseAt(s, i, load, raw, acc, Success((Parameterized(raw, acc + args), j + |ArgsSignature(args)| + 1)))
    decreases args, 3
  {
    RestArgs(s, j, raw, acc, args, load);
    FirstArgComma(s, i, j, raw, acc, args, load, Success((Parameterized(raw, acc + args), j + |ArgsSignature(args)| + 1)));
  }

  /** The first of several remaining arguments is parsed and the ", " after
    * it consumed. */
  lemma FirstArgComma(s: string, i: nat, j: nat, raw: string, acc: seq<JType>,
                      args: seq<JType>, load: string -> Option<LeafType>, r: Result<(JType, nat), ParseError>)
    requires |args| >= 2 && ArgsReadable(args, load)
    requires Gap(s, i, j) && ArgsAt(s, j, args)
    requires ArgsParseAt(s, j + |Signature(args[0])| + 1, load, raw, acc + [args[0]], r)
    ensures ArgsParseAt(s, i, load, raw, acc, r)
    decreases args, 2
  {
    FirstArgTurn(s, i, j, args, load);
    ArgThenComma(s, i, load, raw, acc, args[0], j + |Signature(args[0])|, r);
  }

  /** The turn of the argument loop at i reads the first of several
    * arguments, which is followed by ','. */
  lemma FirstArgTurn(s: string, i: nat, j: nat, args: seq<JType>, load: string -> Option<LeafType>)
    requires |args| >= 2 && ArgsReadable(args, load)
    requires Gap(s, i, j) && ArgsAt(s, j, args)
    ensures i <= |s| && TypeParsesAt(s, SkipSpaces(s, i), load, Success((args[0], j + |Signature(args[0])|)))
    ensures j + |Signature(args[0])| < |s| && s[j + |Signature(args[0])|] == ','
    decreases args, 1
  {
    FirstArgAt(s, i, j, args, load);
    FirstArgParses(s, j, args, load);
  }

  /** The first of several arguments parses from j and is followed by ','. */
  lemma FirstArgParses(s: string, j: nat, args: seq<JType>, load: string -> Option<LeafType>)
    requires |args| >= 2 && Readable(args[0], load) && ArgsAt(s, j, args)
    ensures TypeParsesAt(s, j, load, Success((args[0], j + |Signature(args[0])|)))
    ensures j + |Signature(args[0])| < |s| && s[j + |Signature(args[0])|] == ','
    decreases args, 0
  {
    SplitArgsHead(s, j, args);
    ParseAt(s, j, args[0], load);
  }

  /** After the first of several arguments and its ',', the argument loop
    * collects the rest and stops after the '>'. */
  lemma {:induction false} RestArgs(s: string, j: nat, raw: string, acc: seq<JType>,
                                   args: seq<JType>, load: string -> Option<LeafType>)
    requires |args| >= 2 && ArgsReadable(args, load) && ArgsAt(s, j, args)
    ensures ArgsParseAt(s, j + |Signature(args[0])| + 1, load, raw, acc + [args[0]],
                        Success((Parameterized(raw, acc + args), j + |ArgsSignature(args)| + 1)))
    decreases args, 2
  {
    SplitArgsTail(s, j, args);
    assert acc + [args[0]] + args[1..] == acc + args;
    ParseArgsList(s, j + |Signature(args[0])| + 1, j + |Signature(args[0])| + 2, raw, acc + [args[0]], args[1..], load,
                  acc + args, j + |ArgsSignature(args)| + 1);
  }

  /** Several arguments' signatures are the first one's, ", " and the rest's. */
  lemma ArgsCons(s: string, j: nat, args: seq<JType>)
    requires |args| >= 2 && ArgsAt(s, j, args)
    ensures |ArgsSignature(args)| == |Signature(args[0])| + 2 + |ArgsSignature(args[1..])|
    ensures s[j..j + |Signature(args[0])| + 2 + (|ArgsSignature(args[1..])| + 1)]
      == Signature(args[0]) + (", " + (ArgsSignature(args[1..]) + ">"))
  {
    var sig := Signature(args[0]);
    var rest := ArgsSignature(args[1..]);
    assert ArgsSignature(args) == sig + ", " + rest;
    Regroup(sig, ", ", rest, ">");
  }

  /** Where the first of several arguments and the ',' after it lie. */
  lemma SplitArgsHead(s: string, j: nat, args: seq<JType>)
    requires |args| >= 2 && ArgsAt(s, j, args)
    ensures s[j..j + |Signature(args[0])|] == Signature(args[0]) && s[j + |Signature(args[0])|] == ','
  {
    ArgsCons(s, j, args);
    SplitComma(s, j, Signature(args[0]), ArgsSignature(args[1..]) + ">");
  }

  /** Where the rest of several arguments lies, after ", ". */
  lemma SplitArgsTail(s: string, j: nat, args: seq<JType>)
    requires |args| >= 2 && ArgsAt(s, j, args)
    ensures |ArgsSignature(args)| == |Signature(args[0])| + 2 + |ArgsSignature(args[1..])|
    ensures Gap(s, j + |Signature(args[0])| + 1, j + |Signature(args[0])| + 2)
    ensures ArgsAt(s, j + |Signature(args[0])| + 2, args[1..])
  {
    ArgsSplit(s, j, args, Signature(args[0]), ArgsSignature(args[1..]));
  }

  /** ArgsAt for several arguments, with the first one's signature sig and
    * the rest's body: the ", " after sig, then the rest and '>'. */
  lemma ArgsSplit(s: string, j: nat, args: seq<JType>, sig: string, body: string)
    requires |args| >= 2 && ArgsAt(s, j, args)
    requires sig == Signature(args[0]) && body == ArgsSignature(args[1..])
    ensures |ArgsSignature(args)| == |sig| + 2 + |body|
    ensures j + |sig| + 2 <= |s| && s[j + |sig| + 1] == ' '
    ensures j + |sig| + 2 + |body| + 1 <= |s| && s[j + |sig| + 2..j + |sig| + 2 + |body| + 1] == body + ">"
  {
    var head := sig + ", ";
    assert ArgsSignature(args) + ">" == head + (body + ">");
    SplitAt(s, j, head, body + ">");
    assert s[j + |sig| + 1] == s[j..j + |head|][|sig| + 1] == ' ';
  }

  /** w1, ", " and w2 found together at j are each found at their own place. */
  lemma SplitComma(s: string, j: nat, w1: string, w2: string)
    requires j + |w1| + 2 + |w2| <= |s| && s[j..j + |w1| + 2 + |w2|] == w1 + (", " + w2)
    ensures s[j..j + |w1|] == w1 && s[j + |w1|] == ',' && s[j + |w1| + 1] == ' '
    ensures s[j + |w1| + 2..j + |w1| + 2 + |w2|] == w2
  {
    SplitAt(s, j, w1, ", " + w2);
    SplitAt(s, j + |w1|, ",", " " + w2);
    SplitAt(s, j + |w1| + 1, " ", w2);
  }

  /** Parsing the signature of a readable tree gives the tree back. */
  lemma ParseSignatureRoundTrip(t: JType, load: string -> Option<LeafType>)
    requires Readable(t, load)
    ensures ParseSignature(Signature(t), load) == Success(t)
  {
    var s := Signature(t);
    assert s[0..|s|] == s;
    ParseAt(s, 0, t, load);
  }

  /** parse does not check that the outermost type ends the input: a stray
    * ',' or '>' and anything after it are ignored. */
  lemma TrailingInputIgnored(t: JType, rest: string, load: string -> Option<LeafType>)
    requires Readable(t, load)
    requires rest != [] && (rest[0] == ',' || rest[0] == '>')
    ensures ParseSignature(Signature(t) + rest, load) == Success(t)
  {
    var s := Signature(t) + rest;
    assert s[0..|Signature(t)|] == Signature(t);
    assert s[|Signature(t)|] == rest[0];
    ParseAt(s, 0, t, load);
  }
}
