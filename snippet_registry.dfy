// The Java snippet registry: the rewrite of a snippet's package line when it
// is registered, the memoised list of the snippets' context types, and the
// package statement completion puts in place of "${packagename}".

module JavaSnippets {
  import opened Wrappers
  import opened JavaStrings

  /** PACKAGENAME_KEY. */
  const PackageNameKey := "packagename"

  /** The first line a package-aware body starts with once registered. */
  const PackagePlaceholder := "${" + PackageNameKey + "}"

  /** A snippet's context: a Java context with its list of types (null is
    * None), or another kind of context. */
  datatype SnippetContext = JavaContext(types: Option<seq<string>>) | OtherContext

  /** Snippet: the context (null is None) is fixed, the body's lines are
    * edited in place. */
  class Snippet {
    const context: Option<SnippetContext>
    var body: seq<string>

    constructor (context: Option<SnippetContext>, body: seq<string>)
      ensures this.context == context && this.body == body
    {
      this.context := context;
      this.body := body;
    }
  }

  /** Whether preprocessSnippetBody rewrites a body: its first line holds
    * both "${" and "packagename". */
  predicate RewritesPackage(body: seq<string>) {
    |body| > 0 && Contains(body[0], "${") && Contains(body[0], PackageNameKey)
  }

  /** preprocessSnippetBody on the body's lines: an empty second line is
    * dropped, the line after it (if any) is dropped too and appended to
    * "${packagename}", which becomes the first line. */
  function Preprocessed(body: seq<string>): seq<string> {
    if !RewritesPackage(body) then body
    else
      var b := if |body| >= 2 && body[1] == "" then body[..1] + body[2..] else body;
      var line := if |b| >= 2 then b[1] else "";
      var rest := if |b| >= 2 then b[..1] + b[2..] else b;
      [PackagePlaceholder + line] + rest[1..]
  }

  /** A body without a package line is left as it is. */
  lemma PreprocessedUnchanged(body: seq<string>)
    requires !RewritesPackage(body)
    ensures Preprocessed(body) == body
  {
  }

  /** The three-line package header collapses to one line: the package line
    * and the empty line are gone, the import line follows
    * "${packagename}", and the rest of the body is kept. */
  lemma PreprocessedHeader(body: seq<string>)
    requires RewritesPackage(body) && |body| >= 3 && body[1] == ""
    ensures Preprocessed(body) == [PackagePlaceholder + body[2]] + body[3..]
  {
    var b := body[..1] + body[2..];
    assert b[1] == body[2];
    assert (b[..1] + b[2..])[1..] == body[3..];
  }

  /** Without an empty second line only the second line is merged into the
    * first. */
  lemma PreprocessedNoBlank(body: seq<string>)
    requires RewritesPackage(body) && |body| >= 2 && body[1] != ""
    ensures Preprocessed(body) == [PackagePlaceholder + body[1]] + body[2..]
  {
    assert (body[..1] + body[2..])[1..] == body[2..];
  }

  /** The rewrite replaces the first one, two or three lines by one line and
    * keeps the rest. */
  lemma PreprocessedShape(body: seq<string>)
    requires RewritesPackage(body)
    ensures var r := Preprocessed(body);
      |r| >= 1 && |body| - 2 <= |r| <= |body| && r[0][..|PackagePlaceholder|] == PackagePlaceholder &&
      r[1..] == body[|body| - |r| + 1..]
  {
    var r := Preprocessed(body);
    if |body| >= 3 && body[1] == "" {
      PreprocessedHeader(body);
    } else if |body| >= 2 && body[1] != "" {
      PreprocessedNoBlank(body);
    } else {
      assert |r| == 1;
    }
  }

  /** preprocessSnippetBody: rewrites the snippet's body in place. */
  method PreprocessSnippetBody(snippet: Snippet)
    modifies snippet
    ensures snippet.body == Preprocessed(old(snippet.body))
  {
    var body := snippet.body;
    if |body| == 0 {
      return;
    }
    var firstLine := body[0];
    if Contains(firstLine, "${") && Contains(firstLine, PackageNameKey) {
      if |body| >= 2 && body[1] == "" {
        body := body[..1] + body[2..];
      }
      var line := "";
      if |body| >= 2 {
        line := body[1];
        body := body[..1] + body[2..];
      }
      body := body[0 := PackagePlaceholder + line];
      snippet.body := body;
    }
  }

  // ----------------------------------------------------------------- types

  /** The types of a snippet's Java context, in order (none for another
    * context or a null list). */
  function ContextTypes(s: Snippet): seq<string> {
    if s.context.Some? && s.context.value.JavaContext? && s.context.value.types.Some? then s.context.value.types.value
    else []
  }

  /** All snippets' context types, in order, duplicates included. */
  function AllTypes(snippets: seq<Snippet>): seq<string>
    decreases |snippets|
  {
    if snippets == [] then []
    else AllTypes(snippets[..|snippets| - 1]) + ContextTypes(snippets[|snippets| - 1])
  }

  /** The types list add-if-absent builds from xs. */
  function Distinct(xs: seq<string>): seq<string>
    decreases |xs|
  {
    if xs == [] then []
    else
      var init := Distinct(xs[..|xs| - 1]);
      if xs[|xs| - 1] in init then init else init + [xs[|xs| - 1]]
  }

  /** The list holds each type of xs exactly once, in first-occurrence
    * order: any prefix of xs that holds a later element also holds every
    * earlier one. */
  lemma {:induction false} DistinctSpec(xs: seq<string>)
    ensures forall x :: x in Distinct(xs) <==> x in xs
    ensures forall i, j :: 0 <= i < j < |Distinct(xs)| ==> Distinct(xs)[i] != Distinct(xs)[j]
    ensures forall i, j, n :: 0 <= i < j < |Distinct(xs)| && 0 <= n <= |xs| && Distinct(xs)[j] in xs[..n] ==>
      Distinct(xs)[i] in xs[..n]
    decreases |xs|
  {
    if xs != [] {
      var init := xs[..|xs| - 1];
      var last := xs[|xs| - 1];
      DistinctSpec(init);
      var d := Distinct(init);
      var r := Distinct(xs);
      assert forall x :: x in xs <==> x in init || x == last;
      forall i, j, n | 0 <= i < j < |r| && 0 <= n <= |xs| && r[j] in xs[..n]
        ensures r[i] in xs[..n]
      {
        if n == |xs| {
          assert xs[..n] == xs;
        } else {
          assert xs[..n] == init[..n];
          assert r[j] in init[..n];
          assert j < |d|;
        }
      }
    }
  }

  /** getTypes' list computed from scratch. */
  function CollectTypes(snippets: seq<Snippet>): seq<string> {
    Distinct(AllTypes(snippets))
  }

  /** A type is listed exactly when some snippet's Java context names it. */
  lemma {:induction false} AllTypesMembers(snippets: seq<Snippet>, t: string)
    ensures t in AllTypes(snippets) <==> exists k :: 0 <= k < |snippets| && t in ContextTypes(snippets[k])
    decreases |snippets|
  {
    if snippets != [] {
      var init := snippets[..|snippets| - 1];
      AllTypesMembers(init, t);
      if t in AllTypes(init) {
        var k :| 0 <= k < |init| && t in ContextTypes(init[k]);
        assert snippets[k] == init[k];
      }
      if exists k :: 0 <= k < |snippets| && t in ContextTypes(snippets[k]) {
        var k :| 0 <= k < |snippets| && t in ContextTypes(snippets[k]);
        if k < |init| {
          assert init[k] == snippets[k];
        }
      }
    }
  }

  /** JavaTextDocumentSnippetRegistry: the registered snippets and the
    * memoised types list (null is None). */
  class SnippetRegistry {
    var snippets: seq<Snippet>
    var types: Option<seq<string>>

    constructor ()
      ensures snippets == [] && types.None?
    {
      snippets := [];
      types := None;
    }

    /** registerSnippet: the body is preprocessed, then the snippet is
      * registered. The types list is left as it is. */
    method RegisterSnippet(snippet: Snippet)
      modifies this, snippet
      ensures snippet.body == Preprocessed(old(snippet.body))
      ensures snippets == old(snippets) + [snippet] && types == old(types)
    {
      PreprocessSnippetBody(snippet);
      snippets := snippets + [snippet];
    }

    /** collectTypes: each distinct context type once, in first-occurrence
      * order. */
    method CollectTypesOf() returns (collected: seq<string>)
      ensures collected == CollectTypes(snippets)
    {
      collected := [];
      for i := 0 to |snippets|
        invariant collected == Distinct(AllTypes(snippets[..i]))
      {
        assert snippets[..i + 1][..i] == snippets[..i];
        var snippetTypes := ContextTypes(snippets[i]);
        ghost var before := AllTypes(snippets[..i]);
        assert AllTypes(snippets[..i + 1]) == before + snippetTypes;
        assert before + snippetTypes[..0] == before;
        for j := 0 to |snippetTypes|
          invariant collected == Distinct(before + snippetTypes[..j])
        {
          var xs := before + snippetTypes[..j + 1];
          assert xs[..|xs| - 1] == before + snippetTypes[..j];
          DistinctSpec(xs[..|xs| - 1]);
          if snippetTypes[j] !in collected {
            collected := collected + [snippetTypes[j]];
          }
        }
        assert snippetTypes[..|snippetTypes|] == snippetTypes;
      }
      assert snippets[..|snippets|] == snippets;
    }

    /** getTypes: computed on the first call, then served from the memo. */
    method GetTypes() returns (result: seq<string>)
      modifies this
      ensures old(types).Some? ==> result == old(types).value
      ensures old(types).None? ==> result == CollectTypes(snippets)
      ensures types == Some(result) && snippets == old(snippets)
    {
      if types.Some? {
        return types.value;
      }
      result := CollectTypesOf();
      types := Some(result);
    }
  }

  // ----------------------------------------------------- package statement

  /** The line delimiter: the document's first, or the system's when the
    * document has none. */
  function LineDelimiter(documentDelimiter: Option<string>, systemSeparator: string): string {
    if documentDelimiter.Some? then documentDelimiter.value else systemSeparator
  }

  /** The package statement getCompletionItems puts in place of
    * "${packagename}": a placeholder statement without a package name, the
    * package's statement for a named package, nothing for the default
    * package. */
  function PackageStatement(packageName: Option<string>, delimiter: string): (r: string)
    ensures packageName == Some("") ==> r == ""
  {
    if packageName.None? then "package ${1:packagename};" + delimiter + delimiter
    else if |packageName.value| > 0 then "package " + packageName.value + ";" + delimiter + delimiter
    else ""
  }

  /** Expanding a preprocessed first line restores the header it replaced:
    * the package line, an empty line and the import line joined by the
    * document's delimiter, with the package name in place of the
    * placeholder. */
  lemma ExpandedHeader(packageName: Option<string>, delimiter: string, line: string)
    requires packageName.None? || packageName.value != ""
    ensures PackageStatement(packageName, delimiter) + line ==
      Join([if packageName.None? then "package ${1:packagename};" else "package " + packageName.value + ";", "", line],
           delimiter)
  {
    var first := if packageName.None? then "package ${1:packagename};" else "package " + packageName.value + ";";
    var parts := [first, "", line];
    assert parts[1..] == ["", line] && ["", line][1..] == [line];
    assert Join(["", line], delimiter) == delimiter + line;
    assert Join(parts, delimiter) == first + delimiter + (delimiter + line);
    assert PackageStatement(packageName, delimiter) == first + delimiter + delimiter;
  }
}
