/** AbstractConverterRuntimeSupport: picks a converter-validator for a
  * parsed Java type (resolveConverter), splits collection values on commas
  * (CollectionConverter), and keeps one validator per type signature in a
  * cache that lives until the next reset. */
module ConverterRuntime {
  import opened Wrappers
  import opened JavaTypes
  import opened JavaStrings
  import opened ConverterValidators
  import opened EnumConverters
  import opened ExecutionModes

  // ---------------------------------------------------------------------
  // CollectionConverter: comma splitting with offsets
  // ---------------------------------------------------------------------

  /** One value handed to the element validator, with the offset passed as
    * its `start`. */
  datatype Segment = Segment(text: string, offset: int)

  /** The texts of the segments, in order. */
  function Texts(ps: seq<Segment>): seq<string> {
    seq(|ps|, k requires 0 <= k < |ps| => ps[k].text)
  }

  /** The last segment grown by c. */
  function Grown(ps: seq<Segment>, c: char): (r: seq<Segment>)
    requires |ps| >= 1
    ensures |r| == |ps| && r[|ps| - 1].text == ps[|ps| - 1].text + [c]
    ensures forall k :: 0 <= k < |ps| ==> r[k].offset == ps[k].offset
    ensures forall k :: 0 <= k < |ps| - 1 ==> r[k] == ps[k]
  {
    ps[|ps| - 1 := Segment(ps[|ps| - 1].text + [c], ps[|ps| - 1].offset)]
  }

  /** Growing the last of done + [s] grows s. */
  lemma GrownLast(done: seq<Segment>, s: Segment, c: char)
    ensures Grown(done + [s], c) == done + [Segment(s.text + [c], s.offset)]
  {
  }

  /** Grown, spelled as the segments before the last and the grown last. */
  lemma GrownSplit(ps: seq<Segment>, c: char)
    requires |ps| >= 1
    ensures Grown(ps, c) == ps[..|ps| - 1] + [Segment(ps[|ps| - 1].text + [c], ps[|ps| - 1].offset)]
  {
    GrownLast(ps[..|ps| - 1], ps[|ps| - 1], c);
    assert ps[..|ps| - 1] + [ps[|ps| - 1]] == ps;
  }

  /** The segments the validate loop has built after reading w: the finished
    * ones and, last, the one still being accumulated. A comma finishes the
    * current segment and opens a new one at `base` plus the position after
    * the comma; any other character extends the current one. The first
    * segment starts at `start`. */
  function Scan(w: string, start: int, base: int): (ps: seq<Segment>)
    ensures |ps| >= 1
  {
    if w == [] then [Segment("", start)]
    else Advance(Scan(w[..|w| - 1], start, base), w[|w| - 1], base + |w|)
  }

  /** One character read: a comma opens an empty segment at next, the offset
    * after it; any other character extends the last segment. */
  function Advance(ps: seq<Segment>, c: char, next: int): seq<Segment>
    requires |ps| >= 1
  {
    if c == ',' then ps + [Segment("", next)] else Grown(ps, c)
  }

  /** Drops the last segment when it is empty (the final `isEmpty` check). */
  function DropEmptyLast(ps: seq<Segment>): seq<Segment>
    requires |ps| >= 1
  {
    if ps[|ps| - 1].text == "" then ps[..|ps| - 1] else ps
  }

  /** The segments the loop as written forwards: after a comma at position
    * i it restarts at i + 1, counted from 0 rather than from `start`. */
  function AsWrittenSegments(value: string, start: int): seq<Segment> {
    DropEmptyLast(Scan(value, start, 0))
  }

  /** The segments the model forwards: every offset counted from `start`. */
  function Segments(value: string, start: int): seq<Segment> {
    DropEmptyLast(Scan(value, start, start))
  }

  /** Appending a character to the last piece appends it to the join. */
  lemma JoinExtendLast(parts: seq<string>, c: char, sep: string)
    requires |parts| >= 1
    ensures Join(parts[..|parts| - 1] + [parts[|parts| - 1] + [c]], sep) == Join(parts, sep) + [c]
  {
    var init := parts[..|parts| - 1];
    var last := parts[|parts| - 1];
    if |parts| > 1 {
      JoinSnoc(init, last + [c], sep);
      JoinSnoc(init, last, sep);
      assert init + [last] == parts;
    }
  }

  /** One more character read: a comma opens an empty segment at
    * `base` + the position after it, anything else extends the last one. */
  lemma ScanStep(u: string, c: char, start: int, base: int)
    ensures Scan(u + [c], start, base) == Advance(Scan(u, start, base), c, base + |u| + 1)
  {
    assert (u + [c])[..|u|] == u;
  }

  /** ScanStep at position i of a value. */
  lemma ScanNext(value: string, i: int, start: int, base: int)
    requires 0 <= i < |value|
    ensures Scan(value[..i + 1], start, base) == Advance(Scan(value[..i], start, base), value[i], base + i + 1)
  {
    assert value[..i + 1] == value[..i] + [value[i]];
    ScanStep(value[..i], value[i], start, base);
  }

  lemma TextsSnoc(ps: seq<Segment>, s: Segment)
    ensures Texts(ps + [s]) == Texts(ps) + [s.text]
  {
    assert (ps + [s])[..|ps|] == ps;
  }

  /** No segment text holds a comma. */
  predicate CommaFree(ts: seq<string>) {
    forall k :: 0 <= k < |ts| ==> ',' !in ts[k]
  }

  /** The segment texts are the comma-free pieces whose comma-join is w. */
  lemma {:induction false} ScanJoin(w: string, start: int, base: int)
    ensures Join(Texts(Scan(w, start, base)), ",") == w
    ensures CommaFree(Texts(Scan(w, start, base)))
    decreases |w|
  {
    if w != [] {
      var u := w[..|w| - 1];
      var c := w[|w| - 1];
      assert u + [c] == w;
      ScanJoin(u, start, base);
      ScanStep(u, c, start, base);
      if c == ',' {
        JoinComma(Scan(u, start, base), base + |w|);
      } else {
        JoinGrown(Scan(u, start, base), c);
      }
    }
  }

  /** A comma adds an empty piece: the join gains the comma. */
  lemma JoinComma(ps: seq<Segment>, offset: int)
    requires |ps| >= 1 && CommaFree(Texts(ps))
    ensures Join(Texts(ps + [Segment("", offset)]), ",") == Join(Texts(ps), ",") + [',']
    ensures CommaFree(Texts(ps + [Segment("", offset)]))
  {
    var ts := Texts(ps);
    var ts' := Texts(ps + [Segment("", offset)]);
    TextsSnoc(ps, Segment("", offset));
    JoinSnoc(ts, "", ",");
    forall k | 0 <= k < |ts'|
      ensures ',' !in ts'[k]
    {
      if k < |ts| {
        assert ts'[k] == ts[k];
      } else {
        assert ts'[k] == "";
      }
    }
  }

  /** Another character grows the last piece: the join gains it. */
  lemma JoinGrown(ps: seq<Segment>, c: char)
    requires |ps| >= 1 && c != ',' && CommaFree(Texts(ps))
    ensures Join(Texts(Grown(ps, c)), ",") == Join(Texts(ps), ",") + [c]
    ensures CommaFree(Texts(Grown(ps, c)))
  {
    var n := |ps|;
    var ts := Texts(ps);
    var ts' := Texts(Grown(ps, c));
    var grownLast := ts[n - 1] + [c];
    assert ',' !in grownLast;
    forall k | 0 <= k < n
      ensures ts'[k] == (ts[..n - 1] + [grownLast])[k]
    {
    }
    assert ts' == ts[..n - 1] + [grownLast];
    JoinExtendLast(ts, c, ",");
    forall k | 0 <= k < n
      ensures ',' !in ts'[k]
    {
      if k < n - 1 {
        assert ts'[k] == ts[k];
      }
    }
  }

  /** The segment texts are exactly the pieces between commas. */
  lemma ScanSplits(w: string, start: int, base: int)
    ensures Texts(Scan(w, start, base)) == SplitAll(w, ',')
  {
    ScanJoin(w, start, base);
    JoinSplitAll(Texts(Scan(w, start, base)), ',');
  }

  /** s's text lies in w at s.offset - origin. */
  predicate Placed(w: string, s: Segment, origin: int) {
    0 <= s.offset - origin && s.offset - origin + |s.text| <= |w| &&
    w[s.offset - origin..s.offset - origin + |s.text|] == s.text
  }

  /** s starts right after a comma of w, counting from origin. */
  predicate AfterComma(w: string, s: Segment, origin: int) {
    1 <= s.offset - origin <= |w| && w[s.offset - origin - 1] == ','
  }

  /** The origin offsets of segment k count from. */
  function Origin(k: int, start: int, base: int): int {
    if k == 0 then start else base
  }

  /** Every segment's text is in place in w. */
  predicate AllPlaced(w: string, ps: seq<Segment>, start: int, base: int) {
    forall k :: 0 <= k < |ps| ==> Placed(w, ps[k], Origin(k, start, base))
  }

  /** Every segment but the first starts right after a comma of w. */
  predicate AllAfterComma(w: string, ps: seq<Segment>, base: int) {
    forall k :: 1 <= k < |ps| ==> AfterComma(w, ps[k], base)
  }

  /** Where segments sit in w: the first at 0, each later one right after a
    * comma, each text in place, and the last reaching the end of w. */
  predicate WellPlaced(w: string, ps: seq<Segment>, start: int, base: int) {
    |ps| >= 1 && ps[0].offset == start &&
    AllPlaced(w, ps, start, base) && AllAfterComma(w, ps, base) &&
    ps[|ps| - 1].offset - Origin(|ps| - 1, start, base) + |ps[|ps| - 1].text| == |w|
  }

  lemma PlacedExtend(u: string, c: char, s: Segment, origin: int)
    requires Placed(u, s, origin)
    ensures Placed(u + [c], s, origin)
  {
    var p := s.offset - origin;
    assert (u + [c])[p..p + |s.text|] == u[p..p + |s.text|];
  }

  /** A comma keeps the segments in place and opens one right after it. */
  lemma PlacedComma(u: string, ps: seq<Segment>, start: int, base: int)
    requires WellPlaced(u, ps, start, base)
    ensures WellPlaced(u + [','], ps + [Segment("", base + |u| + 1)], start, base)
  {
    var ps' := ps + [Segment("", base + |u| + 1)];
    CommaPlaced(u, ps, start, base, ps');
    CommaAfterComma(u, ps, base, ps');
  }

  /** The segments of PlacedComma stay in place. */
  lemma CommaPlaced(u: string, ps: seq<Segment>, start: int, base: int, ps': seq<Segment>)
    requires |ps| >= 1 && AllPlaced(u, ps, start, base)
    requires ps' == ps + [Segment("", base + |u| + 1)]
    ensures AllPlaced(u + [','], ps', start, base)
  {
    forall k | 0 <= k < |ps'|
      ensures Placed(u + [','], ps'[k], Origin(k, start, base))
    {
      if k < |ps| {
        PlacedExtend(u, ',', ps[k], Origin(k, start, base));
      }
    }
  }

  /** The segments of PlacedComma start after their commas. */
  lemma CommaAfterComma(u: string, ps: seq<Segment>, base: int, ps': seq<Segment>)
    requires |ps| >= 1 && AllAfterComma(u, ps, base)
    requires ps' == ps + [Segment("", base + |u| + 1)]
    ensures AllAfterComma(u + [','], ps', base)
  {
    forall k | 1 <= k < |ps'|
      ensures AfterComma(u + [','], ps'[k], base)
    {
      if k < |ps| {
        assert AfterComma(u, ps[k], base);
        assert (u + [','])[ps[k].offset - base - 1] == u[ps[k].offset - base - 1];
      }
    }
  }

  /** A segment that ends at the end of u, grown by the next character. */
  lemma PlacedGrow(u: string, c: char, s: Segment, origin: int)
    requires Placed(u, s, origin) && s.offset - origin + |s.text| == |u|
    ensures Placed(u + [c], Segment(s.text + [c], s.offset), origin)
  {
    var p := s.offset - origin;
    assert (u + [c])[p..p + |s.text| + 1] == s.text + [c];
  }

  /** Another character keeps the segments in place and extends the last. */
  lemma PlacedChar(u: string, c: char, ps: seq<Segment>, start: int, base: int)
    requires WellPlaced(u, ps, start, base)
    ensures WellPlaced(u + [c], Grown(ps, c), start, base)
  {
    GrownPlaced(u, c, ps, start, base);
    GrownAfterComma(u, c, ps, base);
  }

  /** The segments of PlacedChar stay in place. */
  lemma GrownPlaced(u: string, c: char, ps: seq<Segment>, start: int, base: int)
    requires |ps| >= 1 && AllPlaced(u, ps, start, base)
    requires ps[|ps| - 1].offset - Origin(|ps| - 1, start, base) + |ps[|ps| - 1].text| == |u|
    ensures AllPlaced(u + [c], Grown(ps, c), start, base)
  {
    var n := |ps|;
    var ps' := Grown(ps, c);
    forall k | 0 <= k < n
      ensures Placed(u + [c], ps'[k], Origin(k, start, base))
    {
      var o := Origin(k, start, base);
      assert Placed(u, ps[k], o);
      if k < n - 1 {
        PlacedExtend(u, c, ps[k], o);
      } else {
        PlacedGrow(u, c, ps[k], o);
      }
    }
  }

  /** The segments of PlacedChar still start after their commas. */
  lemma GrownAfterComma(u: string, c: char, ps: seq<Segment>, base: int)
    requires |ps| >= 1 && AllAfterComma(u, ps, base)
    ensures AllAfterComma(u + [c], Grown(ps, c), base)
  {
    var ps' := Grown(ps, c);
    forall k | 1 <= k < |ps'|
      ensures AfterComma(u + [c], ps'[k], base)
    {
      assert AfterComma(u, ps[k], base);
      assert (u + [c])[ps[k].offset - base - 1] == u[ps[k].offset - base - 1];
    }
  }

  lemma {:induction false} ScanPositions(w: string, start: int, base: int)
    ensures WellPlaced(w, Scan(w, start, base), start, base)
    decreases |w|
  {
    if w != [] {
      var u := w[..|w| - 1];
      var c := w[|w| - 1];
      assert u + [c] == w;
      ScanPositions(u, start, base);
      ScanStep(u, c, start, base);
      if c == ',' {
        PlacedComma(u, Scan(u, start, base), start, base);
      } else {
        PlacedChar(u, c, Scan(u, start, base), start, base);
      }
    }
  }

  /** Dropping an empty last segment keeps the others in place. */
  lemma DropPlaced(value: string, ps: seq<Segment>, start: int)
    requires WellPlaced(value, ps, start, start)
    ensures forall k :: 0 <= k < |DropEmptyLast(ps)| ==> Placed(value, DropEmptyLast(ps)[k], start)
    ensures forall k :: 1 <= k < |DropEmptyLast(ps)| ==> AfterComma(value, DropEmptyLast(ps)[k], start)
  {
    var ss := DropEmptyLast(ps);
    forall k | 0 <= k < |ss|
      ensures Placed(value, ss[k], start)
    {
      assert ss[k] == ps[k] && Origin(k, start, start) == start;
    }
  }

  /** Dropping an empty last segment drops an empty last piece. */
  lemma DropTexts(ps: seq<Segment>, parts: seq<string>)
    requires |ps| >= 1 && Texts(ps) == parts
    ensures Texts(DropEmptyLast(ps)) == if parts[|parts| - 1] == "" then parts[..|parts| - 1] else parts
  {
    if ps[|ps| - 1].text == "" {
      var ss := ps[..|ps| - 1];
      assert Texts(ps)[|ps| - 1] == "";
      forall k | 0 <= k < |ss|
        ensures Texts(ss)[k] == parts[k]
      {
        assert ss[k] == ps[k];
      }
      assert Texts(ss) == parts[..|parts| - 1];
    }
  }

  /** The segments forwarded: each one's text is at offset - start in the
    * value, every one but the first right after a comma, and their texts
    * are the comma-separated pieces, the last one dropped when it is empty. */
  lemma SegmentsSpec(value: string, start: int)
    ensures forall k :: 0 <= k < |Segments(value, start)| ==> Placed(value, Segments(value, start)[k], start)
    ensures forall k :: 1 <= k < |Segments(value, start)| ==> AfterComma(value, Segments(value, start)[k], start)
    ensures var parts := SplitAll(value, ',');
      Texts(Segments(value, start)) == if parts[|parts| - 1] == "" then parts[..|parts| - 1] else parts
  {
    var ps := Scan(value, start, start);
    ScanPositions(value, start, start);
    DropPlaced(value, ps, start);
    ScanSplits(value, start, start);
    DropTexts(ps, SplitAll(value, ','));
  }

  /** The loop as written: for "a,b" at offset 5 the second segment is
    * reported at 2, three characters before the value even begins, while
    * "b" sits at 7. */
  lemma AsWrittenOffsetExample()
    ensures AsWrittenSegments("a,b", 5) == [Segment("a", 5), Segment("b", 2)]
    ensures Segments("a,b", 5) == [Segment("a", 5), Segment("b", 7)]
    ensures !Placed("a,b", AsWrittenSegments("a,b", 5)[1], 5) && Placed("a,b", Segments("a,b", 5)[1], 5)
  {
    ScanExample(0);
    ScanExample(5);
  }

  /** Where the loop as written and the model agree: at offset 0, where the
    * runtime calls the outermost converter, and at any offset on a value
    * without a comma, which is all a nested converter is handed. */
  lemma AsWrittenAgrees(value: string, start: int)
    requires start == 0 || ',' !in value
    ensures AsWrittenSegments(value, start) == Segments(value, start)
  {
    if ',' !in value {
      ScanPiece(value, start, 0);
      ScanPiece(value, start, start);
    }
  }

  /** Elsewhere they part: at a non-zero offset, the text after a value's
    * last comma is forwarded at different offsets. */
  lemma AsWrittenDiffers(w: string, p: string, start: int)
    requires start != 0 && ',' !in p && p != []
    ensures AsWrittenSegments(w + [','] + p, start) != Segments(w + [','] + p, start)
  {
    var v := w + [','] + p;
    ScanPieceAt(w, p, v, start, 0);
    ScanPieceAt(w, p, v, start, start);
    var a := Scan(v, start, 0);
    var b := Scan(v, start, start);
    assert a[|a| - 1] == Segment(p, |w| + 1) && b[|b| - 1] == Segment(p, start + |w| + 1);
    assert AsWrittenSegments(v, start) == a && Segments(v, start) == b;
    assert a[|a| - 1] != b[|b| - 1];
  }

  lemma ScanExample(base: int)
    ensures Scan("a,b", 5, base) == [Segment("a", 5), Segment("b", base + 2)]
  {
    ScanExampleComma(base);
    ScanStep("a,", 'b', 5, base);
    assert "a," + ['b'] == "a,b" && "" + ['b'] == "b";
  }

  lemma ScanExampleComma(base: int)
    ensures Scan("a,", 5, base) == [Segment("a", 5), Segment("", base + 2)]
  {
    ScanExampleA(base);
    ScanStep("a", ',', 5, base);
    assert "a" + [','] == "a,";
  }

  lemma ScanExampleA(base: int)
    ensures Scan("a", 5, base) == [Segment("a", 5)]
  {
    assert Scan("", 5, base) == [Segment("", 5)];
    ScanStep("", 'a', 5, base);
    assert "" + ['a'] == "a";
  }

  /** A comma-free value is one segment, at the start. */
  lemma {:induction false} ScanPiece(p: string, start: int, base: int)
    requires ',' !in p
    ensures Scan(p, start, base) == [Segment(p, start)]
    decreases |p|
  {
    if p != [] {
      var q := p[..|p| - 1];
      assert q + [p[|p| - 1]] == p;
      ScanPiece(q, start, base);
      ScanStep(q, p[|p| - 1], start, base);
    }
  }

  /** A comma and a comma-free piece add one segment, placed right after the
    * comma. */
  lemma {:induction false} ScanAppendPiece(w: string, p: string, start: int, base: int)
    requires ',' !in p
    ensures Scan(w + [','] + p, start, base) == Scan(w, start, base) + [Segment(p, base + |w| + 1)]
    decreases |p|
  {
    if p == [] {
      assert w + [','] + p == w + [','];
      ScanStep(w, ',', start, base);
    } else {
      var q := p[..|p| - 1];
      assert (w + [','] + q) + [p[|p| - 1]] == w + [','] + p;
      ScanAppendPiece(w, q, start, base);
      ScanStep(w + [','] + q, p[|p| - 1], start, base);
      assert q + [p[|p| - 1]] == p;
    }
  }

  /** The int[] case: "1,2X,3x,4" from offset 0 is cut into four segments at
    * 0, 2, 5 and 8. */
  lemma IntArraySegments()
    ensures Segments("1,2X,3x,4", 0) == [Segment("1", 0), Segment("2X", 2), Segment("3x", 5), Segment("4", 8)]
  {
    IntArrayScan(0, 0);
  }

  /** The scan of the int[] value, from any start and base. */
  lemma IntArrayScan(start: int, base: int)
    ensures Scan("1,2X,3x,4", start, base) ==
      [Segment("1", start), Segment("2X", base + 2), Segment("3x", base + 5), Segment("4", base + 8)]
  {
    IntArrayScan3(start, base);
    ScanPieceAt("1,2X,3x", "4", "1,2X,3x,4", start, base);
  }

  lemma IntArrayScan3(start: int, base: int)
    ensures Scan("1,2X,3x", start, base) == [Segment("1", start), Segment("2X", base + 2), Segment("3x", base + 5)]
  {
    IntArrayScan2(start, base);
    ScanPieceAt("1,2X", "3x", "1,2X,3x", start, base);
  }

  lemma IntArrayScan2(start: int, base: int)
    ensures Scan("1,2X", start, base) == [Segment("1", start), Segment("2X", base + 2)]
  {
    ScanPiece("1", start, base);
    ScanPieceAt("1", "2X", "1,2X", start, base);
  }

  /** ScanAppendPiece for a value v spelled out as w, a comma and p. */
  lemma ScanPieceAt(w: string, p: string, v: string, start: int, base: int)
    requires ',' !in p && v == w + [','] + p
    ensures Scan(v, start, base) == Scan(w, start, base) + [Segment(p, base + |w| + 1)]
  {
    ScanAppendPiece(w, p, start, base);
  }

  // ---------------------------------------------------------------------
  // The validators resolveConverter hands out
  // ---------------------------------------------------------------------

  /** NULL_CONVERTER, a SAFE/FULL converter validator, an enum validator, or a
    * CollectionConverter around its element validator. */
  datatype Validator =
    | NullConverter
    | Base(converter: AbstractConverterValidator)
    | Enum(enumValidator: EnumTypeConverterValidator)
    | Collection(delegate: Validator)

  /** The enum validators a validator reaches: the only mutable state its
    * outcome depends on. */
  function EnumObjects(v: Validator): set<EnumTypeConverterValidator> {
    match v
    case Enum(e) => {e}
    case Collection(d) => EnumObjects(d)
    case _ => {}
  }

  /** canValidate(): false for NULL_CONVERTER, the prepared flag for a
    * converter validator, true for an enum validator, the element's answer
    * for a collection. */
  predicate CanValidate(v: Validator) {
    match v
    case NullConverter => false
    case Base(c) => c.CanValidate()
    case Enum(e) => e.CanValidate()
    case Collection(d) => CanValidate(d)
  }

  /** The collector calls validate(value, start, collector) makes. */
  function Outcome(v: Validator, value: string, start: int): seq<Diagnostic>
    reads EnumObjects(v)
    decreases v, 0
  {
    match v
    case NullConverter => []
    case Base(c) => c.Outcome(value, start)
    case Enum(e) => e.Outcome(value, start)
    case Collection(d) => Outs(d, Segments(value, start))
  }

  /** The element validator's calls for each segment, in order. */
  function Outs(d: Validator, ss: seq<Segment>): seq<Diagnostic>
    reads EnumObjects(d)
    decreases d, |ss| + 1
  {
    if ss == [] then []
    else Outs(d, ss[..|ss| - 1]) + Outcome(d, ss[|ss| - 1].text, ss[|ss| - 1].offset)
  }

  /** The element validator's calls for all segments: those for every
    * segment but the last, then those for the last. */
  lemma OutsLast(d: Validator, ps: seq<Segment>)
    requires |ps| >= 1
    ensures Outs(d, ps) == Outs(d, ps[..|ps| - 1]) + Outcome(d, ps[|ps| - 1].text, ps[|ps| - 1].offset)
  {
  }

  /** validate: dispatches on the validator; the collection case is the
    * CollectionConverter loop. */
  method Validate(v: Validator, value: string, start: int) returns (ds: seq<Diagnostic>)
    ensures ds == Outcome(v, value, start)
    decreases v, 3
  {
    match v
    case NullConverter =>
      ds := [];
    case Base(c) =>
      ds := c.Validate(value, start);
    case Enum(e) =>
      ds := e.Validate(value, start);
    case Collection(d) =>
      ds := ValidateCollection(d, value, start);
  }

  /** One step of the scan, seen from the loop: the segments so far are the
    * finished ones and the current one. */
  /** The end of the scan: the finished segments, and the current one unless
    * it is empty. */
  lemma SegmentsFinish(value: string, start: int, done: seq<Segment>, cur: string, off: int)
    requires Scan(value, start, start) == done + [Segment(cur, off)]
    ensures Segments(value, start) == if cur == "" then done else done + [Segment(cur, off)]
  {
    var ps := done + [Segment(cur, off)];
    assert ps[..|ps| - 1] == done;
  }

  /** The element validator's calls for one more segment. */
  lemma OutsSnoc(d: Validator, done: seq<Segment>, s: Segment)
    ensures Outs(d, done + [s]) == Outs(d, done) + Outcome(d, s.text, s.offset)
  {
    assert (done + [s])[..|done|] == done;
  }

  /** Hands one finished segment to the element validator and appends what
    * it reports. */
  method Forward(delegate: Validator, ghost done: seq<Segment>, text: string, offset: int, ds: seq<Diagnostic>)
    returns (ds': seq<Diagnostic>)
    requires ds == Outs(delegate, done)
    ensures ds' == Outs(delegate, done + [Segment(text, offset)])
    decreases Collection(delegate), 0
  {
    EnumObjectsAllocated(delegate);
    var more := Validate(delegate, text, offset);
    OutsSnoc(delegate, done, Segment(text, offset));
    ds' := ds + more;
  }

  /** CollectionConverter.validate: one pass over the value, forwarding each
    * comma-free segment to the element validator with its offset, and the
    * last one only when it is not empty. */
  method ValidateCollection(delegate: Validator, value: string, start: int) returns (ds: seq<Diagnostic>)
    ensures ds == Outs(delegate, Segments(value, start))
    decreases Collection(delegate), 2
  {
    var startOffset := start;
    var current := "";
    ds := [];
    ghost var done := [];
    var i := 0;
    assert value[..0] == [];
    while i < |value|
      invariant 0 <= i <= |value|
      invariant Scan(value[..i], start, start) == done + [Segment(current, startOffset)]
      invariant ds == Outs(delegate, done)
    {
      ScanNext(value, i, start, start);
      done, current, startOffset, ds := CollectionStep(delegate, value, i, start, done, current, startOffset, ds);
      i := i + 1;
    }
    assert value[..i] == value;
    SegmentsFinish(value, start, done, current, startOffset);
    if current != "" {
      ds := Forward(delegate, done, current, startOffset, ds);
    }
  }

  /** One character of CollectionConverter.validate's loop: a comma hands the
    * current segment to the element validator and opens the next one right
    * after it; any other character extends the current segment. */
  method CollectionStep(delegate: Validator, value: string, i: int, start: int, ghost done: seq<Segment>,
                        current: string, startOffset: int, ds: seq<Diagnostic>)
    returns (ghost done': seq<Segment>, current': string, startOffset': int, ds': seq<Diagnostic>)
    requires 0 <= i < |value|
    requires ds == Outs(delegate, done)
    ensures done' + [Segment(current', startOffset')] ==
      Advance(done + [Segment(current, startOffset)], value[i], start + i + 1)
    ensures ds' == Outs(delegate, done')
    decreases Collection(delegate), 1
  {
    var c := value[i];
    if c == ',' {
      ds' := Forward(delegate, done, current, startOffset, ds);
      done' := done + [Segment(current, startOffset)];
      current' := "";
      startOffset' := start + i + 1;
    } else {
      GrownLast(done, Segment(current, startOffset), c);
      done', ds' := done, ds;
      current' := current + [c];
      startOffset' := startOffset;
    }
  }

  /** The enum validators a validator reaches exist already, so a call that
    * changes no existing object leaves its outcome as it was. */
  lemma EnumObjectsAllocated(v: Validator)
    ensures forall e :: e in EnumObjects(v) ==> allocated(e)
  {
  }

  /** An int[] value with two bad elements: the element converter reports
    * "2X" at offset 2 and "3x" at offset 5, each spanning its own text. */
  lemma IntArrayExample(c: AbstractConverterValidator, m2: string, m3: string)
    requires c.prepared
    requires c.convert("1") == None && c.convert("4") == None
    requires c.convert("2X") == Some(Throwable(false, Some(m2), None))
    requires c.convert("3x") == Some(Throwable(false, Some(m3), None))
    ensures Outcome(Collection(Base(c)), "1,2X,3x,4", 0) ==
      [Diagnostic(m2, "microprofile-config", "value", 2, 2), Diagnostic(m3, "microprofile-config", "value", 5, 2)]
  {
    IntArraySegments();
    IntArrayOuts(c, m2, m3);
  }

  /** A converter that converts the value reports nothing. */
  lemma BaseAccepts(c: AbstractConverterValidator, value: string, start: int)
    requires c.convert(value) == None
    ensures Outcome(Base(c), value, start) == []
  {
  }

  /** A converter that throws with a message reports it over the value. */
  lemma BaseRejects(c: AbstractConverterValidator, value: string, start: int, m: string)
    requires c.prepared && c.convert(value) == Some(Throwable(false, Some(m), None))
    ensures Outcome(Base(c), value, start) == [Diagnostic(m, "microprofile-config", "value", start, |value|)]
  {
  }

  /** The element validator's diagnostics for the four int[] segments. */
  lemma IntArrayOuts(c: AbstractConverterValidator, m2: string, m3: string)
    requires c.prepared
    requires c.convert("1") == None && c.convert("4") == None
    requires c.convert("2X") == Some(Throwable(false, Some(m2), None))
    requires c.convert("3x") == Some(Throwable(false, Some(m3), None))
    ensures Outs(Base(c), [Segment("1", 0), Segment("2X", 2), Segment("3x", 5), Segment("4", 8)]) ==
      [Diagnostic(m2, "microprofile-config", "value", 2, 2), Diagnostic(m3, "microprofile-config", "value", 5, 2)]
  {
    var s0, s1, s2, s3 := Segment("1", 0), Segment("2X", 2), Segment("3x", 5), Segment("4", 8);
    BaseAccepts(c, "1", 0);
    BaseRejects(c, "2X", 2, m2);
    BaseRejects(c, "3x", 5, m3);
    BaseAccepts(c, "4", 8);
    OutsSnoc(Base(c), [], s0);
    OutsSnoc(Base(c), [s0], s1);
    OutsSnoc(Base(c), [s0, s1], s2);
    OutsSnoc(Base(c), [s0, s1, s2], s3);
    assert [] + [s0] == [s0] && [s0] + [s1] == [s0, s1];
    assert [s0, s1] + [s2] == [s0, s1, s2] && [s0, s1, s2] + [s3] == [s0, s1, s2, s3];
  }
}
