/** YamlConfigSource.getProperty: a dotted property name looked up in the
  * nested maps SnakeYAML loads from application.yaml. */
module YamlConfig {
  import opened Wrappers
  import opened JavaStrings

  /** A loaded YAML value. A Scalar is any object that is not a Map: a String
    * or another object such as a number, a boolean or a list; `text` is its
    * String.valueOf. A Mapping holds its entries, keyed by string or by null
    * (`~`), and the String.valueOf text of the map object. Entries whose value
    * is null are absent, as Map.get cannot tell them apart. */
  datatype YamlValue =
    | Scalar(isString: bool, text: string)
    | Mapping(entries: map<Option<string>, YamlValue>, text: string)

  type YamlMap = map<Option<string>, YamlValue>

  /** The exceptions getProperty can end in: a non-map, non-String value on
    * the path (ClassCastException), and a key made only of dots, which splits
    * into no segment at all (ArrayIndexOutOfBoundsException). */
  datatype Thrown = ClassCast | IndexOutOfBounds

  /** The value under the last segment: a scalar's text, or for a map the
    * text of its `~` entry; null when absent. */
  function Final(curr: YamlMap, segment: string): (r: Result<Option<string>, Thrown>)
    ensures r.Success?
    ensures Some(segment) !in curr ==> r.value.None?
  {
    if Some(segment) !in curr then Success(None)
    else match curr[Some(segment)] {
      case Scalar(_, text) => Success(Some(text))
      case Mapping(m, _) => if None in m then Success(Some(m[None].text)) else Success(None)
    }
  }

  /** Walking the segments: every segment but the last must name a map. */
  function Walk(segments: seq<string>, curr: YamlMap): (r: Result<Option<string>, Thrown>)
    ensures segments == [] <==> r == Failure(IndexOutOfBounds)
    ensures |segments| > 1 && (Some(segments[0]) !in curr || curr[Some(segments[0])] == Scalar(true, curr[Some(segments[0])].text)) ==>
      r == Success(None)
    decreases |segments|
  {
    if |segments| == 0 then Failure(IndexOutOfBounds)
    else if |segments| == 1 then Final(curr, segments[0])
    else if Some(segments[0]) !in curr then Success(None)
    else match curr[Some(segments[0])] {
      case Scalar(isString, _) => if isString then Success(None) else Failure(ClassCast)
      case Mapping(m, _) => Walk(segments[1..], m)
    }
  }

  /** getProperty: split the key on '.', walk the maps, read the last one. */
  method GetProperty(key: string, config: YamlMap) returns (r: Result<Option<string>, Thrown>)
    ensures r == Walk(JavaSplit(key, '.'), config)
  {
    var keyArray := JavaSplit(key, '.');
    var curr := config;
    var i := 0;
    while i < |keyArray| - 1
      invariant 0 <= i <= |keyArray|
      invariant i > 0 ==> i < |keyArray|
      invariant Walk(keyArray[i..], curr) == Walk(keyArray, config)
    {
      var k := Some(keyArray[i]);
      if k !in curr || (curr[k].Scalar? && curr[k].isString) {
        return Success(None);
      }
      if curr[k].Scalar? {
        return Failure(ClassCast);
      }
      assert keyArray[i..][1..] == keyArray[i + 1..];
      curr := curr[k].entries;
      i := i + 1;
    }
    if |keyArray| == 0 {
      return Failure(IndexOutOfBounds);
    }
    assert keyArray[i..] == [keyArray[i]];
    r := Final(curr, keyArray[i]);
  }

  /** The YAML nesting of a property name: one map per segment, the value at
    * the bottom. */
  function Nest(segments: seq<string>, leaf: YamlValue, text: string): YamlMap
    requires |segments| >= 1
    decreases |segments|
  {
    if |segments| == 1 then map[Some(segments[0]) := leaf]
    else map[Some(segments[0]) := Mapping(Nest(segments[1..], leaf, text), text)]
  }

  /** Walking a nesting reaches its scalar. */
  lemma {:induction false} WalkNest(segments: seq<string>, leaf: YamlValue, text: string)
    requires |segments| >= 1 && leaf.Scalar?
    ensures Walk(segments, Nest(segments, leaf, text)) == Success(Some(leaf.text))
    decreases |segments|
  {
    if |segments| > 1 {
      WalkNest(segments[1..], leaf, text);
    }
  }

  /** Looking up the dotted name of a nesting finds the scalar at its bottom:
    * a.b.c reads a: b: c: value. */
  lemma DottedLookup(segments: seq<string>, leaf: YamlValue, text: string)
    requires |segments| >= 1 && leaf.Scalar?
    requires forall k :: 0 <= k < |segments| ==> '.' !in segments[k] && segments[k] != ""
    ensures Walk(JavaSplit(Join(segments, "."), '.'), Nest(segments, leaf, text)) == Success(Some(leaf.text))
  {
    JavaSplitJoin(segments, '.');
    assert [ '.' ] == ".";
    WalkNest(segments, leaf, text);
  }

  /** A boolean under `~` answers for its parent key: cors: ~: true. */
  lemma TildeEntry(value: YamlValue)
    requires value.Scalar?
    ensures Walk(["cors"], map[Some("cors") := Mapping(map[None := value], "")]) == Success(Some(value.text))
  {
  }
}
