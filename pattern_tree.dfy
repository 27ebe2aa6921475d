/**
 * The pattern object of parser/api_param_sample.js (lines 16-63) and
 * `_objectValuesToString` (lines 65-74), which flattens it into the source text of
 * the composed pattern: every string value in key order, nested objects expanded
 * in place.
 */
module PatternTree {

  /** A value of the pattern object: a pattern fragment or a nested object. */
  datatype Value = Text(text: string) | Node(entries: seq<Entry>)

  /** One property of an object, in the order the object literal lists it. */
  datatype Entry = Entry(key: string, value: Value)

  /** `_objectValuesToString(obj)`: the fragments appended in key order, depth first. */
  function Flatten(entries: seq<Entry>): string
    decreases entries
  {
    if entries == [] then ""
    else match entries[0].value
      case Text(t) => t + Flatten(entries[1..])
      case Node(es) => Flatten(es) + Flatten(entries[1..])
  }

  /** The string leaves of the object, depth first, in key order. */
  function Leaves(entries: seq<Entry>): seq<string>
    decreases entries
  {
    if entries == [] then []
    else match entries[0].value
      case Text(t) => [t] + Leaves(entries[1..])
      case Node(es) => Leaves(es) + Leaves(entries[1..])
  }

  /** The strings of a list, joined. */
  function Concat(ls: seq<string>): string {
    if ls == [] then "" else ls[0] + Concat(ls[1..])
  }

  /** The sum of the lengths of a list of strings. */
  function TotalLength(ls: seq<string>): nat {
    if ls == [] then 0 else |ls[0]| + TotalLength(ls[1..])
  }

  lemma {:induction false} ConcatAppend(a: seq<string>, b: seq<string>)
    ensures Concat(a + b) == Concat(a) + Concat(b)
  {
    if a == [] {
      assert a + b == b;
    } else {
      assert (a + b)[1..] == a[1..] + b;
      ConcatAppend(a[1..], b);
    }
  }

  lemma {:induction false} ConcatLength(ls: seq<string>)
    ensures |Concat(ls)| == TotalLength(ls)
  {
    if ls != [] {
      ConcatLength(ls[1..]);
    }
  }

  /**
   * Leaf `i` sits in the joined text right after the leaves before it: every leaf
   * appears once, whole, in order.
   */
  lemma {:induction false} ConcatPiece(ls: seq<string>, i: nat)
    requires i < |ls|
    ensures TotalLength(ls[..i]) + |ls[i]| <= |Concat(ls)|
    ensures Concat(ls)[TotalLength(ls[..i])..TotalLength(ls[..i]) + |ls[i]|] == ls[i]
  {
    assert ls == ls[..i] + [ls[i]] + ls[i + 1..];
    ConcatAppend(ls[..i] + [ls[i]], ls[i + 1..]);
    ConcatAppend(ls[..i], [ls[i]]);
    ConcatLength(ls[..i]);
    assert Concat([ls[i]]) == ls[i] + Concat([]);
  }

  /** Flattening the object joins its leaves, each exactly once, depth first. */
  lemma {:induction false} FlattenLeaves(entries: seq<Entry>)
    ensures Flatten(entries) == Concat(Leaves(entries))
    decreases entries
  {
    if entries != [] {
      FlattenLeaves(entries[1..]);
      match entries[0].value
      case Text(t) =>
        assert Concat([t] + Leaves(entries[1..])) == t + Concat(Leaves(entries[1..]));
      case Node(es) =>
        FlattenLeaves(es);
        ConcatAppend(Leaves(es), Leaves(entries[1..]));
    }
  }

  /** The flattened text is as long as all leaves together. */
  lemma FlattenLength(entries: seq<Entry>)
    ensures |Flatten(entries)| == TotalLength(Leaves(entries))
  {
    FlattenLeaves(entries);
    ConcatLength(Leaves(entries));
  }

  /** What one entry contributes: its fragment, or its flattened object. */
  function Piece(e: Entry): string {
    match e.value
    case Text(t) => t
    case Node(es) => Flatten(es)
  }

  lemma FlattenAt(entries: seq<Entry>, i: nat)
    requires i < |entries|
    ensures Flatten(entries[i..]) == Piece(entries[i]) + Flatten(entries[i + 1..])
  {
    assert entries[i..][1..] == entries[i + 1..];
  }

  /** An object of three properties flattens to their three pieces, in order. */
  lemma FlattenThree(t: seq<Entry>)
    requires |t| == 3
    ensures Flatten(t) == Piece(t[0]) + (Piece(t[1]) + Piece(t[2]))
  {
    assert t[3..] == [];
    FlattenAt(t, 2);
    FlattenAt(t, 1);
    FlattenAt(t, 0);
    assert t[0..] == t;
  }

  /** An object of four properties flattens to their four pieces, in order. */
  lemma FlattenFour(t: seq<Entry>)
    requires |t| == 4
    ensures Flatten(t) == Piece(t[0]) + (Piece(t[1]) + (Piece(t[2]) + Piece(t[3])))
  {
    assert t[4..] == [];
    FlattenAt(t, 3);
    FlattenAt(t, 2);
    FlattenAt(t, 1);
    FlattenAt(t, 0);
    assert t[0..] == t;
  }

  /** An object of five properties flattens to their five pieces, in order. */
  lemma FlattenFive(t: seq<Entry>)
    requires |t| == 5
    ensures Flatten(t) == Piece(t[0]) + (Piece(t[1]) + (Piece(t[2]) + (Piece(t[3]) + Piece(t[4]))))
  {
    assert t[5..] == [];
    FlattenAt(t, 4);
    FlattenAt(t, 3);
    FlattenAt(t, 2);
    FlattenAt(t, 1);
    FlattenAt(t, 0);
    assert t[0..] == t;
  }

  /** An object of seven properties flattens to their seven pieces, in order. */
  lemma FlattenSeven(t: seq<Entry>)
    requires |t| == 7
    ensures Flatten(t) == Piece(t[0]) + (Piece(t[1]) + (Piece(t[2]) + (Piece(t[3]) + (Piece(t[4]) + (Piece(t[5]) + Piece(t[6]))))))
  {
    assert t[7..] == [];
    FlattenAt(t, 6);
    FlattenAt(t, 5);
    FlattenAt(t, 4);
    FlattenAt(t, 3);
    FlattenAt(t, 2);
    FlattenAt(t, 1);
    FlattenAt(t, 0);
    assert t[0..] == t;
  }

  /** `oGroup` (lines 18-22). */
  const GroupTree: seq<Entry> := [
    Entry("b", Text("\\s*(?:\\(\\s*")),
    Entry("group", Text("(.+?)")),
    Entry("e", Text("\\s*\\)\\s*)?"))]

  /** The flattened `oGroup`: a step of the worked example `RegExpFlattens`. */
  const GroupSource: string := "\\s*(?:\\(\\s*" + ("(.+?)" + "\\s*\\)\\s*)?")

  lemma GroupFlattens()
    ensures Flatten(GroupTree) == GroupSource
  {
    FlattenThree(GroupTree);
  }

  /** `oInputValue` (lines 26-30). */
  const InputValueTree: seq<Entry> := [
    Entry("b", Text("\\s*(?:=\\s*")),
    Entry("type", Text("(.+?)")),
    Entry("e", Text("(?=\\s*\\>\\s*))?"))]

  /** The flattened `oInputValue`: a step of the worked example `RegExpFlattens`. */
  const InputValueSource: string := "\\s*(?:=\\s*" + ("(.+?)" + "(?=\\s*\\>\\s*))?")

  lemma InputValueFlattens()
    ensures Flatten(InputValueTree) == InputValueSource
  {
    FlattenThree(InputValueTree);
  }

  /** `oSampleField` (lines 23-32). */
  const SampleFieldTree: seq<Entry> := [
    Entry("b", Text("\\s*(?:\\<\\s*")),
    Entry("inputType", Text("([a-zA-Z0-9()# ;:\\.\\/\\\\\\[\\]_-]+)")),
    Entry("oInputValue", Node(InputValueTree)),
    Entry("e", Text("\\s*\\>\\s*)?"))]

  /** The flattened `oSampleField`: a step of the worked example `RegExpFlattens`. */
  const SampleFieldSource: string := "\\s*(?:\\<\\s*" + ("([a-zA-Z0-9()# ;:\\.\\/\\\\\\[\\]_-]+)" + (InputValueSource + "\\s*\\>\\s*)?"))

  lemma SampleFieldFlattens()
    ensures Flatten(SampleFieldTree) == SampleFieldSource
  {
    FlattenFour(SampleFieldTree);
    InputValueFlattens();
  }

  /** `oSize` (lines 36-40). */
  const SizeTree: seq<Entry> := [
    Entry("b", Text("\\s*(?:\\{\\s*")),
    Entry("size", Text("(.+?)")),
    Entry("e", Text("\\s*\\}\\s*)?"))]

  /** The flattened `oSize`: a step of the worked example `RegExpFlattens`. */
  const SizeSource: string := "\\s*(?:\\{\\s*" + ("(.+?)" + "\\s*\\}\\s*)?")

  lemma SizeFlattens()
    ensures Flatten(SizeTree) == SizeSource
  {
    FlattenThree(SizeTree);
  }

  /** `oAllowedValues` (lines 41-45). */
  const AllowedValuesTree: seq<Entry> := [
    Entry("b", Text("\\s*(?:=\\s*")),
    Entry("possibleValues", Text("(.+?)")),
    Entry("e", Text("(?=\\s*\\}\\s*))?"))]

  /** The flattened `oAllowedValues`: a step of the worked example `RegExpFlattens`. */
  const AllowedValuesSource: string := "\\s*(?:=\\s*" + ("(.+?)" + "(?=\\s*\\}\\s*))?")

  lemma AllowedValuesFlattens()
    ensures Flatten(AllowedValuesTree) == AllowedValuesSource
  {
    FlattenThree(AllowedValuesTree);
  }

  /** `oType` (lines 33-47). */
  const TypeTree: seq<Entry> := [
    Entry("b", Text("\\s*(?:\\{\\s*")),
    Entry("type", Text("([a-zA-Z0-9()#:\\.\\/\\\\\\[\\]_-]+)")),
    Entry("oSize", Node(SizeTree)),
    Entry("oAllowedValues", Node(AllowedValuesTree)),
    Entry("e", Text("\\s*\\}\\s*)?"))]

  /** The flattened `oType`: a step of the worked example `RegExpFlattens`. */
  const TypeSource: string := "\\s*(?:\\{\\s*" + ("([a-zA-Z0-9()#:\\.\\/\\\\\\[\\]_-]+)" + (SizeSource + (AllowedValuesSource + "\\s*\\}\\s*)?")))

  lemma TypeFlattens()
    ensures Flatten(TypeTree) == TypeSource
  {
    FlattenFive(TypeTree);
    SizeFlattens();
    AllowedValuesFlattens();
  }

  /** `oDefaultValue` (lines 52-58). */
  const DefaultValueTree: seq<Entry> := [
    Entry("b", Text("(?:\\s*=\\s*(?:")),
    Entry("withDoubleQuote", Text("\"([^\"]*)\"")),
    Entry("withQuote", Text("|'([^']*)'")),
    Entry("withoutQuote", Text("|(.*?)(?:\\s|\\]|$)")),
    Entry("e", Text("))?"))]

  /** The flattened `oDefaultValue`: a step of the worked example `RegExpFlattens`. */
  const DefaultValueSource: string := "(?:\\s*=\\s*(?:" + ("\"([^\"]*)\"" + ("|'([^']*)'" + ("|(.*?)(?:\\s|\\]|$)" + "))?")))

  lemma DefaultValueFlattens()
    ensures Flatten(DefaultValueTree) == DefaultValueSource
  {
    FlattenFive(DefaultValueTree);
  }

  /** `wName` (lines 48-60). */
  const NameTree: seq<Entry> := [
    Entry("b", Text("(\\[?\\s*")),
    Entry("name", Text("([a-zA-Z0-9\\:\\.\\/\\\\_-]+")),
    Entry("withArray", Text("(?:\\[[a-zA-Z0-9\\.\\/\\\\_-]*\\])?)")),
    Entry("oDefaultValue", Node(DefaultValueTree)),
    Entry("e", Text("\\s*\\]?\\s*)"))]

  /** The flattened `wName`: a step of the worked example `RegExpFlattens`. */
  const NameSource: string := "(\\[?\\s*" + ("([a-zA-Z0-9\\:\\.\\/\\\\_-]+" + ("(?:\\[[a-zA-Z0-9\\.\\/\\\\_-]*\\])?)" + (DefaultValueSource + "\\s*\\]?\\s*)")))

  lemma NameFlattens()
    ensures Flatten(NameTree) == NameSource
  {
    FlattenFive(NameTree);
    DefaultValueFlattens();
  }

  /** The pattern object of lines 16-63, with each fragment as its string literal denotes it. */
  const RegExpTree: seq<Entry> := [
    Entry("b", Text("^")),
    Entry("oGroup", Node(GroupTree)),
    Entry("oSampleField", Node(SampleFieldTree)),
    Entry("oType", Node(TypeTree)),
    Entry("wName", Node(NameTree)),
    Entry("description", Text("(.*)?")),
    Entry("e", Text("$|@"))]

  /**
   * A worked example of `Flatten`: the pattern object flattens to the source text
   * of `parseRegExp` (line 76), proved one nested object at a time.
   */
  const RegExpSource: string := "^" + (GroupSource + (SampleFieldSource + (TypeSource + (NameSource + ("(.*)?" + "$|@")))))

  lemma RegExpFlattens()
    ensures Flatten(RegExpTree) == RegExpSource
  {
    FlattenSeven(RegExpTree);
    GroupFlattens();
    SampleFieldFlattens();
    TypeFlattens();
    NameFlattens();
  }
}
