/**
 * The composed parameter-sample pattern of parser/api_param_sample.js, lines 16-62,
 * as a syntax tree built segment by segment in the nesting of the pattern object,
 * and `exec` of that pattern with its top-level `$|@` alternation.
 *
 * Capture registers, as numbered in the pattern object's comments:
 *   1 group label, 2 input type, 3 input value, 4 type, 5 size, 6 allowed values,
 *   7 field wrapper, 8 field name, 9 double-quoted default, 10 single-quoted
 *   default, 11 bare default, 12 description. Register 0 is the whole match.
 */
module ParamPattern {
  import opened Wrappers
  import opened JsText
  import opened Matching

  // ---------------------------------------------------------------------------
  // Character classes of the pattern

  /** `[a-zA-Z0-9()# ;:\.\/\\\[\]_-]` (line 25). */
  const InputTypeChars: Class := Word("()# ;:./\\[]_-")

  /** `[a-zA-Z0-9()#:\.\/\\\[\]_-]` (line 35). */
  const TypeChars: Class := Word("()#:./\\[]_-")

  /** `[a-zA-Z0-9\:\.\/\\_-]` (line 50). */
  const NameChars: Class := Word(":./\\_-")

  /** `[a-zA-Z0-9\.\/\\_-]` inside the array suffix (line 51). */
  const ArrayChars: Class := Word("./\\_-")

  // ---------------------------------------------------------------------------
  // The segments

  /** `\s*` */
  const Ws: Re := Rep(Space, 0, true)

  /** `(.+?)`: the lazy label of the group, input value, size and allowed values. */
  const Label: Re := Rep(Dot, 1, false)

  /** oGroup: `\s*(?:\(\s*(.+?)\s*\)\s*)?` */
  const GroupSeg: Re := Cat(Ws, Maybe(Cat(Lit('('), Cat(Ws, Cat(Group(1, Label), Cat(Ws, Cat(Lit(')'), Ws)))))))

  /** oSampleField.oInputValue: `\s*(?:=\s*(.+?)(?=\s*\>\s*))?` */
  const InputValueSeg: Re :=
    Cat(Ws, Maybe(Cat(Lit('='), Cat(Ws, Cat(Group(3, Label), Ahead(Cat(Ws, Cat(Lit('>'), Ws))))))))

  /** oSampleField: `\s*(?:\<\s*([...]+)` oInputValue `\s*\>\s*)?` */
  const SampleFieldSeg: Re :=
    Cat(Ws, Maybe(Cat(Lit('<'), Cat(Ws, Cat(Group(2, Rep(InputTypeChars, 1, true)), Cat(InputValueSeg, Cat(Ws, Cat(Lit('>'), Ws))))))))

  /** oType.oSize: `\s*(?:\{\s*(.+?)\s*\}\s*)?` */
  const SizeSeg: Re := Cat(Ws, Maybe(Cat(Lit('{'), Cat(Ws, Cat(Group(5, Label), Cat(Ws, Cat(Lit('}'), Ws)))))))

  /** oType.oAllowedValues: `\s*(?:=\s*(.+?)(?=\s*\}\s*))?` */
  const AllowedValuesSeg: Re :=
    Cat(Ws, Maybe(Cat(Lit('='), Cat(Ws, Cat(Group(6, Label), Ahead(Cat(Ws, Cat(Lit('}'), Ws))))))))

  /** oType: `\s*(?:\{\s*([...]+)` oSize oAllowedValues `\s*\}\s*)?` */
  const TypeSeg: Re :=
    Cat(Ws, Maybe(Cat(Lit('{'), Cat(Ws, Cat(Group(4, Rep(TypeChars, 1, true)), Cat(SizeSeg, Cat(AllowedValuesSeg, Cat(Ws, Cat(Lit('}'), Ws)))))))))

  /** wName.name + withArray: `[...]+(?:\[[...]*\])?` */
  const FieldName: Re := Cat(Rep(NameChars, 1, true), Maybe(Cat(Lit('['), Cat(Rep(ArrayChars, 0, true), Lit(']')))))

  /** The three quoting forms of the default value, tried in this order. */
  const DoubleQuoted: Re := Cat(Lit('"'), Cat(Group(9, Rep(Except('"'), 0, true)), Lit('"')))

  const SingleQuoted: Re := Cat(Lit('\''), Cat(Group(10, Rep(Except('\''), 0, true)), Lit('\'')))

  /** `(.*?)(?:\s|\]|$)` */
  const Unquoted: Re := Cat(Group(11, Rep(Dot, 0, false)), Or(One(Space), Or(Lit(']'), EndOfInput)))

  /** wName.oDefaultValue: `(?:\s*=\s*(?:"..."|'...'|...))?` */
  const DefaultValueSeg: Re := Maybe(Cat(Ws, Cat(Lit('='), Cat(Ws, Or(DoubleQuoted, Or(SingleQuoted, Unquoted))))))

  /** wName: `(\[?\s*(` name `)` oDefaultValue `\s*\]?\s*)` */
  const FieldSeg: Re :=
    Group(7, Cat(Maybe(Lit('[')), Cat(Ws, Cat(Group(8, FieldName), Cat(DefaultValueSeg, Cat(Ws, Cat(Maybe(Lit(']')), Ws)))))))

  /** description: `(.*)?` */
  const DescriptionSeg: Re := Maybe(Group(12, Rep(Dot, 0, true)))

  /** The anchored alternative `^` ... `$` of the whole pattern. */
  const Main: Re := Cat(GroupSeg, Cat(SampleFieldSeg, Cat(TypeSeg, Cat(FieldSeg, Cat(DescriptionSeg, EndOfInput)))))

  /** Thirteen undefined registers: the state `exec` starts from. */
  const NoCaps: Caps := [None, None, None, None, None, None, None, None, None, None, None, None, None]

  lemma NoCapsUndefined()
    ensures |NoCaps| == 13 && forall n | 0 <= n < 13 :: NoCaps[n] == None
  {
  }

  /** Every way the anchored alternative matches the whole text, in priority order. */
  function MainMatches(s: string): seq<St> { Run(s, Main, St(0, NoCaps)) }

  // ---------------------------------------------------------------------------
  // exec

  /** `s[a..b]`, or the empty string for a piece outside `s` (which never occurs). */
  function Slice(s: string, a: nat, b: nat): string {
    if a <= b <= |s| then s[a..b] else ""
  }

  /** The `exec` result array of a way through the anchored alternative. */
  function Texts(s: string, x: St): (r: seq<Option<string>>)
    ensures |r| == 13
  {
    seq(13, n requires 0 <= n < 13 =>
      if n == 0 then Some(Slice(s, 0, x.pos))
      else if n < |x.caps| && x.caps[n].Some? then Some(Slice(s, x.caps[n].value.start, x.caps[n].value.end))
      else None)
  }

  /** The `exec` result array when only the `@` alternative matches. */
  const AtOnly: seq<Option<string>> := [Some("@"), None, None, None, None, None, None, None, None, None, None, None, None]

  /**
   * `parseRegExp.exec(s)`. The pattern is `(^...$)|@`: the anchored alternative can
   * only match at position 0; failing it, the first `@` anywhere in the text is a
   * match with every capture undefined; failing both, `null`.
   */
  function Exec(s: string): (r: Option<seq<Option<string>>>)
    ensures r.Some? ==> |r.value| == 13
  {
    var ms := MainMatches(s);
    if ms != [] then Some(Texts(s, ms[0]))
    else if '@' in s then Some(AtOnly)
    else None
  }

  // ---------------------------------------------------------------------------
  // The shape of the pattern, computed segment by segment
  //
  // Six segments share one form, `\s*(?:o\s*(g)tail)?`: an opening character, a
  // capture group and what follows it. Each fact about a segment is built from the
  // same fact about its parts, one level at a time.

  /** `\s*c\s*`, the closing of a segment, writes no register. */
  lemma UnwrittenClose(c: char, n: nat)
    ensures n !in Writes(Cat(Ws, Cat(Lit(c), Ws)))
  {
    UnwrittenLeaf(Ws, n);
    UnwrittenLeaf(Lit(c), n);
    UnwrittenCat(Lit(c), Ws, n);
    UnwrittenCat(Ws, Cat(Lit(c), Ws), n);
  }

  lemma UnwrittenOpened(o: char, k: nat, g: Re, tail: Re, n: nat)
    requires k != n && n !in Writes(g) && n !in Writes(tail)
    ensures n !in Writes(Cat(Ws, Maybe(Cat(Lit(o), Cat(Ws, Cat(Group(k, g), tail))))))
  {
    var named := Cat(Group(k, g), tail);
    UnwrittenLeaf(Ws, n);
    UnwrittenLeaf(Lit(o), n);
    UnwrittenGroup(k, g, n);
    UnwrittenCat(Group(k, g), tail, n);
    UnwrittenCat(Ws, named, n);
    UnwrittenCat(Lit(o), Cat(Ws, named), n);
    UnwrittenMaybe(Cat(Lit(o), Cat(Ws, named)), n);
    UnwrittenCat(Ws, Maybe(Cat(Lit(o), Cat(Ws, named))), n);
  }

  lemma OwnsOpened(o: char, k: nat, g: Re, tail: Re, n: nat, body: Re, nonEmpty: bool)
    requires k == n ==> g == body && (nonEmpty ==> MinLen(g) > 0)
    requires Owns(g, n, body, nonEmpty) && Owns(tail, n, body, nonEmpty)
    ensures Owns(Cat(Ws, Maybe(Cat(Lit(o), Cat(Ws, Cat(Group(k, g), tail))))), n, body, nonEmpty)
  {
    var named := Cat(Group(k, g), tail);
    OwnsLeaf(Ws, n, body, nonEmpty);
    OwnsLeaf(Lit(o), n, body, nonEmpty);
    OwnsGroup(k, g, n, body, nonEmpty);
    OwnsCat(Group(k, g), tail, n, body, nonEmpty);
    OwnsCat(Ws, named, n, body, nonEmpty);
    OwnsCat(Lit(o), Cat(Ws, named), n, body, nonEmpty);
    OwnsMaybe(Cat(Lit(o), Cat(Ws, named)), n, body, nonEmpty);
    OwnsCat(Ws, Maybe(Cat(Lit(o), Cat(Ws, named))), n, body, nonEmpty);
  }

  /** Whatever the tail of such a segment writes is written together with its group. */
  lemma GuardedOpened(o: char, k: nat, g: Re, tail: Re, a: nat)
    ensures Guarded(Cat(Ws, Maybe(Cat(Lit(o), Cat(Ws, Cat(Group(k, g), tail))))), a, k)
  {
    var named := Cat(Group(k, g), tail);
    MustGroup(k, g, k);
    MustCatLeft(Group(k, g), tail, k);
    MustCatRight(Ws, named, k);
    MustCatRight(Lit(o), Cat(Ws, named), k);
    GuardedMust(Cat(Lit(o), Cat(Ws, named)), a, k);
    GuardedMaybe(Cat(Lit(o), Cat(Ws, named)), a, k);
    UnwrittenLeaf(Ws, a);
    GuardedUnwritten(Ws, a, k);
    GuardedCat(Ws, Maybe(Cat(Lit(o), Cat(Ws, named))), a, k);
  }

  lemma UnwrittenGroupSeg(n: nat)
    requires n != 1
    ensures n !in Writes(GroupSeg)
  {
    UnwrittenLeaf(Label, n);
    UnwrittenClose(')', n);
    UnwrittenOpened('(', 1, Label, Cat(Ws, Cat(Lit(')'), Ws)), n);
  }

  lemma UnwrittenInputValueSeg(n: nat)
    requires n != 3
    ensures n !in Writes(InputValueSeg)
  {
    UnwrittenLeaf(Label, n);
    UnwrittenLeaf(Ahead(Cat(Ws, Cat(Lit('>'), Ws))), n);
    UnwrittenOpened('=', 3, Label, Ahead(Cat(Ws, Cat(Lit('>'), Ws))), n);
  }

  lemma UnwrittenSampleFieldSeg(n: nat)
    requires n != 2 && n != 3
    ensures n !in Writes(SampleFieldSeg)
  {
    UnwrittenLeaf(Rep(InputTypeChars, 1, true), n);
    UnwrittenInputValueSeg(n);
    UnwrittenClose('>', n);
    UnwrittenCat(InputValueSeg, Cat(Ws, Cat(Lit('>'), Ws)), n);
    UnwrittenOpened('<', 2, Rep(InputTypeChars, 1, true), Cat(InputValueSeg, Cat(Ws, Cat(Lit('>'), Ws))), n);
  }

  lemma UnwrittenSizeSeg(n: nat)
    requires n != 5
    ensures n !in Writes(SizeSeg)
  {
    UnwrittenLeaf(Label, n);
    UnwrittenClose('}', n);
    UnwrittenOpened('{', 5, Label, Cat(Ws, Cat(Lit('}'), Ws)), n);
  }

  lemma UnwrittenAllowedValuesSeg(n: nat)
    requires n != 6
    ensures n !in Writes(AllowedValuesSeg)
  {
    UnwrittenLeaf(Label, n);
    UnwrittenLeaf(Ahead(Cat(Ws, Cat(Lit('}'), Ws))), n);
    UnwrittenOpened('=', 6, Label, Ahead(Cat(Ws, Cat(Lit('}'), Ws))), n);
  }

  /** What follows the type register inside oType. */
  lemma UnwrittenTypeTail(n: nat)
    requires n != 5 && n != 6
    ensures n !in Writes(Cat(SizeSeg, Cat(AllowedValuesSeg, Cat(Ws, Cat(Lit('}'), Ws)))))
  {
    UnwrittenSizeSeg(n);
    UnwrittenAllowedValuesSeg(n);
    UnwrittenClose('}', n);
    UnwrittenCat(AllowedValuesSeg, Cat(Ws, Cat(Lit('}'), Ws)), n);
    UnwrittenCat(SizeSeg, Cat(AllowedValuesSeg, Cat(Ws, Cat(Lit('}'), Ws))), n);
  }

  lemma UnwrittenTypeSeg(n: nat)
    requires n < 4 || n > 6
    ensures n !in Writes(TypeSeg)
  {
    UnwrittenLeaf(Rep(TypeChars, 1, true), n);
    UnwrittenTypeTail(n);
    UnwrittenOpened('{', 4, Rep(TypeChars, 1, true), Cat(SizeSeg, Cat(AllowedValuesSeg, Cat(Ws, Cat(Lit('}'), Ws)))), n);
  }

  lemma UnwrittenFieldName(n: nat)
    ensures n !in Writes(FieldName)
  {
    UnwrittenLeaf(Rep(NameChars, 1, true), n);
    UnwrittenLeaf(Lit('['), n);
    UnwrittenLeaf(Rep(ArrayChars, 0, true), n);
    UnwrittenLeaf(Lit(']'), n);
    UnwrittenCat(Rep(ArrayChars, 0, true), Lit(']'), n);
    UnwrittenCat(Lit('['), Cat(Rep(ArrayChars, 0, true), Lit(']')), n);
    UnwrittenMaybe(Cat(Lit('['), Cat(Rep(ArrayChars, 0, true), Lit(']'))), n);
    UnwrittenCat(Rep(NameChars, 1, true), Maybe(Cat(Lit('['), Cat(Rep(ArrayChars, 0, true), Lit(']')))), n);
  }

  /** `q([^q]*)q`, the two quoted forms of the default value. */
  lemma UnwrittenQuoted(q: char, k: nat, n: nat)
    requires k != n
    ensures n !in Writes(Cat(Lit(q), Cat(Group(k, Rep(Except(q), 0, true)), Lit(q))))
  {
    UnwrittenLeaf(Lit(q), n);
    UnwrittenLeaf(Rep(Except(q), 0, true), n);
    UnwrittenGroup(k, Rep(Except(q), 0, true), n);
    UnwrittenCat(Group(k, Rep(Except(q), 0, true)), Lit(q), n);
    UnwrittenCat(Lit(q), Cat(Group(k, Rep(Except(q), 0, true)), Lit(q)), n);
  }

  lemma OwnsQuoted(q: char, k: nat)
    ensures Owns(Cat(Lit(q), Cat(Group(k, Rep(Except(q), 0, true)), Lit(q))), k, Rep(Except(q), 0, true), false)
  {
    var body := Rep(Except(q), 0, true);
    OwnsLeaf(Lit(q), k, body, false);
    OwnsLeaf(body, k, body, false);
    OwnsGroup(k, body, k, body, false);
    OwnsCat(Group(k, body), Lit(q), k, body, false);
    OwnsCat(Lit(q), Cat(Group(k, body), Lit(q)), k, body, false);
  }

  /** `\s|\]|$`, what ends a bare default value. */
  lemma UnwrittenBareEnd(n: nat)
    ensures n !in Writes(Or(One(Space), Or(Lit(']'), EndOfInput)))
  {
    UnwrittenLeaf(One(Space), n);
    UnwrittenLeaf(Lit(']'), n);
    UnwrittenLeaf(EndOfInput, n);
    UnwrittenOr(Lit(']'), EndOfInput, n);
    UnwrittenOr(One(Space), Or(Lit(']'), EndOfInput), n);
  }

  lemma UnwrittenUnquoted(n: nat)
    requires n != 11
    ensures n !in Writes(Unquoted)
  {
    UnwrittenLeaf(Rep(Dot, 0, false), n);
    UnwrittenGroup(11, Rep(Dot, 0, false), n);
    UnwrittenBareEnd(n);
    UnwrittenCat(Group(11, Rep(Dot, 0, false)), Or(One(Space), Or(Lit(']'), EndOfInput)), n);
  }

  lemma OwnsUnquoted()
    ensures Owns(Unquoted, 11, Rep(Dot, 0, false), false)
  {
    var body := Rep(Dot, 0, false);
    OwnsLeaf(body, 11, body, false);
    OwnsGroup(11, body, 11, body, false);
    UnwrittenBareEnd(11);
    OwnsUnwritten(Or(One(Space), Or(Lit(']'), EndOfInput)), 11, body, false);
    OwnsCat(Group(11, body), Or(One(Space), Or(Lit(']'), EndOfInput)), 11, body, false);
  }

  /** wName.oDefaultValue, with its three quoting forms left open. */
  lemma UnwrittenDefaultShape(dq: Re, sq: Re, bare: Re, n: nat)
    requires n !in Writes(dq) && n !in Writes(sq) && n !in Writes(bare)
    ensures n !in Writes(Maybe(Cat(Ws, Cat(Lit('='), Cat(Ws, Or(dq, Or(sq, bare)))))))
  {
    var alts := Or(dq, Or(sq, bare));
    UnwrittenLeaf(Ws, n);
    UnwrittenLeaf(Lit('='), n);
    UnwrittenOr(sq, bare, n);
    UnwrittenOr(dq, Or(sq, bare), n);
    UnwrittenCat(Ws, alts, n);
    UnwrittenCat(Lit('='), Cat(Ws, alts), n);
    UnwrittenCat(Ws, Cat(Lit('='), Cat(Ws, alts)), n);
    UnwrittenMaybe(Cat(Ws, Cat(Lit('='), Cat(Ws, alts))), n);
  }

  lemma OwnsDefaultShape(dq: Re, sq: Re, bare: Re, n: nat, body: Re, nonEmpty: bool)
    requires Owns(dq, n, body, nonEmpty) && Owns(sq, n, body, nonEmpty) && Owns(bare, n, body, nonEmpty)
    ensures Owns(Maybe(Cat(Ws, Cat(Lit('='), Cat(Ws, Or(dq, Or(sq, bare)))))), n, body, nonEmpty)
  {
    var alts := Or(dq, Or(sq, bare));
    OwnsLeaf(Ws, n, body, nonEmpty);
    OwnsLeaf(Lit('='), n, body, nonEmpty);
    OwnsOr(sq, bare, n, body, nonEmpty);
    OwnsOr(dq, Or(sq, bare), n, body, nonEmpty);
    OwnsCat(Ws, alts, n, body, nonEmpty);
    OwnsCat(Lit('='), Cat(Ws, alts), n, body, nonEmpty);
    OwnsCat(Ws, Cat(Lit('='), Cat(Ws, alts)), n, body, nonEmpty);
    OwnsMaybe(Cat(Ws, Cat(Lit('='), Cat(Ws, alts))), n, body, nonEmpty);
  }

  lemma UnwrittenDefaultValueSeg(n: nat)
    requires n < 9 || n > 11
    ensures n !in Writes(DefaultValueSeg)
  {
    UnwrittenQuoted('"', 9, n);
    UnwrittenQuoted('\'', 10, n);
    UnwrittenUnquoted(n);
    UnwrittenDefaultShape(DoubleQuoted, SingleQuoted, Unquoted, n);
  }

  lemma OwnsDefaultValueSeg9() ensures Owns(DefaultValueSeg, 9, Rep(Except('"'), 0, true), false)
  {
    var body := Rep(Except('"'), 0, true);
    OwnsQuoted('"', 9);
    UnwrittenQuoted('\'', 10, 9);
    OwnsUnwritten(SingleQuoted, 9, body, false);
    UnwrittenUnquoted(9);
    OwnsUnwritten(Unquoted, 9, body, false);
    OwnsDefaultShape(DoubleQuoted, SingleQuoted, Unquoted, 9, body, false);
  }

  lemma OwnsDefaultValueSeg10() ensures Owns(DefaultValueSeg, 10, Rep(Except('\''), 0, true), false)
  {
    var body := Rep(Except('\''), 0, true);
    UnwrittenQuoted('"', 9, 10);
    OwnsUnwritten(DoubleQuoted, 10, body, false);
    OwnsQuoted('\'', 10);
    UnwrittenUnquoted(10);
    OwnsUnwritten(Unquoted, 10, body, false);
    OwnsDefaultShape(DoubleQuoted, SingleQuoted, Unquoted, 10, body, false);
  }

  lemma OwnsDefaultValueSeg11() ensures Owns(DefaultValueSeg, 11, Rep(Dot, 0, false), false)
  {
    var body := Rep(Dot, 0, false);
    UnwrittenQuoted('"', 9, 11);
    OwnsUnwritten(DoubleQuoted, 11, body, false);
    UnwrittenQuoted('\'', 10, 11);
    OwnsUnwritten(SingleQuoted, 11, body, false);
    OwnsUnquoted();
    OwnsDefaultShape(DoubleQuoted, SingleQuoted, Unquoted, 11, body, false);
  }

  /** `\s*\]?\s*`, the closing of wName. */
  lemma UnwrittenFieldClose(n: nat)
    ensures n !in Writes(Cat(Ws, Cat(Maybe(Lit(']')), Ws)))
  {
    UnwrittenLeaf(Ws, n);
    UnwrittenLeaf(Lit(']'), n);
    UnwrittenMaybe(Lit(']'), n);
    UnwrittenCat(Maybe(Lit(']')), Ws, n);
    UnwrittenCat(Ws, Cat(Maybe(Lit(']')), Ws), n);
  }

  /** wName, with its name and default value left open. */
  lemma UnwrittenFieldShape(name: Re, default: Re, n: nat)
    requires n != 7 && n != 8 && n !in Writes(name) && n !in Writes(default)
    ensures n !in Writes(Group(7, Cat(Maybe(Lit('[')), Cat(Ws, Cat(Group(8, name), Cat(default,
      Cat(Ws, Cat(Maybe(Lit(']')), Ws))))))))
  {
    var rest := Cat(Ws, Cat(Maybe(Lit(']')), Ws));
    var named := Cat(Group(8, name), Cat(default, rest));
    UnwrittenFieldClose(n);
    UnwrittenCat(default, rest, n);
    UnwrittenGroup(8, name, n);
    UnwrittenCat(Group(8, name), Cat(default, rest), n);
    UnwrittenLeaf(Ws, n);
    UnwrittenCat(Ws, named, n);
    UnwrittenLeaf(Lit('['), n);
    UnwrittenMaybe(Lit('['), n);
    UnwrittenCat(Maybe(Lit('[')), Cat(Ws, named), n);
    UnwrittenGroup(7, Cat(Maybe(Lit('[')), Cat(Ws, named)), n);
  }

  lemma OwnsFieldShape(name: Re, default: Re, n: nat, body: Re, nonEmpty: bool)
    requires n != 7 && Owns(name, n, body, nonEmpty) && Owns(default, n, body, nonEmpty)
    requires n == 8 ==> body == name && (nonEmpty ==> MinLen(name) > 0)
    ensures Owns(Group(7, Cat(Maybe(Lit('[')), Cat(Ws, Cat(Group(8, name), Cat(default,
      Cat(Ws, Cat(Maybe(Lit(']')), Ws))))))), n, body, nonEmpty)
  {
    var rest := Cat(Ws, Cat(Maybe(Lit(']')), Ws));
    var named := Cat(Group(8, name), Cat(default, rest));
    UnwrittenFieldClose(n);
    OwnsUnwritten(rest, n, body, nonEmpty);
    OwnsCat(default, rest, n, body, nonEmpty);
    OwnsGroup(8, name, n, body, nonEmpty);
    OwnsCat(Group(8, name), Cat(default, rest), n, body, nonEmpty);
    OwnsLeaf(Ws, n, body, nonEmpty);
    OwnsCat(Ws, named, n, body, nonEmpty);
    OwnsLeaf(Lit('['), n, body, nonEmpty);
    OwnsMaybe(Lit('['), n, body, nonEmpty);
    OwnsCat(Maybe(Lit('[')), Cat(Ws, named), n, body, nonEmpty);
    OwnsGroup(7, Cat(Maybe(Lit('[')), Cat(Ws, named)), n, body, nonEmpty);
  }

  lemma UnwrittenFieldSeg(n: nat)
    requires n < 7 || n > 11
    ensures n !in Writes(FieldSeg)
  {
    UnwrittenFieldName(n);
    UnwrittenDefaultValueSeg(n);
    UnwrittenFieldShape(FieldName, DefaultValueSeg, n);
  }

  lemma UnwrittenDescriptionSeg(n: nat)
    requires n != 12
    ensures n !in Writes(DescriptionSeg)
  {
    UnwrittenLeaf(Rep(Dot, 0, true), n);
    UnwrittenGroup(12, Rep(Dot, 0, true), n);
    UnwrittenMaybe(Group(12, Rep(Dot, 0, true)), n);
  }

  lemma OwnsGroupSeg() ensures Owns(GroupSeg, 1, Label, true)
  {
    OwnsLeaf(Label, 1, Label, true);
    UnwrittenClose(')', 1);
    OwnsUnwritten(Cat(Ws, Cat(Lit(')'), Ws)), 1, Label, true);
    OwnsOpened('(', 1, Label, Cat(Ws, Cat(Lit(')'), Ws)), 1, Label, true);
  }

  lemma OwnsSampleFieldSeg()
    ensures Owns(SampleFieldSeg, 2, Rep(InputTypeChars, 1, true), true)
    ensures Owns(SampleFieldSeg, 3, Label, true)
  {
    var close := Cat(Ws, Cat(Lit('>'), Ws));
    var input := Rep(InputTypeChars, 1, true);
    // register 2
    OwnsLeaf(input, 2, input, true);
    UnwrittenInputValueSeg(2);
    UnwrittenClose('>', 2);
    UnwrittenCat(InputValueSeg, close, 2);
    OwnsUnwritten(Cat(InputValueSeg, close), 2, input, true);
    OwnsOpened('<', 2, input, Cat(InputValueSeg, close), 2, input, true);
    // register 3
    OwnsLeaf(input, 3, Label, true);
    OwnsLeaf(Label, 3, Label, true);
    OwnsLeaf(Ahead(close), 3, Label, true);
    OwnsOpened('=', 3, Label, Ahead(close), 3, Label, true);
    UnwrittenClose('>', 3);
    OwnsUnwritten(close, 3, Label, true);
    OwnsCat(InputValueSeg, close, 3, Label, true);
    OwnsOpened('<', 2, input, Cat(InputValueSeg, close), 3, Label, true);
  }

  lemma OwnsTypeSeg4() ensures Owns(TypeSeg, 4, Rep(TypeChars, 1, true), true)
  {
    var t := Rep(TypeChars, 1, true);
    var tail := Cat(SizeSeg, Cat(AllowedValuesSeg, Cat(Ws, Cat(Lit('}'), Ws))));
    OwnsLeaf(t, 4, t, true);
    UnwrittenTypeTail(4);
    OwnsUnwritten(tail, 4, t, true);
    OwnsOpened('{', 4, t, tail, 4, t, true);
  }

  lemma OwnsTypeSeg5() ensures Owns(TypeSeg, 5, Label, true)
  {
    var close := Cat(Ws, Cat(Lit('}'), Ws));
    var rest := Cat(AllowedValuesSeg, close);
    OwnsLeaf(Label, 5, Label, true);
    UnwrittenClose('}', 5);
    OwnsUnwritten(close, 5, Label, true);
    OwnsOpened('{', 5, Label, close, 5, Label, true);
    UnwrittenAllowedValuesSeg(5);
    UnwrittenCat(AllowedValuesSeg, close, 5);
    OwnsUnwritten(rest, 5, Label, true);
    OwnsCat(SizeSeg, rest, 5, Label, true);
    OwnsLeaf(Rep(TypeChars, 1, true), 5, Label, true);
    OwnsOpened('{', 4, Rep(TypeChars, 1, true), Cat(SizeSeg, rest), 5, Label, true);
  }

  lemma OwnsTypeSeg6() ensures Owns(TypeSeg, 6, Label, true)
  {
    var close := Cat(Ws, Cat(Lit('}'), Ws));
    var rest := Cat(AllowedValuesSeg, close);
    OwnsLeaf(Label, 6, Label, true);
    OwnsLeaf(Ahead(close), 6, Label, true);
    OwnsOpened('=', 6, Label, Ahead(close), 6, Label, true);
    UnwrittenClose('}', 6);
    OwnsUnwritten(close, 6, Label, true);
    OwnsCat(AllowedValuesSeg, close, 6, Label, true);
    UnwrittenSizeSeg(6);
    OwnsUnwritten(SizeSeg, 6, Label, true);
    OwnsCat(SizeSeg, rest, 6, Label, true);
    OwnsLeaf(Rep(TypeChars, 1, true), 6, Label, true);
    OwnsOpened('{', 4, Rep(TypeChars, 1, true), Cat(SizeSeg, rest), 6, Label, true);
  }

  lemma OwnsFieldSeg8() ensures Owns(FieldSeg, 8, FieldName, true)
  {
    UnwrittenFieldName(8);
    OwnsUnwritten(FieldName, 8, FieldName, true);
    UnwrittenDefaultValueSeg(8);
    OwnsUnwritten(DefaultValueSeg, 8, FieldName, true);
    assert MinLen(FieldName) == 1;
    OwnsFieldShape(FieldName, DefaultValueSeg, 8, FieldName, true);
  }

  /** A default-value register owned by the default-value segment is owned by the field segment. */
  lemma OwnsFieldSegDefault(n: nat, body: Re)
    requires n in {9, 10, 11} && Owns(DefaultValueSeg, n, body, false)
    ensures Owns(FieldSeg, n, body, false)
  {
    UnwrittenFieldName(n);
    OwnsUnwritten(FieldName, n, body, false);
    OwnsFieldShape(FieldName, DefaultValueSeg, n, body, false);
  }

  lemma OwnsDescriptionSeg() ensures Owns(DescriptionSeg, 12, Rep(Dot, 0, true), true)
  {
    var body := Rep(Dot, 0, true);
    OwnsLeaf(body, 12, body, true);
    OwnsMaybeGroup(12, body, 12, body, true);
  }

  lemma FieldSegMust() ensures 7 in Must(FieldSeg) && 8 in Must(FieldSeg)
  {
    var rest := Cat(Ws, Cat(Maybe(Lit(']')), Ws));
    var named := Cat(Group(8, FieldName), Cat(DefaultValueSeg, rest));
    MustGroup(8, FieldName, 8);
    MustCatLeft(Group(8, FieldName), Cat(DefaultValueSeg, rest), 8);
    MustCatRight(Ws, named, 8);
    MustCatRight(Maybe(Lit('[')), Cat(Ws, named), 8);
    MustGroup(7, Cat(Maybe(Lit('[')), Cat(Ws, named)), 8);
    MustGroup(7, Cat(Maybe(Lit('[')), Cat(Ws, named)), 7);
  }

  lemma GuardsSampleFieldSeg() ensures Guarded(SampleFieldSeg, 3, 2)
  {
    GuardedOpened('<', 2, Rep(InputTypeChars, 1, true), Cat(InputValueSeg, Cat(Ws, Cat(Lit('>'), Ws))), 3);
  }

  lemma GuardsTypeSeg() ensures Guarded(TypeSeg, 5, 4) && Guarded(TypeSeg, 6, 4)
  {
    var tail := Cat(SizeSeg, Cat(AllowedValuesSeg, Cat(Ws, Cat(Lit('}'), Ws))));
    GuardedOpened('{', 4, Rep(TypeChars, 1, true), tail, 5);
    GuardedOpened('{', 4, Rep(TypeChars, 1, true), tail, 6);
  }

  /** A pattern that writes none of the default-value registers. */
  lemma NoDefault(re: Re)
    requires 9 !in Writes(re) && 10 !in Writes(re) && 11 !in Writes(re)
    ensures Writes(re) * {9, 10, 11} == {}
  {
  }

  /** The three quoting forms of the default value exclude one another. */
  lemma DefaultAtMostOneShape(dq: Re, sq: Re, bare: Re, regs: set<nat>)
    requires AtMostOne(dq, regs) && AtMostOne(sq, regs) && AtMostOne(bare, regs)
    ensures AtMostOne(Maybe(Cat(Ws, Cat(Lit('='), Cat(Ws, Or(dq, Or(sq, bare)))))), regs)
  {
    var alts := Or(dq, Or(sq, bare));
    AtMostOneOr(sq, bare, regs);
    AtMostOneOr(dq, Or(sq, bare), regs);
    AtMostOneCatRight(Ws, alts, regs);
    AtMostOneCatRight(Lit('='), Cat(Ws, alts), regs);
    AtMostOneCatRight(Ws, Cat(Lit('='), Cat(Ws, alts)), regs);
    AtMostOneMaybe(Cat(Ws, Cat(Lit('='), Cat(Ws, alts))), regs);
  }

  /** A quoted form writes only its own register. */
  lemma AtMostOneQuoted(q: char, k: nat, regs: set<nat>)
    requires k in regs
    ensures AtMostOne(Cat(Lit(q), Cat(Group(k, Rep(Except(q), 0, true)), Lit(q))), regs)
  {
    var body := Rep(Except(q), 0, true);
    AtMostOneGroup(k, body, regs);
    AtMostOneCatLeft(Group(k, body), Lit(q), regs);
    AtMostOneCatRight(Lit(q), Cat(Group(k, body), Lit(q)), regs);
  }

  lemma AtMostOneUnquoted()
    ensures AtMostOne(Unquoted, {9, 10, 11})
  {
    var regs: set<nat> := {9, 10, 11};
    UnwrittenBareEnd(9);
    UnwrittenBareEnd(10);
    UnwrittenBareEnd(11);
    NoDefault(Or(One(Space), Or(Lit(']'), EndOfInput)));
    AtMostOneGroup(11, Rep(Dot, 0, false), regs);
    AtMostOneCatLeft(Group(11, Rep(Dot, 0, false)), Or(One(Space), Or(Lit(']'), EndOfInput)), regs);
  }

  lemma NoDefaultFieldClose() ensures Writes(Cat(Ws, Cat(Maybe(Lit(']')), Ws))) * {9, 10, 11} == {}
  {
    UnwrittenFieldClose(9);
    UnwrittenFieldClose(10);
    UnwrittenFieldClose(11);
    NoDefault(Cat(Ws, Cat(Maybe(Lit(']')), Ws)));
  }

  lemma NoDefaultName(name: Re)
    requires 9 !in Writes(name) && 10 !in Writes(name) && 11 !in Writes(name)
    ensures Writes(Group(8, name)) * {9, 10, 11} == {}
  {
    UnwrittenGroup(8, name, 9);
    UnwrittenGroup(8, name, 10);
    UnwrittenGroup(8, name, 11);
    NoDefault(Group(8, name));
  }

  lemma FieldAtMostOneShape(name: Re, default: Re, regs: set<nat>)
    requires 7 !in regs && Writes(Group(8, name)) * regs == {} && AtMostOne(default, regs)
    requires Writes(Cat(Ws, Cat(Maybe(Lit(']')), Ws))) * regs == {}
    ensures AtMostOne(Group(7, Cat(Maybe(Lit('[')), Cat(Ws, Cat(Group(8, name), Cat(default,
      Cat(Ws, Cat(Maybe(Lit(']')), Ws))))))), regs)
  {
    var rest := Cat(Ws, Cat(Maybe(Lit(']')), Ws));
    var named := Cat(Group(8, name), Cat(default, rest));
    AtMostOneCatLeft(default, rest, regs);
    AtMostOneCatRight(Group(8, name), Cat(default, rest), regs);
    AtMostOneCatRight(Ws, named, regs);
    AtMostOneCatRight(Maybe(Lit('[')), Cat(Ws, named), regs);
    AtMostOneGroup(7, Cat(Maybe(Lit('[')), Cat(Ws, named)), regs);
  }

  lemma DefaultValueSegAtMostOne() ensures AtMostOne(DefaultValueSeg, {9, 10, 11})
  {
    var regs: set<nat> := {9, 10, 11};
    AtMostOneQuoted('"', 9, regs);
    AtMostOneQuoted('\'', 10, regs);
    AtMostOneUnquoted();
    DefaultAtMostOneShape(DoubleQuoted, SingleQuoted, Unquoted, regs);
  }

  lemma FieldSegAtMostOne() ensures AtMostOne(FieldSeg, {9, 10, 11})
  {
    var regs: set<nat> := {9, 10, 11};
    DefaultValueSegAtMostOne();
    UnwrittenFieldName(9);
    UnwrittenFieldName(10);
    UnwrittenFieldName(11);
    NoDefaultName(FieldName);
    NoDefaultFieldClose();
    FieldAtMostOneShape(FieldName, DefaultValueSeg, regs);
  }

  // ---------------------------------------------------------------------------
  // The shape of the anchored alternative, from the shapes of its segments

  lemma OwnsMainShape(g: Re, sf: Re, t: Re, f: Re, d: Re, n: nat, body: Re, nonEmpty: bool)
    requires Owns(g, n, body, nonEmpty) && Owns(sf, n, body, nonEmpty) && Owns(t, n, body, nonEmpty)
    requires Owns(f, n, body, nonEmpty) && Owns(d, n, body, nonEmpty)
    ensures Owns(Cat(g, Cat(sf, Cat(t, Cat(f, Cat(d, EndOfInput))))), n, body, nonEmpty)
  {
    OwnsLeaf(EndOfInput, n, body, nonEmpty);
    OwnsCat(d, EndOfInput, n, body, nonEmpty);
    OwnsCat(f, Cat(d, EndOfInput), n, body, nonEmpty);
    OwnsCat(t, Cat(f, Cat(d, EndOfInput)), n, body, nonEmpty);
    OwnsCat(sf, Cat(t, Cat(f, Cat(d, EndOfInput))), n, body, nonEmpty);
    OwnsCat(g, Cat(sf, Cat(t, Cat(f, Cat(d, EndOfInput)))), n, body, nonEmpty);
  }

  lemma AtEndMainShape(g: Re, sf: Re, t: Re, f: Re, d: Re)
    ensures AtEnd(Cat(g, Cat(sf, Cat(t, Cat(f, Cat(d, EndOfInput))))))
  {
    AtEndCat(d, EndOfInput);
    AtEndCat(f, Cat(d, EndOfInput));
    AtEndCat(t, Cat(f, Cat(d, EndOfInput)));
    AtEndCat(sf, Cat(t, Cat(f, Cat(d, EndOfInput))));
    AtEndCat(g, Cat(sf, Cat(t, Cat(f, Cat(d, EndOfInput)))));
  }

  lemma MustMainShape(g: Re, sf: Re, t: Re, f: Re, d: Re, n: nat)
    requires n in Must(f)
    ensures n in Must(Cat(g, Cat(sf, Cat(t, Cat(f, Cat(d, EndOfInput))))))
  {
    MustCatLeft(f, Cat(d, EndOfInput), n);
    MustCatRight(t, Cat(f, Cat(d, EndOfInput)), n);
    MustCatRight(sf, Cat(t, Cat(f, Cat(d, EndOfInput))), n);
    MustCatRight(g, Cat(sf, Cat(t, Cat(f, Cat(d, EndOfInput)))), n);
  }

  lemma GuardedMainShape(g: Re, sf: Re, t: Re, f: Re, d: Re, a: nat, b: nat)
    requires Guarded(g, a, b) && Guarded(sf, a, b) && Guarded(t, a, b) && Guarded(f, a, b) && Guarded(d, a, b)
    ensures Guarded(Cat(g, Cat(sf, Cat(t, Cat(f, Cat(d, EndOfInput))))), a, b)
  {
    UnwrittenLeaf(EndOfInput, a);
    GuardedUnwritten(EndOfInput, a, b);
    GuardedCat(d, EndOfInput, a, b);
    GuardedCat(f, Cat(d, EndOfInput), a, b);
    GuardedCat(t, Cat(f, Cat(d, EndOfInput)), a, b);
    GuardedCat(sf, Cat(t, Cat(f, Cat(d, EndOfInput))), a, b);
    GuardedCat(g, Cat(sf, Cat(t, Cat(f, Cat(d, EndOfInput)))), a, b);
  }

  lemma AtMostOneMainShape(g: Re, sf: Re, t: Re, f: Re, d: Re, regs: set<nat>)
    requires Writes(g) * regs == {} && Writes(sf) * regs == {} && Writes(t) * regs == {}
    requires AtMostOne(f, regs) && Writes(Cat(d, EndOfInput)) * regs == {}
    ensures AtMostOne(Cat(g, Cat(sf, Cat(t, Cat(f, Cat(d, EndOfInput))))), regs)
  {
    AtMostOneCatLeft(f, Cat(d, EndOfInput), regs);
    AtMostOneCatRight(t, Cat(f, Cat(d, EndOfInput)), regs);
    AtMostOneCatRight(sf, Cat(t, Cat(f, Cat(d, EndOfInput))), regs);
    AtMostOneCatRight(g, Cat(sf, Cat(t, Cat(f, Cat(d, EndOfInput)))), regs);
  }

  /** The anchored alternative owns register `n` when each of its segments does. */
  lemma OwnsMain(n: nat, body: Re, nonEmpty: bool)
    requires Owns(GroupSeg, n, body, nonEmpty) && Owns(SampleFieldSeg, n, body, nonEmpty)
    requires Owns(TypeSeg, n, body, nonEmpty) && Owns(FieldSeg, n, body, nonEmpty)
    requires Owns(DescriptionSeg, n, body, nonEmpty)
    ensures Owns(Main, n, body, nonEmpty)
  {
    OwnsMainShape(GroupSeg, SampleFieldSeg, TypeSeg, FieldSeg, DescriptionSeg, n, body, nonEmpty);
  }

  /** Register `n` of every way through the anchored alternative holds what its group matched. */
  lemma MainRecognized(s: string, n: nat, body: Re, nonEmpty: bool, x: St)
    requires 0 < n < 13 && x in MainMatches(s) && Owns(Main, n, body, nonEmpty)
    ensures Recognized(s, x.caps, n, body, nonEmpty)
  {
    NoCapsStart(s, n, body, nonEmpty);
    RunRecognized(s, Main, n, body, nonEmpty, St(0, NoCaps), x);
  }

  /** The state `exec` starts from lies in the text and has nothing recognized yet. */
  lemma NoCapsStart(s: string, n: nat, body: Re, nonEmpty: bool)
    requires n < 13
    ensures Wf(s, St(0, NoCaps)) && Recognized(s, NoCaps, n, body, nonEmpty)
  {
    NoCapsUndefined();
  }

  /** A segment with no capture group `n` owns register `n`, whatever the body. */
  lemma OwnsElsewhere(n: nat, body: Re, nonEmpty: bool)
    ensures n != 1 ==> Owns(GroupSeg, n, body, nonEmpty)
    ensures n != 2 && n != 3 ==> Owns(SampleFieldSeg, n, body, nonEmpty)
    ensures n < 4 || n > 6 ==> Owns(TypeSeg, n, body, nonEmpty)
    ensures n < 7 || n > 11 ==> Owns(FieldSeg, n, body, nonEmpty)
    ensures n != 12 ==> Owns(DescriptionSeg, n, body, nonEmpty)
  {
    if n != 1 {
      UnwrittenGroupSeg(n);
      OwnsUnwritten(GroupSeg, n, body, nonEmpty);
    }
    if n != 2 && n != 3 {
      UnwrittenSampleFieldSeg(n);
      OwnsUnwritten(SampleFieldSeg, n, body, nonEmpty);
    }
    if n < 4 || n > 6 {
      UnwrittenTypeSeg(n);
      OwnsUnwritten(TypeSeg, n, body, nonEmpty);
    }
    if n < 7 || n > 11 {
      UnwrittenFieldSeg(n);
      OwnsUnwritten(FieldSeg, n, body, nonEmpty);
    }
    if n != 12 {
      UnwrittenDescriptionSeg(n);
      OwnsUnwritten(DescriptionSeg, n, body, nonEmpty);
    }
  }

  /**
   * What the captures of a complete match of the anchored alternative hold: each
   * label, type and name register a piece its group matches (non-empty where the
   * group must consume something), the field wrapper and name always set, the
   * input value only with an input type, size and allowed values only with a type,
   * and at most one of the three default-value forms.
   */
  ghost predicate Sound(s: string, c: Caps)
  {
    |c| == 13 && CapsIn(s, c)
    && Recognized(s, c, 1, Label, true)
    && Recognized(s, c, 2, Rep(InputTypeChars, 1, true), true)
    && Recognized(s, c, 3, Label, true)
    && Recognized(s, c, 4, Rep(TypeChars, 1, true), true)
    && Recognized(s, c, 5, Label, true)
    && Recognized(s, c, 6, Label, true)
    && Recognized(s, c, 8, FieldName, true)
    && Recognized(s, c, 9, Rep(Except('"'), 0, true), false)
    && Recognized(s, c, 10, Rep(Except('\''), 0, true), false)
    && Recognized(s, c, 11, Rep(Dot, 0, false), false)
    && Recognized(s, c, 12, Rep(Dot, 0, true), true)
    && c[7].Some? && c[8].Some?
    && (c[3].Some? ==> c[2].Some?)
    && (c[5].Some? ==> c[4].Some?)
    && (c[6].Some? ==> c[4].Some?)
    && (c[9].Some? ==> c[10].None? && c[11].None?)
    && (c[10].Some? ==> c[11].None?)
  }

  lemma MainOwnsLabels()
    ensures Owns(Main, 1, Label, true)
    ensures Owns(Main, 2, Rep(InputTypeChars, 1, true), true)
    ensures Owns(Main, 3, Label, true)
  {
    OwnsElsewhere(1, Label, true);
    OwnsGroupSeg();
    OwnsMain(1, Label, true);
    OwnsElsewhere(2, Rep(InputTypeChars, 1, true), true);
    OwnsSampleFieldSeg();
    OwnsMain(2, Rep(InputTypeChars, 1, true), true);
    OwnsElsewhere(3, Label, true);
    OwnsMain(3, Label, true);
  }

  lemma MainOwnsTypes()
    ensures Owns(Main, 4, Rep(TypeChars, 1, true), true)
    ensures Owns(Main, 5, Label, true)
    ensures Owns(Main, 6, Label, true)
  {
    OwnsElsewhere(4, Rep(TypeChars, 1, true), true);
    OwnsTypeSeg4();
    OwnsMain(4, Rep(TypeChars, 1, true), true);
    OwnsElsewhere(5, Label, true);
    OwnsTypeSeg5();
    OwnsMain(5, Label, true);
    OwnsElsewhere(6, Label, true);
    OwnsTypeSeg6();
    OwnsMain(6, Label, true);
  }

  lemma MainOwnsField()
    ensures Owns(Main, 8, FieldName, true)
    ensures Owns(Main, 12, Rep(Dot, 0, true), true)
  {
    OwnsElsewhere(8, FieldName, true);
    OwnsFieldSeg8();
    OwnsMain(8, FieldName, true);
    OwnsElsewhere(12, Rep(Dot, 0, true), true);
    OwnsDescriptionSeg();
    OwnsMain(12, Rep(Dot, 0, true), true);
  }

  lemma MainOwnsDefaults()
    ensures Owns(Main, 9, Rep(Except('"'), 0, true), false)
    ensures Owns(Main, 10, Rep(Except('\''), 0, true), false)
    ensures Owns(Main, 11, Rep(Dot, 0, false), false)
  {
    OwnsElsewhere(9, Rep(Except('"'), 0, true), false);
    OwnsDefaultValueSeg9();
    OwnsFieldSegDefault(9, Rep(Except('"'), 0, true));
    OwnsMain(9, Rep(Except('"'), 0, true), false);
    OwnsElsewhere(10, Rep(Except('\''), 0, true), false);
    OwnsDefaultValueSeg10();
    OwnsFieldSegDefault(10, Rep(Except('\''), 0, true));
    OwnsMain(10, Rep(Except('\''), 0, true), false);
    OwnsElsewhere(11, Rep(Dot, 0, false), false);
    OwnsDefaultValueSeg11();
    OwnsFieldSegDefault(11, Rep(Dot, 0, false));
    OwnsMain(11, Rep(Dot, 0, false), false);
  }

  lemma MainRegisters(s: string, x: St)
    requires x in MainMatches(s)
    ensures Recognized(s, x.caps, 1, Label, true)
    ensures Recognized(s, x.caps, 2, Rep(InputTypeChars, 1, true), true)
    ensures Recognized(s, x.caps, 3, Label, true)
    ensures Recognized(s, x.caps, 4, Rep(TypeChars, 1, true), true)
    ensures Recognized(s, x.caps, 5, Label, true)
    ensures Recognized(s, x.caps, 6, Label, true)
  {
    MainOwnsLabels();
    MainRecognized(s, 1, Label, true, x);
    MainRecognized(s, 2, Rep(InputTypeChars, 1, true), true, x);
    MainRecognized(s, 3, Label, true, x);
    MainOwnsTypes();
    MainRecognized(s, 4, Rep(TypeChars, 1, true), true, x);
    MainRecognized(s, 5, Label, true, x);
    MainRecognized(s, 6, Label, true, x);
  }

  lemma MainFieldRegisters(s: string, x: St)
    requires x in MainMatches(s)
    ensures Recognized(s, x.caps, 8, FieldName, true)
    ensures Recognized(s, x.caps, 9, Rep(Except('"'), 0, true), false)
    ensures Recognized(s, x.caps, 10, Rep(Except('\''), 0, true), false)
    ensures Recognized(s, x.caps, 11, Rep(Dot, 0, false), false)
    ensures Recognized(s, x.caps, 12, Rep(Dot, 0, true), true)
  {
    MainOwnsField();
    MainRecognized(s, 8, FieldName, true, x);
    MainRecognized(s, 12, Rep(Dot, 0, true), true, x);
    MainOwnsDefaults();
    MainRecognized(s, 9, Rep(Except('"'), 0, true), false, x);
    MainRecognized(s, 10, Rep(Except('\''), 0, true), false, x);
    MainRecognized(s, 11, Rep(Dot, 0, false), false, x);
  }

  lemma MainEnds(s: string, x: St)
    requires x in MainMatches(s)
    ensures |x.caps| == 13 && x.pos == |s| && CapsIn(s, x.caps)
  {
    var st := St(0, NoCaps);
    RunFrame(s, Main, st, x);
    AtEndMainShape(GroupSeg, SampleFieldSeg, TypeSeg, FieldSeg, DescriptionSeg);
    RunAtEnd(s, Main, st, x);
  }

  lemma MainMust() ensures 7 in Must(Main) && 8 in Must(Main)
  {
    FieldSegMust();
    MustMainShape(GroupSeg, SampleFieldSeg, TypeSeg, FieldSeg, DescriptionSeg, 7);
    MustMainShape(GroupSeg, SampleFieldSeg, TypeSeg, FieldSeg, DescriptionSeg, 8);
  }

  lemma MainSetsField(s: string, x: St)
    requires x in MainMatches(s)
    ensures |x.caps| == 13 && x.caps[7].Some? && x.caps[8].Some?
  {
    MainMust();
    RunMust(s, Main, St(0, NoCaps), x);
  }

  lemma GuardsMain32() ensures Guarded(Main, 3, 2)
  {
    UnwrittenGroupSeg(3);
    GuardedUnwritten(GroupSeg, 3, 2);
    GuardsSampleFieldSeg();
    UnwrittenTypeSeg(3);
    GuardedUnwritten(TypeSeg, 3, 2);
    UnwrittenFieldSeg(3);
    GuardedUnwritten(FieldSeg, 3, 2);
    UnwrittenDescriptionSeg(3);
    GuardedUnwritten(DescriptionSeg, 3, 2);
    GuardedMainShape(GroupSeg, SampleFieldSeg, TypeSeg, FieldSeg, DescriptionSeg, 3, 2);
  }

  /** The input value is captured only with an input type. */
  lemma MainInputValueGuard(s: string, x: St)
    requires x in MainMatches(s)
    ensures |x.caps| == 13 && (x.caps[3].Some? ==> x.caps[2].Some?)
  {
    GuardsMain32();
    NoCapsUndefined();
    RunFrame(s, Main, St(0, NoCaps), x);
    RunGuarded(s, Main, 3, 2, St(0, NoCaps), x);
  }

  /** Register `a` of the type segment is set only together with the type (4). */
  lemma GuardsMainType(a: nat)
    requires a == 5 || a == 6
    ensures Guarded(Main, a, 4)
  {
    UnwrittenGroupSeg(a);
    GuardedUnwritten(GroupSeg, a, 4);
    UnwrittenSampleFieldSeg(a);
    GuardedUnwritten(SampleFieldSeg, a, 4);
    GuardsTypeSeg();
    UnwrittenFieldSeg(a);
    GuardedUnwritten(FieldSeg, a, 4);
    UnwrittenDescriptionSeg(a);
    GuardedUnwritten(DescriptionSeg, a, 4);
    GuardedMainShape(GroupSeg, SampleFieldSeg, TypeSeg, FieldSeg, DescriptionSeg, a, 4);
  }

  /** The size is captured only with a type. */
  lemma MainSizeGuard(s: string, x: St)
    requires x in MainMatches(s)
    ensures |x.caps| == 13 && (x.caps[5].Some? ==> x.caps[4].Some?)
  {
    GuardsMainType(5);
    NoCapsUndefined();
    RunFrame(s, Main, St(0, NoCaps), x);
    RunGuarded(s, Main, 5, 4, St(0, NoCaps), x);
  }

  /** The allowed values are captured only with a type. */
  lemma MainAllowedValuesGuard(s: string, x: St)
    requires x in MainMatches(s)
    ensures |x.caps| == 13 && (x.caps[6].Some? ==> x.caps[4].Some?)
  {
    GuardsMainType(6);
    NoCapsUndefined();
    RunFrame(s, Main, St(0, NoCaps), x);
    RunGuarded(s, Main, 6, 4, St(0, NoCaps), x);
  }

  /** Only the field segment writes a default-value register. */
  lemma NoDefaultOutsideField()
    ensures Writes(GroupSeg) * {9, 10, 11} == {}
    ensures Writes(SampleFieldSeg) * {9, 10, 11} == {}
    ensures Writes(TypeSeg) * {9, 10, 11} == {}
    ensures Writes(Cat(DescriptionSeg, EndOfInput)) * {9, 10, 11} == {}
  {
    UnwrittenGroupSeg(9);
    UnwrittenGroupSeg(10);
    UnwrittenGroupSeg(11);
    NoDefault(GroupSeg);
    UnwrittenSampleFieldSeg(9);
    UnwrittenSampleFieldSeg(10);
    UnwrittenSampleFieldSeg(11);
    NoDefault(SampleFieldSeg);
    UnwrittenTypeSeg(9);
    UnwrittenTypeSeg(10);
    UnwrittenTypeSeg(11);
    NoDefault(TypeSeg);
    UnwrittenLeaf(EndOfInput, 9);
    UnwrittenLeaf(EndOfInput, 10);
    UnwrittenLeaf(EndOfInput, 11);
    UnwrittenDescriptionSeg(9);
    UnwrittenDescriptionSeg(10);
    UnwrittenDescriptionSeg(11);
    UnwrittenCat(DescriptionSeg, EndOfInput, 9);
    UnwrittenCat(DescriptionSeg, EndOfInput, 10);
    UnwrittenCat(DescriptionSeg, EndOfInput, 11);
    NoDefault(Cat(DescriptionSeg, EndOfInput));
  }

  lemma AtMostOneMain() ensures AtMostOne(Main, {9, 10, 11})
  {
    NoDefaultOutsideField();
    FieldSegAtMostOne();
    AtMostOneMainShape(GroupSeg, SampleFieldSeg, TypeSeg, FieldSeg, DescriptionSeg, {9, 10, 11});
  }

  lemma MainDefaultsExclusive(s: string, x: St)
    requires x in MainMatches(s)
    ensures ChangedAtMostOne(NoCaps, x.caps, {9, 10, 11})
  {
    AtMostOneMain();
    NoCapsUndefined();
    RunFrame(s, Main, St(0, NoCaps), x);
    RunAtMostOne(s, Main, {9, 10, 11}, St(0, NoCaps), x);
  }

  /** Every complete match of the anchored alternative ends at the end of the text and is sound. */
  lemma MainSound(s: string, x: St)
    requires x in MainMatches(s)
    ensures x.pos == |s| && Sound(s, x.caps)
  {
    MainRegisters(s, x);
    MainFieldRegisters(s, x);
    MainEnds(s, x);
    MainSetsField(s, x);
    MainInputValueGuard(s, x);
    MainSizeGuard(s, x);
    MainAllowedValuesGuard(s, x);
    MainDefaultsExclusive(s, x);
    assert x.caps[9].Some? ==> x.caps[10].None? && x.caps[11].None? by {
      if x.caps[9].Some? {
        assert x.caps[9] != NoCaps[9];
        assert x.caps[10] == NoCaps[10] && x.caps[11] == NoCaps[11];
      }
    }
    assert x.caps[10].Some? ==> x.caps[11].None? by {
      if x.caps[10].Some? {
        assert x.caps[10] != NoCaps[10];
        assert x.caps[11] == NoCaps[11];
      }
    }
  }

  // ---------------------------------------------------------------------------
  // What exec reports

  /** A field name: name characters, then optionally one `[...]` suffix of array characters. */
  ghost predicate IsFieldName(t: string)
  {
    exists k | 1 <= k <= |t| :: NameSplit(t, k)
  }

  /** `t[..k]` is the name proper and `t[k..]` is empty or the array suffix. */
  ghost predicate NameSplit(t: string, k: nat)
    requires k <= |t|
  {
    SplitAt(t, k, NameChars, ArrayChars)
  }

  /** `t[..k]` is a run of `cls` and `t[k..]` is empty or `[`, a run of `acls`, `]`. */
  ghost predicate SplitAt(t: string, k: nat, cls: Class, acls: Class)
    requires k <= |t|
  {
    (forall i | 0 <= i < k :: In(cls, t[i]))
    && (k == |t| || (k + 2 <= |t| && t[k] == '[' && t[|t| - 1] == ']'
                     && forall i | k < i < |t| - 1 :: In(acls, t[i])))
  }

  lemma CloseStep(s: string, cls: Class, z: St, w: St, x: St)
    requires z.pos <= |s| && w in Run(s, Rep(cls, 0, true), z) && x in Run(s, Lit(']'), w)
    ensures z.pos < x.pos <= |s| && s[x.pos - 1] == ']'
    ensures forall i | z.pos <= i < x.pos - 1 :: In(cls, s[i])
  {
    LitIn(s, ']', w, x);
    RepIn(s, cls, 0, true, z, w);
    CloseAt(s, cls, z.pos, w.pos, x.pos);
  }

  /** A run of `cls` from `a` to `b`, then `]`. */
  lemma CloseAt(s: string, cls: Class, a: nat, b: nat, c: nat)
    requires a <= b < |s| && s[b] == ']' && c == b + 1
    requires forall i | a <= i < b :: In(cls, s[i])
    ensures a < c <= |s| && s[c - 1] == ']'
    ensures forall i | a <= i < c - 1 :: In(cls, s[i])
  {
  }

  /** What `cls*\]` matches from `z`. */
  lemma CloseRun(s: string, cls: Class, z: St, x: St)
    requires z.pos <= |s| && x in Run(s, Cat(Rep(cls, 0, true), Lit(']')), z)
    ensures z.pos < x.pos <= |s| && s[x.pos - 1] == ']'
    ensures forall i | z.pos <= i < x.pos - 1 :: In(cls, s[i])
  {
    CatIn(s, Rep(cls, 0, true), Lit(']'), z, x);
    var w :| w in Run(s, Rep(cls, 0, true), z) && x in Run(s, Lit(']'), w);
    CloseStep(s, cls, z, w, x);
  }

  /** What `\[cls*\]` matches from `y`. */
  lemma BracketRun(s: string, cls: Class, y: St, x: St)
    requires y.pos <= |s| && x in Run(s, Cat(Lit('['), Cat(Rep(cls, 0, true), Lit(']'))), y)
    ensures y.pos + 2 <= x.pos <= |s| && s[y.pos] == '[' && s[x.pos - 1] == ']'
    ensures forall i | y.pos < i < x.pos - 1 :: In(cls, s[i])
  {
    CatIn(s, Lit('['), Cat(Rep(cls, 0, true), Lit(']')), y, x);
    var z :| z in Run(s, Lit('['), y) && x in Run(s, Cat(Rep(cls, 0, true), Lit(']')), z);
    LitIn(s, '[', y, z);
    CloseRun(s, cls, z, x);
  }

  /** What `(?:\[cls*\])?` matches from `y`: nothing, or a bracketed run of the class. */
  lemma SuffixRun(s: string, cls: Class, y: St, x: St)
    requires y.pos <= |s| && x in Run(s, Maybe(Cat(Lit('['), Cat(Rep(cls, 0, true), Lit(']')))), y)
    ensures y.pos <= x.pos <= |s|
    ensures x.pos != y.pos ==>
      y.pos + 2 <= x.pos && s[y.pos] == '[' && s[x.pos - 1] == ']'
      && forall i | y.pos < i < x.pos - 1 :: In(cls, s[i])
  {
    MaybeIn(s, Cat(Lit('['), Cat(Rep(cls, 0, true), Lit(']'))), y, x);
    if x != y {
      BracketRun(s, cls, y, x);
    }
  }

  /**
   * `s[a..b]` is a run of `cls` up to `k`, then either nothing or `[`, a run of
   * `acls`, and `]`.
   */
  ghost predicate SplitRun(s: string, a: nat, k: nat, b: nat, cls: Class, acls: Class)
  {
    a < k <= b <= |s|
    && (forall i | a <= i < k :: In(cls, s[i]))
    && (k == b || (k + 2 <= b && s[k] == '[' && s[b - 1] == ']'
                   && forall i | k < i < b - 1 :: In(acls, s[i])))
  }

  lemma NameStep(s: string, cls: Class, acls: Class, st: St, y: St, x: St)
    requires st.pos <= |s| && y in Run(s, Rep(cls, 1, true), st)
    requires x in Run(s, Maybe(Cat(Lit('['), Cat(Rep(acls, 0, true), Lit(']')))), y)
    ensures SplitRun(s, st.pos, y.pos, x.pos, cls, acls)
  {
    RepIn(s, cls, 1, true, st, y);
    SuffixRun(s, acls, y, x);
  }

  /** What `cls+` followed by an optional `\[acls*\]` matches is split there. */
  lemma NameRun(s: string, cls: Class, acls: Class, st: St, x: St) returns (k: nat)
    requires st.pos <= |s|
    requires x in Run(s, Cat(Rep(cls, 1, true), Maybe(Cat(Lit('['), Cat(Rep(acls, 0, true), Lit(']'))))), st)
    ensures SplitRun(s, st.pos, k, x.pos, cls, acls)
  {
    var suffix := Maybe(Cat(Lit('['), Cat(Rep(acls, 0, true), Lit(']'))));
    CatIn(s, Rep(cls, 1, true), suffix, st, x);
    var y :| y in Run(s, Rep(cls, 1, true), st) && x in Run(s, suffix, y);
    NameStep(s, cls, acls, st, y, x);
    k := y.pos;
  }

  /** The split of the match of `NameRun`, read on the matched piece. */
  lemma SliceSplit(s: string, a: nat, b: nat, k: nat, cls: Class, acls: Class)
    requires SplitRun(s, a, k, b, cls, acls)
    ensures SplitAt(s[a..b], k - a, cls, acls)
  {
    var t := s[a..b];
    forall i | 0 <= i < k - a
      ensures In(cls, t[i])
    {
      assert t[i] == s[a + i];
    }
    if k < b {
      forall i | k - a < i < |t| - 1
        ensures In(acls, t[i])
      {
        assert t[i] == s[a + i];
      }
    }
  }

  /** A piece split as `NameRun` splits it is a field name. */
  lemma NamePiece(s: string, a: nat, b: nat, k: nat)
    requires SplitRun(s, a, k, b, NameChars, ArrayChars)
    ensures a < b <= |s| && IsFieldName(s[a..b])
  {
    SliceSplit(s, a, b, k, NameChars, ArrayChars);
    assert NameSplit(s[a..b], k - a);
  }

  /** What the field-name group matches is a field name. */
  lemma FieldNameRun(s: string, st: St, x: St)
    requires st.pos <= |s| && x in Run(s, FieldName, st)
    ensures st.pos < x.pos <= |s| && IsFieldName(s[st.pos..x.pos])
  {
    var k := NameRun(s, NameChars, ArrayChars, st, x);
    NamePiece(s, st.pos, x.pos, k);
  }

  /** A register holding, when defined, at least `min` characters, all of the class `cls`. */
  predicate Holds(v: Option<string>, cls: Class, min: nat)
  {
    v.Some? ==> |v.value| >= min && forall i | 0 <= i < |v.value| :: In(cls, v.value[i])
  }

  /**
   * The captures of a complete match of the anchored alternative, as strings: the
   * field wrapper and a well-formed field name are always there; labels and types
   * are non-empty runs of their classes; the quoted defaults contain no quote of
   * their kind; the input value comes only with an input type, the size and the
   * allowed values only with a type; and at most one default-value form is set.
   */
  ghost predicate Shaped(r: seq<Option<string>>)
  {
    |r| == 13 && ShapedField(r) && ShapedRuns(r) && ShapedLinks(r)
  }

  ghost predicate ShapedField(r: seq<Option<string>>)
    requires |r| == 13
  {
    r[7].Some? && r[8].Some? && IsFieldName(r[8].value)
  }

  predicate ShapedRuns(r: seq<Option<string>>)
    requires |r| == 13
  {
    Holds(r[1], Dot, 1) && Holds(r[2], InputTypeChars, 1) && Holds(r[3], Dot, 1)
    && Holds(r[4], TypeChars, 1) && Holds(r[5], Dot, 1) && Holds(r[6], Dot, 1)
    && Holds(r[9], Except('"'), 0) && Holds(r[10], Except('\''), 0) && Holds(r[11], Dot, 0)
    && Holds(r[12], Dot, 1)
  }

  predicate ShapedLinks(r: seq<Option<string>>)
    requires |r| == 13
  {
    (r[3].Some? ==> r[2].Some?) && (r[5].Some? ==> r[4].Some?) && (r[6].Some? ==> r[4].Some?)
    && (r[9].Some? ==> r[10].None? && r[11].None?) && (r[10].Some? ==> r[11].None?)
  }

  /** The text of a register recognized by a repetition is a run of its class. */
  lemma TextHolds(s: string, x: St, n: nat, cls: Class, min: nat, greedy: bool, nonEmpty: bool)
    requires 0 < n < 13 && Recognized(s, x.caps, n, Rep(cls, min, greedy), nonEmpty)
    ensures Holds(Texts(s, x)[n], cls, if nonEmpty && min == 0 then 1 else min)
  {
    if x.caps[n].Some? {
      RecognizedRep(s, x.caps, n, cls, min, greedy, nonEmpty);
    }
  }

  lemma TextFieldName(s: string, x: St)
    requires Recognized(s, x.caps, 8, FieldName, true) && x.caps[8].Some?
    ensures Texts(s, x)[8].Some? && IsFieldName(Texts(s, x)[8].value)
  {
    var sp := x.caps[8].value;
    var c0: Caps, c1: Caps :| St(sp.end, c1) in Run(s, FieldName, St(sp.start, c0));
    FieldNameRun(s, St(sp.start, c0), St(sp.end, c1));
  }

  lemma TextsHoldLabels(s: string, x: St)
    requires Sound(s, x.caps)
    ensures Holds(Texts(s, x)[1], Dot, 1) && Holds(Texts(s, x)[2], InputTypeChars, 1)
    ensures Holds(Texts(s, x)[3], Dot, 1) && Holds(Texts(s, x)[4], TypeChars, 1)
    ensures Holds(Texts(s, x)[5], Dot, 1) && Holds(Texts(s, x)[6], Dot, 1)
  {
    TextHolds(s, x, 1, Dot, 1, false, true);
    TextHolds(s, x, 2, InputTypeChars, 1, true, true);
    TextHolds(s, x, 3, Dot, 1, false, true);
    TextHolds(s, x, 4, TypeChars, 1, true, true);
    TextHolds(s, x, 5, Dot, 1, false, true);
    TextHolds(s, x, 6, Dot, 1, false, true);
  }

  lemma TextsHoldValues(s: string, x: St)
    requires Sound(s, x.caps)
    ensures Holds(Texts(s, x)[9], Except('"'), 0) && Holds(Texts(s, x)[10], Except('\''), 0)
    ensures Holds(Texts(s, x)[11], Dot, 0) && Holds(Texts(s, x)[12], Dot, 1)
  {
    TextHolds(s, x, 9, Except('"'), 0, true, false);
    TextHolds(s, x, 10, Except('\''), 0, true, false);
    TextHolds(s, x, 11, Dot, 0, false, false);
    TextHolds(s, x, 12, Dot, 0, true, true);
  }

  lemma TextsRuns(s: string, x: St)
    requires Sound(s, x.caps)
    ensures ShapedRuns(Texts(s, x))
  {
    TextsHoldLabels(s, x);
    TextsHoldValues(s, x);
  }

  lemma TextsField(s: string, x: St)
    requires Sound(s, x.caps)
    ensures ShapedField(Texts(s, x))
  {
    TextFieldName(s, x);
  }

  /** Which registers are defined carries over from the spans to the strings. */
  lemma TextsDefined(s: string, x: St)
    requires |x.caps| == 13
    ensures forall n | 0 < n < 13 :: Texts(s, x)[n].Some? == x.caps[n].Some?
  {
  }

  lemma TextsLinks(s: string, x: St)
    requires Sound(s, x.caps)
    ensures ShapedLinks(Texts(s, x))
  {
    TextsDefined(s, x);
  }

  lemma TextsWhole(s: string, x: St)
    requires x.pos == |s|
    ensures Texts(s, x)[0] == Some(s)
  {
    assert Texts(s, x)[0] == Some(Slice(s, 0, x.pos));
    assert s[0..|s|] == s;
  }

  /** The `exec` array of a sound way that covers the whole text. */
  lemma SoundTexts(s: string, x: St)
    requires x.pos == |s| && Sound(s, x.caps)
    ensures Texts(s, x)[0] == Some(s) && Shaped(Texts(s, x))
  {
    TextsWhole(s, x);
    TextsRuns(s, x);
    TextsField(s, x);
    TextsLinks(s, x);
  }

  lemma TextsShaped(s: string, x: St)
    requires x in MainMatches(s)
    ensures Texts(s, x)[0] == Some(s) && Shaped(Texts(s, x))
  {
    MainSound(s, x);
    SoundTexts(s, x);
  }

  /**
   * `exec` fails only when the anchored alternative fails and the text has no `@`;
   * when only `@` matches, every capture is undefined; otherwise the reported match
   * is the first way through the anchored alternative, covers the whole text and
   * is shaped.
   */
  lemma ExecCases(s: string)
    ensures Exec(s).None? <==> MainMatches(s) == [] && '@' !in s
    ensures MainMatches(s) == [] && '@' in s ==> Exec(s) == Some(AtOnly)
    ensures MainMatches(s) != [] ==>
      Exec(s) == Some(Texts(s, MainMatches(s)[0])) && Exec(s).value[0] == Some(s) && Shaped(Exec(s).value)
  {
    if MainMatches(s) != [] {
      TextsShaped(s, MainMatches(s)[0]);
    }
  }

  // ---------------------------------------------------------------------------
  // A bare field name matches

  /** A bare field name: a non-empty run of name characters and nothing else. */
  predicate IsBareName(s: string) {
    |s| > 0 && forall i | 0 <= i < |s| :: In(NameChars, s[i])
  }

  /** The registers of the match of a bare field name of length `k`: only 7 and 8, both the whole text. */
  function BareCaps(k: nat): (c: Caps)
    ensures |c| == 13
    ensures forall n | 0 <= n < 13 :: c[n] == if n == 7 || n == 8 then Some(Span(0, k)) else None
  {
    NoCapsUndefined();
    SetCap(SetCap(NoCaps, 8, Span(0, k)), 7, Span(0, k))
  }

  /** A name character opens no segment and is neither whitespace nor a line break or the sentinel. */
  lemma NameCharPlain(c: char)
    requires In(NameChars, c)
    ensures !IsSpace(c) && c != '(' && c != '<' && c != '{' && c != '[' && c != '\n' && c != Sentinel
  {
  }

  /** An optional segment whose opening character is absent leaves the state as it is. */
  lemma SkipOpened(s: string, o: char, rest: Re, st: St)
    requires st.pos < |s| ==> !IsSpace(s[st.pos]) && s[st.pos] != o
    ensures Run(s, Cat(Ws, Maybe(Cat(Lit(o), rest))), st) == [st]
  {
    RepStays(s, Space, true, st);
    CatNone(s, Lit(o), rest, st);
    MaybeSkips(s, Cat(Lit(o), rest), st);
    CatSingle(s, Ws, Maybe(Cat(Lit(o), rest)), st, st);
  }

  /** At the end of the text the default value and the closing part of the field match nothing, in one way. */
  lemma FieldCloseAtEnd(s: string, alts: Re, st: St)
    requires st.pos == |s|
    ensures Run(s, Cat(Maybe(Cat(Ws, Cat(Lit('='), alts))), Cat(Ws, Cat(Maybe(Lit(']')), Ws))), st) == [st]
  {
    RepStays(s, Space, true, st);
    CatNone(s, Lit('='), alts, st);
    CatSingle(s, Ws, Cat(Lit('='), alts), st, st);
    MaybeSkips(s, Cat(Ws, Cat(Lit('='), alts)), st);
    MaybeSkips(s, Lit(']'), st);
    CatSingle(s, Maybe(Lit(']')), Ws, st, st);
    CatSingle(s, Ws, Cat(Maybe(Lit(']')), Ws), st, st);
    CatSingle(s, Maybe(Cat(Ws, Cat(Lit('='), alts))), Cat(Ws, Cat(Maybe(Lit(']')), Ws)), st, st);
  }

  /** From `p` to the end, the text is a run of name characters. */
  predicate NameFrom(s: string, p: nat) {
    p < |s| && RunEnd(s, NameChars, p) == |s|
  }

  /** The first way through the field name from `p` takes the rest of the text. */
  lemma BareNameFirst(s: string, p: nat, c: Caps)
    requires NameFrom(s, p)
    ensures Run(s, FieldName, St(p, c)) != [] && Run(s, FieldName, St(p, c))[0] == St(|s|, c)
  {
    var y := St(|s|, c);
    var suffix := Cat(Lit('['), Cat(Rep(ArrayChars, 0, true), Lit(']')));
    GreedyFirst(s, NameChars, 1, St(p, c));
    CatNone(s, Lit('['), Cat(Rep(ArrayChars, 0, true), Lit(']')), y);
    MaybeSkips(s, suffix, y);
    CatFirst(s, Rep(NameChars, 1, true), Maybe(suffix), St(p, c), y, y);
  }

  /** The first way through the field wrapper from `p` takes the rest of the text and sets registers 8 and 7. */
  lemma BareFieldFirst(s: string, p: nat, c: Caps)
    requires NameFrom(s, p)
    ensures Run(s, FieldSeg, St(p, c)) != []
    ensures Run(s, FieldSeg, St(p, c))[0] == St(|s|, SetCap(SetCap(c, 8, Span(p, |s|)), 7, Span(p, |s|)))
  {
    var st := St(p, c);
    var y := St(|s|, SetCap(c, 8, Span(p, |s|)));
    var alts := Cat(Ws, Or(DoubleQuoted, Or(SingleQuoted, Unquoted)));
    var close := Cat(Maybe(Cat(Ws, Cat(Lit('='), alts))), Cat(Ws, Cat(Maybe(Lit(']')), Ws)));
    var named := Cat(Group(8, FieldName), close);
    RunEndIn(s, NameChars, p, p);
    NameCharPlain(s[p]);
    BareNameFirst(s, p, c);
    GroupFirst(s, 8, FieldName, st);
    FieldCloseAtEnd(s, alts, y);
    CatFirst(s, Group(8, FieldName), close, st, y, y);
    RepStays(s, Space, true, st);
    CatSingle(s, Ws, named, st, st);
    MaybeSkips(s, Lit('['), st);
    CatSingle(s, Maybe(Lit('[')), Cat(Ws, named), st, st);
    GroupFirst(s, 7, Cat(Maybe(Lit('[')), Cat(Ws, named)), st);
  }

  /** At the end of the text the description is refused (it would be empty) and `$` holds. */
  lemma DescriptionAtEnd(s: string, st: St)
    requires st.pos == |s|
    ensures Run(s, Cat(DescriptionSeg, EndOfInput), st) == [st]
  {
    RepStays(s, Dot, true, st);
    var y := St(st.pos, SetCap(st.caps, 12, Span(st.pos, st.pos)));
    assert Run(s, Group(12, Rep(Dot, 0, true)), st) == [y];
    MaybeStays(s, Group(12, Rep(Dot, 0, true)), st, y);
    CatSingle(s, DescriptionSeg, EndOfInput, st, st);
  }

  /**
   * A bare field name is a whole parameter sample: the first way through the
   * anchored alternative skips the group, sample-field and type segments, takes
   * the whole text as the field, and sets registers 7 and 8 only.
   */
  lemma BareNameMatch(s: string)
    requires IsBareName(s)
    ensures MainMatches(s) != [] && MainMatches(s)[0] == St(|s|, BareCaps(|s|))
  {
    var st := St(0, NoCaps);
    var x := St(|s|, BareCaps(|s|));
    var tail := Cat(DescriptionSeg, EndOfInput);
    NameCharPlain(s[0]);
    RunEndAll(s, NameChars, 0);
    BareFieldFirst(s, 0, NoCaps);
    DescriptionAtEnd(s, x);
    CatFirst(s, FieldSeg, tail, st, x, x);
    SkipOpened(s, '{', Cat(Ws, Cat(Group(4, Rep(TypeChars, 1, true)), Cat(SizeSeg, Cat(AllowedValuesSeg, Cat(Ws, Cat(Lit('}'), Ws)))))), st);
    CatSingle(s, TypeSeg, Cat(FieldSeg, tail), st, st);
    SkipOpened(s, '<', Cat(Ws, Cat(Group(2, Rep(InputTypeChars, 1, true)), Cat(InputValueSeg, Cat(Ws, Cat(Lit('>'), Ws))))), st);
    CatSingle(s, SampleFieldSeg, Cat(TypeSeg, Cat(FieldSeg, tail)), st, st);
    SkipOpened(s, '(', Cat(Ws, Cat(Group(1, Label), Cat(Ws, Cat(Lit(')'), Ws)))), st);
    CatSingle(s, GroupSeg, Cat(SampleFieldSeg, Cat(TypeSeg, Cat(FieldSeg, tail))), st, st);
  }

  /** `exec` of a bare field name: the whole text, the field wrapper and the field name, nothing else. */
  lemma BareNameExec(s: string)
    requires IsBareName(s)
    ensures Exec(s) == Some([Some(s), None, None, None, None, None, None, Some(s), Some(s), None, None, None, None])
  {
    BareNameMatch(s);
    var x := St(|s|, BareCaps(|s|));
    var m := Texts(s, x);
    var want := [Some(s), None, None, None, None, None, None, Some(s), Some(s), None, None, None, None];
    assert Slice(s, 0, |s|) == s;
    forall n | 0 <= n < 13 ensures m[n] == want[n] {
      if n == 7 || n == 8 {
        assert x.caps[n] == Some(Span(0, |s|));
      } else if n > 0 {
        assert x.caps[n] == None;
      }
    }
    assert m == want;
  }

  // ---------------------------------------------------------------------------
  // A group label and a type before the field name

  /** A character the group label may hold here: no whitespace and no closing parenthesis. */
  predicate LabelChar(ch: char) {
    !IsSpace(ch) && ch != ')'
  }

  /** A type character opens no size or allowed values, closes no type and is not whitespace. */
  lemma TypeCharPlain(ch: char)
    requires In(TypeChars, ch)
    ensures !IsSpace(ch) && ch != '{' && ch != '}' && ch != '=' && ch != Sentinel
  {
  }

  /** A closing character followed by one space (and then no more whitespace) is taken with the space. */
  lemma ClosingFirst(s: string, o: char, x: St)
    requires !IsSpace(o) && x.pos + 1 < |s| && s[x.pos] == o && s[x.pos + 1] == ' '
    requires x.pos + 2 < |s| ==> !IsSpace(s[x.pos + 2])
    ensures Run(s, Cat(Ws, Cat(Lit(o), Ws)), x) != []
    ensures Run(s, Cat(Ws, Cat(Lit(o), Ws)), x)[0] == St(x.pos + 2, x.caps)
  {
    var y := St(x.pos + 1, x.caps);
    RepStays(s, Space, true, x);
    LitTaken(s, o, x);
    RunEndAt(s, Space, x.pos + 1, x.pos + 2);
    GreedyFirst(s, Space, 0, y);
    CatFirst(s, Lit(o), Ws, x, y, St(x.pos + 2, x.caps));
    CatSingle(s, Ws, Cat(Lit(o), Ws), x, x);
  }

  /** Inside the label, the closing parenthesis is not there yet. */
  lemma LabelCloseFails(s: string, x: St)
    requires x.pos < |s| && LabelChar(s[x.pos])
    ensures Run(s, Cat(Ws, Cat(Lit(')'), Ws)), x) == []
  {
    RepStays(s, Space, true, x);
    CatNone(s, Lit(')'), Ws, x);
    CatSingle(s, Ws, Cat(Lit(')'), Ws), x, x);
  }

  /** The ways through the lazy label group from position 1: every end from 2 on, shortest first. */
  lemma LabelWays(s: string, q: nat, c: Caps)
    requires 1 < q <= |s| && forall i | 1 <= i < q :: LabelChar(s[i])
    ensures var xs := Run(s, Group(1, Label), St(1, c));
      |xs| >= q - 1 && forall j | 0 <= j < |xs| :: xs[j] == St(2 + j, SetCap(c, 1, Span(1, 2 + j)))
  {
    var k := RunEnd(s, Dot, 1);
    RunEndPast(s, Dot, 1, q);
    RunRep(s, Dot, 1, false, St(1, c));
    assert Run(s, Group(1, Label), St(1, c)) == Record(Place(Up(2, k), c), 1, 1);
  }

  /** Of the ways through the label, the first the closing parenthesis can follow is the one ending at `q`. */
  lemma LabelCloseHead(s: string, q: nat, c: Caps, xs: seq<St>)
    requires 1 < q && q + 1 < |s| && s[q] == ')' && s[q + 1] == ' ' && (q + 2 < |s| ==> !IsSpace(s[q + 2]))
    requires forall i | 1 <= i < q :: LabelChar(s[i])
    requires |xs| >= q - 1 && forall j | 0 <= j < |xs| :: xs[j] == St(2 + j, SetCap(c, 1, Span(1, 2 + j)))
    ensures var r := RunAll(s, Cat(Ws, Cat(Lit(')'), Ws)), xs);
      r != [] && r[0] == St(q + 2, SetCap(c, 1, Span(1, q)))
  {
    var close := Cat(Ws, Cat(Lit(')'), Ws));
    forall j | 0 <= j < q - 2 ensures Run(s, close, xs[j]) == [] {
      LabelCloseFails(s, xs[j]);
    }
    ClosingFirst(s, ')', xs[q - 2]);
    RunAllHead(s, close, xs, q - 2);
  }

  /**
   * The lazy label from position 1 grows one character at a time until the
   * closing parenthesis at `q` can follow it.
   */
  lemma LabelFirst(s: string, q: nat, c: Caps)
    requires 1 < q && q + 1 < |s| && s[q] == ')' && s[q + 1] == ' ' && (q + 2 < |s| ==> !IsSpace(s[q + 2]))
    requires forall i | 1 <= i < q :: LabelChar(s[i])
    ensures var r := Run(s, Cat(Group(1, Label), Cat(Ws, Cat(Lit(')'), Ws))), St(1, c));
      r != [] && r[0] == St(q + 2, SetCap(c, 1, Span(1, q)))
  {
    var xs := Run(s, Group(1, Label), St(1, c));
    LabelWays(s, q, c);
    LabelCloseHead(s, q, c, xs);
    assert Run(s, Cat(Group(1, Label), Cat(Ws, Cat(Lit(')'), Ws))), St(1, c)) == RunAll(s, Cat(Ws, Cat(Lit(')'), Ws)), xs);
  }

  /** The group segment from the start takes `(label) ` when the text opens with one. */
  lemma GroupTaken(s: string, q: nat, c: Caps)
    requires 1 < q && q + 1 < |s| && s[0] == '(' && s[q] == ')' && s[q + 1] == ' ' && (q + 2 < |s| ==> !IsSpace(s[q + 2]))
    requires forall i | 1 <= i < q :: LabelChar(s[i])
    ensures Run(s, GroupSeg, St(0, c)) != [] && Run(s, GroupSeg, St(0, c))[0] == St(q + 2, SetCap(c, 1, Span(1, q)))
  {
    var st := St(0, c);
    var one := St(1, c);
    var z := St(q + 2, SetCap(c, 1, Span(1, q)));
    var inner := Cat(Group(1, Label), Cat(Ws, Cat(Lit(')'), Ws)));
    var entered := Cat(Lit('('), Cat(Ws, inner));
    assert LabelChar(s[1]);
    LabelFirst(s, q, c);
    RepStays(s, Space, true, one);
    CatSingle(s, Ws, inner, one, one);
    LitTaken(s, '(', st);
    CatSingle(s, Lit('('), Cat(Ws, inner), st, one);
    MaybeFirst(s, entered, st, z);
    RepStays(s, Space, true, st);
    CatSingle(s, Ws, Maybe(entered), st, st);
  }

  /** After the type name, the closing brace with its space: size and allowed values are skipped. */
  lemma TypeCloseFirst(s: string, u: nat, c: Caps)
    requires u + 1 < |s| && s[u] == '}' && s[u + 1] == ' ' && (u + 2 < |s| ==> !IsSpace(s[u + 2]))
    ensures var r := Run(s, Cat(SizeSeg, Cat(AllowedValuesSeg, Cat(Ws, Cat(Lit('}'), Ws)))), St(u, c));
      r != [] && r[0] == St(u + 2, c)
  {
    var y := St(u, c);
    ClosingFirst(s, '}', y);
    SkipOpened(s, '=', Cat(Ws, Cat(Group(6, Label), Ahead(Cat(Ws, Cat(Lit('}'), Ws))))), y);
    CatSingle(s, AllowedValuesSeg, Cat(Ws, Cat(Lit('}'), Ws)), y, y);
    SkipOpened(s, '{', Cat(Ws, Cat(Group(5, Label), Cat(Ws, Cat(Lit('}'), Ws)))), y);
    CatSingle(s, SizeSeg, Cat(AllowedValuesSeg, Cat(Ws, Cat(Lit('}'), Ws))), y, y);
  }

  /** An optional segment whose opening character is there goes on as its first way from just after it. */
  lemma OpenedFirst(s: string, o: char, rest: Re, st: St, z: St)
    requires !IsSpace(o) && st.pos < |s| && s[st.pos] == o
    requires Run(s, rest, St(st.pos + 1, st.caps)) != [] && Run(s, rest, St(st.pos + 1, st.caps))[0] == z
    requires z.pos != st.pos
    ensures Run(s, Cat(Ws, Maybe(Cat(Lit(o), rest))), st) != []
    ensures Run(s, Cat(Ws, Maybe(Cat(Lit(o), rest))), st)[0] == z
  {
    LitTaken(s, o, st);
    CatSingle(s, Lit(o), rest, st, St(st.pos + 1, st.caps));
    MaybeFirst(s, Cat(Lit(o), rest), st, z);
    RepStays(s, Space, true, st);
    CatSingle(s, Ws, Maybe(Cat(Lit(o), rest)), st, st);
  }

  /** The type name from `a` is the longest run of type characters, up to `u`. */
  lemma TypeNameFirst(s: string, a: nat, u: nat, c: Caps)
    requires a < u <= |s| && RunEnd(s, TypeChars, a) == u
    ensures var r := Run(s, Group(4, Rep(TypeChars, 1, true)), St(a, c));
      r != [] && r[0] == St(u, SetCap(c, 4, Span(a, u))) && !IsSpace(s[a])
  {
    RunEndIn(s, TypeChars, a, a);
    TypeCharPlain(s[a]);
    GreedyFirst(s, TypeChars, 1, St(a, c));
    GroupFirst(s, 4, Rep(TypeChars, 1, true), St(a, c));
  }

  /** From just after the brace, the type name runs to `u` and the closing brace with its space follows. */
  lemma TypeInner(s: string, a: nat, u: nat, c: Caps)
    requires a < u && u + 1 < |s| && RunEnd(s, TypeChars, a) == u
    requires s[u] == '}' && s[u + 1] == ' ' && (u + 2 < |s| ==> !IsSpace(s[u + 2]))
    ensures var r := Run(s, Cat(Ws, Cat(Group(4, Rep(TypeChars, 1, true)), Cat(SizeSeg, Cat(AllowedValuesSeg, Cat(Ws, Cat(Lit('}'), Ws)))))), St(a, c));
      r != [] && r[0] == St(u + 2, SetCap(c, 4, Span(a, u)))
  {
    var one := St(a, c);
    var d := SetCap(c, 4, Span(a, u));
    var close := Cat(SizeSeg, Cat(AllowedValuesSeg, Cat(Ws, Cat(Lit('}'), Ws))));
    TypeNameFirst(s, a, u, c);
    TypeCloseFirst(s, u, d);
    CatFirst(s, Group(4, Rep(TypeChars, 1, true)), close, one, St(u, d), St(u + 2, d));
    RepStays(s, Space, true, one);
    CatSingle(s, Ws, Cat(Group(4, Rep(TypeChars, 1, true)), close), one, one);
  }

  /** The type segment at `p` takes `{type} ` when a brace opens a run of type characters there. */
  lemma TypeTaken(s: string, p: nat, u: nat, c: Caps)
    requires p + 1 < u && u + 1 < |s| && s[p] == '{' && RunEnd(s, TypeChars, p + 1) == u
    requires s[u] == '}' && s[u + 1] == ' ' && (u + 2 < |s| ==> !IsSpace(s[u + 2]))
    ensures Run(s, TypeSeg, St(p, c)) != [] && Run(s, TypeSeg, St(p, c))[0] == St(u + 2, SetCap(c, 4, Span(p + 1, u)))
  {
    TypeInner(s, p + 1, u, c);
    OpenedFirst(s, '{', Cat(Ws, Cat(Group(4, Rep(TypeChars, 1, true)), Cat(SizeSeg, Cat(AllowedValuesSeg, Cat(Ws, Cat(Lit('}'), Ws)))))),
                St(p, c), St(u + 2, SetCap(c, 4, Span(p + 1, u))));
  }

  /**
   * The text is `(label) {type} name`: the label runs from 1 to `q`, the type
   * name from `q + 3` to `u`, and the field name from `u + 2` to the end.
   */
  predicate Tagged(s: string, q: nat, u: nat) {
    && 1 < q && q + 3 < u && u + 2 < |s|
    && s[0] == '(' && s[q] == ')' && s[q + 1] == ' ' && s[q + 2] == '{' && s[u] == '}' && s[u + 1] == ' '
    && (forall i | 1 <= i < q :: LabelChar(s[i]))
    && RunEnd(s, TypeChars, q + 3) == u
    && NameFrom(s, u + 2)
  }

  /** The registers of the match of `(label) {type} name`: the group, the type, the field wrapper and the field. */
  function TaggedCaps(q: nat, u: nat, k: nat): (c: Caps)
    ensures |c| == 13
    ensures c[1] == Some(Span(1, q)) && c[4] == Some(Span(q + 3, u))
    ensures c[7] == Some(Span(u + 2, k)) && c[8] == Some(Span(u + 2, k))
    ensures forall n | 0 <= n < 13 && n != 1 && n != 4 && n != 7 && n != 8 :: c[n] == None
  {
    NoCapsUndefined();
    SetCap(SetCap(SetCap(SetCap(NoCaps, 1, Span(1, q)), 4, Span(q + 3, u)), 8, Span(u + 2, k)), 7, Span(u + 2, k))
  }

  /** From `p` to the end a bare field name: it is taken and the empty description refused. */
  lemma FieldToEnd(s: string, p: nat, c: Caps)
    requires NameFrom(s, p)
    ensures var r := Run(s, Cat(FieldSeg, Cat(DescriptionSeg, EndOfInput)), St(p, c));
      r != [] && r[0] == St(|s|, SetCap(SetCap(c, 8, Span(p, |s|)), 7, Span(p, |s|)))
  {
    var x := St(|s|, SetCap(SetCap(c, 8, Span(p, |s|)), 7, Span(p, |s|)));
    BareFieldFirst(s, p, c);
    DescriptionAtEnd(s, x);
    CatFirst(s, FieldSeg, Cat(DescriptionSeg, EndOfInput), St(p, c), x, x);
  }

  /** The type segment at `p` is taken, and whatever follows goes on from there. */
  lemma TypeThen(s: string, p: nat, u: nat, c: Caps, rest: Re, x: St)
    requires p + 1 < u && u + 1 < |s| && s[p] == '{' && RunEnd(s, TypeChars, p + 1) == u
    requires s[u] == '}' && s[u + 1] == ' ' && (u + 2 < |s| ==> !IsSpace(s[u + 2]))
    requires var w := St(u + 2, SetCap(c, 4, Span(p + 1, u)));
      Run(s, rest, w) != [] && Run(s, rest, w)[0] == x
    ensures Run(s, Cat(TypeSeg, rest), St(p, c)) != [] && Run(s, Cat(TypeSeg, rest), St(p, c))[0] == x
  {
    TypeTaken(s, p, u, c);
    CatFirst(s, TypeSeg, rest, St(p, c), St(u + 2, SetCap(c, 4, Span(p + 1, u))), x);
  }

  /** From the brace at `p` on: the type and the field are taken and the description refused. */
  lemma TypeFieldFirst(s: string, p: nat, u: nat, c: Caps)
    requires p + 1 < u && u + 1 < |s| && s[p] == '{' && RunEnd(s, TypeChars, p + 1) == u
    requires s[u] == '}' && s[u + 1] == ' ' && NameFrom(s, u + 2)
    ensures var d := SetCap(c, 4, Span(p + 1, u));
      var r := Run(s, Cat(TypeSeg, Cat(FieldSeg, Cat(DescriptionSeg, EndOfInput))), St(p, c));
      r != [] && r[0] == St(|s|, SetCap(SetCap(d, 8, Span(u + 2, |s|)), 7, Span(u + 2, |s|)))
  {
    var d := SetCap(c, 4, Span(p + 1, u));
    var q := u + 2;
    RunEndIn(s, NameChars, q, q);
    NameCharPlain(s[q]);
    FieldToEnd(s, q, d);
    TypeThen(s, p, u, c, Cat(FieldSeg, Cat(DescriptionSeg, EndOfInput)),
             St(|s|, SetCap(SetCap(d, 8, Span(q, |s|)), 7, Span(q, |s|))));
  }

  /**
   * From the brace at `p` on: the sample field is skipped, then the type and the
   * field are taken and the description refused.
   */
  lemma AfterGroupFirst(s: string, p: nat, u: nat, c: Caps)
    requires p + 1 < u && u + 1 < |s| && s[p] == '{' && RunEnd(s, TypeChars, p + 1) == u
    requires s[u] == '}' && s[u + 1] == ' ' && NameFrom(s, u + 2)
    ensures var d := SetCap(c, 4, Span(p + 1, u));
      var r := Run(s, Cat(SampleFieldSeg, Cat(TypeSeg, Cat(FieldSeg, Cat(DescriptionSeg, EndOfInput)))), St(p, c));
      r != [] && r[0] == St(|s|, SetCap(SetCap(d, 8, Span(u + 2, |s|)), 7, Span(u + 2, |s|)))
  {
    var y := St(p, c);
    SkipOpened(s, '<', Cat(Ws, Cat(Group(2, Rep(InputTypeChars, 1, true)), Cat(InputValueSeg, Cat(Ws, Cat(Lit('>'), Ws))))), y);
    CatSingle(s, SampleFieldSeg, Cat(TypeSeg, Cat(FieldSeg, Cat(DescriptionSeg, EndOfInput))), y, y);
    TypeFieldFirst(s, p, u, c);
  }

  /**
   * `(label) {type} name` is a whole parameter sample: the first way through
   * the anchored alternative takes the group, skips the sample field, takes the
   * type and the field, and sets registers 1, 4, 7 and 8 only.
   */
  lemma TaggedMatch(s: string, q: nat, u: nat)
    requires Tagged(s, q, u)
    ensures MainMatches(s) != [] && MainMatches(s)[0] == St(|s|, TaggedCaps(q, u, |s|))
  {
    var c1 := SetCap(NoCaps, 1, Span(1, q));
    var p := q + 2;
    var d := SetCap(c1, 4, Span(p + 1, u));
    var x := St(|s|, SetCap(SetCap(d, 8, Span(u + 2, |s|)), 7, Span(u + 2, |s|)));
    GroupTaken(s, q, NoCaps);
    AfterGroupFirst(s, p, u, c1);
    CatFirst(s, GroupSeg, Cat(SampleFieldSeg, Cat(TypeSeg, Cat(FieldSeg, Cat(DescriptionSeg, EndOfInput)))),
             St(0, NoCaps), St(p, c1), x);
    assert x == St(|s|, TaggedCaps(q, u, |s|));
  }

  /** `exec` of `(label) {type} name`: the whole text, the label, the type and the field twice. */
  lemma TaggedExec(s: string, q: nat, u: nat)
    requires Tagged(s, q, u)
    ensures Exec(s) == Some([Some(s), Some(s[1..q]), None, None, Some(s[q + 3..u]), None, None,
                             Some(s[u + 2..]), Some(s[u + 2..]), None, None, None, None])
  {
    TaggedMatch(s, q, u);
    var x := St(|s|, TaggedCaps(q, u, |s|));
    var m := Texts(s, x);
    var want := [Some(s), Some(s[1..q]), None, None, Some(s[q + 3..u]), None, None,
                 Some(s[u + 2..]), Some(s[u + 2..]), None, None, None, None];
    assert Slice(s, 0, |s|) == s;
    forall n | 0 <= n < 13 ensures m[n] == want[n] {
      if n != 0 && n != 1 && n != 4 && n != 7 && n != 8 {
        assert x.caps[n] == None;
      }
    }
    assert m == want;
  }

  /** A run of class characters `w` placed from `a` to `b`, with none right after it, is the run from `a`. */
  lemma RunEndOf(s: string, cls: Class, a: nat, b: nat, w: string)
    requires a <= b <= |s| && s[a..b] == w && forall i | 0 <= i < |w| :: In(cls, w[i])
    requires b < |s| ==> !In(cls, s[b])
    ensures RunEnd(s, cls, a) == b
  {
    forall m | a <= m < b ensures In(cls, s[m]) {
      assert s[m] == w[m - a];
    }
    RunEndAt(s, cls, a, b);
  }

  /** A label `g` placed at 1 puts label characters from 1 up to its end. */
  lemma LabelAt(s: string, g: string)
    requires |g| + 1 <= |s| && s[1..|g| + 1] == g && forall i | 0 <= i < |g| :: LabelChar(g[i])
    ensures forall i | 1 <= i < |g| + 1 :: LabelChar(s[i])
  {
    forall i | 1 <= i < |g| + 1 ensures LabelChar(s[i]) {
      assert s[i] == g[i - 1];
    }
  }

  /** The type name `t` from `a` to the brace at `u`, and the field name `n` from `u + 2` to the end. */
  lemma TaggedRuns(s: string, a: nat, u: nat, t: string, n: string)
    requires t != [] && forall i | 0 <= i < |t| :: In(TypeChars, t[i])
    requires IsBareName(n)
    requires u == a + |t| && |s| == u + 2 + |n| && s[u] == '}' && s[a..u] == t && s[u + 2..] == n
    ensures RunEnd(s, TypeChars, a) == u && NameFrom(s, u + 2)
  {
    RunEndOf(s, TypeChars, a, u, t);
    RunEndOf(s, NameChars, u + 2, |s|, n);
  }

  /** `s` is laid out as `(g) {t} n`: the punctuation, then the label, the type name and the field name in their places. */
  predicate TaggedLayout(s: string, g: string, t: string, n: string) {
    var q := |g| + 1;
    var u := q + 3 + |t|;
    && |s| == u + 2 + |n| && s[0] == '(' && s[q] == ')' && s[q + 1] == ' ' && s[q + 2] == '{'
    && s[u] == '}' && s[u + 1] == ' ' && s[1..q] == g && s[q + 3..u] == t && s[u + 2..] == n
  }

  /** The text `(g) {t} n` is laid out as its name says. */
  lemma TaggedSlices(g: string, t: string, n: string)
    ensures TaggedLayout("(" + g + ") {" + t + "} " + n, g, t, n)
  {
    var a := "(" + g + ") {";
    var b := t + "} " + n;
    var s := "(" + g + ") {" + t + "} " + n;
    assert s == a + b;
    assert a[1..|g| + 1] == g && a[|g| + 1] == ')' && a[|g| + 2] == ' ' && a[|g| + 3] == '{';
    assert b[..|t|] == t && b[|t|] == '}' && b[|t| + 1] == ' ' && b[|t| + 2..] == n;
    assert s[..|a|] == a && s[|a|..] == b;
  }

  /** A text laid out as `(g) {t} n` has the shape above. */
  lemma TaggedForm(s: string, g: string, t: string, n: string, q: nat, u: nat)
    requires g != [] && forall i | 0 <= i < |g| :: LabelChar(g[i])
    requires t != [] && forall i | 0 <= i < |t| :: In(TypeChars, t[i])
    requires IsBareName(n)
    requires TaggedLayout(s, g, t, n) && q == |g| + 1 && u == q + 3 + |t|
    ensures Tagged(s, q, u)
  {
    LabelAt(s, g);
    TaggedRuns(s, q + 3, u, t, n);
  }

  /** `exec` of a text laid out as `(g) {t} n`: the whole text, the label, the type name and the field name twice. */
  lemma TaggedLayoutExec(s: string, g: string, t: string, n: string)
    requires g != [] && forall i | 0 <= i < |g| :: LabelChar(g[i])
    requires t != [] && forall i | 0 <= i < |t| :: In(TypeChars, t[i])
    requires IsBareName(n)
    requires TaggedLayout(s, g, t, n)
    ensures Exec(s) == Some([Some(s), Some(g), None, None, Some(t), None, None, Some(n), Some(n), None, None, None, None])
  {
    var q := |g| + 1;
    var u := q + 3 + |t|;
    TaggedForm(s, g, t, n, q, u);
    TaggedExec(s, q, u);
  }

  // ---------------------------------------------------------------------------
  // `{type=values} name`: a type with allowed values, then a field name

  /** `[^}\s]`: the characters an allowed-values list is made of here. */
  const ValueChars: Class := ExceptSpace('}')

  /** `(?=\s*\}\s*)`: the lookahead that ends the allowed values (line 44). */
  const ValuesEnd: Re := Ahead(Cat(Ws, Cat(Lit('}'), Ws)))

  /** Allowed-value characters are not line terminators: `.` runs over all of them. */
  lemma ValuesDot(s: string, a: nat, w: nat)
    requires a <= w <= |s| && w <= RunEnd(s, ValueChars, a)
    ensures RunEnd(s, Dot, a) >= w
  {
    forall m | a <= m < w ensures In(Dot, s[m]) {
      RunEndIn(s, ValueChars, a, m);
    }
    RunEndPast(s, Dot, a, w);
  }

  /** The ways through a lazy `.+?` from `a`: every end after `a` that `.` reaches, shortest first. */
  lemma LazyWays(s: string, a: nat, w: nat, c: Caps)
    requires a < w <= RunEnd(s, Dot, a)
    ensures var ys := Run(s, Label, St(a, c));
      |ys| >= w - a && forall j | 0 <= j < |ys| :: ys[j] == St(a + 1 + j, c)
  {
    RunRep(s, Dot, 1, false, St(a, c));
  }

  /** The ways through the lazy allowed-values group from `a`: every end after `a`, shortest first. */
  lemma ValueWays(s: string, a: nat, w: nat, c: Caps)
    requires a < w <= RunEnd(s, ValueChars, a)
    ensures var xs := Run(s, Group(6, Label), St(a, c));
      |xs| >= w - a && forall j | 0 <= j < |xs| :: xs[j] == St(a + 1 + j, SetCap(c, 6, Span(a, a + 1 + j)))
  {
    var ys := Run(s, Label, St(a, c));
    ValuesDot(s, a, w);
    LazyWays(s, a, w, c);
    RecordWays(ys, 6, a, c, w);
    assert Run(s, Group(6, Label), St(a, c)) == Record(ys, 6, a);
  }

  /** Recording a group over the ways `a + 1`, `a + 2`, ... sets its register to each piece from `a`. */
  lemma RecordWays(ys: seq<St>, n: nat, a: nat, c: Caps, w: nat)
    requires |ys| >= w - a && forall j | 0 <= j < |ys| :: ys[j] == St(a + 1 + j, c)
    ensures var xs := Record(ys, n, a);
      |xs| >= w - a && forall j | 0 <= j < |xs| :: xs[j] == St(a + 1 + j, SetCap(c, n, Span(a, a + 1 + j)))
  {
  }

  /** Inside the allowed values the lookahead for the closing brace fails. */
  lemma ValuesEndFails(s: string, x: St)
    requires x.pos < |s| && In(ValueChars, s[x.pos])
    ensures Run(s, ValuesEnd, x) == []
  {
    RepStays(s, Space, true, x);
    CatNone(s, Lit('}'), Ws, x);
    CatSingle(s, Ws, Cat(Lit('}'), Ws), x, x);
  }

  /** Of the ways through the allowed values, the first the lookahead accepts is the one ending at the brace at `w`. */
  lemma ValuesEndHead(s: string, a: nat, w: nat, c: Caps, xs: seq<St>)
    requires a < w && w + 1 < |s| && s[w] == '}' && s[w + 1] == ' ' && (w + 2 < |s| ==> !IsSpace(s[w + 2]))
    requires w <= RunEnd(s, ValueChars, a)
    requires |xs| >= w - a && forall j | 0 <= j < |xs| :: xs[j] == St(a + 1 + j, SetCap(c, 6, Span(a, a + 1 + j)))
    ensures var r := RunAll(s, ValuesEnd, xs);
      r != [] && r[0] == St(w, SetCap(c, 6, Span(a, w)))
  {
    var k := w - a - 1;
    forall j | 0 <= j < k ensures Run(s, ValuesEnd, xs[j]) == [] {
      RunEndIn(s, ValueChars, a, a + 1 + j);
      ValuesEndFails(s, xs[j]);
    }
    ClosingFirst(s, '}', xs[k]);
    RunAllHead(s, ValuesEnd, xs, k);
  }

  /** The lazy allowed values from `a` grow one character at a time until the closing brace at `w` follows. */
  lemma ValuesFirst(s: string, a: nat, w: nat, c: Caps)
    requires a < w && w + 1 < |s| && s[w] == '}' && s[w + 1] == ' ' && (w + 2 < |s| ==> !IsSpace(s[w + 2]))
    requires w <= RunEnd(s, ValueChars, a)
    ensures var r := Run(s, Cat(Group(6, Label), ValuesEnd), St(a, c));
      r != [] && r[0] == St(w, SetCap(c, 6, Span(a, w)))
  {
    var xs := Run(s, Group(6, Label), St(a, c));
    ValueWays(s, a, w, c);
    ValuesEndHead(s, a, w, c, xs);
    assert Run(s, Cat(Group(6, Label), ValuesEnd), St(a, c)) == RunAll(s, ValuesEnd, xs);
  }

  /** The allowed-values segment at the `=` at `u` takes the values up to the brace at `w`. */
  lemma ValuesTaken(s: string, u: nat, w: nat, c: Caps)
    requires u + 1 < w && w + 1 < |s| && s[u] == '=' && s[w] == '}' && s[w + 1] == ' ' && (w + 2 < |s| ==> !IsSpace(s[w + 2]))
    requires w <= RunEnd(s, ValueChars, u + 1)
    ensures var r := Run(s, AllowedValuesSeg, St(u, c));
      r != [] && r[0] == St(w, SetCap(c, 6, Span(u + 1, w)))
  {
    var a := u + 1;
    var one := St(a, c);
    var inner := Cat(Group(6, Label), ValuesEnd);
    ValuesFirst(s, a, w, c);
    RunEndIn(s, ValueChars, a, a);
    RepStays(s, Space, true, one);
    CatSingle(s, Ws, inner, one, one);
    OpenedFirst(s, '=', Cat(Ws, inner), St(u, c), St(w, SetCap(c, 6, Span(a, w))));
  }

  /**
   * After the type name, `=values} `: the size is skipped, the allowed values run
   * from `u + 1` to the brace at `w`, and the brace is taken with its space.
   */
  lemma ValuesCloseFirst(s: string, u: nat, w: nat, c: Caps)
    requires u + 1 < w && w + 1 < |s| && s[u] == '=' && s[w] == '}' && s[w + 1] == ' ' && (w + 2 < |s| ==> !IsSpace(s[w + 2]))
    requires w <= RunEnd(s, ValueChars, u + 1)
    ensures var r := Run(s, Cat(SizeSeg, Cat(AllowedValuesSeg, Cat(Ws, Cat(Lit('}'), Ws)))), St(u, c));
      r != [] && r[0] == St(w + 2, SetCap(c, 6, Span(u + 1, w)))
  {
    var y := St(u, c);
    var close := Cat(Ws, Cat(Lit('}'), Ws));
    ValuesThenClose(s, u, w, c);
    SkipOpened(s, '{', Cat(Ws, Cat(Group(5, Label), close)), y);
    CatSingle(s, SizeSeg, Cat(AllowedValuesSeg, close), y, y);
  }

  /** The allowed values, then the closing brace with its space. */
  lemma ValuesThenClose(s: string, u: nat, w: nat, c: Caps)
    requires u + 1 < w && w + 1 < |s| && s[u] == '=' && s[w] == '}' && s[w + 1] == ' ' && (w + 2 < |s| ==> !IsSpace(s[w + 2]))
    requires w <= RunEnd(s, ValueChars, u + 1)
    ensures var r := Run(s, Cat(AllowedValuesSeg, Cat(Ws, Cat(Lit('}'), Ws))), St(u, c));
      r != [] && r[0] == St(w + 2, SetCap(c, 6, Span(u + 1, w)))
  {
    ValuesTaken(s, u, w, c);
    BraceAfter(s, AllowedValuesSeg, St(u, c), St(w, SetCap(c, 6, Span(u + 1, w))));
  }

  /** A part whose first way stops at a closing brace followed by one space goes on to take them. */
  lemma BraceAfter(s: string, part: Re, st: St, y: St)
    requires Run(s, part, st) != [] && Run(s, part, st)[0] == y
    requires y.pos + 1 < |s| && s[y.pos] == '}' && s[y.pos + 1] == ' ' && (y.pos + 2 < |s| ==> !IsSpace(s[y.pos + 2]))
    ensures var r := Run(s, Cat(part, Cat(Ws, Cat(Lit('}'), Ws))), st);
      r != [] && r[0] == St(y.pos + 2, y.caps)
  {
    ClosingFirst(s, '}', y);
    CatFirst(s, part, Cat(Ws, Cat(Lit('}'), Ws)), st, y, St(y.pos + 2, y.caps));
  }

  /** From just after the brace, the type name runs to `u`, and what follows it goes on to `z`. */
  lemma TypeNameThen(s: string, a: nat, u: nat, c: Caps, rest: Re, z: St)
    requires a < u <= |s| && RunEnd(s, TypeChars, a) == u
    requires var r := Run(s, rest, St(u, SetCap(c, 4, Span(a, u)))); r != [] && r[0] == z
    ensures var r := Run(s, Cat(Ws, Cat(Group(4, Rep(TypeChars, 1, true)), rest)), St(a, c)); r != [] && r[0] == z
  {
    var one := St(a, c);
    TypeNameFirst(s, a, u, c);
    CatFirst(s, Group(4, Rep(TypeChars, 1, true)), rest, one, St(u, SetCap(c, 4, Span(a, u))), z);
    RepStays(s, Space, true, one);
    CatSingle(s, Ws, Cat(Group(4, Rep(TypeChars, 1, true)), rest), one, one);
  }

  /** The type segment at the brace at 0: the type name runs to `u`, the allowed values from `u + 1` to the brace at `w`. */
  lemma ValuedType(s: string, u: nat, w: nat, c: Caps)
    requires 1 < u && u + 1 < w && w + 1 < |s| && s[0] == '{' && s[u] == '=' && s[w] == '}' && s[w + 1] == ' '
    requires w + 2 < |s| ==> !IsSpace(s[w + 2])
    requires RunEnd(s, TypeChars, 1) == u && w <= RunEnd(s, ValueChars, u + 1)
    ensures var d := SetCap(SetCap(c, 4, Span(1, u)), 6, Span(u + 1, w));
      Run(s, TypeSeg, St(0, c)) != [] && Run(s, TypeSeg, St(0, c))[0] == St(w + 2, d)
  {
    var c4 := SetCap(c, 4, Span(1, u));
    var z := St(w + 2, SetCap(c4, 6, Span(u + 1, w)));
    var close := Cat(SizeSeg, Cat(AllowedValuesSeg, Cat(Ws, Cat(Lit('}'), Ws))));
    ValuesCloseFirst(s, u, w, c4);
    TypeNameThen(s, 1, u, c, close, z);
    OpenedFirst(s, '{', Cat(Ws, Cat(Group(4, Rep(TypeChars, 1, true)), close)), St(0, c), z);
  }

  /**
   * The text is `{type=values} name`: the type name from 1 to `u`, the allowed
   * values from `u + 1` to `w`, and the field name from `w + 2` to the end.
   */
  predicate Valued(s: string, u: nat, w: nat) {
    && 1 < u && u + 1 < w && w + 2 < |s|
    && s[0] == '{' && s[u] == '=' && s[w] == '}' && s[w + 1] == ' '
    && RunEnd(s, TypeChars, 1) == u
    && w <= RunEnd(s, ValueChars, u + 1)
    && NameFrom(s, w + 2)
  }

  /** The registers of the match of `{type=values} name`: the type, the allowed values, the field wrapper and the field. */
  function ValuedCaps(u: nat, w: nat, k: nat): (c: Caps)
    ensures |c| == 13
    ensures c[4] == Some(Span(1, u)) && c[6] == Some(Span(u + 1, w))
    ensures c[7] == Some(Span(w + 2, k)) && c[8] == Some(Span(w + 2, k))
    ensures forall n | 0 <= n < 13 && n != 4 && n != 6 && n != 7 && n != 8 :: c[n] == None
  {
    NoCapsUndefined();
    SetCap(SetCap(SetCap(SetCap(NoCaps, 4, Span(1, u)), 6, Span(u + 1, w)), 8, Span(w + 2, k)), 7, Span(w + 2, k))
  }

  /**
   * `{type=values} name` is a whole parameter sample: the first way through the
   * anchored alternative skips the group and the sample field, takes the type
   * with its allowed values and the field, and sets registers 4, 6, 7 and 8 only.
   */
  lemma ValuedMatch(s: string, u: nat, w: nat)
    requires Valued(s, u, w)
    ensures MainMatches(s) != [] && MainMatches(s)[0] == St(|s|, ValuedCaps(u, w, |s|))
  {
    var st := St(0, NoCaps);
    var d := SetCap(SetCap(NoCaps, 4, Span(1, u)), 6, Span(u + 1, w));
    var x := St(|s|, SetCap(SetCap(d, 8, Span(w + 2, |s|)), 7, Span(w + 2, |s|)));
    var rest := Cat(SampleFieldSeg, Cat(TypeSeg, Cat(FieldSeg, Cat(DescriptionSeg, EndOfInput))));
    ValuedAfterGroup(s, u, w, NoCaps);
    SkipOpened(s, '(', Cat(Ws, Cat(Group(1, Label), Cat(Ws, Cat(Lit(')'), Ws)))), st);
    CatSingle(s, GroupSeg, rest, st, st);
    assert x == St(|s|, ValuedCaps(u, w, |s|));
  }

  /** From the start of `{type=values} name`, after the absent group: the sample field is skipped, the rest taken. */
  lemma ValuedAfterGroup(s: string, u: nat, w: nat, c: Caps)
    requires Valued(s, u, w)
    ensures var d := SetCap(SetCap(c, 4, Span(1, u)), 6, Span(u + 1, w));
      var r := Run(s, Cat(SampleFieldSeg, Cat(TypeSeg, Cat(FieldSeg, Cat(DescriptionSeg, EndOfInput)))), St(0, c));
      r != [] && r[0] == St(|s|, SetCap(SetCap(d, 8, Span(w + 2, |s|)), 7, Span(w + 2, |s|)))
  {
    var st := St(0, c);
    var field := Cat(FieldSeg, Cat(DescriptionSeg, EndOfInput));
    ValuedTypeField(s, u, w, c);
    SkipOpened(s, '<', Cat(Ws, Cat(Group(2, Rep(InputTypeChars, 1, true)), Cat(InputValueSeg, Cat(Ws, Cat(Lit('>'), Ws))))), st);
    CatSingle(s, SampleFieldSeg, Cat(TypeSeg, field), st, st);
  }

  /** `{type=values} name` from the start: the type with its allowed values, then the field to the end. */
  lemma ValuedTypeField(s: string, u: nat, w: nat, c: Caps)
    requires 1 < u && u + 1 < w && w + 2 < |s| && s[0] == '{' && s[u] == '=' && s[w] == '}' && s[w + 1] == ' '
    requires RunEnd(s, TypeChars, 1) == u && w <= RunEnd(s, ValueChars, u + 1) && NameFrom(s, w + 2)
    ensures var d := SetCap(SetCap(c, 4, Span(1, u)), 6, Span(u + 1, w));
      var r := Run(s, Cat(TypeSeg, Cat(FieldSeg, Cat(DescriptionSeg, EndOfInput))), St(0, c));
      r != [] && r[0] == St(|s|, SetCap(SetCap(d, 8, Span(w + 2, |s|)), 7, Span(w + 2, |s|)))
  {
    var d := SetCap(SetCap(c, 4, Span(1, u)), 6, Span(u + 1, w));
    var q := w + 2;
    RunEndIn(s, NameChars, q, q);
    NameCharPlain(s[q]);
    FieldToEnd(s, q, d);
    ValuedTypeThen(s, u, w, c, Cat(FieldSeg, Cat(DescriptionSeg, EndOfInput)),
                   St(|s|, SetCap(SetCap(d, 8, Span(q, |s|)), 7, Span(q, |s|))));
  }

  /** The type segment with its allowed values is taken, and whatever follows goes on from there. */
  lemma ValuedTypeThen(s: string, u: nat, w: nat, c: Caps, rest: Re, x: St)
    requires 1 < u && u + 1 < w && w + 1 < |s| && s[0] == '{' && s[u] == '=' && s[w] == '}' && s[w + 1] == ' '
    requires w + 2 < |s| ==> !IsSpace(s[w + 2])
    requires RunEnd(s, TypeChars, 1) == u && w <= RunEnd(s, ValueChars, u + 1)
    requires var y := St(w + 2, SetCap(SetCap(c, 4, Span(1, u)), 6, Span(u + 1, w)));
      Run(s, rest, y) != [] && Run(s, rest, y)[0] == x
    ensures Run(s, Cat(TypeSeg, rest), St(0, c)) != [] && Run(s, Cat(TypeSeg, rest), St(0, c))[0] == x
  {
    ValuedType(s, u, w, c);
    CatFirst(s, TypeSeg, rest, St(0, c), St(w + 2, SetCap(SetCap(c, 4, Span(1, u)), 6, Span(u + 1, w))), x);
  }

  /** `exec` of `{type=values} name`: the whole text, the type name, the allowed values and the field twice. */
  lemma ValuedExec(s: string, u: nat, w: nat)
    requires Valued(s, u, w)
    ensures Exec(s) == Some([Some(s), None, None, None, Some(s[1..u]), None, Some(s[u + 1..w]),
                             Some(s[w + 2..]), Some(s[w + 2..]), None, None, None, None])
  {
    ValuedMatch(s, u, w);
    var x := St(|s|, ValuedCaps(u, w, |s|));
    var m := Texts(s, x);
    var want := [Some(s), None, None, None, Some(s[1..u]), None, Some(s[u + 1..w]),
                 Some(s[w + 2..]), Some(s[w + 2..]), None, None, None, None];
    assert Slice(s, 0, |s|) == s;
    forall n | 0 <= n < 13 ensures m[n] == want[n] {
      if n != 0 && n != 4 && n != 6 && n != 7 && n != 8 {
        assert x.caps[n] == None;
      }
    }
    assert m == want;
  }

  /** `s` is laid out as `{t=v} n`: the punctuation, then the type name, the allowed values and the field name in their places. */
  predicate ValuedLayout(s: string, t: string, v: string, n: string) {
    var u := |t| + 1;
    var w := u + 1 + |v|;
    && |s| == w + 2 + |n| && s[0] == '{' && s[u] == '=' && s[w] == '}' && s[w + 1] == ' '
    && s[1..u] == t && s[u + 1..w] == v && s[w + 2..] == n
  }

  /** The text `{t=v} n` is laid out as its name says. */
  lemma ValuedSlices(t: string, v: string, n: string)
    ensures ValuedLayout("{" + t + "=" + v + "} " + n, t, v, n)
  {
    var a := "{" + t + "=";
    var b := v + "} " + n;
    var s := "{" + t + "=" + v + "} " + n;
    assert s == a + b;
    assert a[1..|t| + 1] == t && a[|t| + 1] == '=';
    assert b[..|v|] == v && b[|v|] == '}' && b[|v| + 1] == ' ' && b[|v| + 2..] == n;
    assert s[..|a|] == a && s[|a|..] == b;
  }

  /** A text laid out as `{t=v} n` has the shape above. */
  lemma ValuedForm(s: string, t: string, v: string, n: string, u: nat, w: nat)
    requires t != [] && forall i | 0 <= i < |t| :: In(TypeChars, t[i])
    requires v != [] && forall i | 0 <= i < |v| :: In(ValueChars, v[i])
    requires IsBareName(n)
    requires ValuedLayout(s, t, v, n) && u == |t| + 1 && w == u + 1 + |v|
    ensures Valued(s, u, w)
  {
    RunEndOf(s, TypeChars, 1, u, t);
    RunEndOf(s, ValueChars, u + 1, w, v);
    RunEndOf(s, NameChars, w + 2, |s|, n);
  }

  /** `exec` of a text laid out as `{t=v} n`: the whole text, the type name, the allowed values and the field name twice. */
  lemma ValuedLayoutExec(s: string, t: string, v: string, n: string)
    requires t != [] && forall i | 0 <= i < |t| :: In(TypeChars, t[i])
    requires v != [] && forall i | 0 <= i < |v| :: In(ValueChars, v[i])
    requires IsBareName(n)
    requires ValuedLayout(s, t, v, n)
    ensures Exec(s) == Some([Some(s), None, None, None, Some(t), None, Some(v), Some(n), Some(n), None, None, None, None])
  {
    var u := |t| + 1;
    var w := u + 1 + |v|;
    ValuedForm(s, t, v, n, u, w);
    ValuedExec(s, u, w);
  }
}
