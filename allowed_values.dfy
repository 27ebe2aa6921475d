/**
 * The allowed-values tokenizer of parser/api_param_sample.js (lines 78-80 and
 * 100-117): the first character of the allowed-values capture picks one of three
 * global regular expressions, and a `while` loop collects the whole match of every
 * `exec` call until one fails.
 *
 * A global regular expression's `exec` starts its search at `lastIndex`, moves
 * `lastIndex` to the end of the match it reports, and resets it to 0 when it finds
 * nothing (ECMAScript 2015, section 21.2.5.2.2). The loop runs until `exec` fails,
 * so every tokenization starts and ends with `lastIndex` at 0; the loop's index
 * plays the part of `lastIndex`.
 */
module AllowedValues {
  import opened Wrappers
  import opened JsText
  import opened Matching

  /** The three tokenizer rules. */
  datatype Rule =
    | DoubleQuotedRule // `/\"[^\"]*[^\"]\"/g`
    | SingleQuotedRule // `/\'[^\']*[^\']\'/g`
    | BareRule         // `/[^,\s]+/g`

  /** The rule for allowed values, picked by their first character. */
  function RuleFor(v: string): (r: Rule)
    requires v != []
    ensures r == DoubleQuotedRule <==> v[0] == '"'
    ensures r == SingleQuotedRule <==> v[0] == '\''
    ensures r == BareRule <==> v[0] != '"' && v[0] != '\''
  {
    if v[0] == '"' then DoubleQuotedRule
    else if v[0] == '\'' then SingleQuotedRule
    else BareRule
  }

  /** `q[^q]*[^q]q`: a quote, at least one other character, and the same quote. */
  function QuotedRe(q: char): Re {
    Cat(Lit(q), Cat(Rep(Except(q), 0, true), Cat(One(Except(q)), Lit(q))))
  }

  /** `[^,\s]+` */
  const BareRe: Re := Rep(ExceptSpace(','), 1, true)

  function RuleRe(rule: Rule): Re {
    match rule
    case DoubleQuotedRule => QuotedRe('"')
    case SingleQuotedRule => QuotedRe('\'')
    case BareRule => BareRe
  }

  /** A separator of bare tokens: a comma or `\s`. */
  predicate IsSeparator(c: char) {
    c == ',' || IsSpace(c)
  }

  // ---------------------------------------------------------------------------
  // One exec call

  /** Where the rule's first match starting exactly at `p` ends, if there is one. */
  function MatchAt(rule: Rule, s: string, p: nat): (r: Option<nat>)
    requires p <= |s|
    ensures r.Some? ==> p < r.value <= |s|
    ensures r.Some? <==> Run(s, RuleRe(rule), St(p, [])) != []
  {
    var ms := Run(s, RuleRe(rule), St(p, []));
    if ms == [] then None
    else
      MinLenRule(rule);
      RunFrame(s, RuleRe(rule), St(p, []), ms[0]);
      Some(ms[0].pos)
  }

  lemma MinLenRule(rule: Rule)
    ensures MinLen(RuleRe(rule)) >= 1
  {
  }

  /**
   * `regExp.exec(v)` with `lastIndex` at `from`: the leftmost match starting at or
   * after `from`, or nothing.
   */
  function Find(rule: Rule, s: string, from: nat): (r: Option<Span>)
    requires from <= |s|
    ensures r.Some? ==> from <= r.value.start < r.value.end <= |s|
    ensures r.Some? ==> MatchAt(rule, s, r.value.start) == Some(r.value.end)
    ensures r.Some? ==> forall p | from <= p < r.value.start :: MatchAt(rule, s, p).None?
    ensures r.None? ==> forall p | from <= p <= |s| :: MatchAt(rule, s, p).None?
    decreases |s| - from
  {
    match MatchAt(rule, s, from)
    case Some(e) => Some(Span(from, e))
    case None => if from == |s| then None else Find(rule, s, from + 1)
  }

  // ---------------------------------------------------------------------------
  // The tokens

  /**
   * The pieces of `s` that successive `exec` calls report, starting with `lastIndex`
   * at `from`: in order, inside the text, and not overlapping.
   */
  function Spans(rule: Rule, s: string, from: nat): (r: seq<Span>)
    requires from <= |s|
    ensures forall i | 0 <= i < |r| :: from <= r[i].start < r[i].end <= |s|
    ensures forall i | 0 <= i < |r| - 1 :: r[i].end <= r[i + 1].start
    decreases |s| - from
  {
    match Find(rule, s, from)
    case None => []
    case Some(sp) => [sp] + Spans(rule, s, sp.end)
  }

  /** Every span lies within the text. */
  predicate InText(s: string, spans: seq<Span>) {
    forall i | 0 <= i < |spans| :: spans[i].start <= spans[i].end <= |s|
  }

  /** The text of each piece. */
  function Pieces(s: string, spans: seq<Span>): (r: seq<string>)
    requires InText(s, spans)
    ensures |r| == |spans|
    ensures forall i | 0 <= i < |r| :: r[i] == s[spans[i].start..spans[i].end]
  {
    if spans == [] then [] else [s[spans[0].start..spans[0].end]] + Pieces(s, spans[1..])
  }

  /** Every whole match of the rule, left to right: the `list` the loop builds. */
  function Tokens(rule: Rule, s: string): seq<string> {
    Pieces(s, Spans(rule, s, 0))
  }

  /** The pieces found from `from`: the first match, then the pieces after it. */
  lemma SpansAt(rule: Rule, s: string, from: nat, i: nat)
    requires from <= |s| && i < |Spans(rule, s, from)|
    ensures Find(rule, s, from).Some?
    ensures var sp := Find(rule, s, from).value;
      i - 1 < |Spans(rule, s, sp.end)|
      && Spans(rule, s, from)[i] == if i == 0 then sp else Spans(rule, s, sp.end)[i - 1]
  {
  }

  /** One more `exec` call that finds a match: one more piece. */
  lemma SpansStep(rule: Rule, s: string, from: nat, done: seq<Span>)
    requires from <= |s| && Find(rule, s, from).Some?
    ensures var sp := Find(rule, s, from).value;
      done + Spans(rule, s, from) == (done + [sp]) + Spans(rule, s, sp.end)
  {
    var sp := Find(rule, s, from).value;
    assert Spans(rule, s, from) == [sp] + Spans(rule, s, sp.end);
  }

  /** The texts of one more piece. */
  lemma PiecesSnoc(s: string, done: seq<Span>, sp: Span)
    requires InText(s, done) && sp.start <= sp.end <= |s|
    ensures InText(s, done + [sp])
    ensures Pieces(s, done + [sp]) == Pieces(s, done) + [s[sp.start..sp.end]]
  {
    var l := Pieces(s, done + [sp]);
    var r := Pieces(s, done) + [s[sp.start..sp.end]];
    assert |l| == |r|;
    forall i | 0 <= i < |l| ensures l[i] == r[i] {
      assert (done + [sp])[i] == if i < |done| then done[i] else sp;
    }
  }

  /**
   * `while ((m = regExp.exec(v))) list.push(m[0]);` The loop index is `lastIndex`;
   * it is 0 again when the loop ends.
   */
  method CollectTokens(rule: Rule, v: string) returns (list: seq<string>)
    ensures list == Tokens(rule, v)
  {
    list := [];
    var lastIndex: nat := 0;
    ghost var done: seq<Span> := [];
    while true
      invariant lastIndex <= |v|
      invariant InText(v, done)
      invariant Spans(rule, v, 0) == done + Spans(rule, v, lastIndex)
      invariant list == Pieces(v, done)
      decreases |v| - lastIndex
    {
      var m := Find(rule, v, lastIndex);
      if m.None? {
        assert Spans(rule, v, lastIndex) == [];
        lastIndex := 0;
        break;
      }
      var sp := m.value;
      SpansStep(rule, v, lastIndex, done);
      PiecesSnoc(v, done, sp);
      list := list + [v[sp.start..sp.end]];
      done := done + [sp];
      lastIndex := sp.end;
    }
    assert Spans(rule, v, 0) == done;
  }

  // ---------------------------------------------------------------------------
  // The shape of a match

  lemma QuoteTail(s: string, q: char, z: St, x: St)
    requires x in Run(s, Cat(One(Except(q)), Lit(q)), z)
    ensures x.pos == z.pos + 2 <= |s| && s[z.pos] != q && s[z.pos + 1] == q
  {
    CatIn(s, One(Except(q)), Lit(q), z, x);
    var w :| w in Run(s, One(Except(q)), z) && x in Run(s, Lit(q), w);
    OneIn(s, Except(q), z, w);
    LitIn(s, q, w, x);
  }

  lemma QuoteBodyStep(s: string, q: char, y: St, w: St, x: St)
    requires y.pos <= |s| && w in Run(s, Rep(Except(q), 0, true), y)
    requires x in Run(s, Cat(One(Except(q)), Lit(q)), w)
    ensures y.pos + 2 <= x.pos <= |s| && s[x.pos - 1] == q
    ensures forall i | y.pos <= i < x.pos - 1 :: s[i] != q
  {
    RepIn(s, Except(q), 0, true, y, w);
    QuoteTail(s, q, w, x);
  }

  lemma QuoteBody(s: string, q: char, y: St, x: St)
    requires y.pos <= |s|
    requires x in Run(s, Cat(Rep(Except(q), 0, true), Cat(One(Except(q)), Lit(q))), y)
    ensures y.pos + 2 <= x.pos <= |s| && s[x.pos - 1] == q
    ensures forall i | y.pos <= i < x.pos - 1 :: s[i] != q
  {
    CatIn(s, Rep(Except(q), 0, true), Cat(One(Except(q)), Lit(q)), y, x);
    var w :| w in Run(s, Rep(Except(q), 0, true), y) && x in Run(s, Cat(One(Except(q)), Lit(q)), w);
    QuoteBodyStep(s, q, y, w, x);
  }

  /** A match of `q[^q]*[^q]q`: the quotes at both ends, none between, and something inside. */
  lemma QuotedRun(s: string, q: char, st: St, x: St)
    requires st.pos <= |s| && x in Run(s, QuotedRe(q), st)
    ensures st.pos + 3 <= x.pos <= |s| && s[st.pos] == q && s[x.pos - 1] == q
    ensures forall i | st.pos < i < x.pos - 1 :: s[i] != q
  {
    var body := Cat(Rep(Except(q), 0, true), Cat(One(Except(q)), Lit(q)));
    CatIn(s, Lit(q), body, st, x);
    var y :| y in Run(s, Lit(q), st) && x in Run(s, body, y);
    LitIn(s, q, st, y);
    QuoteBody(s, q, y, x);
  }

  /** The quote character of a quoted rule. */
  function Quote(rule: Rule): char
    requires rule != BareRule
  {
    if rule == DoubleQuotedRule then '"' else '\''
  }

  /** What a quoted rule matches at `p`. */
  lemma QuotedMatch(rule: Rule, s: string, p: nat)
    requires rule != BareRule && p <= |s| && MatchAt(rule, s, p).Some?
    ensures var e := MatchAt(rule, s, p).value;
      p + 3 <= e && s[p] == Quote(rule) && s[e - 1] == Quote(rule)
      && forall i | p < i < e - 1 :: s[i] != Quote(rule)
  {
    var ms := Run(s, RuleRe(rule), St(p, []));
    assert RuleRe(rule) == QuotedRe(Quote(rule));
    QuotedRun(s, Quote(rule), St(p, []), ms[0]);
  }

  /** `[^q]q` fails at a quote. */
  lemma TailAt(s: string, q: char, j: nat)
    requires j < |s| && s[j] == q
    ensures Run(s, Cat(One(Except(q)), Lit(q)), St(j, [])) == []
  {
    assert Run(s, One(Except(q)), St(j, [])) == [];
    CatNone(s, One(Except(q)), Lit(q), St(j, []));
  }

  /** `[^q]q` takes a non-quote followed by the quote, in one way. */
  lemma TailBefore(s: string, q: char, i: nat)
    requires i + 1 < |s| && s[i] != q && s[i + 1] == q
    ensures Run(s, Cat(One(Except(q)), Lit(q)), St(i, [])) == [St(i + 2, [])]
  {
    assert Run(s, One(Except(q)), St(i, [])) == [St(i + 1, [])];
    CatSingle(s, One(Except(q)), Lit(q), St(i, []), St(i + 1, []));
    LitTaken(s, q, St(i + 1, []));
  }

  /** The greedy `[^q]*` from `a` tries the run's end `j` first and then `j - 1`. */
  lemma RepDown(s: string, q: char, a: nat, j: nat)
    requires a < j && RunEnd(s, Except(q), a) == j
    ensures var xs := Run(s, Rep(Except(q), 0, true), St(a, []));
      |xs| >= 2 && xs[0] == St(j, []) && xs[1] == St(j - 1, [])
  {
    RunRep(s, Except(q), 0, true, St(a, []));
  }

  /**
   * `[^q]*[^q]q` from `a`, when the run of non-quotes from `a` ends at a quote at
   * `j > a`: the greedy run gives back its last character, which `[^q]` takes, and
   * the quote at `j` closes the match.
   */
  lemma BodyFirst(s: string, q: char, a: nat, j: nat)
    requires a < j < |s| && RunEnd(s, Except(q), a) == j
    ensures var r := Run(s, Cat(Rep(Except(q), 0, true), Cat(One(Except(q)), Lit(q))), St(a, []));
      r != [] && r[0] == St(j + 1, [])
  {
    var tail := Cat(One(Except(q)), Lit(q));
    var xs := Run(s, Rep(Except(q), 0, true), St(a, []));
    RepDown(s, q, a, j);
    RunEndStops(s, Except(q), a);
    RunEndIn(s, Except(q), a, j - 1);
    TailAt(s, q, j);
    TailBefore(s, q, j - 1);
    assert RunAll(s, tail, xs) == Run(s, tail, xs[0]) + RunAll(s, tail, xs[1..]);
    RunAllFirst(s, tail, xs[1..]);
  }

  /**
   * The converse of `QuotedMatch`: a quote at `p`, then a run of at least one
   * non-quote up to another quote at `j`, is a match that ends just after `j`.
   */
  lemma QuotedFound(rule: Rule, s: string, p: nat, j: nat)
    requires rule != BareRule && p < |s| && s[p] == Quote(rule)
    requires p + 2 <= j < |s| && RunEnd(s, Except(Quote(rule)), p + 1) == j
    ensures MatchAt(rule, s, p) == Some(j + 1)
  {
    var q := Quote(rule);
    var body := Cat(Rep(Except(q), 0, true), Cat(One(Except(q)), Lit(q)));
    assert RuleRe(rule) == QuotedRe(q);
    LitTaken(s, q, St(p, []));
    CatSingle(s, Lit(q), body, St(p, []), St(p + 1, []));
    BodyFirst(s, q, p + 1, j);
  }

  /**
   * A quoted rule matches at `p` exactly when a quote stands there and the run of
   * non-quotes after it holds at least one character and stops at another quote;
   * the match then ends just after that quote.
   */
  lemma QuotedMatchIff(rule: Rule, s: string, p: nat)
    requires rule != BareRule && p <= |s|
    ensures var j := RunEnd(s, Except(Quote(rule)), p + 1);
      MatchAt(rule, s, p).Some? <==> p < |s| && s[p] == Quote(rule) && p + 2 <= j < |s|
    ensures MatchAt(rule, s, p).Some? ==> MatchAt(rule, s, p).value == RunEnd(s, Except(Quote(rule)), p + 1) + 1
  {
    var q := Quote(rule);
    var j := RunEnd(s, Except(q), p + 1);
    if MatchAt(rule, s, p).Some? {
      var e := MatchAt(rule, s, p).value;
      QuotedMatch(rule, s, p);
      RunEndAt(s, Except(q), p + 1, e - 1);
    } else if p < |s| && s[p] == q && p + 2 <= j < |s| {
      QuotedFound(rule, s, p, j);
    }
  }

  /** What the bare rule matches at `p`: the whole run of non-separators starting there. */
  lemma BareMatch(s: string, p: nat)
    requires p <= |s|
    ensures MatchAt(BareRule, s, p).Some? <==> p < |s| && !IsSeparator(s[p])
    ensures MatchAt(BareRule, s, p).Some? ==>
      var e := MatchAt(BareRule, s, p).value;
      (forall i | p <= i < e :: !IsSeparator(s[i])) && (e == |s| || IsSeparator(s[e]))
  {
    var cls := ExceptSpace(',');
    var k := RunEnd(s, cls, p);
    GreedyFirst(s, cls, 1, St(p, []));
    RunEndStops(s, cls, p);
    forall i | p <= i < k ensures !IsSeparator(s[i]) {
      RunEndIn(s, cls, p, i);
    }
  }

  // ---------------------------------------------------------------------------
  // The shape of the tokens

  /** Every piece is a match of the rule at its start. */
  lemma {:induction false} SpansMatch(rule: Rule, s: string, from: nat, i: nat)
    requires from <= |s| && i < |Spans(rule, s, from)|
    ensures var sp := Spans(rule, s, from)[i];
      MatchAt(rule, s, sp.start) == Some(sp.end)
    decreases |s| - from
  {
    var sp := Find(rule, s, from).value;
    if i > 0 {
      SpansMatch(rule, s, sp.end, i - 1);
    }
  }

  /** A token is the text of one of the pieces. */
  lemma TokenPiece(rule: Rule, s: string, t: string) returns (j: nat)
    requires t in Tokens(rule, s)
    ensures j < |Spans(rule, s, 0)|
    ensures var sp := Spans(rule, s, 0)[j];
      sp.start < sp.end <= |s| && t == s[sp.start..sp.end] && MatchAt(rule, s, sp.start) == Some(sp.end)
  {
    var spans := Spans(rule, s, 0);
    var pieces := Pieces(s, spans);
    var k :| 0 <= k < |pieces| && pieces[k] == t;
    j := k;
    SpansMatch(rule, s, 0, j);
  }

  /** The characters of a piece of `s` are the characters of `s` there. */
  lemma SliceAt(s: string, a: nat, b: nat, i: nat)
    requires a <= b <= |s| && i < b - a
    ensures s[a..b][i] == s[a + i]
  {
  }

  /**
   * A quoted token begins and ends with its quote character, has none in between,
   * and holds at least one other character; the quotes belong to the token.
   */
  lemma QuotedTokens(rule: Rule, s: string, t: string)
    requires rule != BareRule && t in Tokens(rule, s)
    ensures |t| >= 3 && t[0] == Quote(rule) && t[|t| - 1] == Quote(rule)
    ensures forall i | 0 < i < |t| - 1 :: t[i] != Quote(rule)
  {
    var j := TokenPiece(rule, s, t);
    var sp := Spans(rule, s, 0)[j];
    QuotedShape(rule, s, sp.start, sp.end, t);
  }

  /** The text of a quoted match. */
  lemma QuotedShape(rule: Rule, s: string, a: nat, b: nat, t: string)
    requires rule != BareRule && a < b <= |s| && MatchAt(rule, s, a) == Some(b) && t == s[a..b]
    ensures |t| >= 3 && t[0] == Quote(rule) && t[|t| - 1] == Quote(rule)
    ensures forall i | 0 < i < |t| - 1 :: t[i] != Quote(rule)
  {
    QuotedMatch(rule, s, a);
    forall i | 0 < i < b - a - 1 ensures t[i] != Quote(rule) {
      SliceAt(s, a, b, i);
    }
    SliceAt(s, a, b, 0);
    SliceAt(s, a, b, b - a - 1);
  }

  /** The matches of the double-quote rule in `"abc","def"`: both quoted items, quotes included. */
  lemma QuotedExampleSpans(s: string)
    requires s == "\"abc\",\"def\""
    ensures Spans(DoubleQuotedRule, s, 0) == [Span(0, 5), Span(6, 11)]
  {
    var r := DoubleQuotedRule;
    RunEndAt(s, Except('"'), 1, 4);
    RunEndAt(s, Except('"'), 7, 10);
    QuotedMatchIff(r, s, 0);
    QuotedMatchIff(r, s, 5);
    QuotedMatchIff(r, s, 6);
    QuotedMatchIff(r, s, 11);
    assert Find(r, s, 11) == None;
    assert Find(r, s, 6) == Some(Span(6, 11));
    assert Find(r, s, 5) == Some(Span(6, 11));
    assert Find(r, s, 0) == Some(Span(0, 5));
    assert Spans(r, s, 11) == [];
    assert Spans(r, s, 5) == [Span(6, 11)];
  }

  /** `{string="abc","def"}`: the allowed values `"abc"` and `"def"`, each with its quotes. */
  lemma QuotedExampleTokens(s: string)
    requires s == "\"abc\",\"def\""
    ensures Tokens(DoubleQuotedRule, s) == ["\"abc\"", "\"def\""]
  {
    QuotedExampleSpans(s);
    var t := Tokens(DoubleQuotedRule, s);
    assert |t| == 2 && t[0] == s[0..5] && t[1] == s[6..11];
    assert s[0..5] == "\"abc\"" && s[6..11] == "\"def\"";
  }

  /** `""` (or `''`) holds no token: a quoted token needs at least one inner character. */
  lemma EmptyQuotesNoToken(rule: Rule)
    requires rule != BareRule
    ensures Tokens(rule, [Quote(rule), Quote(rule)]) == []
  {
    var s := [Quote(rule), Quote(rule)];
    forall p | 0 <= p <= |s| ensures MatchAt(rule, s, p).None? {
      if MatchAt(rule, s, p).Some? {
        QuotedMatch(rule, s, p);
      }
    }
    assert Find(rule, s, 0).None?;
  }

  /**
   * `sp` is a maximal run of characters other than `,` and `\s`: a separator or
   * the end of the text on both sides.
   */
  ghost predicate MaximalRun(s: string, sp: Span)
  {
    sp.start <= sp.end <= |s|
    && (forall k | sp.start <= k < sp.end :: !IsSeparator(s[k]))
    && (sp.start == 0 || IsSeparator(s[sp.start - 1]))
    && (sp.end == |s| || IsSeparator(s[sp.end]))
  }

  /** A bare match found from `from`, where `from` is not inside a run. */
  lemma BareFirst(s: string, from: nat)
    requires from <= |s| && (from == 0 || from == |s| || IsSeparator(s[from]))
    requires Find(BareRule, s, from).Some?
    ensures MaximalRun(s, Find(BareRule, s, from).value)
  {
    var sp := Find(BareRule, s, from).value;
    if sp.start > from {
      assert MatchAt(BareRule, s, sp.start - 1).None?;
    }
    BareFirstAt(s, from, sp.start, sp.end);
  }

  /** The first bare match at or after `from` once `from` is known not to be inside a run. */
  lemma BareFirstAt(s: string, from: nat, a: nat, b: nat)
    requires from <= a <= |s| && (from == 0 || from == |s| || IsSeparator(s[from]))
    requires MatchAt(BareRule, s, a) == Some(b)
    requires a > from ==> MatchAt(BareRule, s, a - 1).None?
    ensures MaximalRun(s, Span(a, b))
  {
    if a > from {
      BareNoneAt(s, a - 1);
    } else if from > 0 {
      BareRunAt(s, from, b);
      assert false;
    }
    BareRunAt(s, a, b);
  }

  /**
   * A bare match starts at a non-separator and is a run of non-separators ending
   * at a separator or at the end; after a separator or at the start it is maximal.
   */
  lemma BareRunAt(s: string, a: nat, b: nat)
    requires a <= |s| && MatchAt(BareRule, s, a) == Some(b)
    ensures a < |s| && !IsSeparator(s[a])
    ensures a == 0 || IsSeparator(s[a - 1]) ==> MaximalRun(s, Span(a, b))
  {
    BareMatch(s, a);
  }

  /** Where the bare rule finds nothing, the text has ended or holds a separator. */
  lemma BareNoneAt(s: string, p: nat)
    requires p <= |s| && MatchAt(BareRule, s, p).None?
    ensures p == |s| || IsSeparator(s[p])
  {
    BareMatch(s, p);
  }

  /**
   * A bare token is a non-empty run of characters other than `,` and `\s`, with a
   * separator or the end of the text on both sides.
   */
  lemma {:induction false} BareSpans(s: string, from: nat, i: nat)
    requires from <= |s| && (from == 0 || from == |s| || IsSeparator(s[from]))
    requires i < |Spans(BareRule, s, from)|
    ensures MaximalRun(s, Spans(BareRule, s, from)[i])
    decreases |s| - from
  {
    SpansAt(BareRule, s, from, i);
    var sp := Find(BareRule, s, from).value;
    BareFirst(s, from);
    if i > 0 {
      BareSpans(s, sp.end, i - 1);
    }
  }

  lemma BareTokens(s: string, t: string)
    requires t in Tokens(BareRule, s)
    ensures t != [] && forall k | 0 <= k < |t| :: !IsSeparator(t[k])
  {
    var j := TokenPiece(BareRule, s, t);
    var sp := Spans(BareRule, s, 0)[j];
    BareSpans(s, 0, j);
    forall k | 0 <= k < |t| ensures !IsSeparator(t[k]) {
      SliceAt(s, sp.start, sp.end, k);
    }
  }

  /** Some span holds position `k`. */
  ghost predicate Covers(spans: seq<Span>, k: nat) {
    exists i | 0 <= i < |spans| :: spans[i].start <= k < spans[i].end
  }

  lemma CoversCons(sp: Span, rest: seq<Span>, k: nat)
    requires sp.start <= k < sp.end || Covers(rest, k)
    ensures Covers([sp] + rest, k)
  {
    if sp.start <= k < sp.end {
      assert ([sp] + rest)[0] == sp;
    } else {
      var i :| 0 <= i < |rest| && rest[i].start <= k < rest[i].end;
      assert ([sp] + rest)[i + 1] == rest[i];
    }
  }

  /** Every character other than `,` and `\s` lies in some bare token. */
  lemma {:induction false} BareCovers(s: string, from: nat, k: nat)
    requires from <= k < |s| && !IsSeparator(s[k])
    ensures Covers(Spans(BareRule, s, from), k)
    decreases |s| - from
  {
    BareMatch(s, k);
    var sp := Find(BareRule, s, from).value;
    if k >= sp.end {
      BareCovers(s, sp.end, k);
    }
    CoversCons(sp, Spans(BareRule, s, sp.end), k);
  }
}
