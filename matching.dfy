/**
 * The backtracking matching of a JavaScript regular expression, restricted to the
 * constructs that the composed parameter-sample pattern uses. A pattern is a
 * syntax tree; running it from a search state lists every way of going on from
 * that state, in the order in which JavaScript's backtracking engine tries them
 * (ECMAScript 2015, section 21.2.2). The first entry of the complete pattern's
 * list is the match `exec` reports.
 */
module Matching {
  import opened Wrappers
  import opened JsText

  // ---------------------------------------------------------------------------
  // Syntax

  predicate IsAlnum(c: char) {
    ('a' <= c <= 'z') || ('A' <= c <= 'Z') || ('0' <= c <= '9')
  }

  /** A character class. */
  datatype Class =
    | Space               // `\s`
    | Dot                 // `.`
    | Word(extra: string) // `[a-zA-Z0-9...]`: a letter, a digit or one of `extra`
    | Except(q: char)     // `[^q]`
    | ExceptSpace(q: char) // `[^q\s]`

  predicate In(cls: Class, c: char) {
    match cls
    case Space => IsSpace(c)
    case Dot => IsDot(c)
    case Word(extra) => IsAlnum(c) || c in extra
    case Except(q) => c != q
    case ExceptSpace(q) => c != q && !IsSpace(c)
  }

  /** The regular-expression constructs of the pattern. */
  datatype Re =
    | Empty                                   // the empty pattern
    | Lit(c: char)                            // one given character
    | One(cls: Class)                         // one character of a class
    | Rep(cls: Class, min: nat, greedy: bool) // `cls*`, `cls+`, `cls*?`, `cls+?` (min 0 or 1)
    | EndOfInput                              // `$` without the multiline flag
    | Cat(first: Re, rest: Re)                // `XY`
    | Maybe(body: Re)                         // `(?:X)?`, greedy
    | Or(left: Re, right: Re)                 // `X|Y`
    | Ahead(body: Re)                         // `(?=X)`
    | Group(n: nat, body: Re)                 // `(X)`, capture group `n`

  // ---------------------------------------------------------------------------
  // Search states

  /** The half-open piece [start, end) of the input that a capture group matched. */
  datatype Span = Span(start: nat, end: nat)

  /** Capture registers indexed like the `exec` result array; `None` is `undefined`. */
  type Caps = seq<Option<Span>>

  /** A search state: the input position reached and the captures recorded so far. */
  datatype St = St(pos: nat, caps: Caps)

  /** The states at the positions `ends`, with the captures unchanged. */
  function Place(ends: seq<nat>, caps: Caps): (r: seq<St>)
    ensures |r| == |ends|
    ensures forall n :: 0 <= n < |r| ==> r[n] == St(ends[n], caps)
  {
    if ends == [] then [] else [St(ends[0], caps)] + Place(ends[1..], caps)
  }

  /** The end of the longest run of characters of `cls` that starts at `i`. */
  function RunEnd(s: string, cls: Class, i: nat): (k: nat)
    ensures i <= |s| ==> i <= k <= |s|
    ensures i > |s| ==> k == i
    decreases |s| - i
  {
    if i < |s| && In(cls, s[i]) then RunEnd(s, cls, i + 1) else i
  }

  /** The run stops at the end of the input or at a character outside the class. */
  lemma {:induction false} RunEndStops(s: string, cls: Class, i: nat)
    requires i <= |s|
    ensures RunEnd(s, cls, i) < |s| ==> !In(cls, s[RunEnd(s, cls, i)])
    decreases |s| - i
  {
    if i < |s| && In(cls, s[i]) {
      RunEndStops(s, cls, i + 1);
    }
  }

  /** Every character of the run is of the class. */
  lemma {:induction false} RunEndIn(s: string, cls: Class, i: nat, j: nat)
    requires i <= j < RunEnd(s, cls, i)
    ensures j < |s| && In(cls, s[j])
    decreases |s| - i
  {
    if j > i {
      RunEndIn(s, cls, i + 1, j);
    }
  }

  /** The positions k, k-1, ..., i (greedy order). */
  function Down(k: nat, i: nat): (r: seq<nat>)
    ensures |r| == if i <= k then k - i + 1 else 0
    ensures forall n :: 0 <= n < |r| ==> r[n] == k - n
    decreases k
  {
    if k < i then [] else if k == i then [k] else [k] + Down(k - 1, i)
  }

  /** The positions i, i+1, ..., k (lazy order). */
  function Up(i: nat, k: nat): (r: seq<nat>)
    ensures |r| == if i <= k then k - i + 1 else 0
    ensures forall n :: 0 <= n < |r| ==> r[n] == i + n
    decreases k - i
  {
    if k < i then [] else [i] + Up(i + 1, k)
  }

  /** The positions a repetition starting at `i` can stop at, in the order they are tried. */
  function RepEnds(s: string, cls: Class, min: nat, greedy: bool, i: nat): seq<nat>
  {
    var k := RunEnd(s, cls, i);
    if k < i + min then []
    else if greedy then Down(k, i + min)
    else Up(i + min, k)
  }

  /** The states of `xs` that have left position `pos`. */
  function Advancing(xs: seq<St>, pos: nat): (r: seq<St>)
    ensures forall x :: x in r <==> x in xs && x.pos != pos
  {
    if xs == [] then []
    else (if xs[0].pos != pos then [xs[0]] else []) + Advancing(xs[1..], pos)
  }

  /** Register `n` set, when it exists. */
  function SetCap(c: Caps, n: nat, sp: Span): (d: Caps)
    ensures |d| == |c|
    ensures forall k :: 0 <= k < |c| ==> d[k] == (if k == n then Some(sp) else c[k])
  {
    if n < |c| then c[n := Some(sp)] else c
  }

  /** The states of `xs` with register `n` recording the piece from `start` to where each stands. */
  function Record(xs: seq<St>, n: nat, start: nat): (r: seq<St>)
    ensures |r| == |xs|
    ensures forall k :: 0 <= k < |r| ==> r[k] == St(xs[k].pos, SetCap(xs[k].caps, n, Span(start, xs[k].pos)))
  {
    if xs == [] then [] else [St(xs[0].pos, SetCap(xs[0].caps, n, Span(start, xs[0].pos)))] + Record(xs[1..], n, start)
  }

  // ---------------------------------------------------------------------------
  // Matching

  /**
   * Every way of matching `re` from `st`, in backtracking priority order.
   * A greedy repetition tries its longest run first, a lazy one its shortest.
   * `(?:X)?` first tries the ways through X that consume something (the
   * empty-iteration check of ECMAScript's RepeatMatcher refuses the others), then
   * skips X. A lookahead keeps the captures it was entered with; the lookaheads
   * of the parameter-sample pattern capture nothing.
   */
  function Run(s: string, re: Re, st: St): seq<St>
    decreases re, 0
  {
    match re
    case Empty => [st]
    case Lit(c) => if st.pos < |s| && s[st.pos] == c then [St(st.pos + 1, st.caps)] else []
    case One(cls) => if st.pos < |s| && In(cls, s[st.pos]) then [St(st.pos + 1, st.caps)] else []
    case Rep(cls, min, greedy) => Place(RepEnds(s, cls, min, greedy, st.pos), st.caps)
    case EndOfInput => if st.pos == |s| then [st] else []
    case Cat(first, rest) => RunAll(s, rest, Run(s, first, st))
    case Maybe(body) => Advancing(Run(s, body, st), st.pos) + [st]
    case Or(left, right) => Run(s, left, st) + Run(s, right, st)
    case Ahead(body) => if Run(s, body, st) != [] then [st] else []
    case Group(n, body) => Record(Run(s, body, st), n, st.pos)
  }

  /** The ways of matching `re` from each state of `xs`, in order. */
  function RunAll(s: string, re: Re, xs: seq<St>): seq<St>
    decreases re, |xs| + 1
  {
    if xs == [] then [] else Run(s, re, xs[0]) + RunAll(s, re, xs[1..])
  }

  // ---------------------------------------------------------------------------
  // Taking a way through a pattern apart

  lemma {:induction false} RunAllIn(s: string, re: Re, xs: seq<St>, x: St)
    ensures x in RunAll(s, re, xs) <==> exists y :: y in xs && x in Run(s, re, y)
    decreases |xs|
  {
    if xs != [] {
      RunAllIn(s, re, xs[1..], x);
      assert RunAll(s, re, xs) == Run(s, re, xs[0]) + RunAll(s, re, xs[1..]);
      assert forall y :: y in xs <==> y == xs[0] || y in xs[1..];
      if x in Run(s, re, xs[0]) {
        assert xs[0] in xs;
      }
    }
  }

  /** The first way through `re` from the states `xs` when all states before `xs[k]` lead nowhere. */
  lemma {:induction false} RunAllHead(s: string, re: Re, xs: seq<St>, k: nat)
    requires k < |xs| && Run(s, re, xs[k]) != []
    requires forall j :: 0 <= j < k ==> Run(s, re, xs[j]) == []
    ensures RunAll(s, re, xs) != [] && RunAll(s, re, xs)[0] == Run(s, re, xs[k])[0]
    decreases k
  {
    if k > 0 {
      RunAllHead(s, re, xs[1..], k - 1);
    }
  }

  /** `re` leads nowhere from any of the states `xs`. */
  lemma {:induction false} RunAllEmpty(s: string, re: Re, xs: seq<St>)
    requires forall j :: 0 <= j < |xs| ==> Run(s, re, xs[j]) == []
    ensures RunAll(s, re, xs) == []
    decreases |xs|
  {
    if xs != [] {
      RunAllEmpty(s, re, xs[1..]);
    }
  }

  lemma CatIn(s: string, a: Re, b: Re, st: St, x: St)
    requires x in Run(s, Cat(a, b), st)
    ensures exists y :: y in Run(s, a, st) && x in Run(s, b, y)
  {
    RunAllIn(s, b, Run(s, a, st), x);
  }

  lemma MaybeIn(s: string, body: Re, st: St, x: St)
    requires x in Run(s, Maybe(body), st)
    ensures x == st || (x in Run(s, body, st) && x.pos != st.pos)
  {
  }

  lemma OrIn(s: string, l: Re, r: Re, st: St, x: St)
    requires x in Run(s, Or(l, r), st)
    ensures x in Run(s, l, st) || x in Run(s, r, st)
  {
  }

  lemma GroupIn(s: string, n: nat, body: Re, st: St, x: St)
    requires x in Run(s, Group(n, body), st)
    ensures exists y :: y in Run(s, body, st) && x == St(y.pos, SetCap(y.caps, n, Span(st.pos, y.pos)))
  {
    var xs := Run(s, body, st);
    assert Run(s, Group(n, body), st) == Record(xs, n, st.pos);
    RecordIn(xs, n, st.pos, x);
  }

  lemma RecordIn(xs: seq<St>, n: nat, start: nat, x: St)
    requires x in Record(xs, n, start)
    ensures exists y :: y in xs && x == St(y.pos, SetCap(y.caps, n, Span(start, y.pos)))
  {
    var r := Record(xs, n, start);
    var k :| 0 <= k < |r| && r[k] == x;
    assert xs[k] in xs;
  }

  lemma LitIn(s: string, c: char, st: St, x: St)
    requires x in Run(s, Lit(c), st)
    ensures st.pos < |s| && s[st.pos] == c && x == St(st.pos + 1, st.caps)
  {
  }

  lemma OneIn(s: string, cls: Class, st: St, x: St)
    requires x in Run(s, One(cls), st)
    ensures st.pos < |s| && In(cls, s[st.pos]) && x == St(st.pos + 1, st.caps)
  {
    var ok := st.pos < |s| && In(cls, s[st.pos]);
    assert Run(s, One(cls), st) == if ok then [St(st.pos + 1, st.caps)] else [];
  }

  lemma PlaceIn(ends: seq<nat>, caps: Caps, x: St)
    requires x in Place(ends, caps)
    ensures x.caps == caps && x.pos in ends
  {
    var r := Place(ends, caps);
    var j :| 0 <= j < |r| && r[j] == x;
  }

  lemma DownIn(k: nat, i: nat, e: nat)
    requires e in Down(k, i)
    ensures i <= e <= k
  {
    var r := Down(k, i);
    var j :| 0 <= j < |r| && r[j] == e;
  }

  lemma UpIn(i: nat, k: nat, e: nat)
    requires e in Up(i, k)
    ensures i <= e <= k
  {
    var r := Up(i, k);
    var j :| 0 <= j < |r| && r[j] == e;
  }

  lemma RepEndsIn(s: string, cls: Class, min: nat, greedy: bool, i: nat, e: nat)
    requires e in RepEnds(s, cls, min, greedy, i)
    ensures i + min <= e <= RunEnd(s, cls, i)
  {
    EndsIn(RunEnd(s, cls, i), min, greedy, i, e);
  }

  lemma EndsIn(k: nat, min: nat, greedy: bool, i: nat, e: nat)
    requires e in (if k < i + min then [] else if greedy then Down(k, i + min) else Up(i + min, k))
    ensures i + min <= e <= k
  {
    if greedy {
      DownIn(k, i + min, e);
    } else {
      UpIn(i + min, k, e);
    }
  }

  /** A greedy repetition first tries the longest run of its class. */
  lemma GreedyFirst(s: string, cls: Class, min: nat, st: St)
    requires st.pos <= |s|
    ensures var k := RunEnd(s, cls, st.pos);
      Run(s, Rep(cls, min, true), st) != [] <==> st.pos + min <= k
    ensures var k := RunEnd(s, cls, st.pos);
      st.pos + min <= k ==> Run(s, Rep(cls, min, true), st)[0] == St(k, st.caps)
  {
    RunRep(s, cls, min, true, st);
    GreedyEnds(RunEnd(s, cls, st.pos), min, st.pos, st.caps);
  }

  lemma RunRep(s: string, cls: Class, min: nat, greedy: bool, st: St)
    ensures var k := RunEnd(s, cls, st.pos);
      Run(s, Rep(cls, min, greedy), st)
      == Place(if k < st.pos + min then [] else if greedy then Down(k, st.pos + min) else Up(st.pos + min, k), st.caps)
  {
  }

  lemma GreedyEnds(k: nat, min: nat, i: nat, caps: Caps)
    ensures var r := Place(if k < i + min then [] else Down(k, i + min), caps);
      (r != [] <==> i + min <= k) && (i + min <= k ==> r[0] == St(k, caps))
  {
  }

  /** A repetition keeps the captures and consumes a run of its class at least `min` long. */
  lemma RepIn(s: string, cls: Class, min: nat, greedy: bool, st: St, x: St)
    requires st.pos <= |s| && x in Run(s, Rep(cls, min, greedy), st)
    ensures x.caps == st.caps && st.pos + min <= x.pos <= |s|
    ensures forall i | st.pos <= i < x.pos :: In(cls, s[i])
  {
    PlaceIn(RepEnds(s, cls, min, greedy, st.pos), st.caps, x);
    RepEndsIn(s, cls, min, greedy, st.pos, x.pos);
    forall i | st.pos <= i < x.pos
      ensures In(cls, s[i])
    {
      RunEndIn(s, cls, st.pos, i);
    }
  }

  // ---------------------------------------------------------------------------
  // What a pattern writes

  /** The registers some way through `re` may set. */
  function Writes(re: Re): set<nat>
  {
    match re
    case Cat(a, b) => Writes(a) + Writes(b)
    case Maybe(body) => Writes(body)
    case Or(a, b) => Writes(a) + Writes(b)
    case Group(n, body) => {n} + Writes(body)
    case _ => {}
  }

  /** The registers every way through `re` sets. */
  function Must(re: Re): set<nat>
  {
    match re
    case Cat(a, b) => Must(a) + Must(b)
    case Or(a, b) => Must(a) * Must(b)
    case Group(n, body) => {n} + Must(body)
    case _ => {}
  }

  /** The fewest characters any way through `re` consumes. */
  function MinLen(re: Re): nat
  {
    match re
    case Lit(_) => 1
    case One(_) => 1
    case Rep(_, min, _) => min
    case Cat(a, b) => MinLen(a) + MinLen(b)
    case Or(a, b) => if MinLen(a) <= MinLen(b) then MinLen(a) else MinLen(b)
    case Group(_, body) => MinLen(body)
    case _ => 0
  }

  /** Every capture recorded lies inside the input. */
  ghost predicate CapsIn(s: string, c: Caps)
  {
    forall n | 0 <= n < |c| && c[n].Some? :: c[n].value.start <= c[n].value.end <= |s|
  }

  /** A search state inside the input. */
  ghost predicate Wf(s: string, st: St)
  {
    st.pos <= |s| && CapsIn(s, st.caps)
  }

  /** `d` agrees with `c` on every register outside `regs`. */
  ghost predicate SameOutside(c: Caps, d: Caps, regs: set<nat>)
  {
    |c| == |d| && forall n | 0 <= n < |c| && n !in regs :: c[n] == d[n]
  }

  /**
   * Every way through `re` moves forward by at least `MinLen(re)`, stays inside
   * the input, records captures inside the input and sets no register outside
   * `Writes(re)`.
   */
  lemma {:induction false} RunFrame(s: string, re: Re, st: St, x: St)
    requires Wf(s, st) && x in Run(s, re, st)
    ensures Wf(s, x) && st.pos + MinLen(re) <= x.pos && SameOutside(st.caps, x.caps, Writes(re))
    decreases re, 1
  {
    match re
    case Empty =>
    case Lit(c) =>
    case One(cls) =>
    case Rep(cls, min, greedy) =>
      RepIn(s, cls, min, greedy, st, x);
    case EndOfInput =>
    case Cat(a, b) =>
      RunFrameCat(s, a, b, st, x);
    case Maybe(body) =>
      MaybeIn(s, body, st, x);
      if x != st {
        RunFrame(s, body, st, x);
      }
    case Or(l, r) =>
      OrIn(s, l, r, st, x);
      if x in Run(s, l, st) {
        RunFrame(s, l, st, x);
      } else {
        RunFrame(s, r, st, x);
      }
    case Ahead(body) =>
    case Group(n, body) =>
      RunFrameGroup(s, n, body, st, x);
  }

  lemma {:induction false} RunFrameCat(s: string, a: Re, b: Re, st: St, x: St)
    requires Wf(s, st) && x in Run(s, Cat(a, b), st)
    ensures Wf(s, x) && st.pos + MinLen(Cat(a, b)) <= x.pos && SameOutside(st.caps, x.caps, Writes(Cat(a, b)))
    decreases Cat(a, b), 0
  {
    CatIn(s, a, b, st, x);
    var y :| y in Run(s, a, st) && x in Run(s, b, y);
    RunFrame(s, a, st, y);
    RunFrame(s, b, y, x);
    CatFrame(s, a, b, st, y, x);
  }

  lemma CatFrame(s: string, a: Re, b: Re, st: St, y: St, x: St)
    requires st.pos + MinLen(a) <= y.pos && SameOutside(st.caps, y.caps, Writes(a))
    requires Wf(s, x) && y.pos + MinLen(b) <= x.pos && SameOutside(y.caps, x.caps, Writes(b))
    ensures Wf(s, x) && st.pos + MinLen(Cat(a, b)) <= x.pos && SameOutside(st.caps, x.caps, Writes(Cat(a, b)))
  {
    SameOutsideBoth(st.caps, y.caps, x.caps, Writes(a), Writes(b));
  }

  lemma {:induction false} RunFrameGroup(s: string, n: nat, body: Re, st: St, x: St)
    requires Wf(s, st) && x in Run(s, Group(n, body), st)
    ensures Wf(s, x) && st.pos + MinLen(Group(n, body)) <= x.pos
    ensures SameOutside(st.caps, x.caps, Writes(Group(n, body)))
    decreases Group(n, body), 0
  {
    GroupIn(s, n, body, st, x);
    var y :| y in Run(s, body, st) && x == St(y.pos, SetCap(y.caps, n, Span(st.pos, y.pos)));
    RunFrame(s, body, st, y);
    GroupFrame(s, n, body, st, y, x);
  }

  lemma GroupFrame(s: string, n: nat, body: Re, st: St, y: St, x: St)
    requires Wf(s, y) && st.pos + MinLen(body) <= y.pos && SameOutside(st.caps, y.caps, Writes(body))
    requires x == St(y.pos, SetCap(y.caps, n, Span(st.pos, y.pos)))
    ensures Wf(s, x) && st.pos + MinLen(Group(n, body)) <= x.pos
    ensures SameOutside(st.caps, x.caps, Writes(Group(n, body)))
  {
    SetCapFrame(s, st.caps, y.caps, n, Span(st.pos, y.pos), Writes(body));
  }

  /** Registers kept by two steps in turn are kept by both together. */
  lemma SameOutsideBoth(c: Caps, d: Caps, e: Caps, v: set<nat>, w: set<nat>)
    requires SameOutside(c, d, v) && SameOutside(d, e, w)
    ensures SameOutside(c, e, v + w)
  {
  }

  /** Recording a piece of the text in register `n` changes only register `n`. */
  lemma SetCapFrame(s: string, c: Caps, d: Caps, n: nat, sp: Span, w: set<nat>)
    requires CapsIn(s, d) && sp.start <= sp.end <= |s| && SameOutside(c, d, w)
    ensures CapsIn(s, SetCap(d, n, sp)) && SameOutside(c, SetCap(d, n, sp), {n} + w)
  {
    var e := SetCap(d, n, sp);
    forall k | 0 <= k < |e| && e[k].Some?
      ensures e[k].value.start <= e[k].value.end <= |s|
    {
      if k != n {
        assert e[k] == d[k];
      }
    }
  }

  /** Registers, once set, stay set; and every way through `re` sets `Must(re)`. */
  lemma {:induction false} RunMust(s: string, re: Re, st: St, x: St)
    requires x in Run(s, re, st)
    ensures |x.caps| == |st.caps|
    ensures forall n | 0 <= n < |st.caps| && (st.caps[n].Some? || n in Must(re)) :: x.caps[n].Some?
    decreases re
  {
    match re
    case Empty =>
    case Lit(c) =>
    case One(cls) =>
    case Rep(cls, min, greedy) =>
      PlaceIn(RepEnds(s, cls, min, greedy, st.pos), st.caps, x);
    case EndOfInput =>
    case Cat(a, b) =>
      CatIn(s, a, b, st, x);
      var y :| y in Run(s, a, st) && x in Run(s, b, y);
      RunMust(s, a, st, y);
      RunMust(s, b, y, x);
    case Maybe(body) =>
      MaybeIn(s, body, st, x);
      if x != st {
        RunMust(s, body, st, x);
      }
    case Or(l, r) =>
      OrIn(s, l, r, st, x);
      if x in Run(s, l, st) {
        RunMust(s, l, st, x);
      } else {
        RunMust(s, r, st, x);
      }
    case Ahead(body) =>
    case Group(n, body) =>
      GroupIn(s, n, body, st, x);
      var y :| y in Run(s, body, st) && x == St(y.pos, SetCap(y.caps, n, Span(st.pos, y.pos)));
      RunMust(s, body, st, y);
  }

  /** A pattern whose every way ends with `$`. */
  predicate AtEnd(re: Re)
  {
    match re
    case EndOfInput => true
    case Cat(a, b) => AtEnd(b) || (AtEnd(a) && b == Empty)
    case _ => false
  }

  lemma {:induction false} RunAtEnd(s: string, re: Re, st: St, x: St)
    requires AtEnd(re) && Wf(s, st) && x in Run(s, re, st)
    ensures x.pos == |s|
    decreases re
  {
    match re
    case EndOfInput =>
    case Cat(a, b) =>
      CatIn(s, a, b, st, x);
      var y :| y in Run(s, a, st) && x in Run(s, b, y);
      RunFrame(s, a, st, y);
      if AtEnd(b) {
        RunAtEnd(s, b, y, x);
      } else {
        RunAtEnd(s, a, st, y);
      }
  }

  // ---------------------------------------------------------------------------
  // What a register holds

  /**
   * Register `n` of `c`, if set, spans a piece of the input that `body` matches
   * from its start to its end, and a non-empty one when `nonEmpty` is asked.
   */
  ghost predicate Recognized(s: string, c: Caps, n: nat, body: Re, nonEmpty: bool)
  {
    n < |c| && (c[n].Some? ==>
      c[n].value.start <= c[n].value.end <= |s|
      && (nonEmpty ==> c[n].value.start < c[n].value.end)
      && exists c0: Caps, c1: Caps :: St(c[n].value.end, c1) in Run(s, body, St(c[n].value.start, c0)))
  }

  /**
   * Every capture group `n` in `re` is `(body)`; when `nonEmpty` is asked, each
   * such group either always consumes something or sits directly in `(?:...)?`,
   * which only keeps ways that consume something.
   */
  predicate Owns(re: Re, n: nat, body: Re, nonEmpty: bool)
  {
    match re
    case Cat(a, b) => Owns(a, n, body, nonEmpty) && Owns(b, n, body, nonEmpty)
    case Maybe(Group(k, inner)) =>
      (k == n ==> inner == body) && Owns(inner, n, body, nonEmpty)
    case Maybe(inner) => Owns(inner, n, body, nonEmpty)
    case Or(a, b) => Owns(a, n, body, nonEmpty) && Owns(b, n, body, nonEmpty)
    case Group(k, inner) =>
      (k == n ==> inner == body && (nonEmpty ==> MinLen(body) > 0)) && Owns(inner, n, body, nonEmpty)
    case _ => true
  }

  /** A pattern with no capture group `n` owns register `n` for any body. */
  lemma {:induction false} OwnsUnwritten(re: Re, n: nat, body: Re, nonEmpty: bool)
    requires n !in Writes(re)
    ensures Owns(re, n, body, nonEmpty)
    decreases re
  {
    match re
    case Cat(a, b) =>
      OwnsUnwritten(a, n, body, nonEmpty);
      OwnsUnwritten(b, n, body, nonEmpty);
    case Maybe(inner) =>
      OwnsUnwritten(inner, n, body, nonEmpty);
      if inner.Group? {
        OwnsUnwritten(inner.body, n, body, nonEmpty);
      }
    case Or(a, b) =>
      OwnsUnwritten(a, n, body, nonEmpty);
      OwnsUnwritten(b, n, body, nonEmpty);
    case Group(k, inner) =>
      OwnsUnwritten(inner, n, body, nonEmpty);
    case _ =>
  }

  lemma GroupRecognized(s: string, n: nat, body: Re, st: St, x: St, nonEmpty: bool)
    requires Wf(s, st) && n < |st.caps| && x in Run(s, Group(n, body), st)
    requires nonEmpty ==> x.pos != st.pos
    ensures Recognized(s, x.caps, n, body, nonEmpty)
  {
    GroupIn(s, n, body, st, x);
    var y :| y in Run(s, body, st) && x == St(y.pos, SetCap(y.caps, n, Span(st.pos, y.pos)));
    RunFrame(s, body, st, y);
    assert St(x.caps[n].value.end, y.caps) in Run(s, body, St(x.caps[n].value.start, st.caps));
  }

  lemma RecognizedSame(s: string, c: Caps, d: Caps, n: nat, body: Re, nonEmpty: bool)
    requires Recognized(s, c, n, body, nonEmpty) && n < |d| && d[n] == c[n]
    ensures Recognized(s, d, n, body, nonEmpty)
  {
  }

  /** Every way through a pattern that owns register `n` keeps it recognized. */
  lemma {:induction false} RunRecognized(s: string, re: Re, n: nat, body: Re, nonEmpty: bool, st: St, x: St)
    requires Owns(re, n, body, nonEmpty) && Wf(s, st) && x in Run(s, re, st)
    requires Recognized(s, st.caps, n, body, nonEmpty)
    ensures Recognized(s, x.caps, n, body, nonEmpty)
    decreases re, 1
  {
    match re
    case Empty =>
    case Lit(c) =>
    case One(cls) =>
      RunFrame(s, re, st, x);
      KeptRecognized(s, st.caps, x.caps, n, body, nonEmpty, Writes(re));
    case Rep(cls, min, greedy) =>
      RunFrame(s, re, st, x);
      KeptRecognized(s, st.caps, x.caps, n, body, nonEmpty, Writes(re));
    case EndOfInput =>
    case Cat(a, b) =>
      RunRecognizedCat(s, a, b, n, body, nonEmpty, st, x);
    case Maybe(inner) =>
      RunRecognizedMaybe(s, inner, n, body, nonEmpty, st, x);
    case Or(l, r) =>
      RunRecognizedOr(s, l, r, n, body, nonEmpty, st, x);
    case Ahead(inner) =>
    case Group(k, inner) =>
      RunRecognizedGroup(s, k, inner, n, body, nonEmpty, st, x);
  }

  lemma {:induction false} RunRecognizedMaybe(s: string, inner: Re, n: nat, body: Re, nonEmpty: bool, st: St, x: St)
    requires Owns(Maybe(inner), n, body, nonEmpty) && Wf(s, st) && x in Run(s, Maybe(inner), st)
    requires Recognized(s, st.caps, n, body, nonEmpty)
    ensures Recognized(s, x.caps, n, body, nonEmpty)
    decreases Maybe(inner), 0
  {
    MaybeIn(s, inner, st, x);
    if x != st {
      if inner.Group? && inner.n == n {
        GroupRecognized(s, n, body, st, x, nonEmpty);
      } else {
        RunRecognized(s, inner, n, body, nonEmpty, st, x);
      }
    }
  }

  lemma {:induction false} RunRecognizedOr(s: string, l: Re, r: Re, n: nat, body: Re, nonEmpty: bool, st: St, x: St)
    requires Owns(Or(l, r), n, body, nonEmpty) && Wf(s, st) && x in Run(s, Or(l, r), st)
    requires Recognized(s, st.caps, n, body, nonEmpty)
    ensures Recognized(s, x.caps, n, body, nonEmpty)
    decreases Or(l, r), 0
  {
    OrIn(s, l, r, st, x);
    if x in Run(s, l, st) {
      RunRecognized(s, l, n, body, nonEmpty, st, x);
    } else {
      RunRecognized(s, r, n, body, nonEmpty, st, x);
    }
  }

  /** A register a step does not write stays recognized. */
  lemma KeptRecognized(s: string, c: Caps, d: Caps, n: nat, body: Re, nonEmpty: bool, w: set<nat>)
    requires Recognized(s, c, n, body, nonEmpty) && SameOutside(c, d, w) && n !in w
    ensures Recognized(s, d, n, body, nonEmpty)
  {
    assert d[n] == c[n];
  }

  lemma {:induction false} RunRecognizedCat(s: string, a: Re, b: Re, n: nat, body: Re, nonEmpty: bool, st: St, x: St)
    requires Owns(Cat(a, b), n, body, nonEmpty) && Wf(s, st) && x in Run(s, Cat(a, b), st)
    requires Recognized(s, st.caps, n, body, nonEmpty)
    ensures Recognized(s, x.caps, n, body, nonEmpty)
    decreases Cat(a, b), 0
  {
    CatIn(s, a, b, st, x);
    var y :| y in Run(s, a, st) && x in Run(s, b, y);
    RunFrame(s, a, st, y);
    RunRecognized(s, a, n, body, nonEmpty, st, y);
    RunRecognized(s, b, n, body, nonEmpty, y, x);
  }

  lemma {:induction false} RunRecognizedGroup(s: string, k: nat, inner: Re, n: nat, body: Re, nonEmpty: bool, st: St, x: St)
    requires Owns(Group(k, inner), n, body, nonEmpty) && Wf(s, st) && x in Run(s, Group(k, inner), st)
    requires Recognized(s, st.caps, n, body, nonEmpty)
    ensures Recognized(s, x.caps, n, body, nonEmpty)
    decreases Group(k, inner), 0
  {
    RunFrame(s, Group(k, inner), st, x);
    if k == n {
      GroupRecognized(s, n, body, st, x, nonEmpty);
    } else {
      GroupIn(s, k, inner, st, x);
      var y :| y in Run(s, inner, st) && x == St(y.pos, SetCap(y.caps, k, Span(st.pos, y.pos)));
      RunRecognized(s, inner, n, body, nonEmpty, st, y);
      RunFrame(s, inner, st, y);
      RecognizedSame(s, y.caps, x.caps, n, body, nonEmpty);
    }
  }

  /** A register recognized by a repetition holds a run of its class at least `min` long. */
  lemma RecognizedRep(s: string, c: Caps, n: nat, cls: Class, min: nat, greedy: bool, nonEmpty: bool)
    requires Recognized(s, c, n, Rep(cls, min, greedy), nonEmpty) && c[n].Some?
    ensures c[n].value.start + min <= c[n].value.end <= |s|
    ensures forall i | c[n].value.start <= i < c[n].value.end :: In(cls, s[i])
  {
    var c0: Caps, c1: Caps :| St(c[n].value.end, c1) in Run(s, Rep(cls, min, greedy), St(c[n].value.start, c0));
    RepIn(s, cls, min, greedy, St(c[n].value.start, c0), St(c[n].value.end, c1));
  }

  // ---------------------------------------------------------------------------
  // Registers that exclude or require one another

  /** Every way through `re` sets at most one register of `regs`. */
  predicate AtMostOne(re: Re, regs: set<nat>)
  {
    match re
    case Cat(a, b) =>
      (Writes(a) * regs == {} && AtMostOne(b, regs)) || (AtMostOne(a, regs) && Writes(b) * regs == {})
    case Maybe(body) => AtMostOne(body, regs)
    case Or(a, b) => AtMostOne(a, regs) && AtMostOne(b, regs)
    case Group(n, body) => if n in regs then Writes(body) * regs == {} else AtMostOne(body, regs)
    case _ => true
  }

  /** A pattern that writes no register of `regs` sets at most one of them. */
  lemma {:induction false} AtMostOneUnwritten(re: Re, regs: set<nat>)
    requires Writes(re) * regs == {}
    ensures AtMostOne(re, regs)
    decreases re
  {
    match re
    case Cat(a, b) =>
      assert Writes(a) * regs <= Writes(re) * regs;
      AtMostOneUnwritten(b, regs);
      assert Writes(b) * regs <= Writes(re) * regs;
    case Maybe(inner) =>
      AtMostOneUnwritten(inner, regs);
    case Or(a, b) =>
      assert Writes(a) * regs <= Writes(re) * regs;
      assert Writes(b) * regs <= Writes(re) * regs;
      AtMostOneUnwritten(a, regs);
      AtMostOneUnwritten(b, regs);
    case Group(k, inner) =>
      assert k in Writes(re);
      assert Writes(inner) * regs <= Writes(re) * regs;
      if k !in regs {
        AtMostOneUnwritten(inner, regs);
      }
    case _ =>
  }

  /** Of the registers in `regs`, `d` differs from `c` in at most one. */
  ghost predicate ChangedAtMostOne(c: Caps, d: Caps, regs: set<nat>)
  {
    forall a, b | a in regs && b in regs && a != b && a < |c| && b < |c| && a < |d| && b < |d| && d[a] != c[a] :: d[b] == c[b]
  }

  lemma {:induction false} RunAtMostOne(s: string, re: Re, regs: set<nat>, st: St, x: St)
    requires AtMostOne(re, regs) && Wf(s, st) && x in Run(s, re, st)
    ensures ChangedAtMostOne(st.caps, x.caps, regs)
    decreases re, 1
  {
    match re
    case Empty =>
    case Lit(c) =>
    case One(cls) =>
    case Rep(cls, min, greedy) =>
    case EndOfInput =>
    case Cat(a, b) =>
      RunAtMostOneCat(s, a, b, regs, st, x);
    case Maybe(body) =>
      MaybeIn(s, body, st, x);
      if x != st {
        RunAtMostOne(s, body, regs, st, x);
      }
    case Or(l, r) =>
      OrIn(s, l, r, st, x);
      if x in Run(s, l, st) {
        RunAtMostOne(s, l, regs, st, x);
      } else {
        RunAtMostOne(s, r, regs, st, x);
      }
    case Ahead(body) =>
      RunFrame(s, re, st, x);
    case Group(n, body) =>
      RunAtMostOneGroup(s, n, body, regs, st, x);
  }

  lemma {:induction false} RunAtMostOneCat(s: string, a: Re, b: Re, regs: set<nat>, st: St, x: St)
    requires AtMostOne(Cat(a, b), regs) && Wf(s, st) && x in Run(s, Cat(a, b), st)
    ensures ChangedAtMostOne(st.caps, x.caps, regs)
    decreases Cat(a, b), 0
  {
    CatIn(s, a, b, st, x);
    var y :| y in Run(s, a, st) && x in Run(s, b, y);
    RunFrame(s, a, st, y);
    RunFrame(s, b, y, x);
    if Writes(a) * regs == {} && AtMostOne(b, regs) {
      RunAtMostOne(s, b, regs, y, x);
      ChangedAfterSame(st.caps, y.caps, x.caps, regs, Writes(a));
    } else {
      RunAtMostOne(s, a, regs, st, y);
      ChangedBeforeSame(st.caps, y.caps, x.caps, regs, Writes(b));
    }
  }

  lemma {:induction false} RunAtMostOneGroup(s: string, n: nat, body: Re, regs: set<nat>, st: St, x: St)
    requires AtMostOne(Group(n, body), regs) && Wf(s, st) && x in Run(s, Group(n, body), st)
    ensures ChangedAtMostOne(st.caps, x.caps, regs)
    decreases Group(n, body), 0
  {
    GroupIn(s, n, body, st, x);
    var y :| y in Run(s, body, st) && x == St(y.pos, SetCap(y.caps, n, Span(st.pos, y.pos)));
    RunFrame(s, body, st, y);
    if n in regs {
      ChangedOnlyHere(st.caps, y.caps, n, Span(st.pos, y.pos), regs, Writes(body));
    } else {
      RunAtMostOne(s, body, regs, st, y);
      ChangedElsewhere(st.caps, y.caps, n, Span(st.pos, y.pos), regs);
    }
  }

  /** Setting register `n` of `regs` after touching none of them changes at most that one. */
  lemma ChangedOnlyHere(c: Caps, d: Caps, n: nat, sp: Span, regs: set<nat>, w: set<nat>)
    requires SameOutside(c, d, w) && w * regs == {} && n in regs
    ensures ChangedAtMostOne(c, SetCap(d, n, sp), regs)
  {
    forall k | k in regs && k != n && k < |c|
      ensures SetCap(d, n, sp)[k] == c[k]
    {
      assert (k in w * regs) == (k in w && k in regs);
    }
  }

  /** Setting a register outside `regs` keeps the count of changed registers in `regs`. */
  lemma ChangedElsewhere(c: Caps, d: Caps, n: nat, sp: Span, regs: set<nat>)
    requires ChangedAtMostOne(c, d, regs) && |c| == |d| && n !in regs
    ensures ChangedAtMostOne(c, SetCap(d, n, sp), regs)
  {
  }

  lemma ChangedAfterSame(c: Caps, d: Caps, e: Caps, regs: set<nat>, w: set<nat>)
    requires SameOutside(c, d, w) && w * regs == {} && ChangedAtMostOne(d, e, regs)
    ensures ChangedAtMostOne(c, e, regs)
  {
    forall k | k in regs && k < |c|
      ensures d[k] == c[k]
    {
      assert (k in w * regs) == (k in w && k in regs);
    }
  }

  lemma ChangedBeforeSame(c: Caps, d: Caps, e: Caps, regs: set<nat>, w: set<nat>)
    requires ChangedAtMostOne(c, d, regs) && SameOutside(d, e, w) && w * regs == {}
    ensures ChangedAtMostOne(c, e, regs)
  {
    forall k | k in regs && k < |d|
      ensures e[k] == d[k]
    {
      assert (k in w * regs) == (k in w && k in regs);
    }
  }

  /** Every way through `re` that changes register `a` leaves register `b` set. */
  predicate Guarded(re: Re, a: nat, b: nat)
  {
    a !in Writes(re) || b in Must(re) ||
    match re
    case Cat(l, r) => Guarded(l, a, b) && Guarded(r, a, b)
    case Maybe(body) => Guarded(body, a, b)
    case Or(l, r) => Guarded(l, a, b) && Guarded(r, a, b)
    case Group(n, body) => n != a && Guarded(body, a, b)
    case _ => false
  }

  lemma {:induction false} RunGuarded(s: string, re: Re, a: nat, b: nat, st: St, x: St)
    requires Guarded(re, a, b) && Wf(s, st) && x in Run(s, re, st)
    requires a < |st.caps| && b < |st.caps|
    ensures |x.caps| == |st.caps|
    ensures x.caps[a] != st.caps[a] ==> x.caps[b].Some?
    decreases re
  {
    RunFrame(s, re, st, x);
    RunMust(s, re, st, x);
    if a in Writes(re) && b !in Must(re) {
      match re
      case Cat(l, r) =>
        CatIn(s, l, r, st, x);
        var y :| y in Run(s, l, st) && x in Run(s, r, y);
        RunFrame(s, l, st, y);
        RunGuarded(s, l, a, b, st, y);
        RunGuarded(s, r, a, b, y, x);
        RunMust(s, r, y, x);
      case Maybe(body) =>
        MaybeIn(s, body, st, x);
        if x != st {
          RunGuarded(s, body, a, b, st, x);
        }
      case Or(l, r) =>
        OrIn(s, l, r, st, x);
        if x in Run(s, l, st) {
          RunGuarded(s, l, a, b, st, x);
        } else {
          RunGuarded(s, r, a, b, st, x);
        }
      case Group(n, body) =>
        GroupIn(s, n, body, st, x);
        var y :| y in Run(s, body, st) && x == St(y.pos, SetCap(y.caps, n, Span(st.pos, y.pos)));
        RunGuarded(s, body, a, b, st, y);
    }
  }

  // ---------------------------------------------------------------------------
  // Analysing a composed pattern one level at a time: each fact about a pattern
  // from the same fact about its direct parts, so that a deep pattern is
  // analysed by a chain of small steps.

  /** A pattern with no sub-pattern that can hold a capture group. */
  predicate Leaf(re: Re)
  {
    re.Empty? || re.Lit? || re.One? || re.Rep? || re.EndOfInput? || re.Ahead?
  }

  lemma UnwrittenLeaf(re: Re, n: nat)
    requires Leaf(re)
    ensures n !in Writes(re)
  {
  }

  lemma UnwrittenCat(a: Re, b: Re, n: nat)
    requires n !in Writes(a) && n !in Writes(b)
    ensures n !in Writes(Cat(a, b))
  {
  }

  lemma UnwrittenMaybe(body: Re, n: nat)
    requires n !in Writes(body)
    ensures n !in Writes(Maybe(body))
  {
  }

  lemma UnwrittenOr(a: Re, b: Re, n: nat)
    requires n !in Writes(a) && n !in Writes(b)
    ensures n !in Writes(Or(a, b))
  {
  }

  lemma UnwrittenGroup(k: nat, body: Re, n: nat)
    requires k != n && n !in Writes(body)
    ensures n !in Writes(Group(k, body))
  {
  }

  lemma MustCatLeft(a: Re, b: Re, n: nat)
    requires n in Must(a)
    ensures n in Must(Cat(a, b))
  {
  }

  lemma MustCatRight(a: Re, b: Re, n: nat)
    requires n in Must(b)
    ensures n in Must(Cat(a, b))
  {
  }

  lemma MustGroup(k: nat, body: Re, n: nat)
    requires k == n || n in Must(body)
    ensures n in Must(Group(k, body))
  {
  }

  lemma AtEndCat(a: Re, b: Re)
    requires AtEnd(b)
    ensures AtEnd(Cat(a, b))
  {
  }

  lemma OwnsLeaf(re: Re, n: nat, body: Re, nonEmpty: bool)
    requires Leaf(re)
    ensures Owns(re, n, body, nonEmpty)
  {
  }

  lemma OwnsCat(a: Re, b: Re, n: nat, body: Re, nonEmpty: bool)
    requires Owns(a, n, body, nonEmpty) && Owns(b, n, body, nonEmpty)
    ensures Owns(Cat(a, b), n, body, nonEmpty)
  {
  }

  lemma OwnsOr(a: Re, b: Re, n: nat, body: Re, nonEmpty: bool)
    requires Owns(a, n, body, nonEmpty) && Owns(b, n, body, nonEmpty)
    ensures Owns(Or(a, b), n, body, nonEmpty)
  {
  }

  lemma OwnsMaybe(inner: Re, n: nat, body: Re, nonEmpty: bool)
    requires !inner.Group? && Owns(inner, n, body, nonEmpty)
    ensures Owns(Maybe(inner), n, body, nonEmpty)
  {
  }

  /** `(?:(X))?` keeps only ways that consume something, so X may match the empty text. */
  lemma OwnsMaybeGroup(k: nat, inner: Re, n: nat, body: Re, nonEmpty: bool)
    requires (k == n ==> inner == body) && Owns(inner, n, body, nonEmpty)
    ensures Owns(Maybe(Group(k, inner)), n, body, nonEmpty)
  {
  }

  lemma OwnsGroup(k: nat, inner: Re, n: nat, body: Re, nonEmpty: bool)
    requires k == n ==> inner == body && (nonEmpty ==> MinLen(body) > 0)
    requires Owns(inner, n, body, nonEmpty)
    ensures Owns(Group(k, inner), n, body, nonEmpty)
  {
  }

  lemma AtMostOneCatLeft(a: Re, b: Re, regs: set<nat>)
    requires AtMostOne(a, regs) && Writes(b) * regs == {}
    ensures AtMostOne(Cat(a, b), regs)
  {
  }

  lemma AtMostOneCatRight(a: Re, b: Re, regs: set<nat>)
    requires Writes(a) * regs == {} && AtMostOne(b, regs)
    ensures AtMostOne(Cat(a, b), regs)
  {
  }

  lemma AtMostOneMaybe(body: Re, regs: set<nat>)
    requires AtMostOne(body, regs)
    ensures AtMostOne(Maybe(body), regs)
  {
  }

  lemma AtMostOneOr(a: Re, b: Re, regs: set<nat>)
    requires AtMostOne(a, regs) && AtMostOne(b, regs)
    ensures AtMostOne(Or(a, b), regs)
  {
  }

  lemma AtMostOneGroup(k: nat, body: Re, regs: set<nat>)
    requires if k in regs then Writes(body) * regs == {} else AtMostOne(body, regs)
    ensures AtMostOne(Group(k, body), regs)
  {
  }

  lemma GuardedUnwritten(re: Re, a: nat, b: nat)
    requires a !in Writes(re)
    ensures Guarded(re, a, b)
  {
  }

  lemma GuardedMust(re: Re, a: nat, b: nat)
    requires b in Must(re)
    ensures Guarded(re, a, b)
  {
  }

  lemma GuardedCat(l: Re, r: Re, a: nat, b: nat)
    requires Guarded(l, a, b) && Guarded(r, a, b)
    ensures Guarded(Cat(l, r), a, b)
  {
  }

  lemma GuardedMaybe(body: Re, a: nat, b: nat)
    requires Guarded(body, a, b)
    ensures Guarded(Maybe(body), a, b)
  {
  }

  // ---------------------------------------------------------------------------
  // The first way through a composed pattern, one level at a time

  /** A repetition that cannot take a character stays where it is, in one way. */
  lemma RepStays(s: string, cls: Class, greedy: bool, st: St)
    requires st.pos >= |s| || !In(cls, s[st.pos])
    ensures Run(s, Rep(cls, 0, greedy), st) == [st]
  {
    var ends := RepEnds(s, cls, 0, greedy, st.pos);
    assert Run(s, Rep(cls, 0, greedy), st) == Place(ends, st.caps);
    assert RunEnd(s, cls, st.pos) == st.pos;
    assert ends == [st.pos];
  }

  /** Over a run of the class up to the end, the longest run ends at the end. */
  lemma {:induction false} RunEndAll(s: string, cls: Class, i: nat)
    requires i <= |s| && forall j | i <= j < |s| :: In(cls, s[j])
    ensures RunEnd(s, cls, i) == |s|
    decreases |s| - i
  {
    if i < |s| {
      RunEndAll(s, cls, i + 1);
    }
  }

  /** `a` has a single way from `st`: `Cat(a, b)` goes on exactly as `b` from there. */
  lemma CatSingle(s: string, a: Re, b: Re, st: St, y: St)
    requires Run(s, a, st) == [y]
    ensures Run(s, Cat(a, b), st) == Run(s, b, y)
  {
    assert RunAll(s, b, [y]) == Run(s, b, y) + RunAll(s, b, []);
  }

  /** When `a` fails, so does `Cat(a, b)`. */
  lemma CatNone(s: string, a: Re, b: Re, st: St)
    requires Run(s, a, st) == []
    ensures Run(s, Cat(a, b), st) == []
  {
  }

  /** When the first way `y` through `a` goes on in `b`, the first way through `Cat(a, b)` is the first way through `b` from `y`. */
  lemma CatFirst(s: string, a: Re, b: Re, st: St, y: St, z: St)
    requires Run(s, a, st) != [] && Run(s, a, st)[0] == y
    requires Run(s, b, y) != [] && Run(s, b, y)[0] == z
    ensures Run(s, Cat(a, b), st) != [] && Run(s, Cat(a, b), st)[0] == z
  {
    var xs := Run(s, a, st);
    assert Run(s, Cat(a, b), st) == RunAll(s, b, xs);
    RunAllFirst(s, b, xs);
  }

  lemma RunAllFirst(s: string, re: Re, xs: seq<St>)
    requires xs != [] && Run(s, re, xs[0]) != []
    ensures RunAll(s, re, xs) != [] && RunAll(s, re, xs)[0] == Run(s, re, xs[0])[0]
  {
    assert RunAll(s, re, xs) == Run(s, re, xs[0]) + RunAll(s, re, xs[1..]);
  }

  /** An optional part whose body fails is skipped, in one way. */
  lemma MaybeSkips(s: string, body: Re, st: St)
    requires Run(s, body, st) == []
    ensures Run(s, Maybe(body), st) == [st]
  {
  }

  /** An optional part whose only way consumes nothing is refused and skipped. */
  lemma MaybeStays(s: string, body: Re, st: St, y: St)
    requires Run(s, body, st) == [y] && y.pos == st.pos
    ensures Run(s, Maybe(body), st) == [st]
  {
    assert Advancing([y], st.pos) == [] + Advancing([], st.pos);
  }

  /** The first way through a group is the first way through its body, with the register set. */
  lemma GroupFirst(s: string, n: nat, body: Re, st: St)
    requires Run(s, body, st) != []
    ensures Run(s, Group(n, body), st) != []
    ensures var y := Run(s, body, st)[0];
      Run(s, Group(n, body), st)[0] == St(y.pos, SetCap(y.caps, n, Span(st.pos, y.pos)))
  {
  }

  /** An optional part whose first way consumes something takes that way first. */
  lemma MaybeFirst(s: string, body: Re, st: St, z: St)
    requires Run(s, body, st) != [] && Run(s, body, st)[0] == z && z.pos != st.pos
    ensures Run(s, Maybe(body), st) != [] && Run(s, Maybe(body), st)[0] == z
  {
    var xs := Run(s, body, st);
    assert Advancing(xs, st.pos) == [z] + Advancing(xs[1..], st.pos);
  }

  /** A literal character that is there is taken, in one way. */
  lemma LitTaken(s: string, c: char, st: St)
    requires st.pos < |s| && s[st.pos] == c
    ensures Run(s, Lit(c), st) == [St(st.pos + 1, st.caps)]
  {
  }

  /** Over a run of the class from `i` to `j`, the longest run reaches `j` at least. */
  lemma {:induction false} RunEndPast(s: string, cls: Class, i: nat, j: nat)
    requires i <= j <= |s| && forall m | i <= m < j :: In(cls, s[m])
    ensures RunEnd(s, cls, i) >= j
    decreases j - i
  {
    if i < j {
      RunEndPast(s, cls, i + 1, j);
    }
  }

  /** A run of the class from `i` that stops at `j` ends there. */
  lemma {:induction false} RunEndAt(s: string, cls: Class, i: nat, j: nat)
    requires i <= j <= |s| && forall m | i <= m < j :: In(cls, s[m])
    requires j < |s| ==> !In(cls, s[j])
    ensures RunEnd(s, cls, i) == j
    decreases j - i
  {
    if i < j {
      RunEndAt(s, cls, i + 1, j);
    }
  }
}
