/**
 * The parameter-sample annotation parser of parser/api_param_sample.js: `parse`
 * (lines 82-134) trims the annotation, hides its line breaks behind a sentinel,
 * runs the composed pattern, gives every truthy capture its line breaks back,
 * tokenizes the allowed values, applies the defaults and records the group in the
 * module-level cell of line 5; `path` and `getGroup` (lines 136-142) read that
 * cell.
 *
 * The collaborator `unindent` is not part of this model: the parser object holds
 * it as a function value. The collaborator `trim` is modelled as `JsText.Trim`.
 */
module ApiParamSample {
  import opened Wrappers
  import opened JsText
  import opened Matching
  import opened ParamPattern
  import opened AllowedValues

  // ---------------------------------------------------------------------------
  // JavaScript truthiness on the capture array

  /** A capture is truthy when it is defined and not the empty string. */
  predicate Truthy(v: Option<string>) {
    v.Some? && v.value != ""
  }

  /** JavaScript's `a || b` on captures: `a` when it is truthy, otherwise `b`. */
  function JsOr(a: Option<string>, b: Option<string>): (r: Option<string>)
    ensures Truthy(a) ==> r == a
    ensures !Truthy(a) ==> r == b
    ensures Truthy(r) <==> Truthy(a) || Truthy(b)
  {
    if Truthy(a) then a else b
  }

  /** `a || d` for a truthy string literal `d`: always a non-empty string. */
  function OrElse(a: Option<string>, d: string): (r: string)
    ensures Truthy(a) ==> r == a.value
    ensures !Truthy(a) ==> r == d
    ensures d != "" ==> r != ""
  {
    if Truthy(a) then a.value else d
  }

  // ---------------------------------------------------------------------------
  // The descriptor

  /** The record `parse` returns (lines 122-133); `None` fields are `undefined`. */
  datatype Descriptor = Descriptor(
    group: string,
    inputType: string,
    inputValue: Option<string>,
    typeName: Option<string>,
    size: Option<string>,
    allowedValues: Option<seq<string>>,
    optional: bool,
    field: Option<string>,
    defaultValue: Option<string>,
    description: string)

  // ---------------------------------------------------------------------------
  // The steps of parse, as functions

  /** Lines 83 and 86: the text the pattern runs on. */
  function Prepare(content: string): (r: string)
    ensures '\n' !in r && |r| == |Trim(content)|
  {
    Protect(Trim(content))
  }

  /** Line 95-96 for one entry: a truthy capture gets its line breaks back. */
  function Revert(v: Option<string>): (r: Option<string>)
    ensures r.Some? <==> v.Some?
    ensures r.Some? ==> |r.value| == |v.value|
    ensures v.Some? && Sentinel !in v.value ==> r == v
  {
    if Truthy(v) then RestoreUnchanged(v.value); Some(Restore(v.value)) else v
  }

  /** Lines 94-98: the `forEach` over the whole `exec` array. */
  function RevertAll(m: seq<Option<string>>): (r: seq<Option<string>>)
    ensures |r| == |m|
  {
    seq(|m|, i requires 0 <= i < |m| => Revert(m[i]))
  }

  /** Lines 88-98: the `matches` array after the line breaks are restored, or `null`. */
  function Matches(content: string): (r: Option<seq<Option<string>>>)
    ensures r.Some? ==> |r.value| == 13
  {
    match Exec(Prepare(content))
    case None => None
    case Some(m) => Some(RevertAll(m))
  }

  /** Lines 100-117: the token list when capture 6 is truthy; otherwise it stays undefined. */
  function AllowedValuesOf(v: Option<string>): (r: Option<seq<string>>)
    ensures r.Some? <==> Truthy(v)
  {
    if Truthy(v) then Some(Tokens(RuleFor(v.value), v.value)) else None
  }

  /** Lines 120-133: the descriptor built from the restored `matches` array. */
  function Describe(m: seq<Option<string>>, defaultGroup: Option<string>, unindent: string -> string): (d: Descriptor)
    requires |m| == 13
    ensures d.group != "" && d.inputType != ""
  {
    Descriptor(
      group := OrElse(JsOr(m[1], defaultGroup), "Parameter"),
      inputType := OrElse(m[2], "text"),
      inputValue := m[3],
      typeName := m[4],
      size := m[5],
      allowedValues := AllowedValuesOf(m[6]),
      optional := Truthy(m[7]) && m[7].value[0] == '[',
      field := m[8],
      defaultValue := JsOr(JsOr(m[9], m[10]), m[11]),
      description := unindent(OrElse(m[12], "")))
  }

  /** `parse(content, source, defaultGroup)` as a value: `None` is `null`. */
  function ParseSample(content: string, defaultGroup: Option<string>, unindent: string -> string): (r: Option<Descriptor>)
    ensures r.Some? <==> Matches(content).Some?
  {
    match Matches(content)
    case None => None
    case Some(m) => Some(Describe(m, defaultGroup, unindent))
  }

  const ParamPrefix: string := "local.parameter.samples."

  // ---------------------------------------------------------------------------
  // The parser object

  /**
   * The module state of parser/api_param_sample.js: the `group` cell of line 5,
   * written by every successful `parse` and read by `path` and `getGroup`.
   */
  class SampleParser {
    var group: string
    /** The collaborator `unindent`. */
    const unindent: string -> string

    /** Module load: the cell starts as the empty string. */
    constructor (unindent: string -> string)
      ensures group == "" && this.unindent == unindent
    {
      group := "";
      this.unindent := unindent;
    }

    /**
     * `parse(content, source, defaultGroup)`. On failure it returns `null` and
     * leaves the cell alone; on success the cell holds the descriptor's group.
     */
    method Parse(content: string, defaultGroup: Option<string>) returns (r: Option<Descriptor>)
      modifies this
      ensures r == ParseSample(content, defaultGroup, unindent)
      ensures r.None? ==> group == old(group)
      ensures r.Some? ==> group == r.value.group
    {
      var text := Trim(content);
      text := Protect(text);
      var found := Exec(text);
      if found.None? {
        return None;
      }
      var matches := Restored(found.value);
      r := Report(matches, defaultGroup);
    }

    /**
     * Lines 100-133: the allowed-values list, the group cell and the descriptor,
     * all read off the restored `matches` array.
     */
    method Report(matches: array<Option<string>>, defaultGroup: Option<string>) returns (r: Option<Descriptor>)
      requires matches.Length == 13
      modifies this
      ensures r == Some(Describe(matches[..], defaultGroup, unindent))
      ensures group == r.value.group
    {
      var allowedValues: Option<seq<string>> := None;
      var v := matches[6];
      if Truthy(v) {
        var list := CollectTokens(RuleFor(v.value), v.value);
        allowedValues := Some(list);
      }
      group := OrElse(JsOr(matches[1], defaultGroup), "Parameter");
      r := Some(Descriptor(
        group := group,
        inputType := OrElse(matches[2], "text"),
        inputValue := matches[3],
        typeName := matches[4],
        size := matches[5],
        allowedValues := allowedValues,
        optional := Truthy(matches[7]) && matches[7].value[0] == '[',
        field := matches[8],
        defaultValue := JsOr(JsOr(matches[9], matches[10]), matches[11]),
        description := unindent(OrElse(matches[12], ""))));
    }

    /** `getGroup()`: the cell as it is now. */
    function GetGroup(): (g: string)
      reads this
      ensures g == group
    {
      group
    }

    /** `path()`: the parameter-sample prefix followed by the current group. */
    function Path(): (p: string)
      reads this
      ensures |p| == |ParamPrefix| + |group|
      ensures p[..|ParamPrefix|] == ParamPrefix && p[|ParamPrefix|..] == group
    {
      ParamPrefix + GetGroup()
    }
  }

  /** Lines 94-98 on a copy of the `exec` array: the line breaks put back in place. */
  method Restored(m: seq<Option<string>>) returns (matches: array<Option<string>>)
    ensures fresh(matches) && matches[..] == RevertAll(m)
  {
    matches := new Option<string>[|m|](i requires 0 <= i < |m| => m[i]);
    assert matches[..] == m;
    RevertInPlace(matches);
  }

  /** Lines 94-98 in place: every truthy entry of the array gets its line breaks back. */
  method RevertInPlace(a: array<Option<string>>)
    modifies a
    ensures a[..] == RevertAll(old(a[..]))
  {
    var i := 0;
    while i < a.Length
      invariant 0 <= i <= a.Length
      invariant forall k | 0 <= k < i :: a[k] == Revert(old(a[k]))
      invariant forall k | i <= k < a.Length :: a[k] == old(a[k])
    {
      if Truthy(a[i]) {
        a[i] := Some(Restore(a[i].value));
      }
      i := i + 1;
    }
  }

  // ---------------------------------------------------------------------------
  // The restored matches array

  /** Defined means non-empty. */
  predicate NonEmpty(v: Option<string>) {
    v.Some? ==> v.value != ""
  }

  /**
   * The restored array of a match of the anchored alternative: the field wrapper
   * and a well-formed field name are set; labels, types, allowed values and the
   * description are non-empty when defined; the input value comes only with an
   * input type, size and allowed values only with a type; at most one of the
   * default-value forms is set.
   */
  ghost predicate Reported(m: seq<Option<string>>)
  {
    |m| == 13 && m[7].Some? && m[8].Some? && IsFieldName(m[8].value)
    && NonEmpty(m[1]) && NonEmpty(m[2]) && NonEmpty(m[3]) && NonEmpty(m[4])
    && NonEmpty(m[5]) && NonEmpty(m[6]) && NonEmpty(m[12])
    && ShapedLinks(m)
  }

  /** A field name holds no sentinel, so restoring leaves it alone. */
  lemma FieldNameNoSentinel(t: string)
    requires IsFieldName(t)
    ensures Sentinel !in t
  {
    var k :| 1 <= k <= |t| && NameSplit(t, k);
    forall i | 0 <= i < |t| ensures t[i] != Sentinel {
      if i < k {
        assert In(NameChars, t[i]);
      } else if k < i < |t| - 1 {
        assert In(ArrayChars, t[i]);
      }
    }
  }

  /** Restoring keeps which captures are defined, their lengths and the field name. */
  lemma RevertReported(m: seq<Option<string>>)
    requires Shaped(m)
    ensures Reported(RevertAll(m))
  {
    var r := RevertAll(m);
    assert forall i | 0 <= i < 13 :: r[i] == Revert(m[i]);
    FieldNameNoSentinel(m[8].value);
  }

  /** Trimming keeps every `@`: only whitespace is cut off. */
  lemma AtInTrim(content: string)
    ensures '@' in Trim(content) <==> '@' in content
  {
    var t := Trim(content);
    var a := |content| - |TrimStart(content)|;
    AtInCore(content, a, a + |t|);
  }

  /** `@` is not whitespace, so cutting whitespace off both ends keeps it. */
  lemma AtInCore(s: string, a: nat, b: nat)
    requires a <= b <= |s|
    requires forall i | 0 <= i < a :: IsSpace(s[i])
    requires forall i | b <= i < |s| :: IsSpace(s[i])
    ensures '@' in s[a..b] <==> '@' in s
  {
    if '@' in s[a..b] {
      var j :| 0 <= j < b - a && s[a..b][j] == '@';
      assert s[a + j] == '@';
    }
    if '@' in s {
      var i :| 0 <= i < |s| && s[i] == '@';
      assert !IsSpace(s[i]);
      assert s[a..b][i - a] == '@';
    }
  }

  /** Hiding the line breaks keeps every `@`. */
  lemma AtInProtect(t: string)
    ensures '@' in Protect(t) <==> '@' in t
  {
    if '@' in t {
      var i :| 0 <= i < |t| && t[i] == '@';
      assert Protect(t)[i] == '@';
    }
    if '@' in Protect(t) {
      var i :| 0 <= i < |t| && Protect(t)[i] == '@';
      assert t[i] == '@';
    }
  }

  /** `@` survives trimming and line-break protection, and nothing else becomes one. */
  lemma AtSurvives(content: string)
    ensures '@' in Prepare(content) <==> '@' in content
  {
    AtInTrim(content);
    AtInProtect(Trim(content));
  }

  /** The `@`-only array has nothing to restore. */
  lemma RevertAtOnly()
    ensures RevertAll(AtOnly) == AtOnly
  {
    var r := RevertAll(AtOnly);
    assert Sentinel !in "@";
    forall i | 0 <= i < 13 ensures r[i] == AtOnly[i] {
      assert r[i] == Revert(AtOnly[i]);
    }
  }

  /**
   * Lines 88-91: `parse` gives up only when the anchored alternative fails and the
   * annotation has no `@`; with only an `@` every capture is undefined; otherwise
   * the restored array is that of a match of the anchored alternative.
   */
  lemma MatchesCases(content: string)
    ensures Matches(content).None? <==> MainMatches(Prepare(content)) == [] && '@' !in content
    ensures MainMatches(Prepare(content)) == [] && '@' in content ==> Matches(content) == Some(AtOnly)
    ensures MainMatches(Prepare(content)) != [] ==> Reported(Matches(content).value)
  {
    var s := Prepare(content);
    ExecCases(s);
    AtSurvives(content);
    if MainMatches(s) == [] && '@' in s {
      RevertAtOnly();
    }
    if MainMatches(s) != [] {
      RevertReported(Exec(s).value);
    }
  }

  /** A piece of the protected text, restored when truthy, is the same piece of the original. */
  lemma RevertSlice(t: string, a: nat, b: nat)
    requires Sentinel !in t
    ensures Revert(Some(Slice(Protect(t), a, b))) == Some(Slice(t, a, b))
  {
    if a <= b <= |t| {
      RestoreProtectSlice(t, a, b);
    }
  }

  /** Trimming introduces no character, in particular no sentinel. */
  lemma TrimNoSentinel(content: string)
    requires Sentinel !in content
    ensures Sentinel !in Trim(content)
  {
    var t := Trim(content);
    var a := |content| - |TrimStart(content)|;
    forall i | 0 <= i < |t| ensures t[i] != Sentinel {
      assert t[i] == content[a + i];
    }
  }

  /**
   * Restoring the captures taken from the protected text gives the captures of the
   * same way through the pattern taken from the original text.
   */
  lemma RevertTexts(t: string, x: St)
    requires Sentinel !in t
    ensures RevertAll(Texts(Protect(t), x)) == Texts(t, x)
  {
    var l := RevertAll(Texts(Protect(t), x));
    var r := Texts(t, x);
    forall n | 0 <= n < 13 ensures l[n] == r[n] {
      if n == 0 {
        RevertSlice(t, 0, x.pos);
      } else if n < |x.caps| && x.caps[n].Some? {
        RevertSlice(t, x.caps[n].value.start, x.caps[n].value.end);
      }
    }
  }

  /**
   * For an annotation without the sentinel, the restored captures are exactly the
   * pieces of the trimmed annotation that the groups matched, and the whole match
   * is the trimmed annotation: hiding the line breaks and giving them back changes
   * nothing, so multi-line values keep their line breaks.
   */
  lemma MatchesKeepLineBreaks(content: string)
    requires Sentinel !in content && MainMatches(Prepare(content)) != []
    ensures Matches(content) == Some(Texts(Trim(content), MainMatches(Prepare(content))[0]))
    ensures Matches(content).value[0] == Some(Trim(content))
  {
    var t := Trim(content);
    var x := MainMatches(Prepare(content))[0];
    ExecCases(Prepare(content));
    MainEnds(Prepare(content), x);
    TrimNoSentinel(content);
    RevertTexts(t, x);
    TextsWhole(t, x);
  }

  // ---------------------------------------------------------------------------
  // What parse returns

  /** Lines 88-91: `null` exactly when the anchored alternative fails and there is no `@`. */
  lemma ParseFails(content: string, defaultGroup: Option<string>, unindent: string -> string)
    ensures ParseSample(content, defaultGroup, unindent).None?
        <==> MainMatches(Prepare(content)) == [] && '@' !in content
  {
    MatchesCases(content);
  }

  /** The descriptor of an annotation that only the `@` alternative matches. */
  function AtDescriptor(defaultGroup: Option<string>, unindent: string -> string): Descriptor {
    Descriptor(OrElse(defaultGroup, "Parameter"), "text", None, None, None, None, false, None, None, unindent(""))
  }

  /**
   * Line 62: when the anchored alternative fails but the annotation holds an `@`,
   * `parse` still succeeds, with every capture-derived field undefined or defaulted.
   */
  lemma ParseAtOnly(content: string, defaultGroup: Option<string>, unindent: string -> string)
    requires MainMatches(Prepare(content)) == [] && '@' in content
    ensures ParseSample(content, defaultGroup, unindent) == Some(AtDescriptor(defaultGroup, unindent))
  {
    MatchesCases(content);
  }

  /**
   * A bare field name parses: the field is the whole annotation and every other
   * entry takes its default (the group from `defaultGroup` or `Parameter`, the
   * input type `text`, `optional` false, the description `unindent("")`).
   */
  lemma ParseBareName(content: string, defaultGroup: Option<string>, unindent: string -> string)
    requires IsBareName(content)
    ensures ParseSample(content, defaultGroup, unindent)
      == Some(Descriptor(OrElse(defaultGroup, "Parameter"), "text", None, None, None, None, false,
                         Some(content), None, unindent("")))
  {
    NameCharPlain(content[0]);
    BareMatches(content);
    BareDescribe(content, defaultGroup, unindent);
  }

  /** The descriptor built from the `matches` array of a bare field name. */
  lemma BareDescribe(content: string, defaultGroup: Option<string>, unindent: string -> string)
    requires content != ""
    ensures Describe([Some(content), None, None, None, None, None, None, Some(content), Some(content), None, None, None, None],
                     defaultGroup, unindent)
      == Descriptor(OrElse(defaultGroup, "Parameter"), "text", None, None, None, None, content[0] == '[',
                    Some(content), None, unindent(""))
  {
  }

  /** The restored `matches` array of a bare field name. */
  lemma BareMatches(content: string)
    requires IsBareName(content)
    ensures Matches(content) == Some([Some(content), None, None, None, None, None, None, Some(content), Some(content), None, None, None, None])
  {
    var m := [Some(content), None, None, None, None, None, None, Some(content), Some(content), None, None, None, None];
    BareExecMatches(content);
    BareRestored(content, m);
  }

  lemma BareExecMatches(content: string)
    requires IsBareName(content)
    ensures Sentinel !in content
    ensures Matches(content) == Some(RevertAll([Some(content), None, None, None, None, None, None, Some(content), Some(content), None, None, None, None]))
  {
    BarePrepared(content);
    BareNameExec(content);
  }

  lemma BareRestored(content: string, m: seq<Option<string>>)
    requires Sentinel !in content
    requires m == [Some(content), None, None, None, None, None, None, Some(content), Some(content), None, None, None, None]
    ensures RevertAll(m) == m
  {
    forall n | 0 <= n < 13 && m[n].Some? ensures Sentinel !in m[n].value {
      assert m[n] == Some(content);
    }
    RevertPlain(m);
  }

  /** Restoring an array that holds no sentinel changes nothing. */
  lemma RevertPlain(m: seq<Option<string>>)
    requires forall n | 0 <= n < |m| && m[n].Some? :: Sentinel !in m[n].value
    ensures RevertAll(m) == m
  {
    forall n | 0 <= n < |m| ensures RevertAll(m)[n] == m[n] {
      assert RevertAll(m)[n] == Revert(m[n]);
    }
  }

  /** Trimming and hiding line breaks leave a bare field name as it is. */
  lemma BarePrepared(content: string)
    requires IsBareName(content)
    ensures Prepare(content) == content && Sentinel !in content
  {
    NameCharPlain(content[0]);
    NameCharPlain(content[|content| - 1]);
    TrimNoop(content);
    forall i | 0 <= i < |content| ensures Protect(content)[i] == content[i] && content[i] != Sentinel {
      NameCharPlain(content[i]);
    }
    assert Protect(content) == content;
  }

  /** An instance: `@apiParam id` in a block whose default group is `User`. */
  lemma ParseIdExample(unindent: string -> string)
    ensures ParseSample("id", Some("User"), unindent)
      == Some(Descriptor("User", "text", None, None, None, None, false, Some("id"), None, unindent("")))
  {
    ParseBareName("id", Some("User"), unindent);
  }

  /**
   * A group label, a type and a field name: `(g) {t} n` parses to the label as
   * the group (whatever the default group), the type name and the field, with
   * the defaults for everything else.
   */
  lemma ParseTagged(g: string, t: string, n: string, defaultGroup: Option<string>, unindent: string -> string)
    requires g != [] && Sentinel !in g && forall i | 0 <= i < |g| :: LabelChar(g[i])
    requires t != [] && forall i | 0 <= i < |t| :: In(TypeChars, t[i])
    requires IsBareName(n)
    ensures ParseSample("(" + g + ") {" + t + "} " + n, defaultGroup, unindent)
      == Some(Descriptor(g, "text", None, Some(t), None, None, false, Some(n), None, unindent("")))
  {
    var s := "(" + g + ") {" + t + "} " + n;
    TaggedSlices(g, t, n);
    TaggedMatches(s, g, t, n);
    NameCharPlain(n[0]);
    TaggedDescribe(s, g, t, n, defaultGroup, unindent);
  }

  /** The descriptor built from the `matches` array of `(g) {t} n`. */
  lemma TaggedDescribe(s: string, g: string, t: string, n: string, defaultGroup: Option<string>, unindent: string -> string)
    requires g != "" && n != ""
    ensures Describe([Some(s), Some(g), None, None, Some(t), None, None, Some(n), Some(n), None, None, None, None],
                     defaultGroup, unindent)
      == Descriptor(g, "text", None, Some(t), None, None, n[0] == '[', Some(n), None, unindent(""))
  {
  }

  /** The restored `matches` array of a text laid out as `(g) {t} n`. */
  lemma TaggedMatches(s: string, g: string, t: string, n: string)
    requires g != [] && Sentinel !in g && forall i | 0 <= i < |g| :: LabelChar(g[i])
    requires t != [] && forall i | 0 <= i < |t| :: In(TypeChars, t[i])
    requires IsBareName(n)
    requires TaggedLayout(s, g, t, n)
    ensures Matches(s) == Some([Some(s), Some(g), None, None, Some(t), None, None, Some(n), Some(n), None, None, None, None])
  {
    var m := [Some(s), Some(g), None, None, Some(t), None, None, Some(n), Some(n), None, None, None, None];
    TaggedLayoutExec(s, g, t, n);
    TaggedPlain(s, g, t, n);
    NameCharPlain(n[|n| - 1]);
    PlainPrepared(s);
    TaggedRestored(s, g, t, n, m);
  }

  /** Trimming and hiding line breaks leave a text alone when its ends are not whitespace and it holds no line break or sentinel. */
  lemma PlainPrepared(s: string)
    requires s != [] && !IsSpace(s[0]) && !IsSpace(s[|s| - 1])
    requires forall i | 0 <= i < |s| :: s[i] != '\n' && s[i] != Sentinel
    ensures Prepare(s) == s && Sentinel !in s
  {
    TrimNoop(s);
    assert Protect(s) == s;
  }

  /** No character of a text laid out as `(g) {t} n` is a line break or the sentinel. */
  lemma TaggedPlain(s: string, g: string, t: string, n: string)
    requires Sentinel !in g && forall i | 0 <= i < |g| :: LabelChar(g[i])
    requires forall i | 0 <= i < |t| :: In(TypeChars, t[i])
    requires IsBareName(n)
    requires TaggedLayout(s, g, t, n)
    ensures forall i | 0 <= i < |s| :: s[i] != '\n' && s[i] != Sentinel
  {
    var q := |g| + 1;
    var u := q + 3 + |t|;
    forall i | 0 <= i < |s| ensures s[i] != '\n' && s[i] != Sentinel {
      if 1 <= i < q {
        assert s[i] == g[i - 1];
      } else if q + 3 <= i < u {
        assert s[i] == t[i - q - 3];
        TypeCharPlain(t[i - q - 3]);
      } else if u + 2 <= i {
        assert s[i] == n[i - u - 2];
        NameCharPlain(n[i - u - 2]);
      }
    }
  }

  /** Restoring the `matches` array of `(g) {t} n` changes nothing: none of its captures holds the sentinel. */
  lemma TaggedRestored(s: string, g: string, t: string, n: string, m: seq<Option<string>>)
    requires Sentinel !in s && TaggedLayout(s, g, t, n)
    requires m == [Some(s), Some(g), None, None, Some(t), None, None, Some(n), Some(n), None, None, None, None]
    ensures RevertAll(m) == m
  {
    var q := |g| + 1;
    var u := q + 3 + |t|;
    assert g == s[1..q] && t == s[q + 3..u] && n == s[u + 2..];
    forall k | 0 <= k < 13 && m[k].Some? ensures Sentinel !in m[k].value {
      assert m[k] == Some(s) || m[k] == Some(s[1..q]) || m[k] == Some(s[q + 3..u]) || m[k] == Some(s[u + 2..]);
    }
    RevertPlain(m);
  }

  /** An instance: `@apiParam (Login) {String} name` in a block whose default group is `User`. */
  lemma ParseLoginExample(unindent: string -> string)
    ensures ParseSample("(Login) {String} name", Some("User"), unindent)
      == Some(Descriptor("Login", "text", None, Some("String"), None, None, false, Some("name"), None, unindent("")))
  {
    var s := "(" + "Login" + ") {" + "String" + "} " + "name";
    assert s == "(Login) {String} name" by {
      assert s == "(Login) {" + ("String" + "} name");
    }
    assert IsBareName("name");
    ParseTagged("Login", "String", "name", Some("User"), unindent);
  }

  /**
   * A type with allowed values and a field name: `{t=v} n` parses to the type
   * name, the allowed values `v` split by the rule its first character picks,
   * and the field, with the defaults for everything else.
   */
  lemma ParseValued(t: string, v: string, n: string, defaultGroup: Option<string>, unindent: string -> string)
    requires t != [] && forall i | 0 <= i < |t| :: In(TypeChars, t[i])
    requires v != [] && Sentinel !in v && forall i | 0 <= i < |v| :: In(ValueChars, v[i])
    requires IsBareName(n)
    ensures ParseSample("{" + t + "=" + v + "} " + n, defaultGroup, unindent)
      == Some(Descriptor(OrElse(defaultGroup, "Parameter"), "text", None, Some(t), None, Some(Tokens(RuleFor(v), v)),
                         false, Some(n), None, unindent("")))
  {
    var s := "{" + t + "=" + v + "} " + n;
    ValuedSlices(t, v, n);
    ValuedMatches(s, t, v, n);
    NameCharPlain(n[0]);
    ValuedDescribe(s, t, v, n, defaultGroup, unindent);
  }

  /** The descriptor built from the `matches` array of `{t=v} n`. */
  lemma ValuedDescribe(s: string, t: string, v: string, n: string, defaultGroup: Option<string>, unindent: string -> string)
    requires v != "" && n != ""
    ensures Describe([Some(s), None, None, None, Some(t), None, Some(v), Some(n), Some(n), None, None, None, None],
                     defaultGroup, unindent)
      == Descriptor(OrElse(defaultGroup, "Parameter"), "text", None, Some(t), None, Some(Tokens(RuleFor(v), v)),
                    n[0] == '[', Some(n), None, unindent(""))
  {
  }

  /** The restored `matches` array of a text laid out as `{t=v} n`. */
  lemma ValuedMatches(s: string, t: string, v: string, n: string)
    requires t != [] && forall i | 0 <= i < |t| :: In(TypeChars, t[i])
    requires v != [] && Sentinel !in v && forall i | 0 <= i < |v| :: In(ValueChars, v[i])
    requires IsBareName(n)
    requires ValuedLayout(s, t, v, n)
    ensures Matches(s) == Some([Some(s), None, None, None, Some(t), None, Some(v), Some(n), Some(n), None, None, None, None])
  {
    var m := [Some(s), None, None, None, Some(t), None, Some(v), Some(n), Some(n), None, None, None, None];
    ValuedLayoutExec(s, t, v, n);
    ValuedPlain(s, t, v, n);
    NameCharPlain(n[|n| - 1]);
    PlainPrepared(s);
    ValuedRestored(s, t, v, n, m);
  }

  /** No character of a text laid out as `{t=v} n` is a line break or the sentinel. */
  lemma ValuedPlain(s: string, t: string, v: string, n: string)
    requires forall i | 0 <= i < |t| :: In(TypeChars, t[i])
    requires Sentinel !in v && forall i | 0 <= i < |v| :: In(ValueChars, v[i])
    requires IsBareName(n)
    requires ValuedLayout(s, t, v, n)
    ensures forall i | 0 <= i < |s| :: s[i] != '\n' && s[i] != Sentinel
  {
    var u := |t| + 1;
    var w := u + 1 + |v|;
    forall i | 0 <= i < |s| ensures s[i] != '\n' && s[i] != Sentinel {
      if 1 <= i < u {
        assert s[i] == t[i - 1];
        TypeCharPlain(t[i - 1]);
      } else if u + 1 <= i < w {
        assert s[i] == v[i - u - 1];
        assert v[i - u - 1] in v;
      } else if w + 2 <= i {
        assert s[i] == n[i - w - 2];
        NameCharPlain(n[i - w - 2]);
      }
    }
  }

  /** Restoring the `matches` array of `{t=v} n` changes nothing: none of its captures holds the sentinel. */
  lemma ValuedRestored(s: string, t: string, v: string, n: string, m: seq<Option<string>>)
    requires Sentinel !in s && ValuedLayout(s, t, v, n)
    requires m == [Some(s), None, None, None, Some(t), None, Some(v), Some(n), Some(n), None, None, None, None]
    ensures RevertAll(m) == m
  {
    var u := |t| + 1;
    var w := u + 1 + |v|;
    assert t == s[1..u] && v == s[u + 1..w] && n == s[w + 2..];
    forall k | 0 <= k < 13 && m[k].Some? ensures Sentinel !in m[k].value {
      assert m[k] == Some(s) || m[k] == Some(s[1..u]) || m[k] == Some(s[u + 1..w]) || m[k] == Some(s[w + 2..]);
    }
    RevertPlain(m);
  }

  /**
   * An instance: `@apiParam {string="abc","def"} name` in a block whose default
   * group is `User`. The pattern cuts out `"abc","def"` and the double-quote rule
   * splits it into `"abc"` and `"def"`, quotes kept.
   */
  lemma ParseValuesExample(unindent: string -> string)
    ensures ParseSample("{string=\"abc\",\"def\"} name", Some("User"), unindent)
      == Some(Descriptor("User", "text", None, Some("string"), None, Some(["\"abc\"", "\"def\""]),
                         false, Some("name"), None, unindent("")))
  {
    var v := "\"abc\",\"def\"";
    var s := "{" + "string" + "=" + v + "} " + "name";
    assert s == "{string=\"abc\",\"def\"} name" by {
      assert s == "{string=" + (v + "} name");
    }
    ValuesExampleParsed(v, unindent);
  }

  /** The instance above, with its allowed values as a parameter. */
  lemma ValuesExampleParsed(v: string, unindent: string -> string)
    requires v == "\"abc\",\"def\""
    ensures ParseSample("{" + "string" + "=" + v + "} " + "name", Some("User"), unindent)
      == Some(Descriptor("User", "text", None, Some("string"), None, Some(["\"abc\"", "\"def\""]),
                         false, Some("name"), None, unindent("")))
  {
    ValuesExampleChars(v);
    assert IsBareName("name");
    ParseValued("string", v, "name", Some("User"), unindent);
    QuotedExampleTokens(v);
  }

  /** `"abc","def"` is a list of allowed values opened by a double quote. */
  lemma ValuesExampleChars(v: string)
    requires v == "\"abc\",\"def\""
    ensures v != [] && v[0] == '"' && Sentinel !in v && forall i | 0 <= i < |v| :: In(ValueChars, v[i])
  {
  }

  /**
   * The field is set exactly when the anchored alternative matched, and it is then a
   * well-formed field name.
   */
  lemma ParseField(content: string, defaultGroup: Option<string>, unindent: string -> string)
    requires ParseSample(content, defaultGroup, unindent).Some?
    ensures var d := ParseSample(content, defaultGroup, unindent).value;
      (d.field.Some? <==> MainMatches(Prepare(content)) != [])
      && (d.field.Some? ==> IsFieldName(d.field.value))
  {
    MatchesCases(content);
  }

  /** Line 120: capture 1, else a truthy default group, else `Parameter`. */
  lemma ParseGroup(content: string, defaultGroup: Option<string>, unindent: string -> string)
    requires ParseSample(content, defaultGroup, unindent).Some?
    ensures var m := Matches(content).value; var d := ParseSample(content, defaultGroup, unindent).value;
      d.group == (if m[1].Some? then m[1].value
                  else if Truthy(defaultGroup) then defaultGroup.value
                  else "Parameter")
  {
    MatchesCases(content);
  }

  /** Lines 124-125: capture 2 or `text`; an input value comes only with an input type. */
  lemma ParseInputType(content: string, defaultGroup: Option<string>, unindent: string -> string)
    requires ParseSample(content, defaultGroup, unindent).Some?
    ensures var m := Matches(content).value; var d := ParseSample(content, defaultGroup, unindent).value;
      d.inputType == (if m[2].Some? then m[2].value else "text")
      && (d.inputValue.Some? ==> m[2].Some? && d.inputType == m[2].value)
  {
    MatchesCases(content);
  }

  /**
   * Lines 100-117: allowed values are tokenized exactly when capture 6 is defined,
   * with the rule its first character picks; they and the size come only with a
   * type.
   */
  lemma ParseAllowedValues(content: string, defaultGroup: Option<string>, unindent: string -> string)
    requires ParseSample(content, defaultGroup, unindent).Some?
    ensures var m := Matches(content).value; var d := ParseSample(content, defaultGroup, unindent).value;
      (d.allowedValues.Some? <==> m[6].Some?)
      && (m[6].Some? ==> d.allowedValues == Some(Tokens(RuleFor(m[6].value), m[6].value)))
      && (d.allowedValues.Some? ==> d.typeName.Some?)
      && (d.size.Some? ==> d.typeName.Some?)
  {
    MatchesCases(content);
  }

  /** Line 129: optional exactly when capture 7 starts with `[`, which needs a field. */
  lemma ParseOptional(content: string, defaultGroup: Option<string>, unindent: string -> string)
    requires ParseSample(content, defaultGroup, unindent).Some?
    ensures var m := Matches(content).value; var d := ParseSample(content, defaultGroup, unindent).value;
      (d.optional <==> m[7].Some? && m[7].value != "" && m[7].value[0] == '[')
      && (d.optional ==> d.field.Some?)
  {
    MatchesCases(content);
  }

  /**
   * Line 131: at most one default-value form is captured, and the default is its
   * text, except that an empty quoted default (`[name=""]`, `[name='']`) gives no
   * default while an empty bare one (`[name=]`) gives the empty string.
   */
  lemma ParseDefaultValue(content: string, defaultGroup: Option<string>, unindent: string -> string)
    requires ParseSample(content, defaultGroup, unindent).Some?
    ensures var m := Matches(content).value; var d := ParseSample(content, defaultGroup, unindent).value;
      (m[9].Some? ==> d.defaultValue == (if m[9].value == "" then None else m[9]))
      && (m[10].Some? ==> d.defaultValue == (if m[10].value == "" then None else m[10]))
      && (m[11].Some? ==> d.defaultValue == m[11])
      && (m[9].None? && m[10].None? && m[11].None? ==> d.defaultValue.None?)
  {
    MatchesCases(content);
  }

  /** Line 132: the unindented description, or the unindented empty string. */
  lemma ParseDescription(content: string, defaultGroup: Option<string>, unindent: string -> string)
    requires ParseSample(content, defaultGroup, unindent).Some?
    ensures var m := Matches(content).value; var d := ParseSample(content, defaultGroup, unindent).value;
      d.description == unindent(if m[12].Some? then m[12].value else "")
  {
    MatchesCases(content);
  }

  // ---------------------------------------------------------------------------
  // The documented example

  /** The annotation of line 8. */
  const ExampleText: string := "<text=John Doe> {String{1..4}} [user.name='John Doe'] Users fullname."

  /**
   * The `exec` array the pattern reports for the example; the example has no line
   * break, so restoring leaves it alone.
   */
  const ExampleMatches: seq<Option<string>> := [
    Some(ExampleText), None, Some("text"), Some("John Doe"), Some("String"), Some("1..4"), None,
    Some("[user.name='John Doe'] "), Some("user.name"), None, Some("John Doe"), None, Some("Users fullname.")]

  /**
   * Post-processing the example's array: no group label, so `Parameter`; optional,
   * because the field wrapper starts with `[`; the single-quoted default.
   */
  lemma ExampleDescribe(unindent: string -> string)
    ensures Describe(ExampleMatches, None, unindent)
      == Descriptor("Parameter", "text", Some("John Doe"), Some("String"), Some("1..4"), None,
                    true, Some("user.name"), Some("John Doe"), unindent("Users fullname."))
  {
  }
}
