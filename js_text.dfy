/**
 * The character classes and string helpers of the JavaScript runtime that the
 * parameter-sample parser relies on: `\s`, `.`, the collaborator `trim`, and the
 * line-break sentinel substitution of parser/api_param_sample.js.
 * Characters are modelled as Unicode scalar values (JavaScript's UTF-16 code
 * units and surrogate pairs are not modelled).
 */
module JsText {

  /** JavaScript's LineTerminator code points: the characters `.` does not match. */
  predicate IsLineTerminator(c: char) {
    c == '\n' || c == '\r' || c == '\U{2028}' || c == '\U{2029}'
  }

  /** JavaScript's `\s`: WhiteSpace (including the Unicode space separators) and LineTerminator. */
  predicate IsSpace(c: char) {
    || c == '\t' || c == '\U{B}' || c == '\U{C}' || c == ' ' || c == '\U{A0}'
    || c == '\U{1680}' || ('\U{2000}' <= c <= '\U{200A}') || c == '\U{202F}'
    || c == '\U{205F}' || c == '\U{3000}' || c == '\U{FEFF}'
    || IsLineTerminator(c)
  }

  /** The regular-expression atom `.` (no `s` flag): anything but a line terminator. */
  predicate IsDot(c: char) {
    !IsLineTerminator(c)
  }

  /** The private code point that stands in for `\n` while the pattern is matched. */
  const Sentinel: char := '\U{FFFF}'

  /** Every occurrence of `a` replaced by `b`, as `s.replace(/a/g, b)` does for one character. */
  function ReplaceChar(s: string, a: char, b: char): (r: string)
    ensures |r| == |s|
    ensures forall i :: 0 <= i < |s| ==> r[i] == (if s[i] == a then b else s[i])
  {
    if s == [] then [] else [if s[0] == a then b else s[0]] + ReplaceChar(s[1..], a, b)
  }

  /** `content.replace(/\n/g, '￿')`: line breaks hidden from the line-oriented pattern. */
  function Protect(s: string): (r: string)
    ensures |r| == |s| && '\n' !in r
    ensures forall i :: 0 <= i < |s| ==> r[i] == (if s[i] == '\n' then Sentinel else s[i])
  {
    ReplaceChar(s, '\n', Sentinel)
  }

  /** `val.replace(/￿/g, '\n')`: the sentinel turned back into a line break. */
  function Restore(s: string): (r: string)
    ensures |r| == |s| && Sentinel !in r
    ensures forall i :: 0 <= i < |s| ==> r[i] == (if s[i] == Sentinel then '\n' else s[i])
  {
    ReplaceChar(s, Sentinel, '\n')
  }

  /** For text without the sentinel, protecting and then restoring gives the text back. */
  lemma RestoreProtect(s: string)
    requires Sentinel !in s
    ensures Restore(Protect(s)) == s
  {
    var r := Restore(Protect(s));
    assert |r| == |s|;
    forall i | 0 <= i < |s| ensures r[i] == s[i] {
      assert s[i] != Sentinel;
    }
  }

  /** Text without the sentinel is left alone by the restoring substitution. */
  lemma RestoreUnchanged(s: string)
    ensures Sentinel !in s ==> Restore(s) == s
  {
    if Sentinel !in s {
      forall i | 0 <= i < |s| ensures Restore(s)[i] == s[i] {
        assert s[i] in s;
      }
    }
  }

  /**
   * Restoring any piece of the protected text gives the same piece of the original
   * text: each capture gets its line breaks back, and nothing else changes.
   */
  lemma RestoreProtectSlice(s: string, a: nat, b: nat)
    requires a <= b <= |s| && Sentinel !in s
    ensures Restore(Protect(s)[a..b]) == s[a..b]
  {
    var r := Restore(Protect(s)[a..b]);
    forall i | 0 <= i < b - a ensures r[i] == s[a..b][i] {
      assert s[a + i] in s;
    }
  }

  /** The text left after dropping the leading `\s` characters. */
  function TrimStart(s: string): (r: string)
    ensures |r| <= |s| && r == s[|s| - |r|..]
    ensures forall i :: 0 <= i < |s| - |r| ==> IsSpace(s[i])
    ensures r == [] || !IsSpace(r[0])
  {
    if s != [] && IsSpace(s[0]) then TrimStart(s[1..]) else s
  }

  /** The text left after dropping the trailing `\s` characters. */
  function TrimEnd(s: string): (r: string)
    ensures |r| <= |s| && r == s[..|r|]
    ensures forall i :: |r| <= i < |s| ==> IsSpace(s[i])
    ensures r == [] || !IsSpace(r[|r| - 1])
  {
    if s != [] && IsSpace(s[|s| - 1]) then TrimEnd(s[..|s| - 1]) else s
  }

  /**
   * The collaborator `trim`: leading and trailing whitespace removed. The result is
   * one contiguous piece of the input, everything cut off is whitespace, and the
   * result neither starts nor ends with whitespace.
   */
  function Trim(s: string): (r: string)
    ensures |r| <= |TrimStart(s)| <= |s|
    ensures var a := |s| - |TrimStart(s)|; r == s[a..a + |r|]
    ensures var a := |s| - |TrimStart(s)|;
      (forall i :: 0 <= i < a ==> IsSpace(s[i])) && (forall i :: a + |r| <= i < |s| ==> IsSpace(s[i]))
    ensures r == [] || (!IsSpace(r[0]) && !IsSpace(r[|r| - 1]))
  {
    TrimPiece(s, TrimStart(s), TrimEnd(TrimStart(s)));
    TrimEnd(TrimStart(s))
  }

  /** Cutting `r` from the front of `t`, itself a suffix of `s`, leaves a piece of `s`. */
  lemma TrimPiece(s: string, t: string, r: string)
    requires |t| <= |s| && t == s[|s| - |t|..]
    requires |r| <= |t| && r == t[..|r|]
    requires forall i :: |r| <= i < |t| ==> IsSpace(t[i])
    ensures var a := |s| - |t|; r == s[a..a + |r|]
    ensures forall i :: |s| - |t| + |r| <= i < |s| ==> IsSpace(s[i])
  {
    var a := |s| - |t|;
    forall i | a + |r| <= i < |s|
      ensures IsSpace(s[i])
    {
      assert s[i] == t[i - a];
    }
  }

  /** Text that already has no surrounding whitespace is left alone by `trim`. */
  lemma TrimNoop(s: string)
    requires s == [] || (!IsSpace(s[0]) && !IsSpace(s[|s| - 1]))
    ensures Trim(s) == s
  {
    assert TrimStart(s) == s;
    assert TrimEnd(s) == s;
  }
}
