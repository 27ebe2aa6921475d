/**
 * The header-sample parser of parser/api_header_sample.js: a `parse` that is the
 * parameter-sample `parse` with the default group `Header`, and a `path` with its
 * own prefix over the same `group` cell, which belongs to the parameter-sample
 * module and is read through its `getGroup`.
 */
module ApiHeaderSample {
  import opened Wrappers
  import opened ApiParamSample

  const HeaderPrefix: string := "local.header.samples."

  /** The default group the header parser passes (line 5). */
  const HeaderGroup: string := "Header"

  /**
   * `parse(content, source)`: the parameter-sample parse with the default group
   * `Header`, writing the shared cell on success and leaving it alone on failure.
   */
  method Parse(p: SampleParser, content: string) returns (r: Option<Descriptor>)
    modifies p
    ensures r == ParseSample(content, Some(HeaderGroup), p.unindent)
    ensures r.None? ==> p.group == old(p.group)
    ensures r.Some? ==> p.group == r.value.group
  {
    r := p.Parse(content, Some(HeaderGroup));
  }

  /** `path()`: the header prefix followed by the shared group as it is now. */
  function Path(p: SampleParser): (r: string)
    reads p
    ensures |r| == |HeaderPrefix| + |p.group|
    ensures r[..|HeaderPrefix|] == HeaderPrefix && r[|HeaderPrefix|..] == p.group
  {
    HeaderPrefix + p.GetGroup()
  }

  /** A header annotation without a group label is filed under `Header`. */
  lemma HeaderGroupDefault(content: string, unindent: string -> string)
    requires ParseSample(content, Some(HeaderGroup), unindent).Some?
    ensures var m := Matches(content).value; var d := ParseSample(content, Some(HeaderGroup), unindent).value;
      d.group == (if m[1].Some? then m[1].value else HeaderGroup)
  {
    ParseGroup(content, Some(HeaderGroup), unindent);
  }

  /**
   * Both paths end in the one shared cell: whatever group the last successful parse
   * of either kind recorded, both `path` functions report it.
   */
  lemma PathsShareGroup(p: SampleParser)
    ensures Path(p)[|HeaderPrefix|..] == p.Path()[|ParamPrefix|..] == p.GetGroup()
  {
  }

  /**
   * A parameter `parse` followed by the header `path()`: after a successful parse
   * the header path names the group that parse recorded; after a failed one it
   * names the group recorded before.
   */
  method ParamParseThenHeaderPath(p: SampleParser, content: string, defaultGroup: Option<string>)
    returns (r: Option<Descriptor>, path: string)
    modifies p
    ensures r == ParseSample(content, defaultGroup, p.unindent)
    ensures r.Some? ==> path == HeaderPrefix + r.value.group
    ensures r.None? ==> path == HeaderPrefix + old(p.group)
  {
    r := p.Parse(content, defaultGroup);
    path := Path(p);
  }

  /**
   * A header `parse` followed by the parameter `path()`: after a successful parse
   * the parameter path names the group that parse recorded, `Header` when the
   * annotation has no group label.
   */
  method HeaderParseThenParamPath(p: SampleParser, content: string)
    returns (r: Option<Descriptor>, path: string)
    modifies p
    ensures r == ParseSample(content, Some(HeaderGroup), p.unindent)
    ensures r.Some? ==> path == ParamPrefix + r.value.group
    ensures r.None? ==> path == ParamPrefix + old(p.group)
  {
    r := Parse(p, content);
    path := p.Path();
  }
}
