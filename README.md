# apidoc parameter-sample parser, modelled in Dafny

This project models the parameter-sample annotation
parser of apidoc (`parser/api_param_sample.js`) and its header variant
(`parser/api_header_sample.js`), and proves what the parser promises.

The parser turns an annotation such as
`<text=John Doe> {String{1..4}} [user.name='John Doe'] Users fullname.` into a
descriptor record. It works in these steps:

1. It trims the text and replaces every line break by the sentinel U+FFFF.
2. It runs one composed regular expression. That expression is flattened from a
   nested object of pattern fragments.
3. It gives every truthy capture its line breaks back.
4. It tokenizes the allowed-values capture with one of three global regular
   expressions, chosen by the capture's first character.
5. It applies the JavaScript `||` defaults.
6. It records the group in a module-level cell, which both parsers' `path`
   functions read.

Modules:

- `PatternTree` (`pattern_tree.dfy`): the pattern object as a tree of entries.
  `_objectValuesToString` is a recursive `Flatten`, proved to join every leaf
  once, depth first, in key order. The tree flattens to the source text of the
  pattern.
- `Matching` (`matching.dfy`): the regular-expression constructs the pattern
  uses, as a syntax tree `Re`. `Run` lists every way a pattern can go on from a
  search state, in JavaScript's backtracking order (ECMAScript 2015, section
  21.2.2). The head of that list is the match `exec` reports. Static analyses
  come with soundness lemmas proved by induction over `Re`. They cover which
  registers a pattern writes or must set, where it ends, which group owns a
  register, at most one register of a set, and one register only with another.
- `ParamPattern` (`param_pattern.dfy`): the composed pattern, built segment by
  segment in the nesting of the pattern object. It also holds `exec` with the
  top-level `$|@` alternation, and the shape of every match: which captures are
  set, what characters they hold, and which depend on which.
- `AllowedValues` (`allowed_values.dfy`): the three tokenizer rules, one `exec`
  call of a global expression (`Find`, leftmost match from `lastIndex`), and the
  `while` loop as a method (`CollectTokens`) proved against `Tokens`.
- `ApiParamSample` (`api_param_sample.dfy`): `parse` as a pure function
  `ParseSample`. The class `SampleParser` holds the `group` cell. Its `Parse`
  method copies the capture array and rewrites it in place (`Restored`,
  `RevertInPlace`); `Report` then runs the token loop, updates the cell and
  builds the descriptor. `Path` and `GetGroup` read the cell.
- `ApiHeaderSample` (`api_header_sample.dfy`): the header `parse` and `path`
  over the same `SampleParser` object.
- `JsText` (`js_text.dfy`): JavaScript's `\s` and `.`, the collaborator `trim`,
  and the sentinel substitution.
- `Wrappers` (`wrappers.dfy`): `Option`.

The model follows the code on these points, which are easy to misread:

- The pattern ends in `$|@`, a top-level alternation. So `parse` does not fail
  just because the grammar fails. It fails only when the text also has no `@`.
  Otherwise it returns a descriptor whose capture-derived fields are undefined.
- Quoted allowed values keep their quotes. `{string="abc","def"}` gives the
  tokens `"abc"` and `"def"`, quote characters included.
- The default value is the first *truthy* capture of 9, 10 and 11, not the first
  defined one. So `[name=""]` gives no default, while `[name=]` gives the empty
  string.
- An empty description becomes `unindent("")`, whatever `unindent` makes of it.

## Model

| member | source | states |
|---|---|---|
| PatternTree.Flatten | parser/api_param_sample.js:65-74 | definition of `_objectValuesToString` over the entries of the pattern object; characterised by `FlattenLeaves`, `FlattenLength` and `ConcatPiece` |
| PatternTree.FlattenLeaves | parser/api_param_sample.js:65-74 | flattening the pattern object gives the concatenation of its string leaves, depth first, in key order |
| PatternTree.FlattenLength | parser/api_param_sample.js:65-74 | the flattened text is as long as all leaves together |
| PatternTree.ConcatPiece | parser/api_param_sample.js:65-74 | each leaf appears whole, once, right after the leaves before it |
| PatternTree.RegExpFlattens | parser/api_param_sample.js:16-76 | worked example of `Flatten`: the pattern object flattens to the source text of `parseRegExp` |
| PatternTree.GroupFlattens | parser/api_param_sample.js:18-22 | a step of `RegExpFlattens`: `oGroup` flattens to its three fragments in order |
| PatternTree.SampleFieldFlattens | parser/api_param_sample.js:23-32 | a step of `RegExpFlattens`: `oSampleField`, with the nested `oInputValue`, flattens in order |
| PatternTree.TypeFlattens | parser/api_param_sample.js:33-47 | a step of `RegExpFlattens`: `oType`, with the nested `oSize` and `oAllowedValues`, flattens in order |
| PatternTree.NameFlattens | parser/api_param_sample.js:48-60 | a step of `RegExpFlattens`: `wName`, with the nested `oDefaultValue`, flattens in order |
| JsText.Protect | parser/api_param_sample.js:86 | every `\n` becomes U+FFFF, and no other character changes |
| JsText.Restore | parser/api_param_sample.js:96 | every U+FFFF becomes `\n`, and no other character changes |
| JsText.RestoreProtect | parser/api_param_sample.js:86-96 | for text without U+FFFF, protecting then restoring is the identity |
| JsText.RestoreProtectSlice | parser/api_param_sample.js:94-98 | restoring any piece of the protected text gives the same piece of the original |
| JsText.RestoreUnchanged | parser/api_param_sample.js:94-98 | restoring leaves text without U+FFFF unchanged |
| JsText.Trim | parser/api_param_sample.js:83 | the trimmed text is one contiguous piece of the input; all that is cut off is whitespace; it neither starts nor ends with whitespace |
| JsText.TrimNoop | parser/api_param_sample.js:83 | trimming text with no surrounding whitespace changes nothing |
| Matching.Run | parser/api_param_sample.js:88 | definition: every way a pattern goes on from a search state, in backtracking order, the head being the match `exec` reports; characterised by `RunFrame`, `RunMust`, `RunAtEnd`, `RunRecognized`, `RunAtMostOne`, `RunGuarded` and `GreedyFirst` |
| Matching.GreedyFirst | parser/api_param_sample.js:88 | a greedy repetition succeeds iff the maximal run is long enough, and its first way ends at the end of that run |
| Matching.RepIn | parser/api_param_sample.js:88 | every way through a repetition keeps the captures and consumes only characters of its class, at least its minimum |
| Matching.RunFrame | parser/api_param_sample.js:88 | every way through a pattern stays in the text, consumes at least its minimum length, and changes only the registers it writes |
| Matching.RunMust | parser/api_param_sample.js:88 | every way through a pattern sets the registers every path of it sets |
| Matching.RunAtEnd | parser/api_param_sample.js:88 | a pattern that ends in `$` only ends at the end of the text |
| Matching.RunRecognized | parser/api_param_sample.js:88 | a register kept by a pattern holds a piece its own group's body matches |
| Matching.RunAtMostOne | parser/api_param_sample.js:88 | a pattern whose alternatives each write one register of a set changes at most one of them |
| Matching.RunGuarded | parser/api_param_sample.js:88 | a register set only together with another stays paired with it |
| ParamPattern.MainMatches | parser/api_param_sample.js:16-62 | definition: every way the anchored alternative (the constants `GroupSeg`, `SampleFieldSeg`, `TypeSeg` with `SizeSeg` and `AllowedValuesSeg`, `FieldSeg` with `DefaultValueSeg`, `DescriptionSeg`, then `$`) matches from position 0 with no register set; characterised by `MainSound`, `MainEnds`, `MainSetsField`, the guard lemmas, `BareNameMatch`, `TaggedMatch` and `ValuedMatch` |
| ParamPattern.Exec | parser/api_param_sample.js:62-88 | `exec` of the whole pattern `(^...$)|@`, a 13-entry array when defined; its cases are stated by `ExecCases` |
| ParamPattern.ExecCases | parser/api_param_sample.js:62 | `exec` fails iff the anchored alternative fails and the text has no `@`; with only `@` every capture is undefined; otherwise it reports the first way through the anchored alternative, covering the whole text, with shaped captures |
| ParamPattern.MainSound | parser/api_param_sample.js:16-62 | every way through the anchored alternative ends at the end of the text, and each capture holds a piece its group matches |
| ParamPattern.MainEnds | parser/api_param_sample.js:17-62 | the anchored alternative runs to the end of the text, with 13 registers, all inside the text |
| ParamPattern.MainSetsField | parser/api_param_sample.js:48-60 | the field wrapper (7) and the field name (8) are always captured |
| ParamPattern.MainInputValueGuard | parser/api_param_sample.js:23-32 | the input value (3) is captured only with the input type (2) |
| ParamPattern.MainSizeGuard | parser/api_param_sample.js:33-40 | the size (5) is captured only with the type (4) |
| ParamPattern.MainAllowedValuesGuard | parser/api_param_sample.js:33-47 | the allowed values (6) are captured only with the type (4) |
| ParamPattern.MainDefaultsExclusive | parser/api_param_sample.js:52-58 | at most one of the double-quoted (9), single-quoted (10) and bare (11) defaults is captured |
| ParamPattern.FieldNameRun | parser/api_param_sample.js:50-51 | the field name is name characters, optionally followed by one `[...]` suffix of array characters |
| ParamPattern.TextsShaped | parser/api_param_sample.js:16-62 | the reported strings are shaped: the field is a field name, labels and types are non-empty runs of their classes, quoted defaults hold no quote of their kind, and the dependencies above hold |
| AllowedValues.RuleFor | parser/api_param_sample.js:103-108 | `"` picks the double-quote rule, `'` the single-quote rule, anything else the bare rule, each exactly then |
| AllowedValues.MatchAt | parser/api_param_sample.js:78-80 | a rule's match at a position, when there is one, consumes at least one character |
| AllowedValues.Find | parser/api_param_sample.js:113 | `exec` from `lastIndex` reports the leftmost match at or after it, or nothing when no position matches |
| AllowedValues.Spans | parser/api_param_sample.js:113-115 | the matches of successive `exec` calls lie in the text, in order, without overlap |
| AllowedValues.Tokens | parser/api_param_sample.js:110-116 | definition: the whole matches of successive `exec` calls on the capture; `CollectTokens` is proved to compute it, and `QuotedTokens`, `BareTokens`, `BareCovers` and `QuotedExampleTokens` characterise it |
| AllowedValues.CollectTokens | parser/api_param_sample.js:110-116 | the `while` loop collects exactly `Tokens`: the whole match of each successive `exec` call |
| AllowedValues.SpansMatch | parser/api_param_sample.js:113-114 | each collected piece is a match of the rule at its start |
| AllowedValues.QuotedMatch | parser/api_param_sample.js:78-79 | a quoted match starts and ends with its quote, has none in between, and has at least three characters (the "only if" half of `QuotedMatchIff`) |
| AllowedValues.QuotedFound | parser/api_param_sample.js:78-79 | a quote at `p` followed by at least one non-quote and then a quote at `j` is a match ending just after `j` (the "if" half of `QuotedMatchIff`) |
| AllowedValues.QuotedMatchIff | parser/api_param_sample.js:78-79 | a quoted rule matches at `p` if and only if `p` holds its quote and the run of non-quotes after it is non-empty and followed by a quote; the match then ends just after that quote |
| AllowedValues.QuotedTokens | parser/api_param_sample.js:78-79 | every quoted token starts and ends with its quote, has none in between, and holds at least one other character |
| AllowedValues.EmptyQuotesNoToken | parser/api_param_sample.js:78-79 | `""` and `''` produce no token |
| AllowedValues.QuotedExampleSpans | parser/api_param_sample.js:113-115 | the `exec` calls of the double-quote rule on `"abc","def"` match exactly the pieces 0-5 and 6-11 |
| AllowedValues.QuotedExampleTokens | parser/api_param_sample.js:110-116 | `{string="abc","def"}`: the double-quote rule collects `"abc"` and `"def"`, quotes included |
| AllowedValues.BareMatch | parser/api_param_sample.js:80 | the bare rule matches at a position iff a non-separator is there, and then takes the whole run of non-separators |
| AllowedValues.BareSpans | parser/api_param_sample.js:80 | every bare token is a maximal run of characters other than `,` and `\s` |
| AllowedValues.BareTokens | parser/api_param_sample.js:80 | every bare token is non-empty and holds no `,` and no whitespace |
| AllowedValues.BareCovers | parser/api_param_sample.js:80 | every character other than `,` and `\s` lies in some bare token |
| ApiParamSample.JsOr | parser/api_param_sample.js:120 | JavaScript's logical or on captures is its left operand when that is truthy and its right operand otherwise; it is truthy iff either is |
| ApiParamSample.OrElse | parser/api_param_sample.js:124 | a capture or-ed with a string literal is the capture when truthy, otherwise the literal, so never empty when the literal is not |
| ApiParamSample.Revert | parser/api_param_sample.js:95-96 | restoring keeps whether a capture is defined and its length, and leaves text without U+FFFF alone |
| ApiParamSample.RevertAll | parser/api_param_sample.js:94-98 | the `forEach` over the array keeps its length and restores each entry; characterised by `RevertInPlace`, `RevertReported` and `RevertTexts` |
| ApiParamSample.Matches | parser/api_param_sample.js:88-98 | the restored `matches` array, 13 entries when defined; its cases are stated by `MatchesCases` |
| ApiParamSample.AllowedValuesOf | parser/api_param_sample.js:100-117 | the allowed values are defined exactly when capture 6 is truthy, and are then the tokens of the rule its first character picks |
| ApiParamSample.Prepare | parser/api_param_sample.js:83-86 | the pattern runs on text with no line break, as long as the trimmed annotation |
| ApiParamSample.Describe | parser/api_param_sample.js:120-133 | the descriptor's group and input type are never empty |
| ApiParamSample.ParseSample | parser/api_param_sample.js:82-134 | `parse` returns a descriptor exactly when `exec` matched |
| ApiParamSample.SampleParser.constructor | parser/api_param_sample.js:5 | the group cell starts empty |
| ApiParamSample.SampleParser.Parse | parser/api_param_sample.js:82-134 | the method returns `ParseSample`; on `null` the cell is unchanged, otherwise it holds the returned group |
| ApiParamSample.SampleParser.GetGroup | parser/api_param_sample.js:140-142 | `getGroup` reads the cell as it is now |
| ApiParamSample.SampleParser.Path | parser/api_param_sample.js:136-138 | `path` is `local.parameter.samples.` followed by the current cell |
| ApiParamSample.SampleParser.Report | parser/api_param_sample.js:100-133 | the descriptor is `Describe` of the restored array and the cell holds its group |
| ApiParamSample.Restored | parser/api_param_sample.js:94-98 | a fresh array holding the `exec` result with the line breaks back in every truthy entry |
| ApiParamSample.RevertInPlace | parser/api_param_sample.js:94-98 | the `forEach` rewrites each truthy entry of the array in place with its line breaks restored |
| ApiParamSample.RevertReported | parser/api_param_sample.js:94-98 | restoring keeps which captures are defined, that they are non-empty, the links between captures and a well-formed field name; it does not keep the character classes of the matched text (a restored capture may hold `\n`) |
| ApiParamSample.AtSurvives | parser/api_param_sample.js:83-88 | the text the pattern sees has an `@` iff the annotation has one |
| ApiParamSample.MatchesCases | parser/api_param_sample.js:88-98 | the restored array is `null` iff the anchored alternative fails and there is no `@`; it is the `@`-only array, or the shaped array of a match |
| ApiParamSample.RevertTexts | parser/api_param_sample.js:94-98 | restoring the captures taken from the protected text gives the captures of the original text |
| ApiParamSample.MatchesKeepLineBreaks | parser/api_param_sample.js:86-98 | for an annotation without U+FFFF, every restored capture is exactly the piece of the trimmed annotation its group matched, line breaks included, and the whole match is the trimmed annotation |
| ApiParamSample.ParseFails | parser/api_param_sample.js:88-91 | `parse` returns `null` iff the anchored alternative fails and the annotation has no `@` |
| ApiParamSample.ParseAtOnly | parser/api_param_sample.js:62 | with only the `@` alternative, the descriptor has the defaulted group, input type `text`, nothing else defined, not optional, and `unindent("")` |
| ApiParamSample.ParseField | parser/api_param_sample.js:130 | the field is defined iff the anchored alternative matched, and then it is a well-formed field name |
| ApiParamSample.ParseGroup | parser/api_param_sample.js:120 | the group is capture 1, else a truthy default group, else `Parameter` |
| ApiParamSample.ParseInputType | parser/api_param_sample.js:124-125 | the input type is capture 2 or `text`; an input value comes only with a captured input type |
| ApiParamSample.ParseAllowedValues | parser/api_param_sample.js:100-117 | allowed values are defined iff capture 6 is, and then are the tokens of the rule its first character picks; allowed values and size come only with a type |
| ApiParamSample.ParseOptional | parser/api_param_sample.js:129 | optional iff capture 7 starts with `[`, which happens only with a field |
| ApiParamSample.ParseDefaultValue | parser/api_param_sample.js:131 | the default is the one captured form's text, except that an empty quoted default gives none; no form gives none |
| ApiParamSample.ParseDescription | parser/api_param_sample.js:132 | the description is `unindent` of capture 12, or of the empty string |
| ApiParamSample.ExampleDescribe | parser/api_param_sample.js:8 | post-processing the example's capture array gives the documented descriptor |
| ParamPattern.BareNameMatch | parser/api_param_sample.js:16-62 | for a bare field name, the first way through the anchored alternative skips every optional segment, takes the whole text as the field and sets only the field wrapper and the field name |
| ParamPattern.BareNameExec | parser/api_param_sample.js:88 | `exec` of a bare field name reports the whole text as the match, the field wrapper and the field name, and every other capture undefined |
| ParamPattern.TaggedMatch | parser/api_param_sample.js:16-62 | for `(label) {type} name`, the first way through the anchored alternative takes the label as the group, skips the sample field, takes the type, skips size and allowed values, takes the field and refuses an empty description |
| ParamPattern.TaggedExec | parser/api_param_sample.js:88 | `exec` of `(label) {type} name` reports the whole text, the label, the type name and the field twice, and every other capture undefined |
| ParamPattern.ValuedMatch | parser/api_param_sample.js:16-62 | for `{type=values} name`, the first way through the anchored alternative skips the group and sample field, sets the type (4), the allowed values (6) up to the closing brace, and the field (7, 8), and nothing else |
| ParamPattern.ValuedExec | parser/api_param_sample.js:88 | `exec` of `{type=values} name` reports the whole text, the type name, the allowed values and the field name twice |
| ApiParamSample.ParseBareName | parser/api_param_sample.js:82-134 | a bare field name parses to a descriptor with that field, the default group (or `Parameter`), input type `text`, not optional, nothing else defined, and `unindent("")` |
| ApiParamSample.ParseIdExample | parser/api_param_sample.js:82-134 | `id` with default group `User` parses to the field `id` in group `User` with input type `text` |
| ApiParamSample.ParseTagged | parser/api_param_sample.js:82-134 | `(g) {t} n` parses to the group `g` whatever the default group, the type `t`, the field `n`, input type `text`, not optional, nothing else defined, and `unindent("")` |
| ApiParamSample.ParseLoginExample | parser/api_param_sample.js:82-134 | `(Login) {String} name` with default group `User` parses to the field `name` of type `String` in group `Login` |
| ApiParamSample.ParseValued | parser/api_param_sample.js:82-134 | `{t=v} n` parses to the type `t`, the allowed values `Tokens(RuleFor(v), v)`, the field `n`, the default group or `Parameter`, inputType `text` and optional false |
| ApiParamSample.ParseValuesExample | parser/api_param_sample.js:82-134 | `{string="abc","def"} name` with default group `User` parses to group `User`, type `string`, allowed values `"abc"` and `"def"` (quotes kept) and field `name` |
| ApiHeaderSample.Parse | parser/api_header_sample.js:4-6 | the header parse is the parameter parse with default group `Header`, with the same effect on the shared cell |
| ApiHeaderSample.Path | parser/api_header_sample.js:8-10 | the header path is `local.header.samples.` followed by the shared cell as it is at call time |
| ApiHeaderSample.HeaderGroupDefault | parser/api_header_sample.js:5 | a header annotation without a group label gets the group `Header` |
| ApiHeaderSample.PathsShareGroup | parser/api_header_sample.js:9 | both paths end in the one shared group cell |
| ApiHeaderSample.ParamParseThenHeaderPath | parser/api_header_sample.js:4-10 | after a parameter `parse`, the header path ends in the group that parse returned, or in the old cell when it returned `null` |
| ApiHeaderSample.HeaderParseThenParamPath | parser/api_header_sample.js:4-10 | after a header `parse`, the parameter path ends in the group that parse returned, or in the old cell when it returned `null` |

## Left out

- `apidoc-core/lib/utils/trim.js` and `unindent.js` are not part of this model. `trim` is modelled as removing JavaScript whitespace (`\s`) from both ends. `unindent` is a function value the parser object holds, so nothing is assumed about it.
- JavaScript strings are sequences of UTF-16 code units. The model uses Unicode scalar values, so surrogate pairs are not modelled.
- The regular-expression engine is modelled only for the constructs the pattern and the tokenizer use. Matching time is not modelled. The lookaheads of lines 29 and 44 hold no capture group, so lookahead captures are not modelled.
- The composed pattern in `ParamPattern` is written by hand from the fragments of lines 16-62. `PatternTree.RegExpFlattens` proves what text the fragments flatten to, but that text is not parsed into the `Re` tree.
- ApiParamSample.ExampleDescribe: proves only the post-processing of the capture array for the example of line 8. That the pattern reports exactly this array for the example is not proved, because evaluating the backtracking match on a literal of that length is beyond the verifier's budget. Whole parses, from the annotation text to the descriptor, are proved for bare field names (`ParseBareName`), for `(g) {t} n` (`ParseTagged`) and for `{t=v} n` (`ParseValued`).
- ApiParamSample.ParseTagged: covers labels without whitespace, `)` or U+FFFF, a type without size or allowed values, and exactly one space after each closing bracket. The lazy label `(.+?)` of line 20 also accepts labels with spaces or `)`; those are covered only by the general lemmas (`ParseGroup`, `MatchesCases`).
- ApiParamSample.ParseValued: covers allowed values without whitespace, `}` or U+FFFF, a type without size, and exactly one space after the closing brace. No whole-parse lemma takes the size, input type, input value, default value or description segments; those captures are covered only by the general lemmas (`MainSound`, `TextsShaped`, the guard lemmas and the `Parse...` lemmas over any annotation).
- ApiParamSample.AllowedValuesOf: when capture 6 is falsy, the source keeps the capture itself (`undefined`, or `''` in principle). The model has `None` for both. The empty string cannot occur, because `MatchesCases` proves capture 6 non-empty whenever it is defined.
- The `index` and `input` properties of the `exec` result array are not modelled. Only its 13 entries are read.
- `lastIndex` of the three global tokenizer expressions is modelled as the loop index. Each loop drains its expression until `exec` fails, and that resets `lastIndex` to 0. So every tokenization is modelled as a fresh scan.
- The unused `source` argument of `parse` (parser/api_param_sample.js:82, parser/api_header_sample.js:4) is not modelled.
- The metadata exports `method`, `markdownFields` and `markdownRemovePTags` (parser/api_param_sample.js:150-153, parser/api_header_sample.js:18-19) are left out. The renderer and tree builder that consume them are outside this code.
- The round-trip idempotence described for the surrounding tool is not modelled. The source has no printer for descriptors.
- Module loading and the sharing of module instances are modelled as one `SampleParser` object passed to both parsers.
