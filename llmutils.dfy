/**
 * The text utilities of packages/llmutils/llmutils.go: `{{NAME}}` template
 * substitution, CDATA wrapping of the tags a reply struct declares, CDATA
 * stripping, and the clean-up ParseResponse does after XML decoding.
 *
 * CDATA sections are written `<![CDATA[` ... `]]>` as section 2.7 of the W3C
 * XML 1.0 Recommendation defines them; their text cannot contain `]]>`.
 */
module LlmUtils {
  import opened Wrappers
  import opened Text

  // ---------------------------------------------------------------------------
  // ReplacePromptVariables: the expression \{\{([A-Z_]+)\}\}, replaced left to
  // right in one pass over the original text.

  /** A character of `[A-Z_]`. */
  predicate IsNameChar(c: char) {
    ('A' <= c <= 'Z') || c == '_'
  }

  /** The length of the run of name characters that starts `s`. */
  function NameRun(s: string): (n: nat)
    ensures n <= |s|
    ensures forall i :: 0 <= i < n ==> IsNameChar(s[i])
    ensures n < |s| ==> !IsNameChar(s[n])
    decreases |s|
  {
    if s != [] && IsNameChar(s[0]) then 1 + NameRun(s[1..]) else 0
  }

  /**
   * When a placeholder `{{NAME}}` starts `s`, the length of its NAME. The run
   * of name characters is maximal: the class contains no brace, so a shorter
   * run cannot be followed by `}}`.
   */
  function PlaceholderAt(s: string): (r: Option<nat>)
    ensures r.Some? ==> 1 <= r.value && r.value + 4 <= |s| && s[..2] == "{{" && s[r.value + 2..r.value + 4] == "}}"
    ensures r.Some? ==> forall i :: 2 <= i < r.value + 2 ==> IsNameChar(s[i])
  {
    if |s| >= 2 && s[..2] == "{{" then
      var n := NameRun(s[2..]);
      if 1 <= n && n + 4 <= |s| && s[n + 2..n + 4] == "}}" then Some(n) else None
    else
      None
  }

  /** `ReplacePromptVariables(prompt, variables)`. */
  function ReplacePromptVariables(s: string, vars: map<string, string>): string
    decreases |s|
  {
    if s == [] then []
    else match PlaceholderAt(s)
      case Some(n) =>
        var name := s[2..n + 2];
        (if name in vars then vars[name] else s[..n + 4]) + ReplacePromptVariables(s[n + 4..], vars)
      case None => [s[0]] + ReplacePromptVariables(s[1..], vars)
  }

  /** With no variables, substitution is the identity: every placeholder is left as it was. */
  lemma {:induction false} ReplaceEmptyMap(s: string)
    ensures ReplacePromptVariables(s, map[]) == s
    decreases |s|
  {
    if s != [] {
      match PlaceholderAt(s)
      case Some(n) =>
        ReplaceEmptyMap(s[n + 4..]);
        assert s == s[..n + 4] + s[n + 4..];
      case None =>
        ReplaceEmptyMap(s[1..]);
        assert s == [s[0]] + s[1..];
    }
  }

  /** A name made only of `[A-Z_]`. */
  predicate IsName(name: string) {
    name != [] && forall i :: 0 <= i < |name| ==> IsNameChar(name[i])
  }

  /** The placeholder for `name` at the front is the one the expression matches. */
  lemma PlaceholderOfName(name: string, rest: string)
    requires IsName(name)
    ensures PlaceholderAt("{{" + name + "}}" + rest) == Some(|name|)
    ensures ("{{" + name + "}}" + rest)[2..|name| + 2] == name
    ensures ("{{" + name + "}}" + rest)[|name| + 4..] == rest
  {
    var s := "{{" + name + "}}" + rest;
    assert s[2..] == name + ("}}" + rest);
    NameRunOfName(name, "}}" + rest);
  }

  lemma {:induction false} NameRunOfName(name: string, rest: string)
    requires forall i :: 0 <= i < |name| ==> IsNameChar(name[i])
    requires rest == [] || !IsNameChar(rest[0])
    ensures NameRun(name + rest) == |name|
    decreases |name|
  {
    if name != [] {
      assert (name + rest)[1..] == name[1..] + rest;
      NameRunOfName(name[1..], rest);
    }
  }

  /**
   * A known placeholder is replaced by its value, and the value is emitted as
   * it is: a `{{NAME}}` inside the value is not substituted again.
   */
  lemma ReplaceKnown(name: string, rest: string, vars: map<string, string>)
    requires IsName(name) && name in vars
    ensures ReplacePromptVariables("{{" + name + "}}" + rest, vars) == vars[name] + ReplacePromptVariables(rest, vars)
  {
    PlaceholderOfName(name, rest);
    ReplaceAt("{{" + name + "}}" + rest, name, rest, vars);
  }

  /** A placeholder whose name is not a key is left verbatim. */
  lemma ReplaceUnknown(name: string, rest: string, vars: map<string, string>)
    requires IsName(name) && name !in vars
    ensures ReplacePromptVariables("{{" + name + "}}" + rest, vars) == "{{" + name + "}}" + ReplacePromptVariables(rest, vars)
  {
    var s := "{{" + name + "}}" + rest;
    PlaceholderOfName(name, rest);
    ReplaceAt(s, name, rest, vars);
    assert s[..|name| + 4] == "{{" + name + "}}";
  }

  /** One step of the pass at a placeholder named `name` followed by `rest`. */
  lemma ReplaceAt(s: string, name: string, rest: string, vars: map<string, string>)
    requires PlaceholderAt(s) == Some(|name|)
    requires s[2..|name| + 2] == name && s[|name| + 4..] == rest
    ensures ReplacePromptVariables(s, vars) == (if name in vars then vars[name] else s[..|name| + 4]) + ReplacePromptVariables(rest, vars)
  {
  }

  /** No placeholder starts at any of the first `n` positions of `s`. */
  predicate NoPlaceholderBefore(s: string, n: nat)
    requires n <= |s|
  {
    forall i :: 0 <= i < n ==> PlaceholderAt(s[i..]) == None
  }

  /** Where no placeholder starts, the first character is copied. */
  lemma ReplaceStep(s: string, vars: map<string, string>)
    requires s != [] && PlaceholderAt(s) == None
    ensures ReplacePromptVariables(s, vars) == [s[0]] + ReplacePromptVariables(s[1..], vars)
  {
  }

  lemma SliceStep(s: string, n: nat)
    requires 0 < n <= |s|
    ensures s[1..][n - 1..] == s[n..]
    ensures s[..n] == [s[0]] + s[1..][..n - 1]
  {
  }

  lemma ConcatStep(x: char, r0: string, r1: string, p1: string, r2: string)
    requires r0 == [x] + r1 && r1 == p1 + r2
    ensures r0 == ([x] + p1) + r2
  {
  }

  lemma NoPlaceholderShift(s: string, n: nat)
    requires 0 < n <= |s| && NoPlaceholderBefore(s, n)
    ensures NoPlaceholderBefore(s[1..], n - 1)
  {
    forall i | 0 <= i < n - 1 ensures PlaceholderAt(s[1..][i..]) == None {
      assert s[1..][i..] == s[i + 1..];
    }
  }

  /** Text in which no placeholder starts is copied unchanged before the rest is processed. */
  lemma {:induction false} ReplaceVerbatimPrefix(s: string, n: nat, vars: map<string, string>)
    requires n <= |s| && NoPlaceholderBefore(s, n)
    ensures ReplacePromptVariables(s, vars) == s[..n] + ReplacePromptVariables(s[n..], vars)
    decreases n
  {
    if n > 0 {
      assert s[0..] == s;
      ReplaceStep(s, vars);
      NoPlaceholderShift(s, n);
      ReplaceVerbatimPrefix(s[1..], n - 1, vars);
      SliceStep(s, n);
      ConcatStep(s[0], ReplacePromptVariables(s, vars), ReplacePromptVariables(s[1..], vars),
        s[1..][..n - 1], ReplacePromptVariables(s[n..], vars));
    }
  }

  /**
   * A placeholder whose text has a character outside `[A-Z_]` (a lower-case
   * letter, a digit, a space) and no brace is never touched, whatever the map holds.
   */
  lemma ReplaceNotAName(t: string, rest: string, vars: map<string, string>)
    requires forall i :: 0 <= i < |t| ==> t[i] != '{' && t[i] != '}'
    requires exists i :: 0 <= i < |t| && !IsNameChar(t[i])
    ensures ReplacePromptVariables("{{" + t + "}}" + rest, vars) == "{{" + t + "}}" + ReplacePromptVariables(rest, vars)
  {
    var p := "{{" + t + "}}";
    var s := p + rest;
    forall i | 0 <= i < |p| ensures PlaceholderAt(s[i..]) == None {
      if i == 0 {
        assert s[2..] == t + ("}}" + rest);
        var k :| 0 <= k < |t| && !IsNameChar(t[k]);
        assert s[2..][k] == t[k];
        var n := NameRun(s[2..]);
        if 1 <= n && n + 4 <= |s| {
          assert s[n + 2] == t[n];
          assert s[n + 2..n + 4][0] == s[n + 2];
        }
      } else if i == 1 {
        assert s[i..][1] == t[0] by {
          var k :| 0 <= k < |t| && !IsNameChar(t[k]);
        }
      } else {
        assert s[i..][0] == s[i];
        assert s[i] != '{';
      }
    }
    ReplaceVerbatimPrefix(s, |p|, vars);
    assert s[..|p|] == p && s[|p|..] == rest;
  }

  // ---------------------------------------------------------------------------
  // wrapWithCDATA: for each tag, every non-overlapping <tag>...</tag> (the
  // first closing tag after the opening one) gets its content wrapped.

  const CDATA_OPEN: string := "<![CDATA["
  const CDATA_CLOSE: string := "]]>"

  /** The CDATA section holding `c`. */
  function Section(c: string): string {
    CDATA_OPEN + c + CDATA_CLOSE
  }

  function OpenTag(tag: string): string { "<" + tag + ">" }
  function CloseTag(tag: string): string { "</" + tag + ">" }

  /**
   * Where a tag's pass finds its next element: the first opening tag at `p`,
   * and the first closing tag `k` characters after it. When no closing tag
   * follows the first opening tag, none follows a later one either, so the
   * expression matches nowhere.
   */
  function NextElement(s: string, tag: string): (r: Option<(nat, nat)>)
    ensures r.Some? ==> r.value.0 + |OpenTag(tag)| + r.value.1 + |CloseTag(tag)| <= |s|
  {
    match IndexOf(s, OpenTag(tag))
    case None => None
    case Some(p) =>
      match IndexOf(s[p + |OpenTag(tag)|..], CloseTag(tag))
      case None => None
      case Some(k) => Some((p, k))
  }

  /**
   * One tag's pass: the expression <tag>([\s\S]*?)</tag>, the tag taken
   * literally, replaced left to right by the element with its content in a
   * CDATA section.
   */
  function WrapTag(s: string, tag: string): string
    decreases |s|
  {
    match NextElement(s, tag)
    case None => s
    case Some((p, k)) =>
      var start := p + |OpenTag(tag)|;
      s[..p] + OpenTag(tag) + Section(s[start..start + k]) + CloseTag(tag)
        + WrapTag(s[start + k + |CloseTag(tag)|..], tag)
  }

  /** The tags, one pass after the other, in order. */
  function WrapAll(s: string, tags: seq<string>): string
    decreases |tags|
  {
    if tags == [] then s else WrapAll(WrapTag(s, tags[0]), tags[1..])
  }

  /** `wrapWithCDATA(input, tags)`. */
  method WrapWithCDATA(input: string, tags: seq<string>) returns (r: string)
    ensures r == WrapAll(input, tags)
  {
    r := input;
    var i := 0;
    while i < |tags|
      invariant 0 <= i <= |tags|
      invariant WrapAll(r, tags[i..]) == WrapAll(input, tags)
    {
      assert tags[i..][1..] == tags[i + 1..];
      r := WrapTag(r, tags[i]);
      i := i + 1;
    }
  }

  /** A text without the opening tag passes through a tag's pass unchanged. */
  lemma WrapTagAbsent(s: string, tag: string)
    requires !Contains(s, OpenTag(tag))
    ensures WrapTag(s, tag) == s
  {
  }

  /** `pat` has no border: no proper suffix of it is also a prefix, so two matches cannot overlap. */
  predicate Borderless(pat: string) {
    forall d :: 1 <= d < |pat| ==> pat[d..] != pat[..|pat| - d]
  }

  /** The first `pat` in `c + pat + rest` is the appended one, when `c` holds none and `pat` has no border. */
  lemma FirstAtEnd(c: string, pat: string, rest: string)
    requires !Contains(c, pat) && Borderless(pat)
    ensures IndexOf(c + pat + rest, pat) == Some(|c|)
  {
    var s := c + pat + rest;
    assert s[|c|..|c| + |pat|] == pat;
    assert OccursAt(s, pat, |c|);
    forall j | 0 <= j < |c| ensures !OccursAt(s, pat, j) {
      if j + |pat| <= |c| {
        assert !OccursAt(c, pat, j);
        assert s[j..j + |pat|] == c[j..j + |pat|];
      } else if j + |pat| <= |s| {
        var d := |c| - j;
        assert 1 <= d < |pat|;
        assert s[j..j + |pat|][d..] == pat[..|pat| - d];
        assert pat[d..] != pat[..|pat| - d];
      }
    }
    assert IndexOf(s, pat).Some?;
  }

  /**
   * The element a tag's pass wraps next in `<tag>content</tag>rest` is that
   * element, with exactly `content` between its tags, when the content holds
   * no closing tag and the tag name holds no `<`.
   */
  lemma NextElementOf(tag: string, c: string, rest: string)
    requires '<' !in tag
    requires !Contains(c, CloseTag(tag))
    ensures NextElement(OpenTag(tag) + c + CloseTag(tag) + rest, tag) == Some((0, |c|))
  {
    var open, close := OpenTag(tag), CloseTag(tag);
    var s := open + c + close + rest;
    ElementSlices(open, c, close, rest);
    assert OccursAt(s, open, 0) by {
      assert s[0..|open|] == s[..|open|];
    }
    assert IndexOf(s[|open|..], close) == Some(|c|) by {
      CloseTagBorderless(tag);
      FirstAtEnd(c, close, rest);
    }
  }

  lemma CloseTagBorderless(tag: string)
    requires '<' !in tag
    ensures Borderless(CloseTag(tag))
  {
    var close := CloseTag(tag);
    forall d | 1 <= d < |close| ensures close[d..] != close[..|close| - d] {
      if 2 <= d < |close| - 1 { assert close[d] == tag[d - 2]; }
      assert close[d..][0] == close[d] != '<';
    }
  }

  /** The pieces of `open + c + close + rest`, cut where the passes cut it. */
  lemma ElementSlices(open: string, c: string, close: string, rest: string)
    ensures var s := open + c + close + rest;
      open <= s && s[|open|..] == c + close + rest && s[|open|..|open| + |c|] == c &&
      s[|open| + |c| + |close|..] == rest
  {
  }

  // ---------------------------------------------------------------------------
  // removeCDATA: entity unescaping, then every section replaced by its text.

  /** The expression <!\[CDATA\[([\s\S]*?)\]\]> replaced by its group. */
  function StripCDATA(s: string): string
    decreases |s|
  {
    if s == [] then []
    else if CDATA_OPEN <= s then
      match IndexOf(s[|CDATA_OPEN|..], CDATA_CLOSE)
      case Some(k) =>
        s[|CDATA_OPEN|..|CDATA_OPEN| + k] + StripCDATA(s[|CDATA_OPEN| + k + |CDATA_CLOSE|..])
      case None => [s[0]] + StripCDATA(s[1..])
    else [s[0]] + StripCDATA(s[1..])
  }

  /** `removeCDATA`; `unescape` stands for html.UnescapeString. */
  function RemoveCDATA(s: string, unescape: string -> string): string {
    StripCDATA(unescape(s))
  }

  /** Stripping a text with no section start changes nothing. */
  lemma {:induction false} StripAbsent(s: string)
    requires !Contains(s, CDATA_OPEN)
    ensures StripCDATA(s) == s
    decreases |s|
  {
    if s != [] {
      ContainsFrom(s, CDATA_OPEN);
      StripAbsent(s[1..]);
    }
  }

  /**
   * Stripping undoes wrapping: the section a tag's pass writes around `c`
   * comes back out as `c`, and what follows is stripped in turn.
   */
  lemma StripSection(c: string, rest: string)
    requires !Contains(c, CDATA_CLOSE)
    ensures StripCDATA(Section(c) + rest) == c + StripCDATA(rest)
  {
    CloseMarkerBorderless();
    FirstAtEnd(c, CDATA_CLOSE, rest);
    ElementSlices(CDATA_OPEN, c, CDATA_CLOSE, rest);
  }

  lemma CloseMarkerBorderless()
    ensures Borderless(CDATA_CLOSE)
  {
    forall d | 1 <= d < 3 ensures CDATA_CLOSE[d..] != CDATA_CLOSE[..3 - d] {
      if d == 1 {
        assert CDATA_CLOSE[d..][1] == '>' != ']' == CDATA_CLOSE[..3 - d][1];
      } else {
        assert CDATA_CLOSE[d..][0] == '>' != ']' == CDATA_CLOSE[..3 - d][0];
      }
    }
  }

  // ---------------------------------------------------------------------------
  // getXMLTags and ParseResponse.

  /** `strings.Split(t, ",")[0]`: the part before the first comma. */
  function BeforeComma(t: string): (r: string)
    ensures r <= t && ',' !in r
    ensures |r| < |t| ==> t[|r|] == ','
    decreases |t|
  {
    if t == [] || t[0] == ',' then [] else [t[0]] + BeforeComma(t[1..])
  }

  /** The struct tags the filter keeps. */
  predicate KeptTag(t: string) {
    t != "" && t != "-" && t != "reply"
  }

  /** The wrapped tags of a reply struct whose fields carry the xml tags `schema`, in field order. */
  function XmlTags(schema: seq<string>): seq<string>
    decreases |schema|
  {
    if schema == [] then []
    else
      var last := schema[|schema| - 1];
      XmlTags(schema[..|schema| - 1]) + (if KeptTag(last) then [BeforeComma(last)] else [])
  }

  /**
   * The filter keeps exactly the tags that are not "", "-" or "reply", cut at
   * the first comma, so no produced tag holds a comma.
   */
  lemma {:induction false} XmlTagsFilter(schema: seq<string>)
    ensures |XmlTags(schema)| <= |schema|
    ensures forall t :: t in XmlTags(schema) ==> ',' !in t
    ensures forall i :: 0 <= i < |schema| && KeptTag(schema[i]) ==> BeforeComma(schema[i]) in XmlTags(schema)
    ensures forall t :: t in XmlTags(schema) ==> exists i :: 0 <= i < |schema| && KeptTag(schema[i]) && t == BeforeComma(schema[i])
    decreases |schema|
  {
    if schema != [] {
      var init := schema[..|schema| - 1];
      XmlTagsFilter(init);
      forall t | t in XmlTags(schema)
        ensures exists i :: 0 <= i < |schema| && KeptTag(schema[i]) && t == BeforeComma(schema[i])
      {
        if t in XmlTags(init) {
          var i :| 0 <= i < |init| && KeptTag(init[i]) && t == BeforeComma(init[i]);
          assert schema[i] == init[i];
        } else {
          assert t == BeforeComma(schema[|schema| - 1]);
        }
      }
      forall i | 0 <= i < |schema| && KeptTag(schema[i]) ensures BeforeComma(schema[i]) in XmlTags(schema) {
        if i < |init| {
          assert schema[i] == init[i];
        }
      }
    }
  }

  /** `getXMLTags[T]()` for a struct whose field tags are `schema`. */
  method GetXmlTags(schema: seq<string>) returns (tags: seq<string>)
    ensures tags == XmlTags(schema)
  {
    tags := [];
    var i := 0;
    while i < |schema|
      invariant 0 <= i <= |schema|
      invariant tags == XmlTags(schema[..i])
    {
      assert schema[..i + 1][..i] == schema[..i];
      if KeptTag(schema[i]) {
        tags := tags + [BeforeComma(schema[i])];
      }
      i := i + 1;
    }
    assert schema[..i] == schema;
  }

  datatype KV = KV(key: string, value: string)

  /**
   * What the XML decoder filled into a reply struct: its string fields in
   * field order, each with its tag, and the repeated `test_cases>case` pairs.
   */
  datatype Decoded = Decoded(fields: seq<(string, string)>, cases: seq<KV>)

  /** The value of the string field tagged `tag`, or "" (Go's zero value) when there is none. */
  function FieldValue(d: Decoded, tag: string): string {
    FieldIn(d.fields, tag)
  }

  function FieldIn(fields: seq<(string, string)>, tag: string): string
    decreases |fields|
  {
    if fields == [] then "" else if fields[0].0 == tag then fields[0].1 else FieldIn(fields[1..], tag)
  }

  /** One string field after decoding: sections stripped, then white space trimmed. */
  function Clean(s: string, unescape: string -> string): (r: string)
    ensures SpaceTrimmed(r)
  {
    TrimSpace(RemoveCDATA(s, unescape))
  }

  /** The fields of `d` after the clean-up loop: same tags, every value cleaned. */
  function CleanFields(fields: seq<(string, string)>, unescape: string -> string): (r: seq<(string, string)>)
    ensures |r| == |fields|
    ensures forall i :: 0 <= i < |r| ==> r[i].0 == fields[i].0
    ensures forall i :: 0 <= i < |r| ==> SpaceTrimmed(r[i].1)
  {
    seq(|fields|, i requires 0 <= i < |fields| => (fields[i].0, Clean(fields[i].1, unescape)))
  }

  /**
   * What ParseResponse yields for a reply struct with field tags `schema`:
   * nothing when decoding fails, otherwise the decoded reply with every string
   * field cleaned.
   */
  function ParsedResponse(input: string, schema: seq<string>, decode: string -> Option<Decoded>, unescape: string -> string): Option<Decoded>
  {
    match decode(WrapAll(input, XmlTags(schema)))
    case None => None
    case Some(d) => Some(Decoded(CleanFields(d.fields, unescape), d.cases))
  }

  /**
   * `ParseResponse[T](input)`: wrap the declared tags, decode (`decode` stands
   * for encoding/xml), then clean every string field in place. None is the
   * decode error.
   */
  method ParseResponse(input: string, schema: seq<string>, decode: string -> Option<Decoded>, unescape: string -> string)
    returns (r: Option<Decoded>)
    ensures r.None? <==> decode(WrapAll(input, XmlTags(schema))).None?
    ensures r.Some? ==> r.value.cases == decode(WrapAll(input, XmlTags(schema))).value.cases
    ensures r.Some? ==> r.value.fields == CleanFields(decode(WrapAll(input, XmlTags(schema))).value.fields, unescape)
    ensures r == ParsedResponse(input, schema, decode, unescape)
  {
    var tags := GetXmlTags(schema);
    var wrapped := WrapWithCDATA(input, tags);
    var decoded := decode(wrapped);
    if decoded.None? {
      return None;
    }
    var fields := CleanEach(decoded.value.fields, unescape);
    r := Some(Decoded(fields, decoded.value.cases));
  }

  /** The clean-up loop of ParseResponse over the decoded string fields, each cleaned in place. */
  method CleanEach(decoded: seq<(string, string)>, unescape: string -> string) returns (fields: seq<(string, string)>)
    ensures fields == CleanFields(decoded, unescape)
  {
    fields := decoded;
    var i := 0;
    while i < |fields|
      invariant 0 <= i <= |fields| && |fields| == |decoded|
      invariant forall j :: 0 <= j < i ==> fields[j] == (decoded[j].0, Clean(decoded[j].1, unescape))
      invariant forall j :: i <= j < |fields| ==> fields[j] == decoded[j]
    {
      fields := fields[i := (fields[i].0, Clean(fields[i].1, unescape))];
      i := i + 1;
    }
  }

  /** Every string field of a parsed reply, looked up by tag, is free of surrounding white space. */
  lemma {:induction false} FieldInTrimmed(fields: seq<(string, string)>, tag: string)
    requires forall i :: 0 <= i < |fields| ==> SpaceTrimmed(fields[i].1)
    ensures SpaceTrimmed(FieldIn(fields, tag))
    decreases |fields|
  {
    if fields != [] && fields[0].0 != tag {
      FieldInTrimmed(fields[1..], tag);
    }
  }

  /** A field read from a parsed reply never starts or ends with white space. */
  lemma ParsedFieldTrimmed(input: string, schema: seq<string>, decode: string -> Option<Decoded>, unescape: string -> string, tag: string)
    requires ParsedResponse(input, schema, decode, unescape).Some?
    ensures SpaceTrimmed(FieldValue(ParsedResponse(input, schema, decode, unescape).value, tag))
  {
    var d := decode(WrapAll(input, XmlTags(schema))).value;
    CleanedFieldTrimmed(d, unescape, tag);
  }

  lemma CleanedFieldTrimmed(d: Decoded, unescape: string -> string, tag: string)
    ensures SpaceTrimmed(FieldValue(Decoded(CleanFields(d.fields, unescape), d.cases), tag))
  {
    FieldInTrimmed(CleanFields(d.fields, unescape), tag);
  }
}
