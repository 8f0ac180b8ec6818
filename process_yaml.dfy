/**
 * scripts/process_yaml.py: flattens an exported test-case document into one
 * record per test case, holding the case's declared variables and the tags
 * of every result's `<reply>` envelope, upper-cased.
 */
module ProcessYaml {
  import opened Wrappers
  import opened Text

  // ---------------------------------------------------------------------------
  // Python dicts
  // ---------------------------------------------------------------------------

  /** A Python dict from strings to strings: its keys in insertion order, and its entries. */
  datatype Dict = Dict(keys: seq<string>, entries: map<string, string>)
  {
    /** The keys listed are exactly the keys with an entry. */
    ghost predicate Valid() {
      forall k :: k in keys <==> k in entries
    }
  }

  const EMPTY := Dict([], map[])

  /** `d.get(k)`. */
  function Get(d: Dict, k: string): Option<string> {
    if k in d.entries then Some(d.entries[k]) else None
  }

  /** `d[k] = v`: an existing key keeps its place and takes the new value; a new key goes last. */
  function Put(d: Dict, k: string, v: string): (r: Dict)
    ensures d.Valid() ==> r.Valid()
    ensures Get(r, k) == Some(v)
    ensures forall k' :: k' != k ==> Get(r, k') == Get(d, k')
  {
    Dict(if k in d.entries then d.keys else d.keys + [k], d.entries[k := v])
  }

  /** `d.update(items)` and the dict comprehension: the items stored in turn. */
  function PutAll(d: Dict, items: seq<(string, string)>): (r: Dict)
    ensures d.Valid() ==> r.Valid()
    decreases |items|
  {
    if items == [] then d
    else Put(PutAll(d, items[..|items| - 1]), items[|items| - 1].0, items[|items| - 1].1)
  }

  /** Storing items none of which has key `k` leaves the value under `k` as it was. */
  lemma {:induction false} PutAllOthers(d: Dict, items: seq<(string, string)>, k: string)
    requires forall i :: 0 <= i < |items| ==> items[i].0 != k
    ensures Get(PutAll(d, items), k) == Get(d, k)
    decreases |items|
  {
    if items != [] {
      var n := |items| - 1;
      PutAllOthers(d, items[..n], k);
    }
  }

  /** After storing `items`, a key takes the value of the last item with that key. */
  lemma {:induction false} PutAllLastWins(d: Dict, items: seq<(string, string)>, i: nat)
    requires i < |items|
    requires forall j :: i < j < |items| ==> items[j].0 != items[i].0
    ensures Get(PutAll(d, items), items[i].0) == Some(items[i].1)
    decreases |items|
  {
    var n := |items| - 1;
    if i < n {
      var init := items[..n];
      assert init[i] == items[i];
      PutAllLastWins(d, init, i);
    }
  }

  /** After storing `items`, exactly the keys of `d` and of the items are present. */
  lemma {:induction false} PutAllKeys(d: Dict, items: seq<(string, string)>, k: string)
    ensures Get(PutAll(d, items), k).Some? <==> Get(d, k).Some? || exists i :: 0 <= i < |items| && items[i].0 == k
    decreases |items|
  {
    if items != [] {
      var n := |items| - 1;
      var init := items[..n];
      PutAllKeys(d, init, k);
      assert PutAll(d, items) == Put(PutAll(d, init), items[n].0, items[n].1);
      if items[n].0 == k {
        assert Get(PutAll(d, items), k).Some?;
      } else {
        assert Get(PutAll(d, items), k) == Get(PutAll(d, init), k);
        if exists i :: 0 <= i < |items| && items[i].0 == k {
          var i :| 0 <= i < |items| && items[i].0 == k;
          assert init[i].0 == k;
        }
        if exists i :: 0 <= i < n && init[i].0 == k {
          var i :| 0 <= i < n && init[i].0 == k;
          assert items[i].0 == k;
        }
      }
    }
  }

  // ---------------------------------------------------------------------------
  // custom_xml_parse
  // ---------------------------------------------------------------------------

  /** `\w`, restricted to ASCII: letters, digits and the underscore. */
  predicate IsWordChar(c: char) {
    'a' <= c <= 'z' || 'A' <= c <= 'Z' || '0' <= c <= '9' || c == '_'
  }

  /** A tag name `\w+`. */
  predicate IsName(name: string) {
    name != [] && forall i :: 0 <= i < |name| ==> IsWordChar(name[i])
  }

  function OpenTag(name: string): string { "<" + name + ">" }
  function CloseTag(name: string): string { "</" + name + ">" }

  /** The length of the run of word characters starting at `i`. */
  function WordRun(s: string, i: nat): (n: nat)
    requires i <= |s|
    ensures i + n <= |s|
    ensures forall j :: i <= j < i + n ==> IsWordChar(s[j])
    ensures i + n == |s| || !IsWordChar(s[i + n])
    decreases |s| - i
  {
    if i < |s| && IsWordChar(s[i]) then 1 + WordRun(s, i + 1) else 0
  }

  /**
   * The name of the opening tag `<(\w+)>` at `i`, if one starts there. The
   * name runs up to the `>`, so the greedy `\w+` has no other way to match.
   */
  function OpenTagAt(s: string, i: nat): (r: Option<string>)
    requires i <= |s|
    ensures r.Some? ==> IsName(r.value) && OccursAt(s, OpenTag(r.value), i)
    ensures r.Some? ==> i + |r.value| + 2 <= |s|
  {
    if i < |s| && s[i] == '<' then
      var n := WordRun(s, i + 1);
      if n > 0 && i + 1 + n < |s| && s[i + 1 + n] == '>' then
        var name := s[i + 1..i + 1 + n];
        assert forall j :: 0 <= j < n ==> name[j] == s[i + 1 + j];
        assert s[i..i + |OpenTag(name)|] == OpenTag(name);
        Some(name)
      else None
    else None
  }

  /** One match of `<(\w+)>(.*?)</\1>`: where it starts, group 1 and group 2. */
  datatype Match = Match(at: nat, name: string, content: string)

  /** The first index from `from` on at which `pat` occurs in `s`. */
  function FindFrom(s: string, pat: string, from: nat): (r: Option<nat>)
    requires from <= |s|
    ensures r.Some? ==> from <= r.value && OccursAt(s, pat, r.value)
    ensures r.Some? ==> forall j :: from <= j < r.value ==> !OccursAt(s, pat, j)
    ensures r.None? ==> forall j :: from <= j <= |s| ==> !OccursAt(s, pat, j)
  {
    assert forall j :: from <= j <= |s| ==> (OccursAt(s, pat, j) <==> OccursAt(s[from..], pat, j - from)) by {
      forall j | from <= j <= |s| ensures OccursAt(s, pat, j) <==> OccursAt(s[from..], pat, j - from) {
        OccursShift(s, pat, from, j);
      }
    }
    match IndexOf(s[from..], pat)
    case Some(k) => Some(from + k)
    case None => None
  }

  /** One step of the scan at `i`: the match found there, if any, and where the scan resumes. */
  datatype Step = Step(found: Option<Match>, next: nat)

  /**
   * One step of `re.finditer` of `<(\w+)>(.*?)</\1>` with DOTALL at index
   * `i`: an opening tag with a matching closing tag later makes a match that
   * ends at the FIRST such closing tag, and the scan resumes after it;
   * otherwise the scan moves on by one character.
   */
  function StepAt(s: string, i: nat): (r: Step)
    requires i < |s|
    ensures i < r.next <= |s|
  {
    match OpenTagAt(s, i)
    case None => Step(None, i + 1)
    case Some(name) =>
      var start := i + |name| + 2;
      match FindFrom(s, CloseTag(name), start)
      case None => Step(None, i + 1)
      case Some(end) =>
        assert |CloseTag(name)| == |name| + 3;
        Step(Some(Match(i, name, s[start..end])), end + |name| + 3)
  }

  /** A match found by one step is sound. */
  lemma StepSound(s: string, i: nat)
    requires i < |s|
    ensures StepAt(s, i).found.Some? ==> Sound(s, StepAt(s, i).found.value)
  {
    match OpenTagAt(s, i)
    case None =>
    case Some(name) =>
      var start := i + |name| + 2;
      match FindFrom(s, CloseTag(name), start)
      case None =>
      case Some(end) =>
        var m := Match(i, name, s[start..end]);
        assert StepAt(s, i).found == Some(m);
        assert start + |m.content| == end;
  }

  /** The matches `re.finditer` yields from index `i` on, in order. */
  function MatchesFrom(s: string, i: nat): seq<Match>
    requires i <= |s|
    decreases |s| - i
  {
    if i == |s| then []
    else
      var step := StepAt(s, i);
      (if step.found.Some? then [step.found.value] else []) + MatchesFrom(s, step.next)
  }

  /**
   * What a match is: a tag name whose opening tag occurs at `at`, followed by
   * the content and then the closing tag, and no closing tag of that name
   * starting anywhere inside the content (the `.*?` is non-greedy).
   */
  ghost predicate Sound(s: string, m: Match) {
    var start := m.at + |m.name| + 2;
    IsName(m.name)
    && OccursAt(s, OpenTag(m.name), m.at)
    && start + |m.content| <= |s| && s[start..start + |m.content|] == m.content
    && OccursAt(s, CloseTag(m.name), start + |m.content|)
    && forall j :: start <= j < start + |m.content| ==> !OccursAt(s, CloseTag(m.name), j)
  }

  /** Every match found from `i` on is sound. */
  lemma {:induction false} MatchesSound(s: string, i: nat)
    requires i <= |s|
    ensures forall m :: m in MatchesFrom(s, i) ==> Sound(s, m)
    decreases |s| - i
  {
    if i < |s| {
      StepSound(s, i);
      MatchesSound(s, StepAt(s, i).next);
    }
  }

  /** `custom_xml_parse`: each match's name mapped to its stripped content. */
  function CustomXmlParse(s: string): (r: Dict)
    ensures r.Valid()
  {
    PutAll(EMPTY, MatchItems(MatchesFrom(s, 0)))
  }

  function MatchItems(ms: seq<Match>): (r: seq<(string, string)>)
    ensures |r| == |ms|
    ensures forall i :: 0 <= i < |ms| ==> r[i] == (ms[i].name, Strip(ms[i].content))
  {
    seq(|ms|, i requires 0 <= i < |ms| => (ms[i].name, Strip(ms[i].content)))
  }

  /** The dict built from matches holds exactly their names. */
  lemma ItemsKeys(ms: seq<Match>, k: string)
    ensures Get(PutAll(EMPTY, MatchItems(ms)), k).Some? <==> exists m :: m in ms && m.name == k
  {
    var items := MatchItems(ms);
    PutAllKeys(EMPTY, items, k);
    if exists m :: m in ms && m.name == k {
      var m :| m in ms && m.name == k;
      var i :| 0 <= i < |ms| && ms[i] == m;
      assert items[i].0 == k;
    }
  }

  /** The parse holds exactly the names of the matches. */
  lemma CustomXmlParseKeys(s: string, k: string)
    ensures Get(CustomXmlParse(s), k).Some? <==> exists m :: m in MatchesFrom(s, 0) && m.name == k
  {
    ItemsKeys(MatchesFrom(s, 0), k);
  }

  /** A name repeated in the text takes the stripped content of its last match. */
  lemma CustomXmlParseLastWins(s: string, i: nat)
    requires i < |MatchesFrom(s, 0)|
    requires forall j :: i < j < |MatchesFrom(s, 0)| ==> MatchesFrom(s, 0)[j].name != MatchesFrom(s, 0)[i].name
    ensures Get(CustomXmlParse(s), MatchesFrom(s, 0)[i].name) == Some(Strip(MatchesFrom(s, 0)[i].content))
  {
    PutAllLastWins(EMPTY, MatchItems(MatchesFrom(s, 0)), i);
  }

  /** A text without any `<` has no tags. */
  lemma {:induction false} NoTagsWithoutAngle(s: string, i: nat)
    requires i <= |s|
    requires forall j :: 0 <= j < |s| ==> s[j] != '<'
    ensures MatchesFrom(s, i) == []
    decreases |s| - i
  {
    if i < |s| {
      NoTagsWithoutAngle(s, i + 1);
    }
  }

  /** The dict comprehension upper-casing the keys, in the dict's order: a later key wins a collision. */
  function UpperKeys(d: Dict): (r: Dict)
    requires d.Valid()
    ensures r.Valid()
  {
    PutAll(EMPTY, UpperItems(d))
  }

  /** `d.items()`, in insertion order. */
  function Items(d: Dict): (r: seq<(string, string)>)
    requires d.Valid()
    ensures |r| == |d.keys|
    ensures forall i :: 0 <= i < |d.keys| ==> r[i] == (d.keys[i], d.entries[d.keys[i]])
  {
    seq(|d.keys|, i requires 0 <= i < |d.keys| => (d.keys[i], d.entries[d.keys[i]]))
  }

  function UpperItems(d: Dict): (r: seq<(string, string)>)
    requires d.Valid()
    ensures |r| == |d.keys|
    ensures forall i :: 0 <= i < |d.keys| ==> r[i] == (ToUpper(d.keys[i]), d.entries[d.keys[i]])
  {
    seq(|d.keys|, i requires 0 <= i < |d.keys| => (ToUpper(d.keys[i]), d.entries[d.keys[i]]))
  }

  /** The upper-cased dict holds exactly the upper-cased keys of the dict. */
  lemma UpperKeysSpec(d: Dict, k: string)
    requires d.Valid()
    ensures Get(UpperKeys(d), k).Some? <==> exists i :: 0 <= i < |d.keys| && ToUpper(d.keys[i]) == k
  {
    PutAllKeys(EMPTY, UpperItems(d), k);
  }

  // ---------------------------------------------------------------------------
  // process_yaml
  // ---------------------------------------------------------------------------

  /**
   * A variable value as the export writes it: a text (its `value.value` is a
   * string), or anything else, which has no string to strip.
   */
  datatype ExportedValue = Str(text: string) | NonStr

  /** A test case of the export: its values and the responses of its results. */
  datatype ExportedCase = ExportedCase(id: string, variableValues: map<string, ExportedValue>, results: seq<string>)

  /** The exported document: the declared variable names and the test cases. */
  datatype Export = Export(variables: seq<string>, testCases: seq<ExportedCase>)

  /** The exceptions the script can raise: a result without `</reply>`, or `.strip()` on a non-string. */
  datatype Error = ValueError | AttributeError

  datatype Processed<T> = Done(value: T) | Raised(error: Error)

  const REPLY_OPEN := "<reply>"
  const REPLY_CLOSE := "</reply>"

  /** The declared variables that the case has a value for, each stripped, in declaration order. */
  function VariablesPart(names: seq<string>, values: map<string, ExportedValue>): Option<Dict>
    decreases |names|
  {
    if names == [] then Some(EMPTY)
    else
      var name := names[|names| - 1];
      match VariablesPart(names[..|names| - 1], values)
      case None => None
      case Some(d) =>
        if name !in values then Some(d)
        else match values[name]
          case Str(t) => Some(Put(d, name, Strip(t)))
          case NonStr => None
  }

  /** The variables part fails exactly when a declared variable's value is not a string. */
  lemma {:induction false} VariablesPartFails(names: seq<string>, values: map<string, ExportedValue>)
    ensures VariablesPart(names, values).None? <==> exists i :: 0 <= i < |names| && names[i] in values && values[names[i]].NonStr?
    decreases |names|
  {
    if names != [] {
      var n := |names| - 1;
      var init := names[..n];
      VariablesPartFails(init, values);
      assert forall i :: 0 <= i < n ==> init[i] == names[i];
    }
  }

  /**
   * Otherwise it holds exactly the declared variables the case has, each with
   * its stripped text.
   */
  lemma {:induction false} VariablesPartEntries(names: seq<string>, values: map<string, ExportedValue>, k: string)
    requires VariablesPart(names, values).Some?
    ensures Get(VariablesPart(names, values).value, k).Some? <==> k in names && k in values
    ensures k in names && k in values ==>
      values[k].Str? && Get(VariablesPart(names, values).value, k) == Some(Strip(values[k].text))
    decreases |names|
  {
    if names != [] {
      var n := |names| - 1;
      var init := names[..n];
      VariablesPartEntries(init, values, k);
      assert names == init + [names[n]];
    }
  }

  /** One result's response inside the envelope, `<reply>` and then `</reply>` removed. */
  function Unwrapped(response: string): string {
    RemoveAll(RemoveAll(response, REPLY_OPEN), REPLY_CLOSE)
  }

  /**
   * What one result contributes: nothing when its response lacks `</reply>`
   * (the script raises ValueError there), otherwise the items of its parsed,
   * upper-cased tags.
   */
  function ReplyItems(response: string): Option<seq<(string, string)>> {
    if !Contains(response, REPLY_CLOSE) then None
    else Some(Items(UpperKeys(CustomXmlParse(Unwrapped(response)))))
  }

  function Replies(responses: seq<string>): (r: seq<Option<seq<(string, string)>>>)
    ensures |r| == |responses|
    ensures forall i :: 0 <= i < |responses| ==> r[i] == ReplyItems(responses[i])
  {
    seq(|responses|, i requires 0 <= i < |responses| => ReplyItems(responses[i]))
  }

  /** The replies merged into the record in turn (`update`), failing at the first result that raises. */
  function Merged(d: Dict, replies: seq<Option<seq<(string, string)>>>): Option<Dict>
    decreases |replies|
  {
    if replies == [] then Some(d)
    else match Merged(d, replies[..|replies| - 1])
      case None => None
      case Some(d') =>
        match replies[|replies| - 1]
        case None => None
        case Some(items) => Some(PutAll(d', items))
  }

  /** The merge fails exactly when some result raises. */
  lemma {:induction false} MergedFails(d: Dict, replies: seq<Option<seq<(string, string)>>>)
    ensures Merged(d, replies).None? <==> exists i :: 0 <= i < |replies| && replies[i].None?
    decreases |replies|
  {
    if replies != [] {
      var n := |replies| - 1;
      MergedFails(d, replies[..n]);
      assert forall i :: 0 <= i < n ==> replies[..n][i] == replies[i];
    }
  }

  /** One more reply extends the merge of a prefix. */
  lemma MergedStep(d: Dict, replies: seq<Option<seq<(string, string)>>>, j: nat)
    requires j < |replies|
    ensures Merged(d, replies[..j + 1]) == match Merged(d, replies[..j])
      case None => None
      case Some(d') => match replies[j]
        case None => None
        case Some(items) => Some(PutAll(d', items))
  {
    assert replies[..j + 1][..j] == replies[..j];
  }

  /** A result raises exactly when its response lacks `</reply>`. */
  lemma ResultsFail(d: Dict, responses: seq<string>)
    ensures Merged(d, Replies(responses)).None? <==> exists i :: 0 <= i < |responses| && !Contains(responses[i], REPLY_CLOSE)
  {
    MergedFails(d, Replies(responses));
  }

  /**
   * Merging results never drops a key of the record, and a key no reply has
   * keeps its value.
   */
  lemma {:induction false} MergedKeeps(d: Dict, replies: seq<Option<seq<(string, string)>>>, k: string)
    requires Merged(d, replies).Some?
    ensures Get(d, k).Some? ==> Get(Merged(d, replies).value, k).Some?
    ensures (forall i, j :: 0 <= i < |replies| && replies[i].Some? && 0 <= j < |replies[i].value| ==> replies[i].value[j].0 != k)
      ==> Get(Merged(d, replies).value, k) == Get(d, k)
    decreases |replies|
  {
    if replies != [] {
      var n := |replies| - 1;
      var init := replies[..n];
      MergedKeeps(d, init, k);
      assert forall i :: 0 <= i < n ==> init[i] == replies[i];
      var d' := Merged(d, init).value;
      PutAllKeys(d', replies[n].value, k);
      if forall j :: 0 <= j < |replies[n].value| ==> replies[n].value[j].0 != k {
        PutAllOthers(d', replies[n].value, k);
      }
    }
  }

  /** The record of one test case: its variables first, then its results. */
  function CaseRecord(variables: seq<string>, tc: ExportedCase): Processed<Dict> {
    match VariablesPart(variables, tc.variableValues)
    case None => Raised(AttributeError)
    case Some(d) =>
      match Merged(d, Replies(tc.results))
      case None => Raised(ValueError)
      case Some(r) => Done(r)
  }

  /** The outcomes of the test cases collected in order, stopping at the first exception. */
  function Collected(outcomes: seq<Processed<Dict>>): Processed<seq<Dict>>
    decreases |outcomes|
  {
    if outcomes == [] then Done([])
    else match Collected(outcomes[..|outcomes| - 1])
      case Raised(e) => Raised(e)
      case Done(rs) =>
        match outcomes[|outcomes| - 1]
        case Raised(e) => Raised(e)
        case Done(r) => Done(rs + [r])
  }

  /** The records of the test cases in order, or the first exception raised. */
  function Records(variables: seq<string>, cases: seq<ExportedCase>): Processed<seq<Dict>> {
    Collected(Outcomes(variables, cases))
  }

  function Outcomes(variables: seq<string>, cases: seq<ExportedCase>): (r: seq<Processed<Dict>>)
    ensures |r| == |cases|
    ensures forall i :: 0 <= i < |cases| ==> r[i] == CaseRecord(variables, cases[i])
  {
    seq(|cases|, i requires 0 <= i < |cases| => CaseRecord(variables, cases[i]))
  }

  /**
   * One record per outcome, in order; the collection raises exactly when
   * some outcome does, and then with the error of the first such outcome.
   */
  lemma {:induction false} CollectedSpec(outcomes: seq<Processed<Dict>>)
    ensures Collected(outcomes).Done? ==>
      |Collected(outcomes).value| == |outcomes|
      && forall i :: 0 <= i < |outcomes| ==> outcomes[i] == Done(Collected(outcomes).value[i])
    ensures Collected(outcomes).Raised? ==>
      exists i :: (0 <= i < |outcomes| && outcomes[i] == Raised(Collected(outcomes).error)
                   && forall j :: 0 <= j < i ==> outcomes[j].Done?)
    ensures Collected(outcomes).Done? <==> forall i :: 0 <= i < |outcomes| ==> outcomes[i].Done?
    decreases |outcomes|
  {
    if outcomes != [] {
      var n := |outcomes| - 1;
      var init := outcomes[..n];
      CollectedSpec(init);
      assert forall i :: 0 <= i < n ==> init[i] == outcomes[i];
    }
  }

  /**
   * One record per test case, in input order, each the case's own record;
   * the run raises exactly when some case does, and then with the error of
   * the first such case.
   */
  lemma RecordsSpec(variables: seq<string>, cases: seq<ExportedCase>)
    ensures Records(variables, cases).Done? ==>
      |Records(variables, cases).value| == |cases|
      && forall i :: 0 <= i < |cases| ==> CaseRecord(variables, cases[i]) == Done(Records(variables, cases).value[i])
    ensures Records(variables, cases).Raised? <==> exists i :: 0 <= i < |cases| && CaseRecord(variables, cases[i]).Raised?
  {
    CollectedSpec(Outcomes(variables, cases));
  }

  /** Once a prefix of the outcomes raises, the whole collection raises the same error. */
  lemma {:induction false} RaisedPrefix(outcomes: seq<Processed<Dict>>, i: nat)
    requires i <= |outcomes| && Collected(outcomes[..i]).Raised?
    ensures Collected(outcomes) == Collected(outcomes[..i])
    decreases |outcomes| - i
  {
    if i < |outcomes| {
      assert outcomes[..i + 1][..i] == outcomes[..i];
      RaisedPrefix(outcomes, i + 1);
    } else {
      assert outcomes[..i] == outcomes;
    }
  }

  /** The inner loop over the declared variables. */
  method ExpandVariables(variables: seq<string>, values: map<string, ExportedValue>) returns (r: Option<Dict>)
    ensures r == VariablesPart(variables, values)
  {
    var d := EMPTY;
    for j := 0 to |variables|
      invariant VariablesPart(variables[..j], values) == Some(d)
    {
      assert variables[..j + 1][..j] == variables[..j];
      var name := variables[j];
      if name in values {
        match values[name] {
          case Str(t) =>
            d := Put(d, name, Strip(t));
          case NonStr =>
            VariablesPartFails(variables, values);
            return None;
        }
      }
    }
    assert variables[..|variables|] == variables;
    r := Some(d);
  }

  /** The body of the loop over the results: the check for `</reply>`, the unwrapping and the parse. */
  method ParseReply(response: string) returns (r: Option<seq<(string, string)>>)
    ensures r == ReplyItems(response)
  {
    if !Contains(response, REPLY_CLOSE) {
      return None;
    }
    var content := Unwrapped(response);
    var parsed := UpperKeys(CustomXmlParse(content));
    r := Some(Items(parsed));
  }

  /** The inner loop over the results. */
  method MergeResults(d: Dict, responses: seq<string>) returns (r: Option<Dict>)
    ensures r == Merged(d, Replies(responses))
  {
    var record := d;
    ghost var replies := Replies(responses);
    for j := 0 to |responses|
      invariant Merged(d, replies[..j]) == Some(record)
    {
      var reply := ParseReply(responses[j]);
      MergedStep(d, replies, j);
      if reply.None? {
        MergedFails(d, replies);
        return None;
      }
      record := PutAll(record, reply.value);
    }
    assert replies[..|responses|] == replies;
    r := Some(record);
  }

  /** The body of the loop over the test cases. */
  method ProcessCase(variables: seq<string>, tc: ExportedCase) returns (r: Processed<Dict>)
    ensures r == CaseRecord(variables, tc)
  {
    var vars := ExpandVariables(variables, tc.variableValues);
    if vars.None? {
      return Raised(AttributeError);
    }
    var record := MergeResults(vars.value, tc.results);
    if record.None? {
      return Raised(ValueError);
    }
    r := Done(record.value);
  }

  /**
   * process_yaml on a loaded document: the records to dump, or the exception
   * that stops the script before anything is written.
   */
  method Process(data: Export) returns (r: Processed<seq<Dict>>)
    ensures r == Records(data.variables, data.testCases)
  {
    var cases := data.testCases;
    ghost var outcomes := Outcomes(data.variables, cases);
    var newData: seq<Dict> := [];
    for i := 0 to |cases|
      invariant Collected(outcomes[..i]) == Done(newData)
    {
      assert outcomes[..i + 1][..i] == outcomes[..i];
      var record := ProcessCase(data.variables, cases[i]);
      assert outcomes[i] == record;
      if record.Raised? {
        RaisedPrefix(outcomes, i + 1);
        return Raised(record.error);
      }
      newData := newData + [record.value];
    }
    assert outcomes[..|cases|] == outcomes;
    r := Done(newData);
  }
}
