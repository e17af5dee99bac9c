/** `CustomOutputParser.parse`: decides whether the language model's text is a
    final answer or a call of the search tool, by matching it against
    `^[\s\w]*(DeepSearch)\(([^\)]+)\)` with `re.match` and `re.DOTALL`.

    The prefix class `[\s\w]` contains every character of `DeepSearch` but not
    `(`, so the greedy prefix and the name together end exactly at the first
    character outside `[\s\w]`; the match is therefore decided without any
    backtracking search, which is what `MatchCall` computes. `MatchesAt` states
    the pattern declaratively as a decomposition of the text, and the lemmas
    prove that the two agree. */
module OutputParser {
  import opened PyStr
  import opened Schema

  /** The literal name inside the pattern. */
  const CallName: string := "DeepSearch"

  /** `[\s\w]`. */
  predicate IsPrefixChar(c: char) {
    IsSpace(c) || IsWordChar(c)
  }

  /** Where the greedy `[\s\w]*` stops: the index of the first character
      outside `[\s\w]`, or `|s|` when there is none. */
  function PrefixEnd(s: string): (i: nat)
    ensures i <= |s|
    ensures forall k :: 0 <= k < i ==> IsPrefixChar(s[k])
    ensures i == |s| || !IsPrefixChar(s[i])
  {
    if s == [] || !IsPrefixChar(s[0]) then 0 else 1 + PrefixEnd(s[1..])
  }

  /** The index of the first `c` at or after `from`, or `|s|` when there is none. */
  function IndexFrom(s: string, c: char, from: nat): (j: nat)
    requires from <= |s|
    ensures from <= j <= |s|
    ensures forall k :: from <= k < j ==> s[k] != c
    ensures j == |s| || s[j] == c
    decreases |s| - from
  {
    if from == |s| || s[from] == c then from else IndexFrom(s, c, from + 1)
  }

  datatype Option<T> = None | Some(value: T)

  /** The two capture groups of a successful match. */
  datatype Match = Match(group1: string, group2: string)

  /** The pattern matches `s` with `DeepSearch` starting at `k` and the closing
      parenthesis at `j`: `s[..k]` is in `[\s\w]*`, then `DeepSearch(`, then a
      non-empty run of characters other than `)` (group 2, `s[k + 11..j]`),
      then `)`. `[^\)]` matches a line break too, so the argument may span lines. */
  predicate MatchesAt(s: string, k: nat, j: nat)
    ensures MatchesAt(s, k, j) ==>
              k + |CallName| + 1 < j < |s| &&
              s[..j + 1] == s[..k] + CallName + "(" + s[k + |CallName| + 1..j] + ")"
  {
    k + |CallName| + 1 < j < |s| &&
    (forall t :: 0 <= t < k ==> IsPrefixChar(s[t])) &&
    s[k..k + |CallName|] == CallName &&
    s[k + |CallName|] == '(' &&
    (forall t :: k + |CallName| + 1 <= t < j ==> s[t] != ')') &&
    s[j] == ')'
  }

  /** `re.match(r'^[\s\w]*(DeepSearch)\(([^\)]+)\)', s, re.DOTALL)`. */
  function MatchCall(s: string): (m: Option<Match>)
    ensures m.Some? ==> m.value.group1 == CallName
    ensures m.Some? ==> m.value.group2 != [] && ')' !in m.value.group2
  {
    var i := PrefixEnd(s);
    if i < |s| && s[i] == '(' && |CallName| <= i && s[i - |CallName|..i] == CallName then
      var j := IndexFrom(s, ')', i + 1);
      if i + 1 < j < |s| then Some(Match(s[i - |CallName|..i], s[i + 1..j])) else None
    else
      None
  }

  /** The three strips applied to group 2:
      `.strip()`, then `.strip(" ")`, then `.strip('"')`. */
  function CleanArgument(group2: string): (r: string)
    ensures |r| <= |group2|
    ensures r == [] || (r[0] != '"' && r[|r| - 1] != '"')
  {
    Strip(Strip(Strip(group2, IsSpace), IsBlank), IsDoubleQuote)
  }

  /** `CustomOutputParser.parse`. */
  function Parse(llmOutput: string): (r: AgentStep)
    ensures r.log == llmOutput
    ensures r.Action? ==> r.tool == CallName && ')' !in r.toolInput
    ensures r.Finish? ==> r.returnValues.Keys == {"output"}
  {
    match MatchCall(llmOutput)
    case None =>
      Finish(map["output" := Strip(llmOutput, IsSpace)], llmOutput)
    case Some(m) =>
      NameHasNoSpace();
      NoCloseParenAfterCleaning(m.group2);
      Action(Strip(m.group1, IsSpace), CleanArgument(m.group2), llmOutput)
  }

  /** Every character of the name is a word character (so `[\s\w]*` can swallow
      it) and none is whitespace (so `.strip()` leaves group 1 unchanged). */
  lemma NameHasNoSpace()
    ensures forall t :: 0 <= t < |CallName| ==> IsWordChar(CallName[t]) && !IsSpace(CallName[t])
    ensures Strip(CallName, IsSpace) == CallName
  {
    StripUnique(CallName, IsSpace, 0, |CallName|);
  }

  /** Cleaning the argument never brings in a `)`. */
  lemma NoCloseParenAfterCleaning(group2: string)
    requires ')' !in group2
    ensures ')' !in CleanArgument(group2)
  {
    var s1 := Strip(group2, IsSpace);
    var s2 := Strip(s1, IsBlank);
    if ')' in CleanArgument(group2) {
      StripKeepsCharacters(s2, IsDoubleQuote, ')');
      StripKeepsCharacters(s1, IsBlank, ')');
      StripKeepsCharacters(group2, IsSpace, ')');
    }
  }

  /** The greedy prefix, followed by the name, stops at the parenthesis. */
  lemma PrefixEndAtCall(s: string, k: nat)
    requires k + |CallName| < |s|
    requires forall t :: 0 <= t < k ==> IsPrefixChar(s[t])
    requires s[k..k + |CallName|] == CallName
    requires s[k + |CallName|] == '('
    ensures PrefixEnd(s) == k + |CallName|
  {
    NameHasNoSpace();
    forall t | k <= t < k + |CallName|
      ensures IsPrefixChar(s[t])
    {
      assert s[t] == s[k..k + |CallName|][t - k];
    }
  }

  /** Completeness: whenever the pattern matches at some position, the
      recogniser finds that match and returns its groups. */
  lemma MatchCallComplete(s: string, k: nat, j: nat)
    requires MatchesAt(s, k, j)
    ensures MatchCall(s) == Some(Match(CallName, s[k + |CallName| + 1..j]))
  {
    PrefixEndAtCall(s, k);
    var j' := IndexFrom(s, ')', k + |CallName| + 1);
    assert j' == j;
  }

  /** Soundness: whatever the recogniser returns is a genuine match of the
      pattern. */
  lemma MatchCallSound(s: string)
    requires MatchCall(s).Some?
    ensures exists k: nat, j: nat :: MatchesAt(s, k, j)
  {
    var i := PrefixEnd(s);
    var j := IndexFrom(s, ')', i + 1);
    assert MatchesAt(s, i - |CallName|, j);
  }

  /** At most one decomposition matches, so the groups are determined by the text. */
  lemma MatchUnique(s: string, k: nat, j: nat, k': nat, j': nat)
    requires MatchesAt(s, k, j) && MatchesAt(s, k', j')
    ensures k == k' && j == j'
  {
    MatchCallComplete(s, k, j);
    MatchCallComplete(s, k', j');
    PrefixEndAtCall(s, k);
    PrefixEndAtCall(s, k');
  }

  /** `parse` gives a finish exactly when the pattern does not match. */
  lemma ParseFinishIffNoMatch(s: string)
    ensures Parse(s).Finish? <==> !exists k: nat, j: nat :: MatchesAt(s, k, j)
  {
    if exists k: nat, j: nat :: MatchesAt(s, k, j) {
      var k: nat, j: nat :| MatchesAt(s, k, j);
      MatchCallComplete(s, k, j);
    } else if MatchCall(s).Some? {
      MatchCallSound(s);
    }
  }

  /** No match: the output is the text stripped of surrounding whitespace, and
      the log is the text unchanged. */
  lemma ParseNoMatch(s: string)
    requires forall k: nat, j: nat :: !MatchesAt(s, k, j)
    ensures Parse(s) == Finish(map["output" := Strip(s, IsSpace)], s)
  {
    ParseFinishIffNoMatch(s);
  }

  /** A match: the tool is the name, the input is the text between the
      parenthesis and the first following `)` after cleaning, and the log is
      the whole text. */
  lemma ParseMatch(s: string, k: nat, j: nat)
    requires MatchesAt(s, k, j)
    ensures Parse(s) == Action(CallName, CleanArgument(s[k + |CallName| + 1..j]), s)
  {
    MatchCallComplete(s, k, j);
    NameHasNoSpace();
  }

  /** `.strip(" ")` after `.strip()` changes nothing, so the tool input is the
      argument stripped of whitespace and then of double quotes. */
  lemma CleanArgumentSkipsBlankStrip(group2: string)
    ensures CleanArgument(group2) == Strip(Strip(group2, IsSpace), IsDoubleQuote)
  {
    StripNarrowerIsNoOp(group2, IsSpace, IsBlank);
  }

  /** Whitespace and words before the call are allowed:
      `p + "DeepSearch(" + a + ")" + rest` with `p` in `[\s\w]*` and `a` a
      non-empty run without `)` is the call with argument `a`. */
  lemma ParseCallAfterWords(p: string, a: string, rest: string)
    requires forall t :: 0 <= t < |p| ==> IsPrefixChar(p[t])
    requires a != [] && ')' !in a
    ensures var s := p + CallName + "(" + a + ")" + rest;
      Parse(s) == Action(CallName, CleanArgument(a), s)
  {
    var s := p + CallName + "(" + a + ")" + rest;
    var k, j := |p|, |p| + |CallName| + 1 + |a|;
    assert s[k..k + |CallName|] == CallName;
    assert s[k + |CallName| + 1..j] == a;
    forall t | k + |CallName| + 1 <= t < j
      ensures s[t] != ')'
    {
      assert s[t] == a[t - (k + |CallName| + 1)];
    }
    assert MatchesAt(s, k, j);
    ParseMatch(s, k, j);
  }

  /** The first character outside `[\s\w]` decides: when it is not `(`, the
      text is a final answer, whatever calls follow it. */
  lemma ParseForeignCharIsFinish(p: string, c: char, rest: string)
    requires forall t :: 0 <= t < |p| ==> IsPrefixChar(p[t])
    requires !IsPrefixChar(c) && c != '('
    ensures Parse(p + [c] + rest).Finish?
  {
    var s := p + [c] + rest;
    assert s[|p|] == c;
    assert PrefixEnd(s) == |p|;
  }

  /** The first character outside `[\s\w]` is `(` but the words before it do
      not end with the name: a final answer. */
  lemma ParseOtherNameIsFinish(p: string, rest: string)
    requires forall t :: 0 <= t < |p| ==> IsPrefixChar(p[t])
    requires |p| < |CallName| || p[|p| - |CallName|..] != CallName
    ensures Parse(p + "(" + rest).Finish?
  {
    var s := p + "(" + rest;
    assert MatchCall(s).None? by {
      assert s[|p|] == '(';
      assert forall t :: 0 <= t < |p| ==> s[t] == p[t];
      assert PrefixEnd(s) == |p|;
      if |CallName| <= |p| {
        assert s[|p| - |CallName|..|p|] == p[|p| - |CallName|..];
      }
    }
  }

  /** An empty call `DeepSearch()` is not a tool call: group 2 needs at least
      one character. */
  lemma ParseEmptyCallIsFinish(p: string, rest: string)
    requires forall t :: 0 <= t < |p| ==> IsPrefixChar(p[t])
    ensures Parse(p + CallName + "()" + rest).Finish?
  {
    var s := p + CallName + "()" + rest;
    var k := |p|;
    assert s[k..k + |CallName|] == CallName;
    PrefixEndAtCall(s, k);
    assert s[k + |CallName| + 1] == ')';
  }

  /** The text of a call in the double-quoted form. */
  function QuotedCall(q: string): (s: string)
    ensures |s| == |q| + |CallName| + 4
  {
    CallName + "(\"" + q + "\")"
  }

  /** A double-quoted argument loses exactly its enclosing quotes. */
  lemma CleanQuotedArgument(q: string, a: string)
    requires q == [] || (q[0] != '"' && q[|q| - 1] != '"')
    requires 2 <= |a| && a[0] == '"' && a[|a| - 1] == '"' && a[1..|a| - 1] == q
    ensures CleanArgument(a) == q
  {
    StripNothingToDrop(a, IsSpace);
    StripNothingToDrop(a, IsBlank);
    StripEnclosingPair(a, IsDoubleQuote);
  }

  /** An argument with no whitespace and no double quote at its ends is used
      as it is. */
  lemma CleanPlainArgument(a: string)
    requires a == [] || (!IsSpace(a[0]) && !IsSpace(a[|a| - 1]))
    requires a == [] || (a[0] != '"' && a[|a| - 1] != '"')
    ensures CleanArgument(a) == a
  {
    StripNothingToDrop(a, IsSpace);
    StripNothingToDrop(a, IsBlank);
    StripNothingToDrop(a, IsDoubleQuote);
  }

  /** Round trip: a query without `)` and without a double quote at either end,
      written in the double-quoted call form, parses back to exactly that query. */
  lemma ParseQuotedCallRoundTrip(q: string)
    requires ')' !in q
    requires q == [] || (q[0] != '"' && q[|q| - 1] != '"')
    ensures Parse(QuotedCall(q)) == Action(CallName, q, QuotedCall(q))
  {
    var a := "\"" + q + "\"";
    assert QuotedCall(q) == [] + CallName + "(" + a + ")" + [];
    assert ')' !in a by {
      assert forall t :: 0 <= t < |a| ==> a[t] == '"' || a[t] == q[t - 1];
    }
    ParseCallAfterWords([], a, []);
    assert a[1..|a| - 1] == q;
    CleanQuotedArgument(q, a);
  }

  /** `DeepSearch("Elon Musk news")` asks to search for `Elon Musk news`. */
  lemma ExampleQuoted(q: string)
    requires q == "Elon Musk news"
    ensures Parse(QuotedCall(q)) == Action("DeepSearch", q, QuotedCall(q))
  {
    assert IndexFrom(q, ')', 0) == |q|;
    ParseQuotedCallRoundTrip(q);
  }

  /** A bare argument, with no whitespace and no double quote at its ends,
      is passed on exactly. */
  lemma ParseBareCall(p: string, a: string)
    requires forall t :: 0 <= t < |p| ==> IsPrefixChar(p[t])
    requires a != [] && ')' !in a
    requires !IsSpace(a[0]) && !IsSpace(a[|a| - 1]) && a[0] != '"' && a[|a| - 1] != '"'
    ensures var s := p + CallName + "(" + a + ")";
      Parse(s) == Action(CallName, a, s)
  {
    assert p + CallName + "(" + a + ")" == p + CallName + "(" + a + ")" + [];
    ParseCallAfterWords(p, a, []);
    CleanPlainArgument(a);
  }

  /** `  some reasoning DeepSearch(tesla stock)` asks to search for `tesla stock`. */
  lemma ExampleAfterReasoning(p: string, a: string)
    requires p == "  some reasoning " && a == "tesla stock"
    ensures var s := p + CallName + "(" + a + ")";
      Parse(s) == Action("DeepSearch", a, s)
  {
    assert PrefixEnd(p) == |p|;
    assert IndexFrom(a, ')', 0) == |a|;
    ParseBareCall(p, a);
  }

  /** Single quotes are kept: the form the prompt itself suggests,
      `DeepSearch('x')`, asks to search for `'x'` with its quotes. */
  lemma ExampleSingleQuotesKept(a: string)
    requires a == "'x'"
    ensures var s := CallName + "(" + a + ")";
      Parse(s) == Action("DeepSearch", a, s)
  {
    assert IndexFrom(a, ')', 0) == |a|;
    assert [] + CallName + "(" + a + ")" == CallName + "(" + a + ")";
    ParseBareCall([], a);
  }
}
