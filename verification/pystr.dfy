/** Python string primitives the agent relies on: the character classes `\s` and `\w`
    of a `str` regular expression, and `str.strip`. */
module PyStr {

  /** Python's `str.isspace()`; it is also the class that `\s` matches in a `str`
      pattern and the set `str.strip()` removes when called without arguments. */
  predicate IsSpace(c: char)
  {
    var n := c as int;
    (9 <= n <= 13) || (28 <= n <= 32) || n == 0x85 || n == 0xA0 || n == 0x1680 ||
    (0x2000 <= n <= 0x200A) || n == 0x2028 || n == 0x2029 || n == 0x202F ||
    n == 0x205F || n == 0x3000
  }

  /** `\w`, restricted to ASCII letters, digits and the underscore. */
  predicate IsWordChar(c: char)
  {
    ('a' <= c <= 'z') || ('A' <= c <= 'Z') || ('0' <= c <= '9') || c == '_'
  }

  /** The two classes are disjoint, neither holds a parenthesis, the usual
      ASCII blanks are whitespace, and word characters are ASCII. */
  lemma CharacterClasses(c: char)
    ensures IsSpace(c) ==> !IsWordChar(c)
    ensures IsSpace(c) || IsWordChar(c) ==> c != '(' && c != ')'
    ensures c == ' ' || c == '\t' || c == '\n' || c == '\r' ==> IsSpace(c)
    ensures IsWordChar(c) ==> c as int < 128
  {
  }

  /** The argument of `str.strip(" ")`. */
  predicate IsBlank(c: char) { c == ' ' }

  /** The argument of `str.strip('"')`. */
  predicate IsDoubleQuote(c: char) { c == '"' }

  /** Where the stripped text starts: the index of the first character at or
      after `from` that `drop` does not accept, or `|s|` when there is none. */
  function KeptFrom(s: string, drop: char -> bool, from: nat): (i: nat)
    requires from <= |s|
    ensures from <= i <= |s|
    ensures forall k :: from <= k < i ==> drop(s[k])
    ensures i == |s| || !drop(s[i])
    decreases |s| - from
  {
    if from == |s| || !drop(s[from]) then from else KeptFrom(s, drop, from + 1)
  }

  /** Where the stripped text ends: scanning back from `hi` and no further
      than `lo`, the index just past the last character `drop` does not
      accept, or `lo` when there is none. */
  function KeptUntil(s: string, drop: char -> bool, lo: nat, hi: nat): (j: nat)
    requires lo <= hi <= |s|
    ensures lo <= j <= hi
    ensures forall k :: j <= k < hi ==> drop(s[k])
    ensures j == lo || !drop(s[j - 1])
    decreases hi - lo
  {
    if hi == lo || !drop(s[hi - 1]) then hi else KeptUntil(s, drop, lo, hi - 1)
  }

  /** `s.strip(chars)` where `drop` says which characters are in `chars`: the
      result is the slice of `s` left once the longest dropped prefix and the
      longest dropped suffix are cut off. */
  function Strip(s: string, drop: char -> bool): (r: string)
    ensures var a := KeptFrom(s, drop, 0);
      a + |r| <= |s| && r == s[a..a + |r|] &&
      (forall k :: 0 <= k < a ==> drop(s[k])) &&
      (forall k :: a + |r| <= k < |s| ==> drop(s[k]))
    ensures r == [] || (!drop(r[0]) && !drop(r[|r| - 1]))
  {
    var a := KeptFrom(s, drop, 0);
    s[a..KeptUntil(s, drop, a, |s|)]
  }

  /** Whole-input characterisation: any slice `s[a..b]` whose outside is dropped
      and whose two ends are kept is exactly what `Strip` returns. */
  lemma StripUnique(s: string, drop: char -> bool, a: nat, b: nat)
    requires a <= b <= |s|
    requires forall k :: 0 <= k < a ==> drop(s[k])
    requires forall k :: b <= k < |s| ==> drop(s[k])
    requires a < b ==> !drop(s[a]) && !drop(s[b - 1])
    ensures Strip(s, drop) == s[a..b]
  {
    var r := Strip(s, drop);
    var a' := KeptFrom(s, drop, 0);
    if r != [] {
      assert r[0] == s[a'] && r[|r| - 1] == s[a' + |r| - 1];
    }
  }

  /** A string whose two ends are kept is left unchanged. */
  lemma StripNothingToDrop(s: string, drop: char -> bool)
    requires s == [] || (!drop(s[0]) && !drop(s[|s| - 1]))
    ensures Strip(s, drop) == s
  {
    StripUnique(s, drop, 0, |s|);
  }

  /** One dropped character at each end around a kept core: exactly that pair
      goes. */
  lemma StripEnclosingPair(s: string, drop: char -> bool)
    requires 2 <= |s| && drop(s[0]) && drop(s[|s| - 1])
    requires s[1..|s| - 1] == [] || (!drop(s[1]) && !drop(s[|s| - 2]))
    ensures Strip(s, drop) == s[1..|s| - 1]
  {
    StripUnique(s, drop, 1, |s| - 1);
  }

  /** Stripping twice removes nothing more. */
  lemma StripIdempotent(s: string, drop: char -> bool)
    ensures Strip(Strip(s, drop), drop) == Strip(s, drop)
  {
    StripNothingToDrop(Strip(s, drop), drop);
  }

  /** Stripping a subset of the characters already stripped is a no-op; this is
      why `.strip(" ")` after `.strip()` never changes anything. */
  lemma StripNarrowerIsNoOp(s: string, drop: char -> bool, narrow: char -> bool)
    requires forall c :: narrow(c) ==> drop(c)
    ensures Strip(Strip(s, drop), narrow) == Strip(s, drop)
  {
    StripNothingToDrop(Strip(s, drop), narrow);
  }

  /** Stripping never introduces a character: every character of the result is
      one of the input's. */
  lemma StripKeepsCharacters(s: string, drop: char -> bool, c: char)
    requires c in Strip(s, drop)
    ensures c in s
  {
    var r := Strip(s, drop);
    var a := KeptFrom(s, drop, 0);
    var t :| 0 <= t < |r| && r[t] == c;
    assert s[a + t] == c;
  }
}
