/**
 * The one regular-expression shape both tiers use to find an action tag in
 * a model answer: `Action:\s*(<verb>|...)\(.*\)` with `.` matching line
 * breaks too (Python's `re.DOTALL`, JavaScript's `s` flag), searched for
 * leftmost-first (`re.search`, `RegExp.prototype.exec`).
 *
 * A match starting at `i` is determined by the text: after `Action:` the
 * greedy `\s*` takes the whole run of white space (a verb starts with a
 * letter), the verb is the alternative followed by `(`, and the greedy `.*`
 * followed by `\)` ends at the LAST `)` of the text, provided it lies after
 * the `(`. `ActionAt` computes that match; `IsActionMatchAt` states it
 * declaratively, and the two are proved to agree in both directions.
 */
module ActionRegex {
  import opened Wrappers
  import opened Text

  const Tag: string := "Action:"

  /** The alternatives of the backend pattern `(search|finish)`, in order. */
  const PythonVerbs: seq<string> := ["search", "finish"]

  /** The single verb of the frontend pattern. */
  const JsVerbs: seq<string> := ["finish"]

  /**
   * One match: where it starts, where the verb starts, the verb, the index
   * of the `(` after it and the index of the closing `)`.
   */
  datatype Found = Found(start: nat, verbStart: nat, verb: string, open: nat, close: nat)

  predicate IsLetter(c: char)
  {
    'a' <= c <= 'z'
  }

  /** Every verb is a non-empty word of lower-case letters. */
  predicate LetterWords(verbs: seq<string>)
  {
    forall i, k | 0 <= i < |verbs| && 0 <= k < |verbs[i]| :: IsLetter(verbs[i][k])
  }

  predicate NonEmptyWords(verbs: seq<string>)
  {
    forall i | 0 <= i < |verbs| :: verbs[i] != []
  }

  /** Both tiers' alternatives are non-empty words of letters. */
  lemma VerbsAreWords()
    ensures LetterWords(PythonVerbs) && NonEmptyWords(PythonVerbs)
    ensures LetterWords(JsVerbs) && NonEmptyWords(JsVerbs)
  {
    assert PythonVerbs[0] == "search" && PythonVerbs[1] == JsVerbs[0] == "finish";
  }

  /** The regular expression's meaning: a match of the pattern starts at `i` and is `a`. */
  ghost predicate IsActionMatchAt(s: string, i: nat, f: Flavor, verbs: seq<string>, a: Found)
  {
    && a.start == i
    && StartsAt(s, i, Tag)
    && i + |Tag| <= a.verbStart <= |s|
    && AllSpace(s[i + |Tag|..a.verbStart], f)
    && a.verb in verbs
    && StartsAt(s, a.verbStart, a.verb + "(")
    && a.open == a.verbStart + |a.verb|
    && a.open < a.close < |s|
    && s[a.close] == ')'
    && Lacks(s[a.close + 1..], ')')
  }

  /** The first alternative that, followed by `(`, occurs at `k`. */
  function FirstVerb(s: string, k: nat, verbs: seq<string>): (r: Option<string>)
    ensures r.Some? ==> r.value in verbs && StartsAt(s, k, r.value + "(")
    ensures r.None? ==> forall v | v in verbs :: !StartsAt(s, k, v + "(")
  {
    if verbs == [] then None
    else if StartsAt(s, k, verbs[0] + "(") then Some(verbs[0])
    else FirstVerb(s, k, verbs[1..])
  }

  /** `c` does not occur in `s`. */
  predicate Lacks(s: string, c: char)
  {
    forall p | 0 <= p < |s| :: s[p] != c
  }

  /** Index of the last occurrence of `c`. */
  function LastIndexOf(s: string, c: char): (r: Option<nat>)
    ensures r.Some? ==> r.value < |s| && s[r.value] == c && Lacks(s[r.value + 1..], c)
    ensures r.None? ==> Lacks(s, c)
  {
    if s == [] then None
    else if s[|s| - 1] == c then Some(|s| - 1)
    else
      var init := s[..|s| - 1];
      var r := LastIndexOf(init, c);
      ghost var from := if r.Some? then r.value + 1 else 0;
      ghost var whole, part := s[from..], init[from..];
      assert forall p | 0 <= p < |part| :: whole[p] == part[p];
      assert whole[|whole| - 1] == s[|s| - 1];
      r
  }

  /** The match of the pattern anchored at `i`, if there is one. */
  function ActionAt(s: string, i: nat, f: Flavor, verbs: seq<string>): (r: Option<Found>)
    ensures r.Some? ==> IsActionMatchAt(s, i, f, verbs, r.value)
  {
    if !StartsAt(s, i, Tag) then None
    else
      var j := SkipSpaces(s, i + |Tag|, f);
      match FirstVerb(s, j, verbs)
      case None => None
      case Some(v) =>
        match LastIndexOf(s, ')')
        case None => None
        case Some(c) => if j + |v| < c then Some(Found(i, j, v, j + |v|, c)) else None
  }

  lemma LetterIsNotSpace(c: char, f: Flavor)
    requires IsLetter(c)
    ensures !IsSpace(c, f)
  {
  }

  /** Length of the run of letters starting at `k`. */
  function LetterRun(s: string, k: nat): nat
    decreases |s| - k
  {
    if k < |s| && IsLetter(s[k]) then 1 + LetterRun(s, k + 1) else 0
  }

  /** A word of letters that occurs at `k` followed by `(` spans exactly the letter run there. */
  lemma {:induction false} VerbSpansLetterRun(s: string, k: nat, v: string)
    requires forall p | 0 <= p < |v| :: IsLetter(v[p])
    requires StartsAt(s, k, v + "(")
    ensures |v| == LetterRun(s, k)
    decreases |v|
  {
    if v == [] {
      assert s[k] == (v + "(")[0] == '(';
    } else {
      assert s[k] == (v + "(")[0] == v[0];
      assert (v + "(")[1..] == v[1..] + "(";
      assert s[k + 1..k + 1 + |v[1..] + "("|] == (v + "(")[1..];
      VerbSpansLetterRun(s, k + 1, v[1..]);
    }
  }

  /** Two words of letters that both occur at `k` followed by `(` are the same word. */
  lemma VerbAtIsUnique(s: string, k: nat, v: string, w: string)
    requires forall p | 0 <= p < |v| :: IsLetter(v[p])
    requires forall p | 0 <= p < |w| :: IsLetter(w[p])
    requires StartsAt(s, k, v + "(") && StartsAt(s, k, w + "(")
    ensures v == w
  {
    VerbSpansLetterRun(s, k, v);
    VerbSpansLetterRun(s, k, w);
    assert v == (v + "(")[..|v|] == s[k..k + |v|] == (w + "(")[..|w|] == w;
  }

  /** The greedy `\s*` stops where a letter begins. */
  lemma SkipSpacesToLetter(s: string, k: nat, e: nat, f: Flavor)
    requires k <= e < |s| && AllSpace(s[k..e], f) && IsLetter(s[e])
    ensures SkipSpaces(s, k, f) == e
  {
    LetterIsNotSpace(s[e], f);
  }

  /** A `c` with no `c` after it is the last one. */
  lemma LastIndexOfIs(s: string, c: char, x: nat)
    requires x < |s| && s[x] == c && Lacks(s[x + 1..], c)
    ensures LastIndexOf(s, c) == Some(x)
  {
  }

  /** Of words of letters, only one can occur at `k` followed by `(`, so it is the one found. */
  lemma FirstVerbIs(s: string, k: nat, verbs: seq<string>, v: string)
    requires LetterWords(verbs) && v in verbs && StartsAt(s, k, v + "(")
    ensures FirstVerb(s, k, verbs) == Some(v)
  {
    var vi :| 0 <= vi < |verbs| && verbs[vi] == v;
    var w := FirstVerb(s, k, verbs).value;
    var wi :| 0 <= wi < |verbs| && verbs[wi] == w;
    VerbAtIsUnique(s, k, w, v);
  }

  /** `ActionAt` assembled from the results of its three scans. */
  lemma ActionAtOf(s: string, i: nat, f: Flavor, verbs: seq<string>, j: nat, v: string, c: nat)
    requires StartsAt(s, i, Tag) && SkipSpaces(s, i + |Tag|, f) == j
    requires FirstVerb(s, j, verbs) == Some(v) && LastIndexOf(s, ')') == Some(c) && j + |v| < c
    ensures ActionAt(s, i, f, verbs) == Some(Found(i, j, v, j + |v|, c))
  {
  }

  /** Completeness: whatever the pattern matches at `i`, `ActionAt` finds. */
  lemma ActionAtComplete(s: string, i: nat, f: Flavor, verbs: seq<string>, a: Found)
    requires LetterWords(verbs) && NonEmptyWords(verbs)
    requires IsActionMatchAt(s, i, f, verbs, a)
    ensures ActionAt(s, i, f, verbs) == Some(a)
  {
    var vi :| 0 <= vi < |verbs| && verbs[vi] == a.verb;
    assert s[a.verbStart] == (a.verb + "(")[0] == a.verb[0];
    SkipSpacesToLetter(s, i + |Tag|, a.verbStart, f);
    LastIndexOfIs(s, ')', a.close);
    FirstVerbIs(s, a.verbStart, verbs, a.verb);
    ActionAtOf(s, i, f, verbs, a.verbStart, a.verb, a.close);
  }

  /** The match anchored at `i` is unique. */
  lemma ActionMatchUnique(s: string, i: nat, f: Flavor, verbs: seq<string>, a: Found, b: Found)
    requires LetterWords(verbs) && NonEmptyWords(verbs)
    requires IsActionMatchAt(s, i, f, verbs, a) && IsActionMatchAt(s, i, f, verbs, b)
    ensures a == b
  {
    ActionAtComplete(s, i, f, verbs, a);
    ActionAtComplete(s, i, f, verbs, b);
  }

  /** The leftmost match starting at or after `k`. */
  function FindFrom(s: string, k: nat, f: Flavor, verbs: seq<string>): (r: Option<Found>)
    requires k <= |s|
    ensures r.Some? ==> k <= r.value.start && ActionAt(s, r.value.start, f, verbs) == r
    ensures r.Some? ==> forall p: nat | k <= p < r.value.start :: ActionAt(s, p, f, verbs).None?
    ensures r.None? ==> forall p: nat | k <= p <= |s| :: ActionAt(s, p, f, verbs).None?
    decreases |s| - k
  {
    var here := ActionAt(s, k, f, verbs);
    if here.Some? then here
    else if k == |s| then None
    else FindFrom(s, k + 1, f, verbs)
  }

  /** Leftmost-first search over the whole text (`re.search`, `exec`). */
  function FindAction(s: string, f: Flavor, verbs: seq<string>): (r: Option<Found>)
    ensures r.Some? ==> IsActionMatchAt(s, r.value.start, f, verbs, r.value)
    ensures r.Some? ==> forall p: nat | p < r.value.start :: ActionAt(s, p, f, verbs).None?
    ensures r.None? ==> forall p: nat | p <= |s| :: ActionAt(s, p, f, verbs).None?
  {
    FindFrom(s, 0, f, verbs)
  }

  /**
   * Leftmost-first search, stated against the regular expression's meaning:
   * a found match is a match and no match starts further left; no result
   * means no match anywhere.
   */
  lemma FindActionIsLeftmost(s: string, f: Flavor, verbs: seq<string>)
    requires LetterWords(verbs) && NonEmptyWords(verbs)
    ensures FindAction(s, f, verbs).Some? ==>
              var a := FindAction(s, f, verbs).value;
              IsActionMatchAt(s, a.start, f, verbs, a)
              && forall p: nat, b: Found | p < a.start :: !IsActionMatchAt(s, p, f, verbs, b)
    ensures FindAction(s, f, verbs).None? ==>
              forall p: nat, b: Found :: !IsActionMatchAt(s, p, f, verbs, b)
  {
    var r := FindAction(s, f, verbs);
    if r.Some? {
      forall p: nat, b: Found | p < r.value.start
        ensures !IsActionMatchAt(s, p, f, verbs, b)
      {
        if IsActionMatchAt(s, p, f, verbs, b) {
          ActionAtComplete(s, p, f, verbs, b);
        }
      }
    } else {
      forall p: nat, b: Found
        ensures !IsActionMatchAt(s, p, f, verbs, b)
      {
        if IsActionMatchAt(s, p, f, verbs, b) {
          ActionAtComplete(s, p, f, verbs, b);
        }
      }
    }
  }

  /** A text without `:` holds no action tag, so nothing matches in it. */
  lemma NoColonNoAction(s: string, f: Flavor, verbs: seq<string>)
    requires forall k | 0 <= k < |s| :: s[k] != ':'
    ensures FindAction(s, f, verbs).None?
  {
    forall p: nat | p + |Tag| <= |s|
      ensures !StartsAt(s, p, Tag)
    {
      assert s[p..p + |Tag|][6] == s[p + 6];
    }
  }

  // -----------------------------------------------------------------------
  // The capture groups of the backend pattern (api.py:146)
  // -----------------------------------------------------------------------

  /**
   * How the backend pattern parenthesises: as written, `(search|finish)\(.*\)`
   * has one capture group; the evidently intended `(search|finish)\((.*)\)`
   * has a second one holding the argument.
   */
  datatype ActionPattern = OneGroup | TwoGroups

  /** `m.groups()`: the captured texts, group 1 first. */
  function Groups(s: string, a: Found, pattern: ActionPattern): (g: seq<string>)
    requires a.open < a.close <= |s|
    ensures |g| == (if pattern == OneGroup then 1 else 2)
    ensures g[0] == a.verb
  {
    match pattern
    case OneGroup => [a.verb]
    case TwoGroups => [a.verb, s[a.open + 1..a.close]]
  }

  /** `re.search(pattern, s, re.DOTALL)` with the backend's verbs, as the tuple of its groups. */
  function SearchAction(s: string, pattern: ActionPattern): (m: Option<seq<string>>)
    ensures m.Some? <==> FindAction(s, Python, PythonVerbs).Some?
    ensures m.Some? && pattern == OneGroup ==> |m.value| == 1
    ensures m.Some? ==> |m.value| >= 1 && m.value[0] in PythonVerbs
    ensures m.Some? && pattern == TwoGroups ==>
              var a := FindAction(s, Python, PythonVerbs).value;
              |m.value| == 2 && m.value[1] == s[a.open + 1..a.close]
  {
    match FindAction(s, Python, PythonVerbs)
    case None => None
    case Some(a) => Some(Groups(s, a, pattern))
  }

  /** As written, every match has fewer than two groups. */
  lemma AsWrittenHasOneGroup(s: string)
    ensures SearchAction(s, OneGroup).Some? ==> |SearchAction(s, OneGroup).value| < 2
  {
  }

  /** The match in `Action: search(refund policy)`: the whole text, verb `search`, argument from 15 to 28. */
  lemma SearchDirectiveMatch()
    ensures FindAction("Action: search(refund policy)", Python, PythonVerbs) == Some(Found(0, 8, "search", 14, 28))
  {
    var s := "Action: search(refund policy)";
    var a := Found(0, 8, "search", 14, 28);
    assert s[0..7] == Tag;
    assert s[7..8] == [' '];
    assert s[8..15] == "search(";
    assert IsActionMatchAt(s, 0, Python, PythonVerbs, a);
    VerbsAreWords();
    ActionAtComplete(s, 0, Python, PythonVerbs, a);
  }

  /**
   * Example: the answer `Action: search(refund policy)` is matched by both
   * patterns, but only the intended one yields the argument.
   */
  lemma SearchDirectiveExample()
    ensures SearchAction("Action: search(refund policy)", OneGroup) == Some(["search"])
    ensures SearchAction("Action: search(refund policy)", TwoGroups) == Some(["search", "refund policy"])
  {
    var s := "Action: search(refund policy)";
    SearchDirectiveMatch();
    assert s[15..28] == "refund policy";
  }
}
