/**
 * The string primitives the core relies on, stated once for both runtimes:
 * white space and stripping (Python's `str.strip()`, JavaScript's
 * `String.prototype.trim()`), Python's `str.split(sep)` and `str(n)` for a
 * non-negative integer, and `os.path.join` of two POSIX path parts.
 */
module Text {
  import opened Wrappers

  /** Whose notion of white space is meant. */
  datatype Flavor = Python | JavaScript

  /**
   * Python's `str.isspace()`; it is also the class `\s` matches in a `str`
   * pattern of the `re` module.
   */
  predicate IsPythonSpace(c: char)
  {
    ('\t' <= c <= '\r') || ('\U{1C}' <= c <= ' ') || c == '\U{85}' || c == '\U{A0}'
    || c == '\U{1680}' || ('\U{2000}' <= c <= '\U{200A}') || c == '\U{2028}' || c == '\U{2029}'
    || c == '\U{202F}' || c == '\U{205F}' || c == '\U{3000}'
  }

  /**
   * ECMAScript WhiteSpace and LineTerminator: what `trim()` removes and what
   * `\s` matches in a regular expression.
   */
  predicate IsJsSpace(c: char)
  {
    ('\t' <= c <= '\r') || c == ' ' || c == '\U{A0}' || c == '\U{1680}'
    || ('\U{2000}' <= c <= '\U{200A}') || c == '\U{2028}' || c == '\U{2029}'
    || c == '\U{202F}' || c == '\U{205F}' || c == '\U{3000}' || c == '\U{FEFF}'
  }

  predicate IsSpace(c: char, f: Flavor)
  {
    match f
    case Python => IsPythonSpace(c)
    case JavaScript => IsJsSpace(c)
  }

  predicate AllSpace(s: string, f: Flavor)
  {
    forall i {:trigger IsSpace(s[i], f)} | 0 <= i < |s| :: IsSpace(s[i], f)
  }

  /** Neither the first nor the last character is white space. */
  predicate IsStripped(s: string, f: Flavor)
  {
    s == [] || (!IsSpace(s[0], f) && !IsSpace(s[|s| - 1], f))
  }

  /** `t` occurs in `s` at position `a`. */
  predicate OccursAt(t: string, s: string, a: nat)
  {
    a + |t| <= |s| && s[a..a + |t|] == t
  }

  ghost predicate IsSubstring(t: string, s: string)
  {
    exists a: nat :: OccursAt(t, s, a)
  }

  /** `s` holds `lit` at position `k`. */
  predicate StartsAt(s: string, k: nat, lit: string)
  {
    k + |lit| <= |s| && s[k..k + |lit|] == lit
  }

  ghost predicate Contains(s: string, sep: string)
  {
    exists k: nat :: StartsAt(s, k, sep)
  }

  // ---------------------------------------------------------------------
  // Stripping
  // ---------------------------------------------------------------------

  /** Index of the first character at or after `k` that is not white space. */
  function SkipSpaces(s: string, k: nat, f: Flavor): (j: nat)
    requires k <= |s|
    ensures k <= j <= |s|
    ensures AllSpace(s[k..j], f)
    ensures j == |s| || !IsSpace(s[j], f)
    decreases |s| - k
  {
    if k < |s| && IsSpace(s[k], f) then
      var j := SkipSpaces(s, k + 1, f);
      ghost var whole, rest := s[k..j], s[k + 1..j];
      assert forall p | 0 <= p < |rest| :: whole[p + 1] == rest[p];
      j
    else k
  }

  /** The end of `s[..b]` once the white space in front of `b`, down to `lo`, is dropped. */
  function SkipSpacesBack(s: string, lo: nat, b: nat, f: Flavor): (e: nat)
    requires lo <= b <= |s|
    ensures lo <= e <= b
    ensures AllSpace(s[e..b], f)
    ensures e == lo || !IsSpace(s[e - 1], f)
    decreases b - lo
  {
    if lo < b && IsSpace(s[b - 1], f) then
      var e := SkipSpacesBack(s, lo, b - 1, f);
      ghost var whole, rest := s[e..b], s[e..b - 1];
      assert forall p | 0 <= p < |rest| :: whole[p] == rest[p];
      e
    else b
  }

  /**
   * Python's `s.strip()` (flavor Python) and JavaScript's `s.trim()`
   * (flavor JavaScript): the part of `s` between its leading and its
   * trailing white space.
   */
  function Strip(s: string, f: Flavor): (r: string)
    ensures IsStripped(r, f)
    ensures r == [] <==> AllSpace(s, f)
  {
    var a := SkipSpaces(s, 0, f);
    var b := SkipSpacesBack(s, a, |s|, f);
    assert s[0..|s|] == s;
    assert a < |s| ==> s[a..|s|][0] == s[a];
    s[a..b]
  }

  /** What strip removes is white space on both sides. */
  lemma StripRemovesSpace(s: string, f: Flavor)
    ensures exists a, b :: 0 <= a <= b <= |s| && Strip(s, f) == s[a..b] && AllSpace(s[..a], f) && AllSpace(s[b..], f)
  {
    var a := SkipSpaces(s, 0, f);
    var b := SkipSpacesBack(s, a, |s|, f);
    assert s[..a] == s[0..a] && s[b..] == s[b..|s|];
  }

  lemma StripIsSubstring(s: string, f: Flavor)
    ensures IsSubstring(Strip(s, f), s)
  {
    var a := SkipSpaces(s, 0, f);
    assert OccursAt(Strip(s, f), s, a);
  }

  /** A part of a part of `s` is a part of `s`. */
  lemma SubstringOfSlice(t: string, s: string, lo: nat, hi: nat)
    requires lo <= hi <= |s| && IsSubstring(t, s[lo..hi])
    ensures IsSubstring(t, s)
  {
    var a: nat :| OccursAt(t, s[lo..hi], a);
    var w := s[lo..hi];
    assert forall k | 0 <= k < |t| :: t[k] == w[a + k] == s[lo + a + k];
    assert s[lo + a..lo + a + |t|] == t;
    assert OccursAt(t, s, lo + a);
  }

  lemma SubstringRefl(s: string)
    ensures IsSubstring(s, s)
  {
    assert OccursAt(s, s, 0);
  }

  /** The strip of a part of `s` is a part of `s`. */
  lemma StripOfSliceIsSubstring(s: string, lo: nat, hi: nat, f: Flavor)
    requires lo <= hi <= |s|
    ensures IsSubstring(Strip(s[lo..hi], f), s)
  {
    StripIsSubstring(s[lo..hi], f);
    SubstringOfSlice(Strip(s[lo..hi], f), s, lo, hi);
  }

  /** A stripped string is its own strip; in particular strip is idempotent. */
  lemma StripStripped(s: string, f: Flavor)
    requires IsStripped(s, f)
    ensures Strip(s, f) == s
  {
  }

  // ---------------------------------------------------------------------
  // Python str.split(sep) and str.join
  // ---------------------------------------------------------------------

  /** The first index at or after `k` where `sep` occurs (`str.find`). */
  function IndexFrom(s: string, sep: string, k: nat): (r: Option<nat>)
    requires k <= |s|
    ensures r.Some? ==> k <= r.value && StartsAt(s, r.value, sep)
    ensures r.Some? ==> forall j: nat | k <= j < r.value :: !StartsAt(s, j, sep)
    ensures r.None? ==> forall j: nat | k <= j :: !StartsAt(s, j, sep)
    decreases |s| - k
  {
    if StartsAt(s, k, sep) then Some(k)
    else if k == |s| then None
    else IndexFrom(s, sep, k + 1)
  }

  lemma StartsAtInPrefix(s: string, n: nat, j: nat, sep: string)
    requires n <= |s| && StartsAt(s[..n], j, sep)
    ensures StartsAt(s, j, sep)
  {
    assert s[..n][j..j + |sep|] == s[j..j + |sep|];
  }

  /**
   * Python's `s.split(sep)` for a non-empty separator: the pieces between
   * the non-overlapping occurrences of `sep`, found from the left.
   */
  function Split(s: string, sep: string): (pieces: seq<string>)
    requires sep != []
    ensures pieces != []
    ensures forall i | 0 <= i < |pieces| :: !Contains(pieces[i], sep)
    decreases |s|
  {
    match IndexFrom(s, sep, 0)
    case None => [s]
    case Some(k) =>
      var first := s[..k];
      assert !Contains(first, sep) by {
        forall j: nat | StartsAt(first, j, sep) ensures false {
          StartsAtInPrefix(s, k, j, sep);
        }
      }
      [first] + Split(s[k + |sep|..], sep)
  }

  /** Python's `sep.join(pieces)`. */
  function Join(pieces: seq<string>, sep: string): string
  {
    if pieces == [] then []
    else if |pieces| == 1 then pieces[0]
    else pieces[0] + sep + Join(pieces[1..], sep)
  }

  /** Joining the pieces of a split with its separator gives back the text. */
  lemma {:induction false} JoinSplit(s: string, sep: string)
    requires sep != []
    ensures Join(Split(s, sep), sep) == s
    decreases |s|
  {
    match IndexFrom(s, sep, 0)
    case None =>
    case Some(k) =>
      var rest := s[k + |sep|..];
      JoinSplit(rest, sep);
      assert Split(s, sep) == [s[..k]] + Split(rest, sep);
      assert s == s[..k] + sep + rest by {
        assert s[k..k + |sep|] == sep;
        assert s == s[..k] + s[k..k + |sep|] + s[k + |sep|..];
      }
  }

  // ---------------------------------------------------------------------
  // Python str(n) for n >= 0
  // ---------------------------------------------------------------------

  predicate IsDigit(c: char)
  {
    '0' <= c <= '9'
  }

  function DigitChar(d: nat): (c: char)
    requires d < 10
    ensures IsDigit(c) && (c as int) - ('0' as int) == d
  {
    (('0' as int) + d) as char
  }

  /** Python's `str(n)`: decimal digits, no leading zero. */
  function NatToString(n: nat): (r: string)
    ensures r != [] && forall k | 0 <= k < |r| :: IsDigit(r[k])
    ensures r[0] == '0' ==> n == 0
    decreases n
  {
    if n < 10 then [DigitChar(n)] else NatToString(n / 10) + [DigitChar(n % 10)]
  }

  /** The number a string of decimal digits denotes. */
  function DigitsValue(s: string): nat
    requires forall k | 0 <= k < |s| :: IsDigit(s[k])
  {
    if s == [] then 0
    else
      var d := (s[|s| - 1] as int) - ('0' as int);
      assert IsDigit(s[|s| - 1]);
      10 * DigitsValue(s[..|s| - 1]) + d
  }

  lemma {:induction false} DigitsValueOfNatToString(n: nat)
    ensures DigitsValue(NatToString(n)) == n
    decreases n
  {
    if n >= 10 {
      DigitsValueOfNatToString(n / 10);
      var r := NatToString(n);
      assert r[..|r| - 1] == NatToString(n / 10);
    }
  }

  /** Different numbers have different decimal strings. */
  lemma NatToStringInjective(m: nat, n: nat)
    requires NatToString(m) == NatToString(n)
    ensures m == n
  {
    DigitsValueOfNatToString(m);
    DigitsValueOfNatToString(n);
  }

  // ---------------------------------------------------------------------
  // os.path.join(a, b) on POSIX
  // ---------------------------------------------------------------------

  /** `posixpath.join(a, b)`. */
  function PathJoin(a: string, b: string): (p: string)
    ensures b != [] && b[0] == '/' ==> p == b
    ensures (b == [] || b[0] != '/') && a != [] && a[|a| - 1] != '/' ==> p == a + "/" + b
  {
    if b != [] && b[0] == '/' then b
    else if a == [] || a[|a| - 1] == '/' then a + b
    else a + "/" + b
  }
}
