/** Text primitives used by the tracker: ASCII case folding, the `\w` character
    class, regular-expression word boundaries, the whole-word keyword search
    that `re.search(r'\b<kw>\b', content, re.IGNORECASE)` performs on an
    escaped (literal) keyword, Python's substring test `w in s`, the
    `str.startswith` test and the decimal rendering `str(n)` of an id. */
module Text {

  /** `\w` restricted to ASCII: letters, digits and the underscore. */
  predicate IsWordChar(c: char) {
    ('a' <= c <= 'z') || ('A' <= c <= 'Z') || ('0' <= c <= '9') || c == '_'
  }

  /** `str.lower()` on one character, restricted to ASCII. */
  function LowerChar(c: char): char {
    if 'A' <= c <= 'Z' then (c as int + ('a' as int - 'A' as int)) as char else c
  }

  /** `str.lower()` restricted to ASCII letters. */
  function Lower(s: string): (r: string)
    ensures |r| == |s|
  {
    seq(|s|, i requires 0 <= i < |s| => LowerChar(s[i]))
  }

  /** A lower-cased string is its own lower case: the keys stored under
      `word.lower()` are fixed points of `Lower`. */
  lemma LowerIdempotent(s: string)
    ensures Lower(Lower(s)) == Lower(s)
  {
    forall i | 0 <= i < |s|
      ensures Lower(Lower(s))[i] == Lower(s)[i]
    {
      var c := s[i];
      if 'A' <= c <= 'Z' {
        assert 'a' <= LowerChar(c) <= 'z';
      }
    }
  }

  /** Lower-casing commutes with slicing. */
  lemma LowerSlice(s: string, i: int, j: int)
    requires 0 <= i <= j <= |s|
    ensures Lower(s[i..j]) == Lower(s)[i..j]
  {
  }

  /** Position `p` holds a word character (out-of-range positions do not). */
  predicate WordAt(s: string, p: int) {
    0 <= p < |s| && IsWordChar(s[p])
  }

  /** `\b` at position `p`: a word character on exactly one side of `p`. */
  predicate Boundary(s: string, p: int) {
    WordAt(s, p - 1) != WordAt(s, p)
  }

  /** The keyword occurs case-insensitively at `i` with `\b` on both ends. */
  predicate WholeWordAt(kw: string, s: string, i: int) {
    && 0 <= i && i + |kw| <= |s|
    && Lower(s[i..i + |kw|]) == Lower(kw)
    && Boundary(s, i) && Boundary(s, i + |kw|)
  }

  /** The meaning of `re.search(rf'\b{re.escape(kw)}\b', s, re.IGNORECASE)`
      succeeding. */
  ghost predicate WholeWordMatch(kw: string, s: string) {
    exists i :: WholeWordAt(kw, s, i)
  }

  /** Left-to-right scan for a whole-word occurrence starting at `from` or later. */
  function SearchWholeWord(kw: string, s: string, from: nat): (r: bool)
    ensures r <==> exists i :: from <= i && WholeWordAt(kw, s, i)
    decreases |s| + 1 - from
  {
    if from + |kw| > |s| then false
    else WholeWordAt(kw, s, from) || SearchWholeWord(kw, s, from + 1)
  }

  /** The keyword test of the history scan. */
  function Matches(kw: string, s: string): (r: bool)
    ensures r <==> WholeWordMatch(kw, s)
  {
    SearchWholeWord(kw, s, 0)
  }

  /** `w` occurs literally at position `i` of `s`. */
  predicate OccursAt(w: string, s: string, i: int) {
    0 <= i && i + |w| <= |s| && s[i..i + |w|] == w
  }

  /** The meaning of Python's `w in s` on strings. */
  ghost predicate IsSubstring(w: string, s: string) {
    exists i :: OccursAt(w, s, i)
  }

  /** Left-to-right scan for `w` starting at `from` or later. */
  function SearchSubstring(w: string, s: string, from: nat): (r: bool)
    ensures r <==> exists i :: from <= i && OccursAt(w, s, i)
    decreases |s| + 1 - from
  {
    if from + |w| > |s| then false
    else OccursAt(w, s, from) || SearchSubstring(w, s, from + 1)
  }

  /** Python's `w in s`. */
  function Contains(s: string, w: string): (r: bool)
    ensures r <==> IsSubstring(w, s)
  {
    SearchSubstring(w, s, 0)
  }

  /** A whole-word, case-insensitive match is in particular an occurrence of
      the lower-cased keyword in the lower-cased text, so every record logged
      for a keyword is caught by the substring purge for that keyword. */
  lemma WholeWordImpliesContains(kw: string, s: string)
    requires WholeWordMatch(kw, s)
    ensures Contains(Lower(s), Lower(kw))
  {
    var i :| WholeWordAt(kw, s, i);
    LowerSlice(s, i, i + |kw|);
    assert OccursAt(Lower(kw), Lower(s), i);
  }

  /** Python's `s.startswith(p)`. */
  predicate StartsWith(s: string, p: string) {
    |p| <= |s| && s[..|p|] == p
  }

  function DigitChar(d: nat): (c: char)
    requires d < 10
    ensures '0' <= c <= '9'
  {
    ('0' as int + d) as char
  }

  /** `str(n)` for a non-negative integer id. */
  function DecimalString(n: nat): (r: string)
    ensures 1 <= |r|
    ensures n >= 10 ==> 2 <= |r|
    ensures forall i :: 0 <= i < |r| ==> '0' <= r[i] <= '9'
    decreases n
  {
    if n < 10 then [DigitChar(n)] else DecimalString(n / 10) + [DigitChar(n % 10)]
  }

  /** Distinct ids give distinct strings, so the string keys of the message
      log keep the channels of the platform apart. */
  lemma {:induction false} DecimalStringInjective(a: nat, b: nat)
    requires DecimalString(a) == DecimalString(b)
    ensures a == b
  {
    if a < 10 && b < 10 {
      assert DecimalString(a)[0] == DigitChar(a);
    } else if a >= 10 && b >= 10 {
      var sa, sb := DecimalString(a), DecimalString(b);
      assert sa[|sa| - 1] == DigitChar(a % 10);
      assert sb[|sb| - 1] == DigitChar(b % 10);
      assert DecimalString(a / 10) == sa[..|sa| - 1];
      assert DecimalString(b / 10) == sb[..|sb| - 1];
      DecimalStringInjective(a / 10, b / 10);
    }
  }

  /** `"cat"` is found as a word in `"the cat sat"`, also when written in
      upper case. */
  lemma CatSatMatches()
    ensures Matches("cat", "the cat sat")
    ensures Matches("cat", "The CAT sat")
  {
    assert WholeWordAt("cat", "the cat sat", 4);
    assert WholeWordAt("cat", "The CAT sat", 4);
  }

  /** `"cat"` is not found as a word inside `"concatenate"`. */
  lemma ConcatenateDoesNotMatch()
    ensures !Matches("cat", "concatenate")
  {
    var s := "concatenate";
    forall i | 0 <= i && i + 3 <= |s|
      ensures !WholeWordAt("cat", s, i)
    {
      assert WordAt(s, i);
    }
  }
}
