/**
 * String helpers shared by the client and the server: whitespace trimming
 * (JavaScript `String.prototype.trim` on the client, Python `str.strip` on
 * the server, which disagree on four ASCII control characters) and
 * lower-casing (Python `str.lower`), all restricted to ASCII.
 */
module Text {

  /** Whose whitespace: JavaScript's `trim` on the client, Python's `str.strip()` on the server. */
  datatype Language = JavaScript | Python

  /**
   * The ASCII whitespace of each language: tab, LF, VT, FF and CR (U+0009 to
   * U+000D) and the space for both, and for Python also the information
   * separators U+001C to U+001F, which `str.isspace` counts and JavaScript's
   * `trim` does not.
   */
  predicate IsSpace(c: char, lang: Language) {
    ('\t' <= c <= '\r') || ((if lang == Python then '\U{1C}' else ' ') <= c <= ' ')
  }

  predicate AllSpace(s: string, lang: Language) {
    forall k :: 0 <= k < |s| ==> IsSpace(s[k], lang)
  }

  /** The characters of `s` at indices `lo` up to `hi` are all whitespace. */
  predicate SpaceBetween(s: string, lang: Language, lo: int, hi: int) {
    forall k :: lo <= k < hi && 0 <= k < |s| ==> IsSpace(s[k], lang)
  }

  /** Where trimming starts: the first index from `i` on whose character is not whitespace, or `|s|`. */
  function TrimStart(s: string, lang: Language, i: int): (k: int)
    requires 0 <= i <= |s|
    ensures i <= k <= |s| && SpaceBetween(s, lang, i, k)
    ensures k < |s| ==> !IsSpace(s[k], lang)
    decreases |s| - i
  {
    if i < |s| && IsSpace(s[i], lang) then TrimStart(s, lang, i + 1) else i
  }

  /** Where trimming ends: the index after the last character below `j` (and from `lo` on) that is not whitespace, or `lo`. */
  function TrimEnd(s: string, lang: Language, lo: int, j: int): (k: int)
    requires 0 <= lo <= j <= |s|
    ensures lo <= k <= j && SpaceBetween(s, lang, k, j)
    ensures k > lo ==> !IsSpace(s[k - 1], lang)
    decreases j
  {
    if lo < j && IsSpace(s[j - 1], lang) then TrimEnd(s, lang, lo, j - 1) else j
  }

  /** Whitespace trimmed from both ends. */
  function TrimWith(s: string, lang: Language): string {
    var i := TrimStart(s, lang, 0);
    s[i..TrimEnd(s, lang, i, |s|)]
  }

  /**
   * Trimming keeps a contiguous middle part, removes only whitespace and
   * leaves none at either end, and yields "" exactly on all-whitespace input.
   */
  lemma TrimSpec(s: string, lang: Language)
    ensures var r := TrimWith(s, lang);
      exists i, j :: 0 <= i <= j <= |s| && r == s[i..j] && SpaceBetween(s, lang, 0, i) && SpaceBetween(s, lang, j, |s|)
    ensures var r := TrimWith(s, lang);
      r != [] ==> !IsSpace(r[0], lang) && !IsSpace(r[|r| - 1], lang)
    ensures TrimWith(s, lang) == [] <==> AllSpace(s, lang)
  {
    var i := TrimStart(s, lang, 0);
    var j := TrimEnd(s, lang, i, |s|);
    assert SpaceBetween(s, lang, i, |s|) ==> AllSpace(s, lang);
  }

  /**
   * Whitespace, a middle that neither starts nor ends with whitespace,
   * whitespace: the middle is the trim.
   */
  lemma TrimWithAt(s: string, lang: Language, i: int, j: int)
    requires 0 <= i < j <= |s| && SpaceBetween(s, lang, 0, i) && SpaceBetween(s, lang, j, |s|)
    requires !IsSpace(s[i], lang) && !IsSpace(s[j - 1], lang)
    ensures TrimWith(s, lang) == s[i..j]
  {
    var a := TrimStart(s, lang, 0);
    assert a == i;
    var b := TrimEnd(s, lang, i, |s|);
    assert b == j;
  }

  /** JavaScript's `trim`. */
  function Trim(s: string): (r: string)
    ensures r == [] <==> AllSpace(s, JavaScript)
  {
    TrimSpec(s, JavaScript);
    TrimWith(s, JavaScript)
  }

  /** Python's `str.strip()`. */
  function Strip(s: string): (r: string)
    ensures r == [] <==> AllSpace(s, Python)
  {
    TrimSpec(s, Python);
    TrimWith(s, Python)
  }

  /** A slice `t = s[a..b]` around the strip `s[i..j]` of `s` strips to `s[i..j]` as well. */
  lemma StripInside(s: string, t: string, a: int, b: int, i: int, j: int)
    requires 0 <= a <= i < j <= b <= |s| && t == s[a..b]
    requires SpaceBetween(s, Python, 0, i) && SpaceBetween(s, Python, j, |s|)
    requires !IsSpace(s[i], Python) && !IsSpace(s[j - 1], Python)
    ensures TrimWith(t, Python) == s[i..j]
  {
    assert SpaceBetween(t, Python, 0, i - a) by {
      forall k | 0 <= k < i - a ensures IsSpace(t[k], Python) {
        assert t[k] == s[a + k];
      }
    }
    assert SpaceBetween(t, Python, j - a, |t|) by {
      forall k | j - a <= k < |t| ensures IsSpace(t[k], Python) {
        assert t[k] == s[a + k];
      }
    }
    assert t[i - a] == s[i] && t[j - a - 1] == s[j - 1];
    TrimWithAt(t, Python, i - a, j - a);
    assert t[i - a..j - a] == s[i..j];
  }

  /**
   * The server's `strip` of what the client's `trim` sent is the server's
   * `strip` of the raw text: over the ASCII whitespace modelled here the
   * client's pass never changes the server's outcome, because every ASCII
   * character `trim` removes `strip` removes too. (Beyond ASCII this fails:
   * JavaScript's `trim` removes U+FEFF, which Python's `strip` keeps.)
   */
  lemma StripAfterTrim(s: string)
    ensures Strip(Trim(s)) == Strip(s)
  {
    var a := TrimStart(s, JavaScript, 0);
    var b := TrimEnd(s, JavaScript, a, |s|);
    var t := s[a..b];
    if AllSpace(s, Python) {
      assert AllSpace(t, Python) by {
        forall k | 0 <= k < |t| ensures IsSpace(t[k], Python) {
          assert t[k] == s[a + k];
        }
      }
    } else {
      var i := TrimStart(s, Python, 0);
      var j := TrimEnd(s, Python, i, |s|);
      TrimSpec(s, Python);
      assert i < j;
      assert a <= i && j <= b;
      StripInside(s, t, a, b, i, j);
    }
  }

  /**
   * The two trims disagree on U+001C to U+001F: JavaScript keeps them and
   * Python drops them, so text the client sends can still change, or turn
   * blank, on the server.
   */
  lemma TrimKeepsSeparators()
    ensures Trim("a\U{1C}") == "a\U{1C}" && Strip("a\U{1C}") == "a"
    ensures Trim("\U{1C}") == "\U{1C}" && Strip("\U{1C}") == ""
  {
    var s := "a\U{1C}";
    TrimWithAt(s, JavaScript, 0, 2);
    assert s[0..2] == s;
    TrimWithAt(s, Python, 0, 1);
    assert s[0..1] == "a";
    var u := "\U{1C}";
    TrimWithAt(u, JavaScript, 0, 1);
    assert u[0..1] == u;
    assert !AllSpace(u, JavaScript) && AllSpace(u, Python);
  }

  function LowerChar(c: char): (d: char)
    ensures 'A' <= c <= 'Z' ==> 'a' <= d <= 'z' && d as int - c as int == 32
    ensures !('A' <= c <= 'Z') ==> d == c
  {
    if 'A' <= c <= 'Z' then (c as int + 32) as char else c
  }

  /** ASCII lower-casing, character by character. */
  function Lower(s: string): (r: string)
    ensures |r| == |s|
    ensures forall i :: 0 <= i < |s| ==> r[i] == LowerChar(s[i])
  {
    seq(|s|, i requires 0 <= i < |s| => LowerChar(s[i]))
  }
}
