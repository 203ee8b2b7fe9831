/**
 * The string primitives the bot's logic is built from, with Python's meaning:
 * `in` on strings (substring containment), `str.lower()`, `str.upper()`,
 * `str.strip()` and `str.split()` with no argument.
 *
 * Case mapping covers ASCII letters only; whitespace is the full set of
 * characters for which Python's `str.isspace()` holds, the set that both
 * `strip()` and `split()` use.
 */
module Text {

  // ---------------------------------------------------------------------------
  // Whitespace
  // ---------------------------------------------------------------------------

  /**
   * The characters for which Python's `str.isspace()` holds: the space, tab to
   * carriage return, the four information separators, next line, no-break
   * space and the Unicode space and separator characters.
   */
  predicate IsSpace(c: char) {
    || c == ' ' || '\t' <= c <= '\r' || '\U{001C}' <= c <= '\U{001F}'
    || c == '\U{0085}' || c == '\U{00A0}' || c == '\U{1680}'
    || '\U{2000}' <= c <= '\U{200A}' || c == '\U{2028}' || c == '\U{2029}'
    || c == '\U{202F}' || c == '\U{205F}' || c == '\U{3000}'
  }

  predicate AllSpace(s: string) {
    forall i | 0 <= i < |s| :: IsSpace(s[i])
  }

  predicate NoSpace(s: string) {
    forall i | 0 <= i < |s| :: !IsSpace(s[i])
  }

  /** Neither the first nor the last character is whitespace. */
  predicate Trimmed(s: string) {
    s == [] || (!IsSpace(s[0]) && !IsSpace(s[|s| - 1]))
  }

  // ---------------------------------------------------------------------------
  // Substring containment (Python's `t in s`)
  // ---------------------------------------------------------------------------

  /** `t` occurs in `s` starting at index `i`. */
  predicate OccursAt(s: string, t: string, i: nat) {
    i + |t| <= |s| && s[i..i + |t|] == t
  }

  predicate Contains(s: string, t: string) {
    exists i: nat | i <= |s| :: OccursAt(s, t, i)
  }

  /** Python's `any(w in s for w in words)`. */
  predicate ContainsAny(s: string, words: seq<string>) {
    exists k | 0 <= k < |words| :: Contains(s, words[k])
  }

  lemma ContainsAt(s: string, t: string, i: nat)
    requires i + |t| <= |s| && s[i..i + |t|] == t
    ensures Contains(s, t)
  {
    assert OccursAt(s, t, i);
  }

  lemma ContainsOneOf(s: string, words: seq<string>, k: nat)
    requires k < |words| && Contains(s, words[k])
    ensures ContainsAny(s, words)
  {
  }

  // ---------------------------------------------------------------------------
  // Case mapping (ASCII letters)
  // ---------------------------------------------------------------------------

  predicate IsUpperAscii(c: char) { 'A' <= c <= 'Z' }

  predicate IsLowerAscii(c: char) { 'a' <= c <= 'z' }

  function LowerChar(c: char): (d: char)
    ensures !IsUpperAscii(d)
    ensures IsUpperAscii(c) ==> d as int == c as int + 32
    ensures !IsUpperAscii(c) ==> d == c
  {
    if IsUpperAscii(c) then (c as int + 32) as char else c
  }

  function UpperChar(c: char): (d: char)
    ensures !IsLowerAscii(d)
    ensures IsLowerAscii(c) ==> d as int == c as int - 32
    ensures !IsLowerAscii(c) ==> d == c
  {
    if IsLowerAscii(c) then (c as int - 32) as char else c
  }

  /** Python's `s.lower()`, restricted to ASCII letters. */
  function Lower(s: string): (r: string)
    ensures |r| == |s|
    ensures forall i | 0 <= i < |s| :: r[i] == LowerChar(s[i])
  {
    seq(|s|, i requires 0 <= i < |s| => LowerChar(s[i]))
  }

  /** Python's `s.upper()`, restricted to ASCII letters. */
  function Upper(s: string): (r: string)
    ensures |r| == |s|
    ensures forall i | 0 <= i < |s| :: r[i] == UpperChar(s[i])
  {
    seq(|s|, i requires 0 <= i < |s| => UpperChar(s[i]))
  }

  /** Lower-casing forgets whatever case the text had: `s.upper().lower() == s.lower()`. */
  lemma LowerOfUpper(s: string)
    ensures Lower(Upper(s)) == Lower(s)
  {
    forall i | 0 <= i < |s|
      ensures Lower(Upper(s))[i] == Lower(s)[i]
    {
      var c := s[i];
      if IsLowerAscii(c) {
        assert UpperChar(c) as int == c as int - 32;
      }
    }
  }

  /** `s.upper()` is the one-letter string `c` exactly when `s` is `c` in either case. */
  lemma UpperIsLetter(s: string, c: char)
    requires IsUpperAscii(c)
    ensures Upper(s) == [c] <==> (s == [c] || s == [LowerChar(c)])
  {
    if Upper(s) == [c] {
      assert |s| == 1 && UpperChar(s[0]) == c;
      if IsLowerAscii(s[0]) {
        assert s == [LowerChar(c)];
      } else {
        assert s == [c];
      }
    }
    if s == [LowerChar(c)] {
      assert Upper(s)[0] == c;
    }
  }

  // ---------------------------------------------------------------------------
  // strip()
  // ---------------------------------------------------------------------------

  /** The number of whitespace characters `s` starts with. */
  function LeadingSpaces(s: string): (n: nat)
    ensures n <= |s|
    ensures forall i | 0 <= i < n :: IsSpace(s[i])
    ensures n < |s| ==> !IsSpace(s[n])
    decreases |s|
  {
    if s != [] && IsSpace(s[0]) then
      var n := 1 + LeadingSpaces(s[1..]);
      assert forall i | 1 <= i < n :: s[i] == s[1..][i - 1];
      n
    else 0
  }

  /** The number of whitespace characters `s` ends with. */
  function TrailingSpaces(s: string): (n: nat)
    ensures n <= |s|
    ensures forall i | |s| - n <= i < |s| :: IsSpace(s[i])
    ensures n < |s| ==> !IsSpace(s[|s| - n - 1])
    decreases |s|
  {
    if s != [] && IsSpace(s[|s| - 1]) then
      var n := 1 + TrailingSpaces(s[..|s| - 1]);
      assert forall i | |s| - n <= i < |s| - 1 :: s[i] == s[..|s| - 1][i];
      n
    else 0
  }

  /** `s.lstrip()`: the suffix left after dropping leading whitespace. */
  function TrimStart(s: string): (r: string)
    ensures |r| <= |s| && r == s[|s| - |r|..]
    ensures AllSpace(s[..|s| - |r|])
    ensures r == [] || !IsSpace(r[0])
  {
    s[LeadingSpaces(s)..]
  }

  /** `s.rstrip()`: the prefix left after dropping trailing whitespace. */
  function TrimEnd(s: string): (r: string)
    ensures |r| <= |s| && r == s[..|r|]
    ensures AllSpace(s[|r|..])
    ensures r == [] || !IsSpace(r[|r| - 1])
  {
    s[..|s| - TrailingSpaces(s)]
  }

  /** Python's `s.strip()`: a piece of `s` with no whitespace at either end. */
  function Strip(s: string): (r: string)
    ensures Trimmed(r)
    ensures Contains(s, r)
  {
    var t := TrimStart(s);
    var r := TrimEnd(t);
    assert s[|s| - |t|..|s| - |t| + |r|] == r;
    ContainsAt(s, r, |s| - |t|);
    r
  }

  lemma {:induction false} LeadingSpacesOf(pre: string, t: string)
    requires AllSpace(pre) && (t == [] || !IsSpace(t[0]))
    ensures LeadingSpaces(pre + t) == |pre|
    decreases |pre|
  {
    if pre == [] {
      assert pre + t == t;
    } else {
      assert (pre + t)[1..] == pre[1..] + t;
      LeadingSpacesOf(pre[1..], t);
    }
  }

  lemma TrimStartSkips(pre: string, t: string)
    requires AllSpace(pre) && (t == [] || !IsSpace(t[0]))
    ensures TrimStart(pre + t) == t
  {
    LeadingSpacesOf(pre, t);
    assert (pre + t)[|pre|..] == t;
  }

  lemma {:induction false} TrailingSpacesOf(t: string, post: string)
    requires AllSpace(post) && (t == [] || !IsSpace(t[|t| - 1]))
    ensures TrailingSpaces(t + post) == |post|
    decreases |post|
  {
    if post == [] {
      assert t + post == t;
    } else {
      var shorter := post[..|post| - 1];
      assert (t + post)[..|t + post| - 1] == t + shorter;
      TrailingSpacesOf(t, shorter);
    }
  }

  lemma TrimEndSkips(t: string, post: string)
    requires AllSpace(post) && (t == [] || !IsSpace(t[|t| - 1]))
    ensures TrimEnd(t + post) == t
  {
    TrailingSpacesOf(t, post);
    assert (t + post)[..|t|] == t;
  }

  /** Stripping removes exactly the surrounding whitespace and nothing else. */
  lemma StripSurrounded(pre: string, t: string, post: string)
    requires AllSpace(pre) && AllSpace(post) && Trimmed(t)
    ensures Strip(pre + t + post) == t
  {
    assert pre + t + post == pre + (t + post);
    if t == [] {
      assert t + post == post;
      TrimStartSkips(pre + post, []);
      assert pre + post + [] == pre + post;
      assert AllSpace(pre + post);
    } else {
      TrimStartSkips(pre, t + post);
    }
    TrimEndSkips(t, post);
  }

  /** Stripping yields the empty string exactly for whitespace-only text. */
  lemma StripEmptyIff(s: string)
    ensures Strip(s) == [] <==> AllSpace(s)
  {
    if AllSpace(s) {
      StripSurrounded(s, [], []);
      assert s + [] + [] == s;
    } else {
      var i :| 0 <= i < |s| && !IsSpace(s[i]);
      var t := TrimStart(s);
      assert |t| > 0 && !IsSpace(t[0]);
    }
  }

  /** The whitespace `strip()` removes in front. */
  function Leading(s: string): (p: string)
    ensures AllSpace(p)
  {
    s[..LeadingSpaces(s)]
  }

  /** The whitespace `strip()` removes behind. */
  function Trailing(s: string): (p: string)
    ensures AllSpace(p)
  {
    var t := TrimStart(s);
    var r := TrimEnd(t);
    assert forall i | 0 <= i < |t| - |r| :: t[|r|..][i] == t[i + |r|];
    t[|r|..]
  }

  /** Every text is its strip with the removed whitespace before and after it. */
  lemma StripParts(s: string)
    ensures s == Leading(s) + Strip(s) + Trailing(s)
  {
    var n := LeadingSpaces(s);
    var t := TrimStart(s);
    var r := TrimEnd(t);
    var m := n + |r|;
    assert Leading(s) == s[..n];
    assert Strip(s) == s[n..m] by {
      assert t == s[n..];
    }
    assert Trailing(s) == s[m..] by {
      assert t == s[n..];
    }
    SliceParts(s, n, m);
  }

  lemma SliceParts(s: string, i: nat, j: nat)
    requires i <= j <= |s|
    ensures s == s[..i] + s[i..j] + s[j..]
  {
  }

  /** A string with nothing to strip is its own strip. */
  lemma StripTrimmed(t: string)
    requires Trimmed(t)
    ensures Strip(t) == t
  {
    assert LeadingSpaces(t) == 0;
    assert t[0..] == t;
    assert TrailingSpaces(t) == 0;
    assert t[..|t|] == t;
  }

  // ---------------------------------------------------------------------------
  // split()
  // ---------------------------------------------------------------------------

  /** The longest prefix of `s` without whitespace. */
  function TakeWord(s: string): (w: string)
    ensures |w| <= |s|
    ensures forall i | 0 <= i < |w| :: w[i] == s[i]
    ensures NoSpace(w)
    ensures |w| < |s| ==> IsSpace(s[|w|])
    ensures s != [] && !IsSpace(s[0]) ==> |w| > 0
    decreases |s|
  {
    if s == [] || IsSpace(s[0]) then [] else [s[0]] + TakeWord(s[1..])
  }

  /** A word of `split()`: non-empty and free of whitespace. */
  predicate IsWord(w: string) { w != [] && NoSpace(w) }

  /** Python's `s.split()`: the maximal runs of non-whitespace, in order. */
  function Split(s: string): seq<string>
    decreases |s|
  {
    var t := TrimStart(s);
    if t == [] then []
    else
      var w := TakeWord(t);
      [w] + Split(t[|w|..])
  }

  /** Every piece `split()` returns is a word. */
  lemma {:induction false} SplitGivesWords(s: string)
    ensures forall w | w in Split(s) :: IsWord(w)
    decreases |s|
  {
    var t := TrimStart(s);
    if t != [] {
      var w := TakeWord(t);
      SplitGivesWords(t[|w|..]);
    }
  }

  lemma {:induction false} TakeWordOf(w: string, rest: string)
    requires NoSpace(w) && (rest == [] || IsSpace(rest[0]))
    ensures TakeWord(w + rest) == w
    decreases |w|
  {
    if w == [] {
      assert w + rest == rest;
    } else {
      assert (w + rest)[1..] == w[1..] + rest;
      TakeWordOf(w[1..], rest);
      assert [w[0]] + w[1..] == w;
    }
  }

  /** A word followed by a space (or by nothing) is the first word of the split. */
  lemma SplitCons(w: string, rest: string)
    requires IsWord(w) && (rest == [] || IsSpace(rest[0]))
    ensures Split(w + rest) == [w] + Split(rest)
  {
    var s := w + rest;
    assert s[0] == w[0];
    assert TrimStart(s) == s;
    TakeWordOf(w, rest);
    assert s[|w|..] == rest;
  }

  /** Every element is a word, stated element by element from the front. */
  predicate AllWords(ws: seq<string>) {
    ws == [] || (IsWord(ws[0]) && AllWords(ws[1..]))
  }

  /** Text that is all whitespace has no words. */
  lemma {:induction false} SplitBlank(s: string)
    requires AllSpace(s)
    ensures Split(s) == []
  {
    TrimStartSkips(s, []);
    assert s + [] == s;
  }

  lemma {:induction false} LeadingSpacesPastBlank(pre: string, s: string)
    requires AllSpace(pre)
    ensures LeadingSpaces(pre + s) == |pre| + LeadingSpaces(s)
    decreases |pre|
  {
    if pre == [] {
      assert pre + s == s;
    } else {
      assert (pre + s)[1..] == pre[1..] + s;
      LeadingSpacesPastBlank(pre[1..], s);
    }
  }

  /** Whitespace in front of a text does not change its words. */
  lemma SplitPastBlank(pre: string, s: string)
    requires AllSpace(pre)
    ensures Split(pre + s) == Split(s)
  {
    LeadingSpacesPastBlank(pre, s);
    assert (pre + s)[|pre| + LeadingSpaces(s)..] == s[LeadingSpaces(s)..];
    assert TrimStart(pre + s) == TrimStart(s);
  }

  /** Words each followed by its run of whitespace: `w0 + s0 + w1 + s1 + ...`. */
  function Spaced(ws: seq<string>, seps: seq<string>): string
    requires |seps| == |ws|
    decreases |ws|
  {
    if ws == [] then "" else ws[0] + (seps[0] + Spaced(ws[1..], seps[1..]))
  }

  /** Every run is whitespace, and every run but the last separates two words, so is not empty. */
  predicate Separators(seps: seq<string>) {
    forall i | 0 <= i < |seps| :: AllSpace(seps[i]) && (i < |seps| - 1 ==> seps[i] != [])
  }

  /**
   * `split()` recovers the words of any text made of words and whitespace:
   * runs of any length and kind between the words, and blanks before and after.
   */
  lemma {:induction false} SplitSpaced(pre: string, ws: seq<string>, seps: seq<string>)
    requires AllSpace(pre) && AllWords(ws) && |seps| == |ws| && Separators(seps)
    ensures Split(pre + Spaced(ws, seps)) == ws
    decreases |ws|
  {
    var text := Spaced(ws, seps);
    if ws == [] {
      SplitBlank(text);
    } else {
      var w, sep, rest := ws[0], seps[0], Spaced(ws[1..], seps[1..]);
      assert Split(sep + rest) == ws[1..] by {
        assert Separators(seps[1..]) by {
          assert forall i | 0 <= i < |seps| - 1 :: seps[1..][i] == seps[i + 1];
        }
        SplitSpaced(sep, ws[1..], seps[1..]);
      }
      assert Split(w + (sep + rest)) == [w] + Split(sep + rest) by {
        if |ws| == 1 {
          assert sep + rest == sep;
        } else {
          assert (sep + rest)[0] == sep[0];
        }
        SplitCons(w, sep + rest);
      }
      assert text == w + (sep + rest);
      assert ws == [w] + ws[1..];
    }
    SplitPastBlank(pre, text);
  }
}
