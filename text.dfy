/** The Python string operations the core relies on: `str.strip()`,
    `str.lower()` (for ASCII letters), `pat in s`, and the first two pieces of
    `s.split(sep)`. */
module Text {
  import opened Wrappers

  /** The characters Python's `str.strip()` removes: those for which
      `str.isspace()` holds. */
  predicate IsSpace(c: char) {
    || ('\t' <= c <= '\r')
    || ('\U{1C}' <= c <= ' ')
    || c == '\U{85}' || c == '\U{A0}' || c == '\U{1680}'
    || ('\U{2000}' <= c <= '\U{200A}')
    || c == '\U{2028}' || c == '\U{2029}' || c == '\U{202F}' || c == '\U{205F}' || c == '\U{3000}'
  }

  predicate AllSpace(s: string) {
    forall i | 0 <= i < |s| :: IsSpace(s[i])
  }

  /** Neither end of `s` is whitespace. */
  predicate IsTrimmed(s: string) {
    s == [] || (!IsSpace(s[0]) && !IsSpace(s[|s| - 1]))
  }

  function TrimStart(s: string): (r: string)
    ensures |r| <= |s| && r == s[|s| - |r|..]
    ensures r == [] || !IsSpace(r[0])
  {
    if s != [] && IsSpace(s[0]) then TrimStart(s[1..]) else s
  }

  function TrimEnd(s: string): (r: string)
    ensures |r| <= |s| && r == s[..|r|]
    ensures r == [] || !IsSpace(r[|r| - 1])
  {
    if s != [] && IsSpace(s[|s| - 1]) then TrimEnd(s[..|s| - 1]) else s
  }

  /** Only whitespace is removed from the front. */
  lemma {:induction false} TrimStartRemovesSpace(s: string)
    ensures forall i | 0 <= i < |s| - |TrimStart(s)| :: IsSpace(s[i])
  {
    if s != [] && IsSpace(s[0]) {
      var tail := s[1..];
      TrimStartRemovesSpace(tail);
      assert TrimStart(s) == TrimStart(tail);
      forall i | 1 <= i < |s| - |TrimStart(s)| ensures IsSpace(s[i]) {
        assert s[i] == tail[i - 1];
      }
    }
  }

  /** Only whitespace is removed from the back. */
  lemma {:induction false} TrimEndRemovesSpace(s: string)
    ensures forall i | |TrimEnd(s)| <= i < |s| :: IsSpace(s[i])
  {
    if s != [] && IsSpace(s[|s| - 1]) {
      var init := s[..|s| - 1];
      TrimEndRemovesSpace(init);
      assert TrimEnd(s) == TrimEnd(init);
      forall i | |TrimEnd(s)| <= i < |s| - 1 ensures IsSpace(s[i]) {
        assert s[i] == init[i];
      }
    }
  }

  /** `s.strip()`: `s` without the whitespace at either end. */
  function Strip(s: string): (r: string)
    ensures IsTrimmed(r)
  {
    TrimEnd(TrimStart(s))
  }

  /** What `Strip` keeps is one slice of its input, and all it removes on
      either side is whitespace. */
  lemma StripIsSlice(s: string) returns (a: nat, b: nat)
    ensures a <= b <= |s| && Strip(s) == s[a..b]
    ensures AllSpace(s[..a]) && AllSpace(s[b..])
  {
    var t := TrimStart(s);
    var r := TrimEnd(t);
    a, b := |s| - |t|, |s| - |t| + |r|;
    TrimStartRemovesSpace(s);
    TrimEndRemovesSpace(t);
    SliceOfSuffix(s, a, b);
    var front, back := s[..a], s[b..];
    forall i | 0 <= i < |front| ensures IsSpace(front[i]) {
      assert front[i] == s[i];
    }
    forall i | 0 <= i < |back| ensures IsSpace(back[i]) {
      assert back[i] == t[|r| + i];
    }
  }

  lemma SliceOfSuffix(s: string, a: nat, b: nat)
    requires a <= b <= |s|
    ensures s[a..][..b - a] == s[a..b]
    ensures s[a..][b - a..] == s[b..]
  {
  }

  /** Stripping a string that has no whitespace at its ends changes nothing. */
  lemma {:induction false} StripTrimmed(s: string)
    requires IsTrimmed(s)
    ensures Strip(s) == s
  {
    assert TrimStart(s) == s;
    assert TrimEnd(s) == s;
  }

  function LowerChar(c: char): (d: char)
    ensures 'A' <= c <= 'Z' ==> d as int == c as int + 32
    ensures !('A' <= c <= 'Z') ==> d == c
  {
    if 'A' <= c <= 'Z' then (c as int + 32) as char else c
  }

  predicate IsUpper(c: char) {
    'A' <= c <= 'Z'
  }

  /** `s.lower()` on the ASCII letters; every other character is kept. */
  function Lower(s: string): (r: string)
    ensures |r| == |s|
    ensures forall i | 0 <= i < |s| :: r[i] == LowerChar(s[i])
  {
    seq(|s|, i requires 0 <= i < |s| => LowerChar(s[i]))
  }

  predicate NoUpper(s: string) {
    forall i | 0 <= i < |s| :: !IsUpper(s[i])
  }

  /** `Lower` leaves no upper-case letter, and changes nothing in a string
      that has none. */
  lemma LowerProperties(s: string)
    ensures NoUpper(Lower(s))
    ensures NoUpper(s) ==> Lower(s) == s
  {
  }

  predicate OccursAt(s: string, pat: string, i: int) {
    0 <= i && i + |pat| <= |s| && s[i..i + |pat|] == pat
  }

  /** Python's `pat in s`. */
  predicate Contains(s: string, pat: string) {
    exists i | 0 <= i <= |s| :: OccursAt(s, pat, i)
  }

  function FindFrom(s: string, pat: string, k: nat): (r: Option<nat>)
    requires k <= |s|
    ensures r.Some? ==> k <= r.value && OccursAt(s, pat, r.value)
    ensures r.Some? ==> forall j | k <= j < r.value :: !OccursAt(s, pat, j)
    ensures r.None? ==> forall j | k <= j :: !OccursAt(s, pat, j)
    decreases |s| - k
  {
    if OccursAt(s, pat, k) then Some(k)
    else if k + |pat| >= |s| then None
    else FindFrom(s, pat, k + 1)
  }

  /** The position of the first occurrence of `pat` in `s` (`s.find(pat)`). */
  function IndexOf(s: string, pat: string): (r: Option<nat>)
    ensures r.Some? ==> OccursAt(s, pat, r.value)
    ensures r.Some? ==> forall j | 0 <= j < r.value :: !OccursAt(s, pat, j)
    ensures r.None? <==> !Contains(s, pat)
  {
    FindFrom(s, pat, 0)
  }

  /** `s.split(sep)[0]`: everything before the first `sep`, or all of `s`. */
  function SplitFirst(s: string, sep: string): (r: string)
    requires sep != []
    ensures |r| <= |s| && r == s[..|r|]
    ensures !Contains(r, sep)
    ensures Contains(s, sep) <==> OccursAt(s, sep, |r|)
    ensures !Contains(s, sep) ==> r == s
    ensures forall j | 0 <= j < |r| :: !OccursAt(s, sep, j)
  {
    match IndexOf(s, sep)
    case Some(i) =>
      assert !Contains(s[..i], sep) by {
        forall j | OccursAt(s[..i], sep, j) ensures false {
          assert s[..i][j..j + |sep|] == s[j..j + |sep|];
          assert OccursAt(s, sep, j) && j < i;
        }
      }
      s[..i]
    case None =>
      assert !OccursAt(s, sep, |s|) by { assert |sep| > 0; }
      s
  }

  /** What follows the first `sep` in `s`; `s.split(sep)[1]` is the
      `SplitFirst` of it. */
  function After(s: string, sep: string): (r: string)
    requires Contains(s, sep)
    ensures exists i :: OccursAt(s, sep, i) && (forall j | 0 <= j < i :: !OccursAt(s, sep, j)) && r == s[i + |sep|..]
  {
    var i := IndexOf(s, sep).value;
    s[i + |sep|..]
  }

  /** A string in which `pat` does not occur has no slice in which it occurs. */
  lemma SliceKeepsAbsence(s: string, pat: string, a: nat, b: nat)
    requires a <= b <= |s|
    requires !Contains(s, pat)
    ensures !Contains(s[a..b], pat)
  {
    forall j | OccursAt(s[a..b], pat, j) ensures false {
      assert j + |pat| <= b - a;
      var u, w := s[a..b][j..j + |pat|], s[a + j..a + j + |pat|];
      forall k | 0 <= k < |pat| ensures u[k] == w[k] {
        assert u[k] == s[a + j + k];
      }
      assert u == w;
      assert OccursAt(s, pat, a + j);
    }
  }

  /** An occurrence of a pattern is an occurrence of each of its prefixes. */
  lemma PrefixOccurs(s: string, pat: string, pre: string, i: int)
    requires OccursAt(s, pat, i)
    requires |pre| <= |pat| && pat[..|pre|] == pre
    ensures OccursAt(s, pre, i)
  {
    assert s[i..i + |pre|] == s[i..i + |pat|][..|pre|];
  }
}
