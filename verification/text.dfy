/** Text helpers the parsers rely on: match spans, whitespace trimming,
    character search, and leftmost-first search for an alternation of
    literal strings (the only kind of regular expression the mode
    recognizer uses). Text is a sequence of characters; byte offsets of
    UTF-8 strings are modelled as character positions. */
module Text {
  import opened Wrappers

  /** The half-open span [start, end) of a match within some text. */
  datatype Match = Match(start: nat, end: nat)

  /** The Unicode White_Space characters, which Rust's `str::trim` removes. */
  predicate IsWhitespace(c: char) {
    || ('\U{9}' <= c <= '\U{D}')
    || c == ' '
    || c == '\U{85}'
    || c == '\U{A0}'
    || c == '\U{1680}'
    || ('\U{2000}' <= c <= '\U{200A}')
    || c == '\U{2028}'
    || c == '\U{2029}'
    || c == '\U{202F}'
    || c == '\U{205F}'
    || c == '\U{3000}'
  }

  /** `s` without its leading whitespace. */
  function TrimStart(s: string): (r: string)
    ensures |r| <= |s| && r == s[|s| - |r|..]
    ensures forall i :: 0 <= i < |s| - |r| ==> IsWhitespace(s[i])
    ensures |r| > 0 ==> !IsWhitespace(r[0])
  {
    if |s| > 0 && IsWhitespace(s[0]) then TrimStart(s[1..]) else s
  }

  /** `s` without its trailing whitespace. */
  function TrimEnd(s: string): (r: string)
    ensures |r| <= |s| && r == s[..|r|]
    ensures forall i :: |r| <= i < |s| ==> IsWhitespace(s[i])
    ensures |r| > 0 ==> !IsWhitespace(r[|r| - 1])
  {
    if |s| > 0 && IsWhitespace(s[|s| - 1]) then TrimEnd(s[..|s| - 1]) else s
  }

  /** Cutting `s` down to `s[a..b]` removes only whitespace. */
  ghost predicate CutsOnlyWhitespace(s: string, a: nat, b: nat) {
    && a <= b <= |s|
    && (forall i :: 0 <= i < a ==> IsWhitespace(s[i]))
    && (forall i :: b <= i < |s| ==> IsWhitespace(s[i]))
  }

  /** `s` without leading and trailing whitespace (Rust's `str::trim`): a
      slice of `s` obtained by removing only whitespace, which neither starts
      nor ends with whitespace. */
  function Trim(s: string): (r: string)
    ensures |r| <= |s|
    ensures exists a: nat, b: nat :: CutsOnlyWhitespace(s, a, b) && r == s[a..b]
    ensures |r| > 0 ==> !IsWhitespace(r[0]) && !IsWhitespace(r[|r| - 1])
    ensures (forall i :: 0 <= i < |s| ==> !IsWhitespace(s[i])) ==> r == s
  {
    var t := TrimStart(s);
    var r := TrimEnd(t);
    var a := |s| - |t|;
    assert r == s[a..a + |r|] && CutsOnlyWhitespace(s, a, a + |r|) by {
      forall i | a + |r| <= i < |s|
        ensures IsWhitespace(s[i])
      {
        assert s[i] == t[i - a];
      }
    }
    r
  }

  /** The position of the first occurrence of `c` in `s` (Rust's `str::find`
      with a character pattern). */
  function FindChar(s: string, c: char): (r: Option<nat>)
    ensures r.Some? ==> r.value < |s| && s[r.value] == c
    ensures r.Some? ==> forall j :: 0 <= j < r.value ==> s[j] != c
    ensures r.None? <==> c !in s
  {
    if |s| == 0 then None
    else if s[0] == c then Some(0)
    else match FindChar(s[1..], c)
      case None => None
      case Some(k) => Some(k + 1)
  }

  /** The characters of `a` from the `j`-th on agree with those of `text`
      from position `i + j` on. */
  predicate AgreesFrom(text: string, a: string, i: nat, j: nat)
    decreases |a| - j
  {
    j >= |a| || (i + j < |text| && text[i + j] == a[j] && AgreesFrom(text, a, i, j + 1))
  }

  /** The literal `a` occurs in `text` starting at position `i`. */
  predicate MatchesAt(text: string, a: string, i: nat) {
    i + |a| <= |text| && AgreesFrom(text, a, i, 0)
  }

  lemma {:induction false} AgreesFromIndexwise(text: string, a: string, i: nat, j: nat)
    requires j <= |a| && i + |a| <= |text|
    ensures AgreesFrom(text, a, i, j) <==> forall t :: j <= t < |a| ==> text[i + t] == a[t]
    decreases |a| - j
  {
    if j < |a| {
      AgreesFromIndexwise(text, a, i, j + 1);
    }
  }

  /** `a` occurs at `i` exactly when the text from `i` on spells `a`. */
  lemma MatchesAtSlice(text: string, a: string, i: nat)
    requires i + |a| <= |text|
    ensures MatchesAt(text, a, i) <==> text[i..i + |a|] == a
  {
    AgreesFromIndexwise(text, a, i, 0);
    if MatchesAt(text, a, i) {
      assert forall t :: 0 <= t < |a| ==> text[i..i + |a|][t] == a[t];
    }
  }

  /** Some alternative of `alts` occurs somewhere in `text`. */
  ghost predicate Occurs(text: string, alts: seq<string>) {
    exists k: nat, i: nat :: k < |alts| && MatchesAt(text, alts[k], i)
  }

  /** `m` is the match that leftmost-first search for the alternation `alts`
      finds in `text`: no alternative occurs before `m.start`, and at
      `m.start` the matched text is the first listed alternative that occurs
      there. */
  ghost predicate IsLeftmostFirst(text: string, alts: seq<string>, m: Match) {
    IsLeftmostFirstFrom(text, alts, 0, m)
  }

  /** The index of the first alternative, from the `k`-th on, that occurs at
      position `i` of `text`. */
  function FirstAltAt(text: string, alts: seq<string>, i: nat, k: nat): (r: Option<nat>)
    requires k <= |alts|
    ensures r.Some? ==> k <= r.value < |alts| && MatchesAt(text, alts[r.value], i)
    ensures r.Some? ==> forall j :: k <= j < r.value ==> !MatchesAt(text, alts[j], i)
    ensures r.None? ==> forall j :: k <= j < |alts| ==> !MatchesAt(text, alts[j], i)
    decreases |alts| - k
  {
    if k == |alts| then None
    else if MatchesAt(text, alts[k], i) then Some(k)
    else FirstAltAt(text, alts, i, k + 1)
  }

  /** Leftmost-first search for the alternation `alts`, starting at
      position `i`. */
  function FindFrom(text: string, alts: seq<string>, i: nat): (r: Option<Match>)
    requires i <= |text|
    ensures r.Some? ==> i <= r.value.start
    ensures r.Some? ==> IsLeftmostFirstFrom(text, alts, i, r.value)
    ensures r.None? ==> forall k: nat, p: nat :: k < |alts| && i <= p ==> !MatchesAt(text, alts[k], p)
    decreases |text| - i
  {
    match FirstAltAt(text, alts, i, 0)
    case Some(k) => Some(Match(i, i + |alts[k]|))
    case None =>
      if i == |text| then None
      else FindFrom(text, alts, i + 1)
  }

  /** Like `IsLeftmostFirst`, for a search that starts at position `from`. */
  ghost predicate IsLeftmostFirstFrom(text: string, alts: seq<string>, from: nat, m: Match) {
    && (forall k: nat, i: nat :: k < |alts| && from <= i < m.start ==> !MatchesAt(text, alts[k], i))
    && exists k: nat :: k < |alts| && MatchesAt(text, alts[k], m.start) && m.end == m.start + |alts[k]|
                      && forall j :: 0 <= j < k ==> !MatchesAt(text, alts[j], m.start)
  }

  /** Rust's `Regex::find` for a pattern that is an alternation of the
      literals `alts`: the leftmost match, taking at that position the first
      alternative in listed order. */
  function Find(text: string, alts: seq<string>): (r: Option<Match>)
    ensures r.Some? ==> IsLeftmostFirst(text, alts, r.value)
    ensures r.None? <==> !Occurs(text, alts)
  {
    FindFrom(text, alts, 0)
  }

  /** A leftmost-first match lies within the text and spells one of the
      alternatives. */
  lemma MatchedTextIsAlternative(text: string, alts: seq<string>, m: Match)
    requires IsLeftmostFirst(text, alts, m)
    ensures m.start <= m.end <= |text|
    ensures text[m.start..m.end] in alts
  {
    var k: nat :| k < |alts| && MatchesAt(text, alts[k], m.start) && m.end == m.start + |alts[k]|;
    MatchesAtSlice(text, alts[k], m.start);
  }

  /** Leftmost-first search is deterministic: there is only one such match. */
  lemma LeftmostFirstUnique(text: string, alts: seq<string>, m1: Match, m2: Match)
    requires IsLeftmostFirst(text, alts, m1) && IsLeftmostFirst(text, alts, m2)
    ensures m1 == m2
  {
    var k1: nat :| k1 < |alts| && MatchesAt(text, alts[k1], m1.start) && m1.end == m1.start + |alts[k1]|
                   && forall j :: 0 <= j < k1 ==> !MatchesAt(text, alts[j], m1.start);
    var k2: nat :| k2 < |alts| && MatchesAt(text, alts[k2], m2.start) && m2.end == m2.start + |alts[k2]|
                   && forall j :: 0 <= j < k2 ==> !MatchesAt(text, alts[j], m2.start);
    assert m1.start == m2.start;
    assert k1 == k2;
  }
}
