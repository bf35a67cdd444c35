/** `Chord::from_regex`: a root pitch class, a quality, an optional number
    and an optional bass note after a slash. The pitch-class, quality and
    number recognizers live in files that are not part of this model; they
    are parameters here, each answering with its value and the span it
    matched. */
module ChordParse {
  import opened Wrappers
  import opened Text
  import opened Music
  import opened Chords
  import opened Voicing

  /** `PitchClass::from_regex`: the pitch class and the span it matched. */
  type PitchParser = string -> Result<(PitchClass, Match), NoteError>

  /** `Quality::from_regex`: the quality and, if quality text was matched,
      its span. */
  type QualityParser = string -> Result<(Quality, Option<Match>), ChordError>

  /** `Number::from_regex`: the number and, if number text was matched, its
      span. */
  type NumberParser = string -> Result<(Number, Option<Match>), ChordError>

  /** Where the main clause ends: at the first slash, or at the end of the
      text when there is none. */
  function ClauseEnd(text: string): (e: nat)
    ensures e <= |text|
    ensures e < |text| <==> '/' in text
    ensures e < |text| ==> text[e] == '/'
    ensures '/' !in text[..e]
  {
    match FindChar(text, '/')
    case Some(s) => s
    case None => |text|
  }

  /** The text the quality is read from: the part of the text from the end
      of the root's match up to the slash, with only surrounding whitespace
      removed. It holds no slash. */
  function MainClause(text: string, rootEnd: nat): (r: string)
    requires rootEnd <= ClauseEnd(text)
    ensures exists a: nat, b: nat :: ClauseCut(text, rootEnd, a, b) && r == text[a..b]
    ensures |r| > 0 ==> !IsWhitespace(r[0]) && !IsWhitespace(r[|r| - 1])
    ensures '/' !in r
  {
    var e := ClauseEnd(text);
    var u := text[rootEnd..e];
    var r := Trim(u);
    TrimmedClauseIsCut(text, rootEnd, e);
    r
  }

  /** Trimming `text[rootEnd..e]`, with `e` the first slash, cuts only
      whitespace between `rootEnd` and the slash and leaves no slash. */
  lemma TrimmedClauseIsCut(text: string, rootEnd: nat, e: nat)
    requires e == ClauseEnd(text) && rootEnd <= e
    ensures exists a: nat, b: nat :: ClauseCut(text, rootEnd, a, b) && Trim(text[rootEnd..e]) == text[a..b]
    ensures '/' !in Trim(text[rootEnd..e])
  {
    var u := text[rootEnd..e];
    var r := Trim(u);
    var a': nat, b': nat :| CutsOnlyWhitespace(u, a', b') && r == u[a'..b'];
    CutOfSlice(text, rootEnd, e, a', b');
    assert ClauseCut(text, rootEnd, rootEnd + a', rootEnd + b');
    NoCharInSubslice(text, e, rootEnd + a', rootEnd + b', '/');
  }

  /** A slice of a slice is a slice of the whole. */
  lemma SliceOfSlice<T>(s: seq<T>, i: nat, j: nat, a: nat, b: nat)
    requires i <= j <= |s| && a <= b <= j - i
    ensures s[i..j][a..b] == s[i + a..i + b]
  {
    forall k | 0 <= k < b - a
      ensures s[i..j][a..b][k] == s[i + a..i + b][k]
    {
    }
  }

  /** A whitespace-only cut of `text[lo..hi]`, read as positions of `text`. */
  lemma CutOfSlice(text: string, lo: nat, hi: nat, a: nat, b: nat)
    requires lo <= hi <= |text| && CutsOnlyWhitespace(text[lo..hi], a, b)
    ensures lo + b <= hi
    ensures forall i :: lo <= i < lo + a ==> IsWhitespace(text[i])
    ensures forall i :: lo + b <= i < hi ==> IsWhitespace(text[i])
    ensures text[lo..hi][a..b] == text[lo + a..lo + b]
  {
    forall i | lo <= i < lo + a
      ensures IsWhitespace(text[i])
    {
      assert text[i] == text[lo..hi][i - lo];
    }
    forall i | lo + b <= i < hi
      ensures IsWhitespace(text[i])
    {
      assert text[i] == text[lo..hi][i - lo];
    }
    SliceOfSlice(text, lo, hi, a, b);
  }

  /** A character absent from a prefix is absent from every slice of it. */
  lemma NoCharInSubslice(text: string, e: nat, a: nat, b: nat, c: char)
    requires a <= b <= e <= |text| && c !in text[..e]
    ensures c !in text[a..b]
  {
    forall j | 0 <= j < b - a
      ensures text[a..b][j] != c
    {
      assert text[a..b][j] == text[..e][a + j];
    }
  }

  /** `text[a..b]` lies between `rootEnd` and the slash, and only whitespace
      of that stretch is left out of it. */
  ghost predicate ClauseCut(text: string, rootEnd: nat, a: nat, b: nat)
    requires rootEnd <= ClauseEnd(text)
  {
    && rootEnd <= a <= b <= ClauseEnd(text)
    && (forall i :: rootEnd <= i < a ==> IsWhitespace(text[i]))
    && (forall i :: b <= i < ClauseEnd(text) ==> IsWhitespace(text[i]))
  }

  /** The bass note named after the first slash, if there is a slash and
      the trimmed text after it parses as a pitch class. */
  function Bass(text: string, pitch: PitchParser): (r: Option<PitchClass>)
    ensures '/' !in text ==> r.None?
    ensures '/' in text ==>
      (r.Some? <==> pitch(Trim(text[ClauseEnd(text) + 1..])).Success?)
    ensures r.Some? ==> '/' in text && r.value == pitch(Trim(text[ClauseEnd(text) + 1..])).value.0
  {
    match FindChar(text, '/')
    case None => None
    case Some(s) =>
      assert s == ClauseEnd(text);
      var p := pitch(Trim(text[s + 1..]));
      if p.Success? then Some(p.value.0) else None
  }

  /** The source slices the text at the end of the root's match and at the
      end of the quality's match; it panics unless the root's match ends
      before the slash and the quality's match end lies within the text. */
  ghost predicate SlicesInBounds(text: string, pitch: PitchParser, quality: QualityParser) {
    pitch(text).Success? ==>
      var rootEnd := pitch(text).value.1.end;
      && rootEnd <= ClauseEnd(text)
      && var q := quality(MainClause(text, rootEnd));
         q.Success? && q.value.1.Some? ==> q.value.1.value.end <= |text|
  }

  /** The pitch classes of the chord's tones in root position. */
  function Tones(c: Chord): (r: seq<PitchClass>)
    ensures |r| == |c.intervals| + 1
    ensures forall i :: 0 <= i < |r| ==> r[i] == RootPosition(c)[i].pitch
  {
    var ns := RootPosition(c);
    seq(|ns|, i requires 0 <= i < |ns| => ns[i].pitch)
  }

  /** `p` is the position of the first occurrence of `x` in `s`. */
  ghost predicate IsFirstPosition<T>(s: seq<T>, x: T, p: nat) {
    p < |s| && s[p] == x && forall j :: 0 <= j < p ==> s[j] != x
  }

  /** The position of the first note of pitch class `pc` (Rust's
      `Iterator::position`). */
  function Position(ns: seq<Note>, pc: PitchClass): (r: Option<nat>)
    ensures r.Some? ==> r.value < |ns| && ns[r.value].pitch == pc
    ensures r.Some? ==> forall j :: 0 <= j < r.value ==> ns[j].pitch != pc
    ensures r.None? <==> forall j :: 0 <= j < |ns| ==> ns[j].pitch != pc
  {
    if |ns| == 0 then None
    else if ns[0].pitch == pc then Some(0)
    else match Position(ns[1..], pc)
      case None => None
      case Some(k) => Some(k + 1)
  }

  /** The quality recognizer's answer on the main clause, once the root has
      parsed. */
  function QualityResult(text: string, pitch: PitchParser, quality: QualityParser)
    : Result<(Quality, Option<Match>), ChordError>
    requires pitch(text).Success? && pitch(text).value.1.end <= ClauseEnd(text)
  {
    quality(MainClause(text, pitch(text).value.1.end))
  }

  /** Rebuilding a constructed chord in another inversion keeps its tones. */
  lemma TonesOfInversion(chord: Chord, k: nat)
    requires Valid(chord) && chord.octave == 4
    ensures Tones(WithInversion(chord.root, chord.quality, chord.number, k)) == Tones(chord)
  {
  }

  /** Looking a pitch class up in notes whose pitch classes are `t` finds
      its first position in `t`. */
  lemma PositionIsFirst(ns: seq<Note>, t: seq<PitchClass>, pc: PitchClass)
    requires |ns| == |t| && forall i :: 0 <= i < |ns| ==> ns[i].pitch == t[i]
    ensures Position(ns, pc).Some? ==> IsFirstPosition(t, pc, Position(ns, pc).value)
    ensures Position(ns, pc).None? <==> pc !in t
  {
  }

  /** The second half of `from_regex`: look the bass note up among the
      tones of the root-position chord and, when it is found at a non-zero
      position, rebuild the chord in that inversion. */
  method ResolveBass(chord: Chord, bass: PitchClass) returns (c: Chord)
    requires Valid(chord) && chord.octave == 4 && chord.inversion == 0
    ensures c.root == chord.root && c.quality == chord.quality && c.number == chord.number
    ensures Valid(c) && c.octave == 4 && Tones(c) == Tones(chord)
    ensures bass in Tones(chord) ==> IsFirstPosition(Tones(chord), bass, c.inversion)
    ensures bass !in Tones(chord) ==> c.inversion == 0
  {
    var ns := Notes(chord);
    assert forall i :: 0 <= i < |ns| ==> ns[i].pitch == Tones(chord)[i] by {
      assert RotateLeft(RootPosition(chord), 0) == RootPosition(chord);
    }
    PositionIsFirst(ns, Tones(chord), bass);
    var inversion := Position(ns, bass).GetOr(0);
    if inversion != 0 {
      TonesOfInversion(chord, inversion);
      return WithInversion(chord.root, chord.quality, chord.number, inversion);
    }
    return chord;
  }

  /** `Chord::from_regex`. A root or quality that does not parse is the
      error. Otherwise the chord is built in octave 4 from the root, the
      quality, and the number read after the quality's match, which is a
      triad when there is no quality match or no number parses. A bass note
      after a slash selects the inversion at its first position among the
      root-position tones; a bass that is absent, does not parse, or is not
      a chord tone leaves the chord in root position. */
  method FromRegex(text: string, pitch: PitchParser, quality: QualityParser, number: NumberParser)
    returns (r: Result<Chord, ChordError>)
    requires SlicesInBounds(text, pitch, quality)
    ensures pitch(text).Failure? ==> r == Failure(Pitch(pitch(text).error))
    ensures pitch(text).Success? && QualityResult(text, pitch, quality).Failure?
      ==> r == Failure(QualityResult(text, pitch, quality).error)
    ensures pitch(text).Success? && QualityResult(text, pitch, quality).Success?
      ==> r.Success? && r.value.root == pitch(text).value.0
          && r.value.quality == QualityResult(text, pitch, quality).value.0
    ensures pitch(text).Success? && QualityResult(text, pitch, quality).Success?
              && QualityResult(text, pitch, quality).value.1.None?
      ==> r.Success? && r.value.number == Triad
    ensures pitch(text).Success? && QualityResult(text, pitch, quality).Success?
              && QualityResult(text, pitch, quality).value.1.Some?
      ==> var n := number(text[QualityResult(text, pitch, quality).value.1.value.end..]);
          r.Success? && r.value.number == (if n.Success? then n.value.0 else Triad)
    ensures r.Success? ==> Valid(r.value) && r.value.octave == 4
    ensures r.Success? && Bass(text, pitch).Some? && Bass(text, pitch).value in Tones(r.value)
      ==> IsFirstPosition(Tones(r.value), Bass(text, pitch).value, r.value.inversion)
    ensures r.Success? && (Bass(text, pitch).None? || Bass(text, pitch).value !in Tones(r.value))
      ==> r.value.inversion == 0
  {
    var p := pitch(text);
    if p.Failure? {
      return Failure(Pitch(p.error));
    }
    var (root, rootMatch) := p.value;

    var bass := Bass(text, pitch);

    var qr := quality(MainClause(text, rootMatch.end));
    assert qr == QualityResult(text, pitch, quality);
    if qr.Failure? {
      return Failure(qr.error);
    }
    var (q, qualityMatch) := qr.value;

    var n := Triad;
    if qualityMatch.Some? {
      var nr := number(text[qualityMatch.value.end..]);
      n := if nr.Success? then nr.value.0 else Triad;
    }
    var chord := New(root, q, n);

    if bass.Some? {
      chord := ResolveBass(chord, bass.value);
    }
    return Success(chord);
  }

  /** The suspended-fourth triad's steps of 5 and 7 semitones reach the
      fourth and then the octave, so its third tone repeats the root: C, F, C
      rather than C, F, G. */
  lemma Suspended4TriadRepeatsRoot()
    ensures Tones(New(C, Suspended4, Triad)) == [C, F, C]
  {
  }

  /** A three-character text "<root>/<bass>" splits at index 1: the main
      clause is empty and the bass text is the last character. */
  lemma ThreeCharSplit(text: string)
    requires |text| == 3 && text[0] != '/' && text[1] == '/' && !IsWhitespace(text[2])
    ensures ClauseEnd(text) == 1 && MainClause(text, 1) == ""
    ensures FindChar(text, '/') == Some(1) && Trim(text[2..]) == [text[2]]
    ensures text[ClauseEnd(text) + 1..] == [text[2]]
  {
    assert text[2..] == [text[2]];
  }

  /** The tones of C major in root position and in any inversion. */
  lemma CMajorTones(k: nat)
    ensures Tones(New(C, Major, Triad)) == [C, E, G]
    ensures Tones(WithInversion(C, Major, Triad, k)) == [C, E, G]
  {
  }

  /** `from_regex` on a three-character text "<root>/<bass>" whose root
      parses as its first character and whose empty main clause reads as a
      major quality with no match: a triad on that root, in the inversion
      the bass character selects, if any. */
  method SlashTriad(text: string, pitch: PitchParser, quality: QualityParser, number: NumberParser)
    returns (r: Result<Chord, ChordError>)
    requires |text| == 3 && text[0] != '/' && text[1] == '/' && !IsWhitespace(text[2])
    requires pitch(text).Success? && pitch(text).value.1 == Match(0, 1)
    requires quality("") == Success((Major, None))
    ensures r.Success? && r.value.root == pitch(text).value.0 && r.value.octave == 4
    ensures r.value.quality == Major && r.value.number == Triad && Valid(r.value)
    ensures pitch([text[2]]).Success? && pitch([text[2]]).value.0 in Tones(r.value)
      ==> IsFirstPosition(Tones(r.value), pitch([text[2]]).value.0, r.value.inversion)
    ensures pitch([text[2]]).Success? && pitch([text[2]]).value.0 !in Tones(r.value)
      ==> r.value.inversion == 0
    ensures pitch([text[2]]).Failure? ==> r.value.inversion == 0
  {
    ThreeCharSplit(text);
    r := FromRegex(text, pitch, quality, number);
  }

  /** "C/E": the slash names the third of C major, so the chord is its first
      inversion. */
  method SlashBassExample(pitch: PitchParser, quality: QualityParser, number: NumberParser)
    returns (r: Result<Chord, ChordError>)
    requires pitch("C/E") == Success((C, Match(0, 1)))
    requires pitch("E") == Success((E, Match(0, 1)))
    requires quality("") == Success((Major, None))
    ensures r == Success(WithInversion(C, Major, Triad, 1))
  {
    assert ['E'] == "E";
    r := SlashTriad("C/E", pitch, quality, number);
    CMajorTones(r.value.inversion);
    assert IsFirstPosition([C, E, G], E, r.value.inversion);
    assert r.value.inversion == 1;
  }

  /** "C/1": the text after the slash is not a pitch class, and the parser
      does not read inversion numbers, so the `1` is not an inversion; with a
      quality recognizer that accepts the empty main clause, the chord stays
      in root position. */
  method SlashNumberExample(pitch: PitchParser, quality: QualityParser, number: NumberParser)
    returns (r: Result<Chord, ChordError>)
    requires pitch("C/1") == Success((C, Match(0, 1)))
    requires pitch("1").Failure?
    requires quality("") == Success((Major, None))
    ensures r == Success(New(C, Major, Triad))
  {
    assert ['1'] == "1";
    r := SlashTriad("C/1", pitch, quality, number);
  }
}
