/** `src/scale/mode.rs`: the nine scale modes and their recognizer, which
    tries a fixed, priority-ordered list of alias alternations and keeps
    the first one that matches anywhere in the text. */
module Modes {
  import opened Wrappers
  import opened Text

  datatype Mode =
    | Ionian | Dorian | Phrygian | Lydian | Mixolydian | Aeolian | Locrian
    | HarmonicMinor | MelodicMinor

  datatype ScaleError = ModeFromRegex

  const MajorAliases: seq<string> := ["M", "maj", "Maj", "Major", "major", "Ionian", "ionian"]
  const MinorAliases: seq<string> := ["m", "min", "Min", "Minor", "minor", "Aeolian", "aeolian"]
  const DorianAliases: seq<string> := ["dor", "dorian"]
  const PhrygianAliases: seq<string> := ["phy", "phr", "phrygian"]
  const LydianAliases: seq<string> := ["lyd", "lydian"]
  const MixolydianAliases: seq<string> := ["mix", "mixolydian"]
  const LocrianAliases: seq<string> := ["loc", "locrian"]
  const MelodicMinorAliases: seq<string> :=
    ["mel minor", "melodicminor", "melodic minor", "Melodic Minor", "MelodicMinor"]
  const HarmonicMinorAliases: seq<string> :=
    ["har minor", "harmonicminor", "harmonic minor", "Harmonic Minor", "HarmonicMinor"]

  /** One entry of the recognizer: an alternation of aliases and its mode. */
  datatype Pattern = Pattern(aliases: seq<string>, mode: Mode)

  /** The entries in the order the recognizer tries them. */
  const Patterns: seq<Pattern> := [
    Pattern(MajorAliases, Ionian),
    Pattern(HarmonicMinorAliases, HarmonicMinor),
    Pattern(MelodicMinorAliases, MelodicMinor),
    Pattern(MinorAliases, Aeolian),
    Pattern(DorianAliases, Dorian),
    Pattern(LocrianAliases, Locrian),
    Pattern(MixolydianAliases, Mixolydian),
    Pattern(PhrygianAliases, Phrygian),
    Pattern(LydianAliases, Lydian)
  ]

  /** Entry `k` is the first entry of `ps` from `from` on that has an alias
      in `text`. */
  ghost predicate FirstOccurringFrom(text: string, ps: seq<Pattern>, from: nat, k: nat) {
    && from <= k < |ps|
    && Occurs(text, ps[k].aliases)
    && forall j :: from <= j < k ==> !Occurs(text, ps[j].aliases)
  }

  /** `r` is the answer for entry `k` of `ps`: its mode, and the
      leftmost-first match of its alternation. */
  ghost predicate AnswersWith(text: string, ps: seq<Pattern>, k: nat, r: (Mode, Match))
    requires k < |ps|
  {
    r.0 == ps[k].mode && IsLeftmostFirst(text, ps[k].aliases, r.1)
  }

  /** Tries the entries of `ps` from the `k`-th on, in order, and answers
      with the first whose alternation is found in `text`. */
  function TryFrom(text: string, ps: seq<Pattern>, k: nat): (r: Result<(Mode, Match), ScaleError>)
    requires k <= |ps|
    ensures r.Failure? <==> forall j :: k <= j < |ps| ==> !Occurs(text, ps[j].aliases)
    ensures r.Success? ==> exists j: nat :: FirstOccurringFrom(text, ps, k, j) && AnswersWith(text, ps, j, r.value)
    decreases |ps| - k
  {
    if k == |ps| then Failure(ModeFromRegex)
    else match Find(text, ps[k].aliases)
      case Some(m) =>
        assert FirstOccurringFrom(text, ps, k, k) && AnswersWith(text, ps, k, (ps[k].mode, m));
        Success((ps[k].mode, m))
      case None => TryFrom(text, ps, k + 1)
  }

  /** Entry `k` is the one the recognizer settles on for `text`: some alias
      of it occurs in the text, and no alias of any earlier entry does. */
  ghost predicate Wins(text: string, k: nat) {
    FirstOccurringFrom(text, Patterns, 0, k)
  }

  /** Only one entry can win. */
  lemma WinnerUnique(text: string, j: nat, k: nat)
    requires Wins(text, j) && Wins(text, k)
    ensures j == k
  {
  }

  /** `Mode::from_regex`. It fails exactly when no alias of any entry occurs
      in the text; otherwise the mode is that of the first entry with an
      alias in the text, and the match is the leftmost-first match of that
      entry's alternation. */
  function FromRegex(text: string): (r: Result<(Mode, Match), ScaleError>)
    ensures r.Failure? <==> forall k :: 0 <= k < |Patterns| ==> !Occurs(text, Patterns[k].aliases)
    ensures forall k: nat :: Wins(text, k) ==> r.Success? && AnswersWith(text, Patterns, k, r.value)
    ensures r.Success? ==> exists k: nat :: Wins(text, k) && AnswersWith(text, Patterns, k, r.value)
  {
    var r := TryFrom(text, Patterns, 0);
    assert forall k: nat :: Wins(text, k) ==> r.Success? && AnswersWith(text, Patterns, k, r.value) by {
      forall k: nat | Wins(text, k)
        ensures r.Success? && AnswersWith(text, Patterns, k, r.value)
      {
        var j: nat :| FirstOccurringFrom(text, Patterns, 0, j) && AnswersWith(text, Patterns, j, r.value);
        WinnerUnique(text, j, k);
      }
    }
    r
  }

  /** The entry of `Patterns` for each mode (each mode has exactly one). */
  function EntryOf(m: Mode): (k: nat)
    ensures k < |Patterns| && Patterns[k].mode == m
    ensures forall j :: 0 <= j < |Patterns| && Patterns[j].mode == m ==> j == k
  {
    match m
    case Ionian => 0
    case HarmonicMinor => 1
    case MelodicMinor => 2
    case Aeolian => 3
    case Dorian => 4
    case Locrian => 5
    case Mixolydian => 6
    case Phrygian => 7
    case Lydian => 8
  }

  /** A successful answer comes from the entry of its mode, and that entry wins. */
  lemma AnswerEntry(text: string)
    requires FromRegex(text).Success?
    ensures Wins(text, EntryOf(FromRegex(text).value.0))
    ensures AnswersWith(text, Patterns, EntryOf(FromRegex(text).value.0), FromRegex(text).value)
  {
    var r := FromRegex(text);
    var k: nat :| Wins(text, k) && AnswersWith(text, Patterns, k, r.value);
  }

  /** The returned span lies within the text and spells one of the aliases
      of the returned mode. */
  lemma MatchSpellsAlias(text: string)
    requires FromRegex(text).Success?
    ensures FromRegex(text).value.1.start <= FromRegex(text).value.1.end <= |text|
    ensures text[FromRegex(text).value.1.start..FromRegex(text).value.1.end]
              in Patterns[EntryOf(FromRegex(text).value.0)].aliases
  {
    AnswerEntry(text);
    var k := EntryOf(FromRegex(text).value.0);
    MatchedTextIsAlternative(text, Patterns[k].aliases, FromRegex(text).value.1);
  }

  /** Any text in which a major alias occurs, even a bare capital `M`, is
      recognized as Ionian, because the major entry is tried first. */
  lemma MajorAliasWins(text: string)
    requires Occurs(text, MajorAliases)
    ensures FromRegex(text).Success? && FromRegex(text).value.0 == Ionian
  {
    assert Wins(text, 0);
  }

  /** Harmonic and melodic minor are answered only when no major alias
      occurs; they are tried before the plain minor aliases, so a text with
      a harmonic (or, failing that, a melodic) minor alias and no major alias
      is never taken for Aeolian. */
  lemma MinorVariantsBeforeMinor(text: string)
    ensures (FromRegex(text).Success? && FromRegex(text).value.0 in {HarmonicMinor, MelodicMinor})
      ==> !Occurs(text, MajorAliases)
    ensures (!Occurs(text, MajorAliases) && Occurs(text, HarmonicMinorAliases))
      ==> FromRegex(text).Success? && FromRegex(text).value.0 == HarmonicMinor
    ensures (!Occurs(text, MajorAliases) && !Occurs(text, HarmonicMinorAliases) && Occurs(text, MelodicMinorAliases))
      ==> FromRegex(text).Success? && FromRegex(text).value.0 == MelodicMinor
  {
    if FromRegex(text).Success? {
      AnswerEntry(text);
    }
    if !Occurs(text, MajorAliases) && Occurs(text, HarmonicMinorAliases) {
      assert Wins(text, 1);
    }
    if !Occurs(text, MajorAliases) && !Occurs(text, HarmonicMinorAliases) && Occurs(text, MelodicMinorAliases) {
      assert Wins(text, 2);
    }
  }

  /** Both Mixolydian aliases begin with `m`, a minor alias tried earlier. */
  lemma MixolydianImpliesMinor(text: string)
    requires Occurs(text, MixolydianAliases)
    ensures Occurs(text, MinorAliases)
  {
    var k: nat, i: nat :| k < |MixolydianAliases| && MatchesAt(text, MixolydianAliases[k], i);
    assert text[i] == 'm';
    assert MatchesAt(text, MinorAliases[0], i);
  }

  /** The recognizer never answers Mixolydian. */
  lemma NeverMixolydian(text: string)
    ensures FromRegex(text).Success? ==> FromRegex(text).value.0 != Mixolydian
  {
    if FromRegex(text).Success? && FromRegex(text).value.0 == Mixolydian {
      AnswerEntry(text);
      assert !Occurs(text, Patterns[3].aliases);
      MixolydianImpliesMinor(text);
      assert false;
    }
  }

  // Concrete texts. Matching is case-sensitive and unanchored, and the
  // match is the leftmost-first one of the winning alternation.

  /** A capitalized "Minor" contains the major alias `M`. */
  lemma HarmonicMinorCapitalized()
    ensures FromRegex("Harmonic Minor") == Success((Ionian, Match(9, 10)))
  {
    var t := "Harmonic Minor";
    CapitalizedMajorMatch();
    assert MatchesAt(t, MajorAliases[0], 9);
    assert Wins(t, 0);
    LeftmostFirstUnique(t, MajorAliases, FromRegex(t).value.1, Match(9, 10));
  }

  lemma CapitalizedMajorMatch()
    ensures IsLeftmostFirst("Harmonic Minor", MajorAliases, Match(9, 10))
  {
    var t := "Harmonic Minor";
    forall k: nat, i: nat | k < |MajorAliases| && i < 9
      ensures !MatchesAt(t, MajorAliases[k], i)
    {
      var a := MajorAliases[k];
      assert t[..9] == "Harmonic " && t[i] == t[..9][i];
      if i == 3 && a[0] == 'm' {
        assert t[4] != a[1];
      } else if i == 6 && a[0] == 'i' {
        assert t[7] != a[1];
      } else {
        assert t[i] != a[0];
      }
    }
    assert MatchesAt(t, MajorAliases[0], 9);
  }

  /** The harmonic minor entry is tried before the plain minor one. */
  lemma HarmonicMinorLowercase()
    ensures FromRegex("harmonic minor") == Success((HarmonicMinor, Match(0, 14)))
  {
    var t := "harmonic minor";
    assert !Occurs(t, MajorAliases);
    MatchesAtSlice(t, HarmonicMinorAliases[2], 0);
    assert !MatchesAt(t, HarmonicMinorAliases[0], 0) && !MatchesAt(t, HarmonicMinorAliases[1], 0);
    assert IsLeftmostFirst(t, HarmonicMinorAliases, Match(0, 14));
    assert Wins(t, 1);
    LeftmostFirstUnique(t, HarmonicMinorAliases, FromRegex(t).value.1, Match(0, 14));
  }

  /** The plain minor alias `m` is matched alone, not the longer "minor". */
  lemma PlainMinor()
    ensures FromRegex("A minor") == Success((Aeolian, Match(2, 3)))
  {
    var t := "A minor";
    PlainMinorMatch();
    assert Wins(t, 3);
    LeftmostFirstUnique(t, MinorAliases, FromRegex(t).value.1, Match(2, 3));
  }

  lemma PlainMinorMatch()
    ensures !Occurs("A minor", MajorAliases) && !Occurs("A minor", HarmonicMinorAliases)
    ensures !Occurs("A minor", MelodicMinorAliases) && Occurs("A minor", MinorAliases)
    ensures IsLeftmostFirst("A minor", MinorAliases, Match(2, 3))
  {
    var t := "A minor";
    assert forall k: nat, i: nat :: k < |MinorAliases| && i < 2 ==> !MatchesAt(t, MinorAliases[k], i);
    assert MatchesAt(t, MinorAliases[0], 2);
  }

  /** "dorian" contains no earlier alias; the shorter alias "dor" is listed
      first, so it is the one matched. */
  lemma DorianLowercase()
    ensures FromRegex("dorian") == Success((Dorian, Match(0, 3)))
  {
    var t := "dorian";
    DorianMatch();
    assert Wins(t, 4);
    LeftmostFirstUnique(t, DorianAliases, FromRegex(t).value.1, Match(0, 3));
  }

  lemma DorianMatch()
    ensures !Occurs("dorian", MajorAliases) && !Occurs("dorian", HarmonicMinorAliases)
    ensures !Occurs("dorian", MelodicMinorAliases) && !Occurs("dorian", MinorAliases)
    ensures Occurs("dorian", DorianAliases) && IsLeftmostFirst("dorian", DorianAliases, Match(0, 3))
  {
    assert MatchesAt("dorian", DorianAliases[0], 0);
  }

  /** A capitalized "Dorian" matches no alias at all. */
  lemma DorianCapitalized()
    ensures FromRegex("Dorian") == Failure(ModeFromRegex)
  {
    NoAliasInCapitalizedDorian();
    assert forall k :: 0 <= k < |Patterns| ==> !Occurs("Dorian", Patterns[k].aliases);
    var r := FromRegex("Dorian");
    assert r.Failure?;
    assert r.error == ModeFromRegex;
  }

  lemma NoAliasInCapitalizedDorian()
    ensures !Occurs("Dorian", MajorAliases) && !Occurs("Dorian", HarmonicMinorAliases)
    ensures !Occurs("Dorian", MelodicMinorAliases) && !Occurs("Dorian", MinorAliases)
    ensures !Occurs("Dorian", DorianAliases) && !Occurs("Dorian", LocrianAliases)
    ensures !Occurs("Dorian", MixolydianAliases) && !Occurs("Dorian", PhrygianAliases)
    ensures !Occurs("Dorian", LydianAliases)
  {
  }
}
