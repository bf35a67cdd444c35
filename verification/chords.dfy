/** The `Chord` record of `src/chord/chord.rs`: its quality and number
    vocabularies, the interval table, and the constructors. */
module Chords {
  import opened Wrappers
  import opened Music

  /** Chord colour. */
  datatype Quality =
    | Major | Minor | Suspended2 | Suspended4 | Augmented | Diminished
    | HalfDiminished | MinorMajor | AugmentedMajor | Dominant

  /** Chord extension. */
  datatype Number = Triad | Seventh | MajorSeventh | Ninth | Eleventh | Thirteenth

  /** The errors of the chord parsers; a pitch-class error converts into one. */
  datatype ChordError = QualityFromRegex | NumberFromRegex | InversionFormat | Pitch(NoteError)

  /** A chord: root and octave, the steps between its tones, the descriptive
      quality and number, and which tone is in the bass (0 = root position). */
  datatype Chord = Chord(
    root: PitchClass,
    octave: nat,
    intervals: seq<Interval>,
    quality: Quality,
    number: Number,
    inversion: nat)

  /** The chords the command-line front end lists as available. */
  const Catalog: set<(Quality, Number)> := {
    (Major, Triad), (Minor, Triad), (Suspended2, Triad), (Suspended4, Triad),
    (Augmented, Triad), (Diminished, Triad),
    (Major, Seventh), (Minor, Seventh), (Augmented, Seventh),
    (Augmented, MajorSeventh), (Diminished, Seventh), (HalfDiminished, Seventh),
    (Minor, MajorSeventh), (Dominant, Seventh),
    (Dominant, Ninth), (Major, Ninth),
    (Dominant, Eleventh), (Major, Eleventh), (Minor, Eleventh),
    (Dominant, Thirteenth), (Major, Thirteenth), (Minor, Thirteenth)
  }

  /** How many steps a chord of the given number spans: a triad has three
      tones, and each extension adds one. */
  function StepCount(n: Number): nat {
    match n
    case Triad => 2
    case Seventh => 3
    case MajorSeventh => 3
    case Ninth => 4
    case Eleventh => 5
    case Thirteenth => 6
  }

  /** The semitone counts of each (quality, number) pair; every pair without
      an entry of its own falls back to the major triad. */
  function StepTable(q: Quality, n: Number): (r: seq<nat>)
    ensures forall i :: 0 <= i < |r| ==> 1 <= r[i] <= 12
    ensures forall i :: 0 <= i < |r| ==> r[i] <= 7
    ensures 2 <= |r| <= 6
  {
    match (q, n)
    case (Major, Triad) => [4, 3]
    case (Minor, Triad) => [3, 4]
    case (Suspended2, Triad) => [2, 5]
    case (Suspended4, Triad) => [5, 7]
    case (Augmented, Triad) => [4, 4]
    case (Diminished, Triad) => [3, 3]
    case (Major, Seventh) => [4, 3, 4]
    case (Minor, Seventh) => [3, 4, 3]
    case (Augmented, Seventh) => [4, 4, 2]
    case (Augmented, MajorSeventh) => [4, 4, 3]
    case (Diminished, Seventh) => [3, 3, 3]
    case (HalfDiminished, Seventh) => [3, 3, 4]
    case (Minor, MajorSeventh) => [3, 4, 4]
    case (Dominant, Seventh) => [4, 3, 3]
    case (Dominant, Ninth) => [4, 3, 3, 4]
    case (Major, Ninth) => [4, 3, 4, 3]
    case (Dominant, Eleventh) => [4, 3, 3, 4, 4]
    case (Major, Eleventh) => [4, 3, 4, 3, 3]
    case (Minor, Eleventh) => [3, 4, 3, 4, 3]
    case (Dominant, Thirteenth) => [4, 3, 3, 4, 3, 4]
    case (Major, Thirteenth) => [4, 3, 4, 3, 3, 4]
    case (Minor, Thirteenth) => [3, 4, 3, 4, 3, 4]
    case _ => [4, 3]
  }

  /** `Chord::chord_intervals`: the table entry converted to intervals. The
      conversion never fails, every catalogued chord gets as many steps as
      its number asks for, and every other pair gets the major triad. */
  function ChordIntervals(q: Quality, n: Number): (r: seq<Interval>)
    ensures |r| == |StepTable(q, n)|
    ensures forall i :: 0 <= i < |r| ==> r[i] == StepTable(q, n)[i]
    ensures (q, n) in Catalog ==> |r| == StepCount(n)
    ensures (q, n) !in Catalog ==> r == [4, 3]
  {
    var t := FromSemitones(StepTable(q, n));
    assert t.value == StepTable(q, n);
    TableFacts(q, n);
    t.value
  }

  /** The facts `ChordIntervals` promises, checked table entry by table entry. */
  lemma TableFacts(q: Quality, n: Number)
    ensures (q, n) in Catalog ==> |StepTable(q, n)| == StepCount(n)
    ensures (q, n) !in Catalog ==> StepTable(q, n) == [4, 3]
    ensures (q, n) in Catalog && (q, n) != (Major, Triad) ==> StepTable(q, n) != [4, 3]
  {
    match q {
      case Major =>
        match n {
          case Triad =>
          case Seventh =>
          case MajorSeventh =>
          case Ninth =>
          case Eleventh =>
          case Thirteenth =>
        }
      case Minor =>
        match n {
          case Triad =>
          case Seventh =>
          case MajorSeventh =>
          case Ninth =>
          case Eleventh =>
          case Thirteenth =>
        }
      case Suspended2 =>
        match n {
          case Triad =>
          case Seventh =>
          case MajorSeventh =>
          case Ninth =>
          case Eleventh =>
          case Thirteenth =>
        }
      case Suspended4 =>
        match n {
          case Triad =>
          case Seventh =>
          case MajorSeventh =>
          case Ninth =>
          case Eleventh =>
          case Thirteenth =>
        }
      case Augmented =>
        match n {
          case Triad =>
          case Seventh =>
          case MajorSeventh =>
          case Ninth =>
          case Eleventh =>
          case Thirteenth =>
        }
      case Diminished =>
        match n {
          case Triad =>
          case Seventh =>
          case MajorSeventh =>
          case Ninth =>
          case Eleventh =>
          case Thirteenth =>
        }
      case HalfDiminished =>
        match n {
          case Triad =>
          case Seventh =>
          case MajorSeventh =>
          case Ninth =>
          case Eleventh =>
          case Thirteenth =>
        }
      case MinorMajor =>
        match n {
          case Triad =>
          case Seventh =>
          case MajorSeventh =>
          case Ninth =>
          case Eleventh =>
          case Thirteenth =>
        }
      case AugmentedMajor =>
        match n {
          case Triad =>
          case Seventh =>
          case MajorSeventh =>
          case Ninth =>
          case Eleventh =>
          case Thirteenth =>
        }
      case Dominant =>
        match n {
          case Triad =>
          case Seventh =>
          case MajorSeventh =>
          case Ninth =>
          case Eleventh =>
          case Thirteenth =>
        }
    }
  }

  /** The fallback to the major triad is taken exactly by the pairs the
      catalogue does not list: every catalogued chord other than the major
      triad itself has a table of its own. */
  lemma FallbackExactlyOutsideCatalog(q: Quality, n: Number)
    ensures ChordIntervals(q, n) == [4, 3] <==> ((q, n) !in Catalog || (q, n) == (Major, Triad))
  {
    TableFacts(q, n);
    if ChordIntervals(q, n) == [4, 3] {
      assert StepTable(q, n) == [4, 3];
    }
  }

  /** The state every constructed chord keeps: the intervals are the table
      entry of its quality and number, and the inversion names one of its
      tones. */
  ghost predicate Valid(c: Chord) {
    c.intervals == ChordIntervals(c.quality, c.number) && c.inversion <= |c.intervals|
  }

  /** `Chord::with_inversion`: a chord in octave 4 whose requested inversion
      wraps around the number of tones. */
  function WithInversion(root: PitchClass, q: Quality, n: Number, k: nat): (c: Chord)
    ensures c.root == root && c.quality == q && c.number == n
    ensures c.octave == 4
    ensures c.intervals == ChordIntervals(q, n)
    ensures c.inversion == k % (|c.intervals| + 1)
    ensures Valid(c)
    ensures k <= |c.intervals| ==> c.inversion == k
  {
    var intervals := ChordIntervals(q, n);
    ModBelow(k, |intervals| + 1);
    Chord(root, 4, intervals, q, n, k % (|intervals| + 1))
  }

  lemma ModBelow(k: nat, m: nat)
    requires m > 0
    ensures k % m < m
    ensures k < m ==> k % m == k
  {
  }

  /** `Chord::new`: the root-position chord. */
  function New(root: PitchClass, q: Quality, n: Number): (c: Chord)
    ensures c.root == root && c.quality == q && c.number == n
    ensures c.octave == 4 && c.inversion == 0
    ensures c.intervals == ChordIntervals(q, n)
  {
    WithInversion(root, q, n, 0)
  }

  /** Remainders modulo a chord's tone count (three to seven) repeat with
      that period. */
  lemma ModPeriod(k: nat, m: nat)
    requires 3 <= m <= 7
    ensures (k + m) % m == k % m
    ensures m % m == 0 && (m + 1) % m == 1
  {
    if m == 3 {
      assert (k + 3) % 3 == k % 3;
    } else if m == 4 {
      assert (k + 4) % 4 == k % 4;
    } else if m == 5 {
      assert (k + 5) % 5 == k % 5;
    } else if m == 6 {
      assert (k + 6) % 6 == k % 6;
    } else {
      assert (k + 7) % 7 == k % 7;
    }
  }

  /** Requesting an inversion one full turn further gives the same chord;
      in particular asking for the inversion just past the last tone gives
      root position again. */
  lemma InversionWraps(root: PitchClass, q: Quality, n: Number, k: nat)
    ensures WithInversion(root, q, n, k + |ChordIntervals(q, n)| + 1) == WithInversion(root, q, n, k)
    ensures WithInversion(root, q, n, |ChordIntervals(q, n)| + 1).inversion == 0
    ensures WithInversion(root, q, n, |ChordIntervals(q, n)| + 2).inversion == 1
  {
    var m := |ChordIntervals(q, n)| + 1;
    ModPeriod(k, m);
    var a := WithInversion(root, q, n, k + m);
    var b := WithInversion(root, q, n, k);
    assert a.inversion == b.inversion;
  }

  /** `Chord::default`: C major triad in octave 4 in root position, but with
      no intervals at all, so unlike every constructed chord it is not
      `Valid`. */
  function Default(): (c: Chord)
    ensures c.root == C && c.quality == Major && c.number == Triad
    ensures c.octave == 4 && c.inversion == 0
    ensures c.intervals == []
    ensures !Valid(c) && c != New(C, Major, Triad)
  {
    Chord(C, 4, [], Major, Triad, 0)
  }
}
