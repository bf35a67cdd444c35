/** Pitch classes, notes and intervals, and the interval engine that walks
    a root note through a sequence of steps. The Rust types `PitchClass`,
    `Note` and `Interval` live in files that are not part of this model;
    this module states the behaviour the chord code relies on. */
module Music {
  import opened Wrappers

  /** The twelve equal-tempered pitch classes, by semitone ordinal (C = 0). */
  type PitchClass = n: nat | n < 12

  const C: PitchClass := 0
  const Cs: PitchClass := 1
  const D: PitchClass := 2
  const Ds: PitchClass := 3
  const E: PitchClass := 4
  const F: PitchClass := 5
  const Fs: PitchClass := 6
  const G: PitchClass := 7
  const Gs: PitchClass := 8
  const A: PitchClass := 9
  const As: PitchClass := 10
  const B: PitchClass := 11

  /** The error of the pitch-class recognizer. */
  datatype NoteError = InvalidPitch

  /** A pitch class in an octave (scientific numbering: middle C is C4). */
  datatype Note = Note(pitch: PitchClass, octave: int)

  /** The absolute height of a note in semitones above C0. */
  function Height(n: Note): int {
    12 * n.octave + n.pitch
  }

  /** A step between consecutive notes: 1 to 12 semitones. */
  type Interval = n: nat | 1 <= n <= 12 witness 1

  datatype IntervalError = InvalidSemitone

  /** `Interval::from_semitones`: accepts the counts exactly when each lies
      in 1..12, and then keeps them in order. */
  function FromSemitones(counts: seq<nat>): (r: Result<seq<Interval>, IntervalError>)
    ensures r.Success? <==> forall i :: 0 <= i < |counts| ==> 1 <= counts[i] <= 12
    ensures r.Success? ==> |r.value| == |counts|
    ensures r.Success? ==> forall i :: 0 <= i < |counts| ==> r.value[i] == counts[i]
  {
    if forall i :: 0 <= i < |counts| ==> 1 <= counts[i] <= 12
    then Success(seq(|counts|, i requires 0 <= i < |counts| => counts[i] as Interval))
    else Failure(InvalidSemitone)
  }

  /** The note `s` semitones above `n`: the ordinal moves on modulo 12 and
      the octave goes up by one exactly when the addition wraps. */
  function Step(n: Note, s: Interval): (r: Note)
    ensures Height(r) == Height(n) + s
    ensures r.octave == n.octave || r.octave == n.octave + 1
    ensures r.pitch <= n.pitch <==> r.octave == n.octave + 1
  {
    if n.pitch + s >= 12 then Note(n.pitch + s - 12, n.octave + 1)
    else Note(n.pitch + s, n.octave)
  }

  /** `Interval::to_notes`: the root followed by one note per step. */
  function ToNotes(root: Note, steps: seq<Interval>): (r: seq<Note>)
    ensures |r| == |steps| + 1
    ensures r[0] == root
    ensures forall i :: 0 <= i < |steps| ==> r[i + 1] == Step(r[i], steps[i])
    decreases |steps|
  {
    if |steps| == 0 then [root]
    else [root] + ToNotes(Step(root, steps[0]), steps[1..])
  }

  /** The total size of a sequence of steps, in semitones. */
  function Sum(steps: seq<nat>): nat {
    if |steps| == 0 then 0 else steps[0] + Sum(steps[1..])
  }

  lemma {:induction false} SumPrefix(steps: seq<Interval>, i: nat)
    requires i < |steps|
    ensures Sum(steps[..i + 1]) == Sum(steps[..i]) + steps[i]
  {
    if i == 0 {
      assert steps[..1] == [steps[0]];
      assert steps[..0] == [];
    } else {
      assert steps[..i + 1][1..] == steps[1..][..i];
      assert steps[..i][1..] == steps[1..][..i - 1];
      SumPrefix(steps[1..], i - 1);
    }
  }

  lemma {:induction false} SumPrefixBound(steps: seq<Interval>, i: nat)
    requires i <= |steps|
    ensures Sum(steps[..i]) <= Sum(steps)
    decreases |steps| - i
  {
    if i < |steps| {
      SumPrefix(steps, i);
      SumPrefixBound(steps, i + 1);
    } else {
      assert steps[..i] == steps;
    }
  }

  /** The i-th note of `to_notes` lies exactly the first i steps above the
      root: the semitone sum of the steps plus twelve per octave wrap. */
  lemma {:induction false} ToNotesHeight(root: Note, steps: seq<Interval>, i: nat)
    requires i <= |steps|
    ensures Height(ToNotes(root, steps)[i]) == Height(root) + Sum(steps[..i])
  {
    if i > 0 {
      ToNotesHeight(root, steps, i - 1);
      SumPrefix(steps, i - 1);
    }
  }

  /** No note of `to_notes` lies in an octave below the root's. */
  lemma {:induction false} ToNotesAboveRoot(root: Note, steps: seq<Interval>, i: nat)
    requires i <= |steps|
    ensures root.octave <= ToNotes(root, steps)[i].octave
  {
    if i > 0 {
      ToNotesAboveRoot(root, steps, i - 1);
    }
  }

  /** Octaves never decrease along `to_notes`. */
  lemma {:induction false} ToNotesOctavesAscend(root: Note, steps: seq<Interval>, i: nat, j: nat)
    requires i <= j <= |steps|
    ensures ToNotes(root, steps)[i].octave <= ToNotes(root, steps)[j].octave
    decreases j - i
  {
    if i < j {
      ToNotesOctavesAscend(root, steps, i, j - 1);
    }
  }
}
