/** `Notes::notes` for chords: the chord's tones expanded from the root,
    rotated so that the requested inversion is in the bass, and given
    octaves that ascend through the voicing. */
module Voicing {
  import opened Music
  import opened Chords

  /** `s` rotated left by `k` places (Rust's `slice::rotate_left`, which
      panics when `k` exceeds the length). */
  function RotateLeft<T>(s: seq<T>, k: nat): (r: seq<T>)
    requires k <= |s|
    ensures |r| == |s|
    ensures forall i :: 0 <= i < |s| ==> r[i] == s[if i + k < |s| then i + k else i + k - |s|]
  {
    s[k..] + s[..k]
  }

  /** The chord's tones in root position, from the root in the chord's octave. */
  function RootPosition(c: Chord): (r: seq<Note>)
    ensures |r| == |c.intervals| + 1
    ensures r[0] == Note(c.root, c.octave)
    ensures forall i :: 0 <= i < |c.intervals| ==> r[i + 1] == Step(r[i], c.intervals[i])
  {
    ToNotes(Note(c.root, c.octave), c.intervals)
  }

  /** The root-position tones rotated so the inversion's tone comes first. */
  function Rotated(c: Chord): (r: seq<Note>)
    requires c.inversion <= |c.intervals| + 1
    ensures |r| == |c.intervals| + 1
    ensures forall i :: 0 <= i < |r| ==>
      r[i] == RootPosition(c)[if i + c.inversion < |r| then i + c.inversion else i + c.inversion - |r|]
  {
    RotateLeft(RootPosition(c), c.inversion)
  }

  /** How many octaves the rotated bass lies above the chord's octave. */
  function BassExcess(c: Chord): nat
    requires c.inversion <= |c.intervals| + 1
  {
    var rot := Rotated(c);
    if rot[0].octave > c.octave then rot[0].octave - c.octave else 0
  }

  /** Every note of `ns` moved down by `d` octaves. */
  function ShiftDown(ns: seq<Note>, d: int): (r: seq<Note>)
    ensures |r| == |ns|
    ensures forall i :: 0 <= i < |ns| ==> r[i] == Note(ns[i].pitch, ns[i].octave - d)
  {
    seq(|ns|, i requires 0 <= i < |ns| => Note(ns[i].pitch, ns[i].octave - d))
  }

  /** The first normalisation pass: the rotated tones, pulled down as a
      whole when the bass lies above the chord's octave. Afterwards the bass
      sits exactly in the chord's octave, because no root-position tone lies
      below the root, and the octaves rise only where the rotation's do. */
  function Lowered(c: Chord): (r: seq<Note>)
    requires c.inversion <= |c.intervals| + 1
    ensures |r| == |c.intervals| + 1
    ensures forall i :: 0 <= i < |r| ==> r[i] == Note(Rotated(c)[i].pitch, Rotated(c)[i].octave - BassExcess(c))
    ensures r[0].octave == c.octave
    ensures RisesOnlyAtWraps(r)
  {
    var rot := Rotated(c);
    var r := if rot[0].octave > c.octave then ShiftDown(rot, rot[0].octave - c.octave) else rot;
    assert r[0].octave == c.octave by {
      var k := if c.inversion < |c.intervals| + 1 then c.inversion else 0;
      assert rot[0] == RootPosition(c)[k];
      ToNotesAboveRoot(Note(c.root, c.octave), c.intervals, k);
    }
    assert RisesOnlyAtWraps(r) by {
      forall i | 1 <= i < |r|
        ensures r[i].octave <= r[i - 1].octave + (if r[i].pitch <= r[i - 1].pitch then 1 else 0)
      {
        RotatedShape(c, i);
      }
    }
    r
  }

  /** Along the rotated tones the octave rises by at most one from one tone
      to the next, and only where the pitch class does not increase: inside
      the root-position run each step is an interval step, and where the
      rotation wraps back to the root the octave does not rise at all. */
  lemma {:induction false} RotatedShape(c: Chord, i: nat)
    requires c.inversion <= |c.intervals| + 1
    requires 1 <= i < |c.intervals| + 1
    ensures Rotated(c)[i].octave
         <= Rotated(c)[i - 1].octave + (if Rotated(c)[i].pitch <= Rotated(c)[i - 1].pitch then 1 else 0)
  {
    var raw := RootPosition(c);
    var n := |raw|;
    var k := c.inversion;
    var a := if i + k < n then i + k else i + k - n;
    var b := if i - 1 + k < n then i - 1 + k else i - 1 + k - n;
    assert Rotated(c)[i] == raw[a];
    assert Rotated(c)[i - 1] == raw[b];
    if a == 0 {
      assert b == n - 1;
      ToNotesOctavesAscend(Note(c.root, c.octave), c.intervals, 0, n - 1);
    } else {
      assert b == a - 1;
      assert raw[a] == Step(raw[a - 1], c.intervals[a - 1]);
    }
  }

  /** Along `s` the octave rises by at most one from one note to the next,
      and only where the pitch class does not increase. */
  ghost predicate RisesOnlyAtWraps(s: seq<Note>) {
    forall i :: 1 <= i < |s| ==> s[i].octave <= s[i - 1].octave + (if s[i].pitch <= s[i - 1].pitch then 1 else 0)
  }

  /** A close voicing: every note lies in the lowest octave that puts it
      strictly above the note before it, so the octave goes up by one exactly
      where the pitch class does not increase. */
  ghost predicate Close(s: seq<Note>) {
    forall i :: 1 <= i < |s| ==> s[i].octave == s[i - 1].octave + (if s[i].pitch <= s[i - 1].pitch then 1 else 0)
  }

  /** The second normalisation pass: walking left to right, a note whose
      pitch class does not exceed its predecessor's goes one octave above
      it, and any other note below its predecessor's octave is raised to
      it. On notes whose octaves rise only at wraps the result is close. */
  method AscendOctaves(low: seq<Note>) returns (ns: seq<Note>)
    requires |low| > 0 && RisesOnlyAtWraps(low)
    ensures |ns| == |low| && ns[0] == low[0]
    ensures forall j :: 0 <= j < |ns| ==> ns[j].pitch == low[j].pitch
    ensures Close(ns)
  {
    ns := low;
    var i := 1;
    while i < |ns|
      invariant 1 <= i <= |ns| == |low|
      invariant ns[0] == low[0]
      invariant forall j :: 0 <= j < |ns| ==> ns[j].pitch == low[j].pitch
      invariant forall j :: i <= j < |ns| ==> ns[j] == low[j]
      invariant forall j :: 0 <= j < i ==> low[j].octave <= ns[j].octave
      invariant forall j :: 1 <= j < i ==> ns[j].octave == ns[j - 1].octave + (if ns[j].pitch <= ns[j - 1].pitch then 1 else 0)
    {
      if ns[i].pitch <= ns[i - 1].pitch {
        ns := ns[i := Note(ns[i].pitch, ns[i - 1].octave + 1)];
      } else if ns[i].octave < ns[i - 1].octave {
        ns := ns[i := Note(ns[i].pitch, ns[i - 1].octave)];
      }
      i := i + 1;
    }
  }

  /** In a close voicing each note lies 1 to 12 semitones above the one
      before it. */
  lemma CloseAscends(s: seq<Note>, i: nat)
    requires Close(s) && 1 <= i < |s|
    ensures Height(s[i - 1]) < Height(s[i]) <= Height(s[i - 1]) + 12
  {
  }

  /** `Notes::notes` for a chord. The pitch classes are the root-position
      tones rotated left by the inversion; the bass sits in the chord's
      octave; and each later note lies in the lowest octave that puts it
      strictly above the note before it, so the octave goes up by one
      exactly where the pitch class does not increase. */
  method Notes(c: Chord) returns (ns: seq<Note>)
    requires c.inversion <= |c.intervals| + 1
    ensures |ns| == |c.intervals| + 1
    ensures forall i :: 0 <= i < |ns| ==> ns[i].pitch == Rotated(c)[i].pitch
    ensures ns[0] == Note(Rotated(c)[0].pitch, c.octave)
    ensures forall i :: 1 <= i < |ns| ==> ns[i - 1].octave <= ns[i].octave
    ensures forall i :: 1 <= i < |ns| && ns[i].pitch <= ns[i - 1].pitch ==> ns[i].octave == ns[i - 1].octave + 1
    ensures forall i :: 1 <= i < |ns| && ns[i - 1].pitch < ns[i].pitch ==> ns[i].octave == ns[i - 1].octave
    ensures forall i :: 1 <= i < |ns| ==> Height(ns[i - 1]) < Height(ns[i]) <= Height(ns[i - 1]) + 12
  {
    ns := ToNotes(Note(c.root, c.octave), c.intervals);
    ns := RotateLeft(ns, c.inversion);
    if ns[0].octave > c.octave {
      ns := ShiftDown(ns, ns[0].octave - c.octave);
    }
    assert ns == Lowered(c);
    ns := AscendOctaves(ns);
    forall i | 1 <= i < |ns|
      ensures Height(ns[i - 1]) < Height(ns[i]) <= Height(ns[i - 1]) + 12
    {
      CloseAscends(ns, i);
    }
  }

  /** A close voicing is determined by its bass and its pitch classes. */
  lemma {:induction false} CloseVoicingUnique(a: seq<Note>, b: seq<Note>)
    requires |a| == |b| > 0 && a[0] == b[0]
    requires forall i :: 0 <= i < |a| ==> a[i].pitch == b[i].pitch
    requires Close(a) && Close(b)
    ensures a == b
  {
    var k := 1;
    while k < |a|
      invariant 1 <= k <= |a|
      invariant a[..k] == b[..k]
    {
      assert a[k - 1] == b[k - 1] by { assert a[..k][k - 1] == b[..k][k - 1]; }
      assert a[k] == b[k];
      assert a[..k + 1] == a[..k] + [a[k]];
      assert b[..k + 1] == b[..k] + [b[k]];
      k := k + 1;
    }
    assert a == a[..k] && b == b[..k];
  }

  /** Asking a chord for its notes twice gives the same voicing. */
  method NotesTwice(c: Chord) returns (first: seq<Note>, second: seq<Note>)
    requires c.inversion <= |c.intervals| + 1
    ensures first == second
  {
    first := Notes(c);
    second := Notes(c);
    CloseVoicingUnique(first, second);
  }

  /** The C major triad in first inversion is voiced E4, G4, C5. */
  method FirstInversionOfCMajor() returns (ns: seq<Note>)
    ensures ns == [Note(E, 4), Note(G, 4), Note(C, 5)]
  {
    var c := WithInversion(C, Major, Triad, 1);
    assert c.intervals == [4, 3];
    assert RootPosition(c) == [Note(C, 4), Note(E, 4), Note(G, 4)];
    assert Rotated(c) == [Note(E, 4), Note(G, 4), Note(C, 4)];
    ns := Notes(c);
    assert ns[0] == Note(E, 4);
    assert ns[1] == Note(G, 4);
  }

  /** The default chord has no intervals, so its only note is its root. */
  method DefaultNotes() returns (ns: seq<Note>)
    ensures ns == [Note(C, 4)]
  {
    ns := Notes(Default());
  }

  /** Sum of steps no larger than 7 each. */
  lemma {:induction false} SumAtMostSeven(s: seq<nat>)
    requires forall i :: 0 <= i < |s| ==> s[i] <= 7
    ensures Sum(s) <= 7 * |s|
  {
    if |s| > 0 {
      SumAtMostSeven(s[1..]);
    }
  }

  /** Every rotated tone of a constructed chord lies in octave 4 or above. */
  lemma RotatedAtLeastFour(root: PitchClass, q: Quality, n: Number, k: nat, j: nat)
    requires j < |ChordIntervals(q, n)| + 1
    ensures 4 <= Rotated(WithInversion(root, q, n, k))[j].octave
  {
    var c := WithInversion(root, q, n, k);
    var m := |c.intervals| + 1;
    var i := if j + c.inversion < m then j + c.inversion else j + c.inversion - m;
    assert Rotated(c)[j] == RootPosition(c)[i];
    ToNotesAboveRoot(Note(root, 4), c.intervals, i);
  }

  /** The bass of a constructed chord lies at most four octaves above its
      octave: the root-position tones span at most 6 steps of 7 semitones. */
  lemma ExcessAtMostFour(root: PitchClass, q: Quality, n: Number, k: nat)
    ensures BassExcess(WithInversion(root, q, n, k)) <= 4
  {
    var c := WithInversion(root, q, n, k);
    var m := |c.intervals| + 1;
    var b := if c.inversion < m then c.inversion else 0;
    assert Rotated(c)[0] == RootPosition(c)[b];
    ToNotesHeight(Note(root, 4), c.intervals, b);
    SumPrefixBound(c.intervals, b);
    SumAtMostSeven(StepTable(q, n));
    assert Sum(c.intervals) == Sum(StepTable(q, n)) by {
      assert c.intervals == StepTable(q, n);
    }
  }

  /** For every chord the constructors build, the pull-down of the first
      pass never takes an octave below zero, so the unsigned subtraction in
      the source cannot underflow. */
  lemma NoOctaveUnderflow(root: PitchClass, q: Quality, n: Number, k: nat, j: nat)
    requires j < |ChordIntervals(q, n)| + 1
    ensures 0 <= Lowered(WithInversion(root, q, n, k))[j].octave
  {
    RotatedAtLeastFour(root, q, n, k, j);
    ExcessAtMostFour(root, q, n, k);
  }
}
