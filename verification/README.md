# Chords and modes of a music-theory library, in Dafny

This project models two pieces of a Rust music-theory library.

**Chords** (`src/chord/chord.rs`):
- the `Chord` record;
- its constructors `new` and `with_inversion`, the latter wrapping the requested inversion around the number of tones;
- the quality/number interval table `chord_intervals`, with 22 entries and a major-triad fallback;
- the chord-name parser `from_regex`, which reads a root, a quality, an optional number and an optional slash bass;
- `Notes::notes`, which expands the chord from its root, rotates it to the inversion and normalises octaves in two passes;
- `Default`.

**Modes** (`src/scale/mode.rs`):
- the nine modes;
- their alias alternations;
- the recognizer `Mode::from_regex`. It tries the alternations in a fixed priority order and answers with the first one found anywhere in the text, together with that alternation's leftmost-first match.

The Dafny modules follow that structure:

| module | file | contents |
|---|---|---|
| `Wrappers` | `wrappers.dfy` | `Option` and `Result` |
| `Text` | `text.dfy` | Rust's `str::trim` and `str::find(char)`; leftmost-first search of an alternation of literals, which is what `Regex::find` does on the mode patterns |
| `Music` | `music.dfy` | pitch classes, notes and intervals; `Interval::from_semitones` and `Interval::to_notes` as the chord code relies on them |
| `Chords` | `chords.dfy` | quality, number and chord; the interval table; the constructors; `Default` |
| `Voicing` | `voicing.dfy` | `Notes::notes` for chords |
| `ChordParse` | `chord_parse.dfy` | `Chord::from_regex` |
| `Modes` | `modes.dfy` | `Mode` and `Mode::from_regex` |

## Modelling choices

**Parsers as parameters.** The recognizers `PitchClass::from_regex`, `Quality::from_regex` and `Number::from_regex` live in files that are not part of this model. `ChordParse.FromRegex` takes them as function parameters. Each answers with its value and the span it matched, and its contract holds for every such recognizer.

**Conversions.** The chord code relies on `Interval::from_semitones` and `Interval::to_notes`. They are defined concretely in `Music`:
- an interval is 1 to 12 semitones;
- a step moves the pitch-class ordinal on modulo 12 and raises the octave exactly when the ordinal wraps.

**Close voicing.** The result of `Notes::notes` is characterised as a close voicing, stated both ways:
- each note lies in the lowest octave that puts it strictly above the note before it;
- equivalently, the octave goes up by one exactly where the pitch class does not increase.

The two normalisation passes are shown to produce it. `Voicing.CloseVoicingUnique` shows that the bass and the pitch classes determine a close voicing.

**Vocabularies from outside the model.** The declarations of the `Quality` and `ChordError` enums are in files that are not part of this model, so their variants are assumed. `MinorMajor` and `AugmentedMajor` appear on no line of the modelled source; if the library has them, they take the major-triad fallback of the interval table. (The command-line list's "Augmented Major Seventh" and "Minor Major Seventh" are the pairs (`Augmented`, `MajorSeventh`) and (`Minor`, `MajorSeventh`) of the table, not these qualities.) No modelled path produces `NumberFromRegex` or `InversionFormat`: a failure of the number recognizer is absorbed as a triad, and the inversion is read from the bass pitch class only. `Pitch(NoteError)` stands for the conversion of a pitch-class error that the `?` at `src/chord/chord.rs:82` performs.

**Octaves are integers.** Octaves are unbounded `int`s, where the source uses `u8`. `Voicing.NoOctaveUnderflow` shows that the unsigned subtraction of the first pass cannot go below zero for any chord the constructors build.

### Behaviour worth noting

- **Wrapping inversions.** `with_inversion` reduces the requested inversion modulo the number of tones, `intervals.len() + 1` (`src/chord/chord.rs:38`). Requesting the inversion equal to the tone count gives root position, and one more gives the first inversion. See `Chords.InversionWraps`.
- **Slash numbers.** The command-line help lists "C/1" among its examples (`src/bin/rustmt/chord.rs:64`). That front end reads the inversion as a separate argument, which may be a number. `Chord::from_regex` itself reads only a bass *pitch class* after the slash (`src/chord/chord.rs:84-89`), so the `1` of "C/1" given to it is not read as an inversion; when the quality recognizer accepts the empty main clause, the chord stays in root position. See `ChordParse.SlashNumberExample`.
- **`MajorSeventh`.** The table distinguishes this number from `Seventh` for the augmented-major and minor-major sevenths (`src/chord/chord.rs:62,65`), so `Number` has six values.
- **Suspended fourth.** The suspended-fourth triad's steps are 5 and 7 semitones (`src/chord/chord.rs:56`). Its third tone is therefore the root again, an octave up: C, F, C. See `ChordParse.Suspended4TriadRepeatsRoot`.

### A slicing detail

The quality recognizer runs on the trimmed main clause, so the span it returns is relative to that substring. The source then uses the span's end to slice the *whole* text when it reads the number (`src/chord/chord.rs:96`). The model does the same. Whether that misreads real chord names depends on the quality and number patterns, which are not part of this model, so the model does not call this a bug.

## Model

| member | source | states |
|---|---|---|
| Text.Trim | src/chord/chord.rs:86 | the trimmed text is the input with only leading and trailing whitespace removed, neither starts nor ends with whitespace, and is the input itself when the input holds no whitespace |
| Text.FindChar | src/chord/chord.rs:84 | the answer is the index of the first occurrence of the character, and there is none exactly when the character does not occur |
| Text.Find | src/scale/mode.rs:47 | a found match is the leftmost-first match of the alternation: no alternative occurs earlier, and no earlier-listed alternative matches at the same start; there is no match exactly when no alternative occurs anywhere |
| Text.MatchedTextIsAlternative | src/scale/mode.rs:47-50 | a leftmost-first match lies within the text and spells one of the alternatives |
| Text.LeftmostFirstUnique | src/scale/mode.rs:47 | the leftmost-first match of an alternation is unique |
| Music.FromSemitones | src/chord/chord.rs:53-77 | the conversion succeeds exactly when every count is 1 to 12, and then keeps the counts in order |
| Music.Step | src/chord/chord.rs:131 | one step raises the absolute height by the interval; the octave rises by one exactly when the pitch class does not increase |
| Music.ToNotes | src/chord/chord.rs:131 | expanding a root through n steps gives n + 1 notes: the root first, then each note one step above its predecessor |
| Music.ToNotesHeight | src/chord/chord.rs:131 | the i-th expanded note lies the sum of the first i steps above the root |
| Music.ToNotesAboveRoot | src/chord/chord.rs:131 | no expanded note lies in an octave below the root's |
| Music.ToNotesOctavesAscend | src/chord/chord.rs:131 | octaves never decrease along the expanded notes |
| Chords.StepTable | src/chord/chord.rs:52-76 | every table entry is a list of 2 to 6 steps of 1 to 7 semitones each |
| Chords.ChordIntervals | src/chord/chord.rs:49-78 | the conversion of the table entry never fails (the `unwrap` cannot panic); each listed chord gets as many steps as its number calls for; every other pair gets the major triad |
| Chords.TableFacts | src/chord/chord.rs:52-76 | entry by entry: listed pairs have the step count of their number; unlisted pairs fall back to 4, 3; no listed pair except the major triad has the fallback's steps |
| Chords.FallbackExactlyOutsideCatalog | src/chord/chord.rs:52-76 | the intervals are the major triad's exactly when the pair is not one of the 22 listed chords or is the major triad itself |
| Chords.WithInversion | src/chord/chord.rs:31-47 | the chord keeps root, quality and number, sits in octave 4, carries the table's intervals, and has the requested inversion reduced modulo the tone count; an inversion within range is kept unchanged |
| Chords.New | src/chord/chord.rs:26-28 | `new` is root position in octave 4 with the table's intervals |
| Chords.InversionWraps | src/chord/chord.rs:38 | requesting an inversion one full turn further gives the same chord; the inversion just past the last tone is root position and the next one is the first inversion |
| Chords.Default | src/chord/chord.rs:152-163 | the default chord is C major in octave 4, root position, with no intervals, so it is neither a valid constructed chord nor equal to `new(C, Major, Triad)` |
| Voicing.RotateLeft | src/chord/chord.rs:132 | rotating left by k puts element (i + k) mod n at position i |
| Voicing.RootPosition | src/chord/chord.rs:127-131 | the expansion from the root has one more note than there are steps, starts at the root in the chord's octave, and each later note is one interval step above its predecessor |
| Voicing.Rotated | src/chord/chord.rs:131-132 | the rotated tones are the root-position tones starting from the inversion's tone and wrapping round to the root |
| Voicing.Lowered | src/chord/chord.rs:134-138 | the first pass keeps the rotated pitch classes, moves all notes down together, and leaves the bass exactly in the chord's octave, with octaves rising only by one and only where the pitch class does not increase |
| Voicing.RotatedShape | src/chord/chord.rs:131-132 | along the rotated tones the octave rises by at most one, and only where the pitch class does not increase |
| Voicing.AscendOctaves | src/chord/chord.rs:140-147 | the second pass keeps the bass and the pitch classes and yields a close voicing |
| Voicing.CloseAscends | src/chord/chord.rs:140-147 | in a close voicing each note lies 1 to 12 semitones above the one before |
| Voicing.Notes | src/chord/chord.rs:126-149 | the notes are the root-position tones rotated by the inversion, the bass is in the chord's octave, octaves never decrease, the octave rises by one exactly where the pitch class does not increase, and each note lies 1 to 12 semitones above its predecessor |
| Voicing.CloseVoicingUnique | src/chord/chord.rs:140-147 | two close voicings with the same bass and pitch classes are equal |
| Voicing.NotesTwice | src/chord/chord.rs:126-149 | asking a chord for its notes twice gives the same voicing |
| Voicing.FirstInversionOfCMajor | src/chord/chord.rs:126-149 | the first inversion of C major is E4, G4, C5 |
| Voicing.DefaultNotes | src/chord/chord.rs:152-163 | the default chord's only note is C4 |
| Voicing.RotatedAtLeastFour | src/chord/chord.rs:131-132 | every rotated tone of a constructed chord lies in octave 4 or above |
| Voicing.ExcessAtMostFour | src/chord/chord.rs:135-136 | the bass of a constructed chord lies at most four octaves above octave 4 |
| Voicing.NoOctaveUnderflow | src/chord/chord.rs:135-137 | the first pass never takes an octave of a constructed chord below zero, so the `u8` subtraction cannot underflow |
| ChordParse.ClauseEnd | src/chord/chord.rs:84-92 | the main clause ends at the first slash: the position holds a slash and none comes before it; it is the end of the text exactly when there is no slash |
| ChordParse.MainClause | src/chord/chord.rs:92 | the quality is read from the stretch between the end of the root's match and the slash, with only its surrounding whitespace removed, so it neither starts nor ends with whitespace and holds no slash |
| ChordParse.Bass | src/chord/chord.rs:84-89 | there is no bass without a slash; otherwise the bass is the recognizer's pitch class for the trimmed text after the first slash, and there is none when that text does not parse |
| ChordParse.Position | src/chord/chord.rs:105-109 | the position is that of the first note with the bass's pitch class; there is none exactly when no note has it |
| ChordParse.PositionIsFirst | src/chord/chord.rs:105-109 | looking the bass up among notes finds the first position of its pitch class in their pitch classes, and nothing exactly when the pitch class is absent |
| ChordParse.TonesOfInversion | src/chord/chord.rs:111-117 | rebuilding the chord in the found inversion keeps its tones |
| ChordParse.ResolveBass | src/chord/chord.rs:104-119 | a bass found among the chord's tones selects the inversion at its first position, and any other bass leaves root position; root, quality, number, octave and validity are kept |
| ChordParse.FromRegex | src/chord/chord.rs:81-122 | root and quality errors are passed on; otherwise the chord has the parsed root and quality in octave 4, the number read after the quality match, defaulting to a triad, and the table's intervals; a slash bass that is a chord tone selects the inversion at its first position, and an absent, unparsable or foreign bass gives root position |
| ChordParse.CMajorTones | src/chord/chord.rs:53 | C major's tones are C, E, G in every inversion |
| ChordParse.Suspended4TriadRepeatsRoot | src/chord/chord.rs:56 | the suspended-fourth triad on C has the tones C, F, C |
| ChordParse.SlashTriad | src/chord/chord.rs:81-122 | on a text "root/bass" of three characters, with an empty main clause read as major, the result is the triad on the root, in the inversion of the bass character's first position when it names a chord tone, and in root position when it parses to a pitch class outside the chord or does not parse |
| ChordParse.SlashBassExample | src/chord/chord.rs:81-122 | "C/E" parses as the first inversion of C major |
| ChordParse.SlashNumberExample | src/chord/chord.rs:84-89 | in "C/1" the text after the slash is no pitch class, so the chord is C major in root position |
| Modes.TryFrom | src/scale/mode.rs:46-55 | trying the entries from the k-th on fails exactly when none of them has an alias in the text, and otherwise answers with the first entry that has one, with that entry's leftmost-first match |
| Modes.WinnerUnique | src/scale/mode.rs:46-53 | at most one entry is the first with an alias in the text |
| Modes.FromRegex | src/scale/mode.rs:33-56 | the recognizer fails exactly when no alias of any mode occurs; otherwise it answers with the mode of the first entry, in priority order, that has an alias in the text, and with that alternation's leftmost-first match |
| Modes.EntryOf | src/scale/mode.rs:34-44 | each mode has exactly one entry in the priority list |
| Modes.AnswerEntry | src/scale/mode.rs:46-50 | a successful answer comes from its mode's entry, and that entry is the winning one |
| Modes.MatchSpellsAlias | src/scale/mode.rs:47-50 | the returned span lies within the text and spells an alias of the returned mode |
| Modes.MajorAliasWins | src/scale/mode.rs:35 | any text with a major alias, even a bare `M`, is Ionian |
| Modes.MinorVariantsBeforeMinor | src/scale/mode.rs:35-38 | harmonic and melodic minor are answered only when no major alias occurs, and they take precedence over plain minor |
| Modes.MixolydianImpliesMinor | src/scale/mode.rs:8-12 | every text with a Mixolydian alias also contains the minor alias `m` |
| Modes.NeverMixolydian | src/scale/mode.rs:38-41 | the recognizer never answers Mixolydian, because the minor entry is tried first |
| Modes.HarmonicMinorCapitalized | src/scale/mode.rs:35-36 | "Harmonic Minor" is Ionian, matched at the capital `M` |
| Modes.HarmonicMinorLowercase | src/scale/mode.rs:16-17 | "harmonic minor" is harmonic minor, matched as a whole |
| Modes.PlainMinor | src/scale/mode.rs:8 | in "A minor" the alias `m` alone is matched, not "minor" |
| Modes.DorianLowercase | src/scale/mode.rs:9 | "dorian" is Dorian, matched as its first alias "dor" |
| Modes.DorianCapitalized | src/scale/mode.rs:7-17 | "Dorian" matches no alias, so the recognizer fails |

## Left out

- Regex compilation: the patterns are fixed literal alternations, and `Regex::new` on them cannot fail. The `?` on the compiled regex (`src/scale/mode.rs:47`) is therefore not modelled as an error path.
- `PitchClass::from_regex`, `Quality::from_regex`, `Number::from_regex`: their source files are not part of this model. They are parameters of `ChordParse.FromRegex`, so the pitch-class, quality and number alias tables are not modelled.
- Byte offsets: Rust slices strings at byte offsets. The model indexes characters, which agree on ASCII text.
- Panics of `from_regex`: the source panics when a recognizer returns a span that slices out of range. `ChordParse.FromRegex` requires the spans to lie in range (`SlicesInBounds`) instead of modelling the panic.
- Integer widths: octaves and inversions are unbounded (`nat`/`int`), not `u8`. The source's `with_inversion` parameter is a `u8` (`src/chord/chord.rs:35`), while `Chords.WithInversion` accepts any `nat`. For constructed chords, `Voicing.NoOctaveUnderflow` covers the only subtraction.
- Voicing.Notes: requires the inversion to be at most the tone count, because `rotate_left` panics beyond that. Chords built by the constructors always meet this; the panic on a hand-built chord is not modelled.
- The command-line front ends in `src/bin` are not part of this model: argument handling and printing only. Their list of the 22 available chords serves as the catalogue that `Chords.ChordIntervals` refers to. Their own inversion option, an integer assigned to the chord without the modulo wrap, belongs to that front end, not to the library.
- The scale code that turns a mode into intervals is not part of this model.
- Printing, `Debug`/`Display` derivations and enum iteration: these produce no behaviour the model needs.
