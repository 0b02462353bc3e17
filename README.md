# Music-training site: the music-theory engine in Dafny

The site has three pages, each driven by one script.

- **Guitar** (`js/guitar.js`):
  - a chord-drill generator that shuffles 14 chord types and gives each a random root;
  - a strumming-pattern generator;
  - a 12-fret fretboard that highlights either a single note typed by the user or the notes of a chosen scale.
- **Piano** (`js/piano.js`):
  - chord and scale spellers over a 12-name table;
  - the circle of fifths, going up and going down;
  - a three-octave on-screen keyboard with MIDI key numbers, an octave shifter and a waveform button. The set of sounding keys is kept in `active`.
- **Quiz** (`js/quiz.js`):
  - ten-question quizzes on chords, scales and major key signatures;
  - answers are either typed or picked from four buttons;
  - list answers, whether typed or a clicked chord-tones button split at spaces, are graded as multisets; scale-name and key buttons are compared verbatim after trimming.

The model has seven modules.

- `Wrappers`: `Option`.
- `Strings`: the JavaScript string built-ins the scripts rely on:
  - `trim`, ASCII `toUpperCase`, first-occurrence `replace`, `split(/\s+/)` and `join`;
  - the default `sort`, modelled with characters compared by code point.
- `Pitch`: the 12-name sharp chromatic table and its `indexOf`, the flat-to-sharp map, and the `formula.map(i => table[(root + i) % 12])` speller shared by all three pages.
- `Guitar`:
  - the chord drill, stroke line, note parser, `noteAt`, scale sets and cell highlighting;
  - the class `Fretboard`, which holds the filter state `activeFilterMode`/`activeNote`/`activeScaleSet`.
- `Piano`:
  - the formula tables and the chord and scale builders;
  - the circle tables with a name-to-pitch-class map;
  - the MIDI layout of `buildPiano`, `clamp` and the wave cycle;
  - the class `Piano`, which holds `active`, `startOctave`, `currentWave` and the laid-out keys.
- `Quiz`: the quiz tables, `normalize`, the answer builders, the choice generator `generateChoices`, and the way `checkAnswer` marks an answer right or wrong.
- `QuizPage`: the class `Session`, holding `currentQuestion`, `score`, `correctAnswer`, `quizMode`, the question text and the choice buttons. It is driven by `startQuiz`, `nextQuestion`, `checkAnswer` and `submitAnswer`.

Each `Math.random` draw arrives as a caller-supplied index in range:

- Fisher–Yates indices `0 <= j <= i`;
- one root index per chord type;
- one rest flag per stroke position;
- a `Draw` per quiz question, holding the root, the table key, the draws of the choice loop and the final order of the buttons.

The 800 ms `setTimeout(nextQuestion, 800)` becomes an explicit call of `Session.NextQuestion`.

## Model

| member | source | states |
|---|---|---|
| Pitch.JsRem | js/guitar.js:131 | the JavaScript `%` on a possibly negative left operand: the result has the sign of the dividend and equals Euclidean `%` on non-negative ones |
| Pitch.IndexOf | js/guitar.js:130 | `indexOf` is -1 or a position holding the element |
| Pitch.IndexOfFirst | js/guitar.js:130 | `indexOf` is -1 exactly when the element is absent, and otherwise names its first position |
| Pitch.IndexOfDistinct | js/piano.js:65 | in a table without repeats, `indexOf` finds each entry at its own position |
| Pitch.ChromaticStepWraps | js/guitar.js:131 | stepping from a found index lands on the name `(index + semis) % 12` and is 12-periodic |
| Pitch.ChromaticIndexOfFound | js/quiz.js:126 | every chromatic name is found, at a position in 0..11 holding that name |
| Pitch.ChromaticIndexOfAbsent | js/guitar.js:272 | a name outside the chromatic table gets index -1 |
| Pitch.ChromaticIndexOfAbsentConverse | js/guitar.js:272 | index other than -1 means the name is a chromatic name |
| Pitch.ChromaticIndexOfAt | js/quiz.js:4 | the table has no repeats: `indexOf(chromatic[i]) == i` |
| Pitch.ChromaticInjective | js/quiz.js:4 | two positions of the chromatic table hold the same name exactly when they are equal |
| Pitch.ChromaticDistinct | js/quiz.js:4 | the twelve chromatic names are pairwise different |
| Pitch.ChromaticShape | js/guitar.js:102 | every chromatic name is a letter A–G with an optional `#` |
| Pitch.FlatToSharpTargets | js/quiz.js:7 | the five flat keys are not chromatic names and each maps to one; no chromatic name is a flat key |
| Pitch.ScaleShapeOffsets | js/quiz.js:11-28 | a formula that starts at 0 and rises strictly below 12 has non-negative offsets, all in 0..11, naming no pitch class twice |
| Pitch.AscendingStep | js/quiz.js:11-28 | a strictly rising formula is increasing between any two positions |
| Pitch.Spell | js/piano.js:67 | `formula.map(i => table[(root+i)%12])` has the formula's length |
| Pitch.SpellInTable | js/piano.js:67 | entry k of a spelled list is `table[(root + formula[k]) % 12]`, a table name |
| Pitch.SpellEntries | js/piano.js:67 | for a list equal to a spelling, every entry k is `table[(root + formula[k]) % 12]` |
| Pitch.SpellRootFirst | js/piano.js:67 | a formula starting at 0 spells the root first |
| Pitch.SpellDistinct | js/piano.js:67 | a formula naming no pitch class twice spells pairwise different names |
| Pitch.SpellSpec | js/quiz.js:127 | a spelled list is root-first, the formula's length, repeat-free, and each entry's index is `(root + offset) % 12` |
| Pitch.SpellAt | js/quiz.js:127 | spelled entries relate to their offsets through `indexOf` |
| Pitch.OctaveStepUnique | js/guitar.js:131 | within one octave the step from one pitch class to another is unique |
| Pitch.ModShift | js/piano.js:67 | offsets in different pitch classes stay in different pitch classes after a common shift |
| Strings.TrimStart | js/guitar.js:111 | `trim` drops a leading run of whitespace and nothing else |
| Strings.TrimEnd | js/guitar.js:111 | `trim` drops a trailing run of whitespace and nothing else |
| Strings.Trim | js/quiz.js:239 | the trimmed string neither starts nor ends with whitespace, and a string that does neither is unchanged |
| Strings.ToUpper | js/quiz.js:223 | `toUpperCase` maps each character by itself, a–z to A–Z, everything else unchanged |
| Strings.ReplaceFirstAt | js/guitar.js:112 | `replace` with a string pattern rewrites only the first occurrence |
| Strings.ReplaceFirstAbsent | js/guitar.js:112 | `replace` of an absent character leaves the string unchanged |
| Strings.ReplaceFirst | js/guitar.js:112 | `replace` with a one-character pattern keeps the length |
| Strings.Split | js/quiz.js:223 | `split(/\s+/)` always yields at least one piece |
| Strings.SplitJoin | js/quiz.js:231 | splitting a space-joined list of words gives the list back |
| Strings.JoinFirst | js/quiz.js:239 | `join` of no elements is empty, of one element is that element, and of more starts with the first element and the separator |
| Strings.Sort | js/quiz.js:230 | `sort()` returns a permutation of its input: the same multiset of strings |
| Strings.SortSorted | js/quiz.js:230 | `sort()` leaves the list in ascending order, characters compared by code point |
| Strings.SortedUnique | js/quiz.js:230-236 | two sorted lists with the same multiset are equal |
| Strings.SortEqualIffSameMultiset | js/quiz.js:230-236 | two lists sort to the same list exactly when they hold the same multiset |
| Strings.CodeLeTotal | js/quiz.js:230 | the string order compares any two strings |
| Strings.CodeLeAntisymmetric | js/quiz.js:230 | the string order is antisymmetric |
| Strings.CodeLeTransitive | js/quiz.js:230 | the string order is transitive |
| Guitar.Swap | js/guitar.js:16 | the destructuring swap keeps the length |
| Guitar.SwapPermutes | js/guitar.js:16 | a swap keeps the multiset |
| Guitar.SwapDistinct | js/guitar.js:16 | a swap keeps a repeat-free list repeat-free |
| Guitar.ShuffleDown | js/guitar.js:14-17 | the down-counting swap loop keeps the length |
| Guitar.ShuffleDownPermutes | js/guitar.js:14-17 | the shuffled types are a permutation of the types and stay repeat-free |
| Guitar.TypesDistinct | js/guitar.js:10 | the 14 chord types are pairwise different |
| Guitar.ShuffleInPlace | js/guitar.js:13-17 | the array loop leaves exactly the shuffle of the old contents |
| Guitar.GenerateCodeSet | js/guitar.js:12-25 | one label per type: label k is the drawn root followed by shuffled type k; the shuffled types are a repeat-free permutation of `types` |
| Guitar.GenerateStroke | js/guitar.js:32-42 | both lines have two characters per position; the count line spells the positions; a stroke is `-` exactly on a rest and `↑` exactly on an off-beat `e`/`a` that is not a rest, `↓` otherwise |
| Guitar.FlatKeys | js/guitar.js:103 | a letter plus `b` is in the flat map exactly when the letter is not C or F, and then maps to a sharp spelling other than B |
| Guitar.SpellingOf | js/guitar.js:117-126 | after the pattern test, only `CB` and `FB` yield null; every other result is a sharp spelling and never `B` |
| Guitar.NormalizeNoteInput | js/guitar.js:109-127 | null exactly for empty input, input not matching one letter A–G plus optional `#`/`B` after trim, upper-casing and the `♯`/`♭` replacements, and `CB`/`FB`; otherwise a sharp spelling that is never `B` |
| Guitar.SharpSpellingChromatic | js/guitar.js:102-124 | a sharp spelling is a chromatic name or one of E#, B# |
| Guitar.NoteInputFlats | js/guitar.js:117-122 | Db/Eb/Gb/Ab/Bb in any case or with `♭` parse to their sharp |
| Guitar.NoteInputSharps | js/guitar.js:124 | a letter with `#` parses to itself |
| Guitar.NoteInputLetters | js/guitar.js:118-125 | a bare letter parses to itself, except B, which parses to A# |
| Guitar.PrepareFlatSign | js/guitar.js:111-112 | `e♭` is prepared to `EB` |
| Guitar.Prepare | js/guitar.js:111-112 | the preparation drops only the surrounding blanks: the prepared text is exactly as long as the trimmed input |
| Guitar.PrepareIgnoresBlanks | js/guitar.js:111 | blanks around the input do not matter: preparing the trimmed text gives the same result |
| Guitar.PrepareUpper | js/guitar.js:111 | a one- or two-character text that starts with a note letter and does not end in a blank is not trimmed, only upper-cased |
| Guitar.PrepareLetter | js/guitar.js:111-112 | a single note letter in either case is prepared to its upper case, so `b` becomes `B` |
| Guitar.PrepareFrom | js/guitar.js:111-112 | once trimmed and upper-cased, a text without `♯` and `♭` passes both replacements unchanged |
| Guitar.PrepareTwo | js/guitar.js:111-112 | two non-blank characters that are not signs once upper-cased are prepared to their two upper cases |
| Guitar.FlatSignReplaced | js/guitar.js:112 | `replace("♭","B")` turns a letter followed by `♭` into the letter followed by `B` |
| Guitar.PrepareSharpSpelling | js/guitar.js:111-112 | a sharp spelling passes the preparation unchanged |
| Guitar.NormalizeNoteInputSharpSpelling | js/guitar.js:118-125 | as written, every sharp spelling parses to itself except B, which becomes A# |
| Guitar.NormalizeNoteInputChromatic | js/guitar.js:118 | as written, every chromatic name parses to itself except B, which becomes A# |
| Guitar.SpellingFixed | js/guitar.js:117-126 | the corrected spelling step: null only for `CB`/`FB`, otherwise a sharp spelling |
| Guitar.NormalizeNoteInputFixed | js/guitar.js:109-127 | the corrected parser has the same null cases and returns sharp spellings, B included |
| Guitar.NormalizeNoteInputFixedChromatic | js/guitar.js:109-127 | the corrected parser returns every chromatic name unchanged |
| Guitar.NormalizeNoteInputFixedSharpSpelling | js/guitar.js:124-125 | the corrected parser returns every sharp spelling unchanged |
| Guitar.PrepareFlatSpelling | js/guitar.js:111 | a letter plus `b` is prepared to the letter plus `B` |
| Guitar.NormalizeNoteInputFixedFlats | js/guitar.js:103-122 | the corrected parser maps each of the five flats to its sharp |
| Guitar.FlatAliasShape | js/guitar.js:103 | every key of `enharmonicToSharp` is an upper-case note letter followed by `b` |
| Guitar.NormalizeNoteInputFixedPrepared | js/guitar.js:109-127 | whenever the prepared text matches the note pattern, the corrected parser reads the prepared text |
| Guitar.NoteAtChromatic | js/guitar.js:129-132 | `noteAt` yields only chromatic names |
| Guitar.NoteAt | js/guitar.js:129-132 | `noteAt` yields only chromatic names, and always yields one when the open note's table index plus the fret is non-negative |
| Guitar.NoteAtTransposes | js/guitar.js:129-132 | on a chromatic open string, `noteAt` is the name `(index + fret) % 12` |
| Guitar.NoteAtOctave | js/guitar.js:129-132 | fret 0 and fret 12 sound the open note |
| Guitar.NoteAtPeriodic | js/guitar.js:129-132 | `noteAt` repeats every 12 frets |
| Guitar.NoteAtUnknownOpen | js/guitar.js:130-131 | an unknown open note at fret 0 indexes position -1, which is undefined |
| Guitar.NoteAtUnknownFret | js/guitar.js:130-131 | an unknown open note at fret f ≥ 1 reads position `(f - 1) % 12` |
| Guitar.NoteAtFindsEachNoteOnce | js/guitar.js:129-132 | on each string every note sounds at exactly one fret of 0..11 |
| Guitar.TuningChromatic | js/guitar.js:134-141 | each open string is a chromatic name |
| Guitar.ScaleFormulasShape | js/guitar.js:145-156 | every scale formula starts at 0 and rises strictly below 12 |
| Guitar.ScaleFormulaOf | js/guitar.js:145-156 | every scale formula has non-negative offsets naming no pitch class twice |
| Guitar.ScaleNoteSetShape | js/guitar.js:158-164 | a scale set contains the root, only chromatic names, and exactly as many names as the formula has offsets |
| Guitar.ScaleNoteSet | js/guitar.js:158-164 | the set of a scale always holds its root and only chromatic names |
| Guitar.SpellAllInTable | js/guitar.js:160-162 | every name spelled from a chromatic root is a chromatic name |
| Guitar.BuildScaleSet | js/guitar.js:158-164 | the `forEach` loop collects exactly the spelled scale's names |
| Guitar.AddSteps | js/guitar.js:162 | adding each offset's name to the set collects exactly the names of the spelled list |
| Guitar.NoteModeHighlight | js/guitar.js:221-223 | in note mode a cell is highlighted exactly where its note is the active note, dimmed elsewhere |
| Guitar.ScaleModeHighlight | js/guitar.js:224-226 | in scale mode a cell is highlighted exactly where the scale set holds its note, dimmed elsewhere |
| Guitar.AllModePlain | js/guitar.js:203-227 | with no filter a cell is plain, captioned with its note's sharp/flat pair |
| Guitar.CellAt | js/guitar.js:203-227 | a cell's note is `noteAt` of its string and fret, it has a caption exactly when it has a note, and it is unshaded exactly when no filter is active |
| Guitar.NoteShownOnEveryString | js/guitar.js:218-223 | a grid drawn in note mode highlights the chosen note on every string, at the fret among the first twelve that sounds it |
| Guitar.Fretboard.constructor | js/guitar.js:176-178 | the page starts with no filter |
| Guitar.Fretboard.ShowAll | js/guitar.js:256-261 | resets to all mode with no note and no scale set |
| Guitar.Fretboard.ApplySingleNoteFilter | js/guitar.js:268-281 | as written: enters note mode with the parsed note exactly when it parses to a chromatic name; otherwise (null, Cb, Fb, E#, B#) the filter state is unchanged; a typed B enters note mode on A# |
| Guitar.Fretboard.ApplySingleNoteFilterFixed | js/guitar.js:268-281 | the same filter over the corrected parser, so a typed B enters note mode on B |
| Guitar.Fretboard.SetNote | js/guitar.js:270-280 | note mode exactly when `indexOf` finds the parsed note, no change otherwise |
| Guitar.Fretboard.ApplyScaleFilter | js/guitar.js:283-290 | enters scale mode with the scale set of the chosen root and scale, no active note |
| Guitar.Fretboard.Render | js/guitar.js:187-232 | from a consistent filter state: one row per string, 13 cells per row, each cell given by the cell rule of the current filter state, and in note mode every string shows the chosen note |
| Guitar.RenderRows | js/guitar.js:198-231 | the row loop yields one row per open string |
| Guitar.RenderRow | js/guitar.js:201-231 | the fret loop yields one cell per fret 0..12 |
| Piano.NotesDistinct | js/piano.js:7-9 | the twelve root names are pairwise different |
| Piano.ChordFormulasAscend | js/piano.js:33-59 | every chord formula except add9/madd9 starts at 0 and rises strictly below 12 |
| Piano.ChordFormulaOf | js/piano.js:33-59 | every chord formula has three or four non-negative offsets naming no pitch class twice, root first |
| Piano.ScaleFormulasShape | js/piano.js:73-83 | every scale formula has seven offsets starting at 0 and rising strictly below 12 |
| Piano.ScaleFormulaOf | js/piano.js:73-83 | every scale formula has non-negative offsets naming no pitch class twice |
| Piano.NotesIndexOf | js/piano.js:65 | a root name is found at a position holding it |
| Piano.NotesIndexAt | js/piano.js:65 | `indexOf(notes[i]) == i` |
| Piano.BuildChord | js/piano.js:61-71 | a chord has the formula's length, three or four notes |
| Piano.BuildChordAt | js/piano.js:65-67 | `notes.indexOf` finds the i-th name at i, so the chord on it is the formula spelled from position i |
| Piano.BuildChordTones | js/piano.js:65-67 | tone k of the chord on `notes[i]` is `notes[(i + formula[k]) % 12]` |
| Piano.BuildChordRoot | js/piano.js:65-67 | the first chord note is the root |
| Piano.BuildChordDistinct | js/piano.js:65-67 | no chord repeats a note |
| Piano.NinthWraps | js/piano.js:57-67 | the add9/madd9 offset 14 wraps to the note two semitones above the root |
| Piano.ShowScale | js/piano.js:85-95 | a scale has seven notes |
| Piano.ShowScaleAt | js/piano.js:89-91 | `notes.indexOf` finds the i-th name at i, so the scale on it is the formula spelled from position i |
| Piano.ShowScaleNotes | js/piano.js:89-91 | note k of the scale on `notes[i]` is `notes[(i + formula[k]) % 12]` |
| Piano.ShowScaleRoot | js/piano.js:89-91 | every scale has seven notes starting with the root |
| Piano.ShowScaleDistinct | js/piano.js:89-91 | no scale repeats a note |
| Piano.CirclePitches | js/piano.js:24-25 | the circle names map to pitch classes one by one |
| Piano.CircleUpPitches | js/piano.js:24 | the ascending circle names the pitch classes 0, 7, 2, 9, 4, 11, 6, 1, 8, 3, 10, 5 |
| Piano.CircleDownPitches | js/piano.js:25 | the descending circle names the pitch classes 0, 5, 10, 3, 8, 1, 6, 11, 4, 9, 2, 7 |
| Piano.CircleUpFifths | js/piano.js:24 | each ascending entry lies 7 semitones above its predecessor |
| Piano.CircleDownFourths | js/piano.js:25 | each descending entry lies 5 semitones above its predecessor |
| Piano.CircleUpVisitsAll | js/piano.js:24 | the ascending circle visits all 12 pitch classes once each |
| Piano.CircleDownVisitsAll | js/piano.js:25 | the descending circle visits all 12 pitch classes once each |
| Piano.CircleDownReversesUp | js/piano.js:24-25 | `circleDown[i]` is the pitch class of `circleUp[(12 - i) % 12]` |
| Piano.BlackSemis | js/piano.js:106-112 | five black keys |
| Piano.OctaveSemis | js/piano.js:105-112 | white and black semitones are disjoint and together exactly 0..11 |
| Piano.BlackBetweenWhites | js/piano.js:105-112 | each black key lies one semitone above its left white key and one below the next |
| Piano.WhiteKeys | js/piano.js:187-197 | seven white keys per octave |
| Piano.BlackKeys | js/piano.js:200-212 | five black keys per octave |
| Piano.Midis | js/piano.js:192-205 | one MIDI number per key element |
| Piano.BuildPiano | js/piano.js:173-218 | the nested loops lay out exactly the keyboard layout, and `globalWhiteIndex` ends at 7 · totalOctaves |
| Piano.OctaveMidis | js/piano.js:182-213 | one octave's keys carry each MIDI number of `[baseC, baseC + 12)` exactly once |
| Piano.MidisAppend | js/piano.js:182-213 | MIDI numbers of appended key lists append |
| Piano.LayoutMidis | js/piano.js:182-215 | the keyboard has 12 keys per octave, each MIDI number of `[12·(start+1), 12·(start+1+n))` exactly once |
| Piano.Layout | js/piano.js:182-215 | n octaves lay out 12 · n keys |
| Piano.DistinctAppend | js/piano.js:182-213 | two repeat-free lists, the first wholly below the second, append to a repeat-free list |
| Piano.LayoutSlots | js/piano.js:193-208 | white keys occupy slots below 7·n in MIDI order; each black key sits between the white keys of its slot and the next |
| Piano.OctaveWhiteSlots | js/piano.js:187-197 | octave o's white keys take slots 7o..7o+6 |
| Piano.OctaveBlackSlots | js/piano.js:200-212 | octave o's black keys sit between two of octave o's white slots |
| Piano.SlotDivision | js/piano.js:207 | slot 7o+i belongs to octave o at white index i |
| Piano.WhiteMidiInOctave | js/piano.js:187-197 | the white key at slot 7o+i has the MIDI number of octave o's C plus the i-th white semitone |
| Piano.KeyboardRange | js/piano.js:170-184 | with start octave in 0..6 and three octaves, every MIDI number lies in 12..119 |
| Piano.ClampSpec | js/piano.js:167 | `clamp` lies in [a, b], keeps values inside, maps values below to a and above to b, and is idempotent |
| Piano.Clamp | js/piano.js:167 | with ordered bounds the result lies between them, and a value already between them is returned unchanged |
| Piano.WaveOrderDistinct | js/piano.js:270 | the four wave types are pairwise different |
| Piano.WaveStep | js/piano.js:270-272 | the button moves each wave type to the next one in order, cyclically |
| Piano.WaveCycle | js/piano.js:270-272 | four clicks return to the start |
| Piano.WaveAfterUnknown | js/piano.js:271-272 | the next wave is always in `order`; an unknown wave moves to `sine` |
| Piano.WaveAfter | js/piano.js:270-272 | the next wave is always one of the four in `order` |
| Piano.Without | js/piano.js:160 | deleting a key does not lengthen `active` |
| Piano.WithoutSpec | js/piano.js:160 | deleting removes exactly the given key, keeps `active` repeat-free and is a no-op when the key is absent |
| Piano.WithoutFirst | js/piano.js:164 | deleting the first key of a repeat-free list leaves the rest |
| Piano.Piano.constructor | js/piano.js:114-116 | the page starts with C3, triangle wave, nothing sounding, and the keyboard laid out |
| Piano.Piano.NoteOn | js/piano.js:129-148 | a key already sounding changes nothing; otherwise it joins `active`; nothing else changes |
| Piano.Piano.NoteOff | js/piano.js:150-161 | removes exactly that key from `active`, a no-op when it is absent; nothing else changes |
| Piano.Piano.StopAll | js/piano.js:163-165 | empties `active`; nothing else changes |
| Piano.Piano.SetStartOctave | js/piano.js:259-264 | the start octave becomes `clamp(next, 0, 6)`, `active` is empty and the keyboard is laid out again from the new octave |
| Piano.Piano.NextWave | js/piano.js:269-274 | the wave moves to the next in order; nothing else changes |
| Quiz.ChordTypeKeysMatch | js/quiz.js:11-17 | `Object.keys(chordTypes)` lists each chord type once, and nothing else |
| Quiz.ScaleKeysMatch | js/quiz.js:20-28 | `Object.keys(scales)` lists each scale once, and nothing else |
| Quiz.KeyKeysMatch | js/quiz.js:31-42 | `Object.keys(keySignatures)` lists each key once, and nothing else |
| Quiz.KeySignatureOrder | js/quiz.js:31-42 | sharp key i has the first i sharps of F C G D A; flat key i has the first i+1 flats of B E A D |
| Quiz.KeySignaturesDistinct | js/quiz.js:31-42 | no two keys share a signature |
| Quiz.NormalizeSpec | js/quiz.js:7-8 | `normalize` is idempotent, the identity on chromatic names, and sends each of the five flats to a different chromatic name |
| Quiz.RootsNormalize | js/quiz.js:122-126 | every quiz root normalizes to a chromatic name, so `rootIndex >= 0` |
| Quiz.QuizFormulasShape | js/quiz.js:11-28 | chord and scale formulas start at 0 and rise strictly below 12; scales have seven offsets |
| Quiz.ChordTypeOf | js/quiz.js:11-17 | each chord formula has non-negative offsets naming no pitch class twice |
| Quiz.ScaleOf | js/quiz.js:20-28 | each scale formula has seven non-negative offsets naming no pitch class twice |
| Quiz.Spelled | js/quiz.js:126-127 | a spelled answer has the formula's length |
| Quiz.ChordAnswer | js/quiz.js:126-127 | a chord answer has the chord formula's length |
| Quiz.ScaleAnswer | js/quiz.js:152-157 | a scale answer has seven notes |
| Quiz.SpelledSpec | js/quiz.js:122-157 | every generated answer is root-first (the normalized root), repeat-free and made only of chromatic names |
| Quiz.SpellDecidesFormula | js/quiz.js:142-146 | from the same root, two formulas of the same length spell the same notes only if they are equal |
| Quiz.ScalesDistinct | js/quiz.js:20-28 | no two scales share a formula |
| Quiz.NamesAreWords | js/quiz.js:20-42 | scale and key names contain no whitespace |
| Quiz.ChromaticName | js/quiz.js:4-8 | chromatic names are words that `normalize` leaves unchanged |
| Quiz.SignatureWords | js/quiz.js:31-42 | every signature entry is a word whose upper-cased form restores to it |
| Quiz.SignaturePromptDecides | js/quiz.js:168 | two keys with the same signature prompt (the entries joined, or the "(없음)" marker for none) are the same key |
| Quiz.Candidates | js/quiz.js:189-204 | one candidate per loop draw |
| Quiz.CollectSpec | js/quiz.js:186-207 | the retry loop keeps the choices repeat-free, at most 4, keeps the ones it started with first, and adds only candidates |
| Quiz.CollectChoices | js/quiz.js:186-207 | the `while` loop ends with the collected choices, the correct string first |
| Quiz.Collect | js/quiz.js:186-207 | collecting keeps the starting choices in front, never grows past four from four or fewer, and adds only candidates |
| Quiz.GenerateChoices | js/quiz.js:184-219 | exactly 4 pairwise different strings, the correct one among them, every other one a drawn candidate, and the shuffle keeps the collected set |
| Quiz.OrderCovers | js/quiz.js:209 | a shuffle order uses every one of the 4 positions |
| Quiz.NameCandidates | js/quiz.js:191-196 | in scale-name mode every candidate is a scale, in keys mode a key |
| Quiz.ToneCandidates | js/quiz.js:197-203 | a chord-tones distractor is three different chromatic names joined by spaces |
| Quiz.NormalizeAll | js/quiz.js:229-233 | `map(normalize)` keeps the length |
| Quiz.NonEmpty | js/quiz.js:233 | `filter(x => x.length)` keeps exactly the non-empty tokens |
| Quiz.GradeTonesIsMultisetEquality | js/quiz.js:229-237 | a list answer is correct exactly when the normalized answer and the normalized non-empty user tokens are the same multiset |
| Quiz.Grade | js/quiz.js:228-241 | with no question asked (`correctAnswer` null) no reply is graded correct |
| Quiz.GradeTextIsVerbatim | js/quiz.js:238-241 | a string answer is correct exactly when the trimmed user text equals it |
| Quiz.EmptySubmissionForC | js/quiz.js:222-236 | key C's signature is empty, and an empty submission is graded correct for it |
| Quiz.SplitWord | js/quiz.js:223 | one word splits to itself |
| Quiz.GradeSingle | js/quiz.js:229-236 | a one-note answer and one typed token grade correct exactly when they normalize alike |
| Quiz.RotatedTriadGradesCorrect | js/quiz.js:229-236 | for every triad answer, the rotated distractor differs textually from the correct button but is graded correct |
| Quiz.RotationDiffers | js/quiz.js:206 | a list of words whose first and last differ, rotated by one, joins to a different string, so the duplicate check does not catch it |
| Quiz.NormalizeAllKeeps | js/quiz.js:230 | names that are not flat keys pass `normalize` unchanged |
| Quiz.GradeReordered | js/quiz.js:229-236 | any reordering of an answer of flat-free note words, clicked as one button, is graded correct |
| Quiz.SubmitWord | js/quiz.js:223 | a typed word reaches grading as its upper-cased form |
| Quiz.SubmitReply | js/quiz.js:223 | a typed submission always reaches grading as a token list with at least one token |
| Quiz.TypedFlatRejected | js/quiz.js:222-236 | as written, a one-note answer that is a flat, typed as it is spelled, is graded wrong, while the sharp it stands for is graded right |
| Quiz.KeyFTypedRejected | js/quiz.js:222-236 | as written, typing F major's signature `Bb` is graded wrong while `A#` is graded right |
| Quiz.RestoreFlats | js/quiz.js:223 | the corrected reading restores one token per token |
| Quiz.RestoreUpper | js/quiz.js:223 | restoring the upper-cased names gives the names back |
| Quiz.RestoreSignatureName | js/quiz.js:31-42 | every sharp or flat of a signature survives upper-casing and restoring |
| Quiz.UpperAll | js/quiz.js:223 | upper-cases each token |
| Quiz.ToUpperJoin | js/quiz.js:223 | upper-casing a joined list is joining the upper-cased tokens |
| Quiz.ToUpperAppend | js/quiz.js:223 | upper-casing distributes over concatenation |
| Quiz.SubmitFixedJoin | js/quiz.js:223 | the corrected reading of a typed list of names yields that list |
| Quiz.TrimJoin | js/quiz.js:223 | a space-joined list of words is already trimmed |
| Quiz.GradeItself | js/quiz.js:229-236 | a list answer grades its own tokens as correct |
| Quiz.SignatureTypedAsWrittenFixed | js/quiz.js:222-236 | with the corrected reading, typing any key's signature exactly as listed is graded correct |
| Quiz.TypedAsWrittenFixed | js/quiz.js:222-236 | with the corrected reading, any list of restorable names typed as listed is graded correct |
| Quiz.EmptyFixedGraded | js/quiz.js:222-236 | with the corrected reading, the empty submission is still graded correct for an empty signature |
| Quiz.EmptyFixedSubmission | js/quiz.js:223 | an empty submission reads as one empty token |
| Quiz.JoinEndsWithWord | js/quiz.js:223 | a space-joined list of words does not end in whitespace |
| Quiz.NonEmptyWords | js/quiz.js:233 | the filter keeps a list of non-empty tokens whole |
| QuizPage.DrawnKeys | js/quiz.js:122-177 | every drawn root has a chromatic index and every drawn key names a table entry |
| QuizPage.ChordOf | js/quiz.js:121-127 | a chord answer has three or four notes |
| QuizPage.ScaleOfDraw | js/quiz.js:151-157 | a scale answer has seven notes |
| QuizPage.AnswerOf | js/quiz.js:112-181 | every known mode sets an answer and an unknown one none; the typed modes and chord choice expect a list, scale-name and key questions a text; a chord has three or four tones, a scale seven |
| QuizPage.PromptOf | js/quiz.js:137-147 | the text of a scale-name question splits back into the notes of the scale |
| QuizPage.ScaleOfDrawWords | js/quiz.js:141-146 | every note of a drawn scale is a word |
| QuizPage.CorrectChoiceGrades | js/quiz.js:228-244 | clicking the correct button is graded correct in every choice mode |
| QuizPage.ScalePromptDecides | js/quiz.js:137-147 | the notes shown in a scale-name question determine the expected scale name |
| QuizPage.Session.constructor | js/quiz.js:45-48 | no quiz running: no question, no score, no answer |
| QuizPage.Session.GenerateQuestion | js/quiz.js:112-118 | the mode's question sets the expected answer and prompt, and the choice modes get four valid buttons; an unknown mode leaves the answer as it was |
| QuizPage.Session.NextQuestion | js/quiz.js:89-109 | from question 10 on, only the end screen and no counter change; before it, the count rises by one and a new question is generated; the score invariant is preserved |
| QuizPage.Session.StartQuiz | js/quiz.js:69-86 | score 0, question 1, the mode's input shown exactly in the input modes; the first question's answer, prompt and (in the choice modes) four valid buttons; an unknown mode keeps the old answer and prompt |
| QuizPage.Session.CheckAnswer | js/quiz.js:228-250 | as written: grades against the current answer and adds exactly 1 when correct, on every call; nothing else changes |
| QuizPage.Session.CheckAnswerOnce | js/quiz.js:228-250 | corrected: each question is graded once; a correct grading adds exactly 1, an incorrect one nothing, a repeated one returns nothing; the question is closed afterwards; the score never passes the question count |
| QuizPage.Session.SubmitAnswer | js/quiz.js:222-225 | as written: while the input is shown, grades the upper-cased typed text and scores on every submission; nothing else changes |
| QuizPage.Session.SubmitAnswerFixed | js/quiz.js:222-225 | corrected: while the input is shown, grades the typed text (flats restored) once; a repeated submission returns nothing |
| QuizPage.Session.Choose | js/quiz.js:216 | as written: a button click grades its string and scores on every click; nothing else changes |
| QuizPage.Session.ChooseFixed | js/quiz.js:216 | corrected: a button click grades its string once; a repeated click returns nothing |
| QuizPage.KeyCQuestion | js/quiz.js:175-181 | drawing key C asks for its signature, the empty list |
| QuizPage.DoubleAnswerScoresTwice | js/quiz.js:228-250 | as written, two empty submissions for key C score 2 on question 1, before either advance runs |
| QuizPage.DoubleAnswerScoresOnce | js/quiz.js:228-250 | with the corrected grading, the second submission grades nothing, so the score is 1 and stays within the question count |
| QuizPage.ScoreOverrunsQuiz | js/quiz.js:89-94 | as written, answering each key-C question once, each answer followed by its advance, ends at score 11 on question 10 |
| QuizPage.AnswerKeyCAndAdvance | js/quiz.js:223-250 | one empty answer to a key-C question scores one point and is followed by its advance, which counts the question up to 10 and no further |

## Left out

- DOM work is not modelled: element creation, `innerText`/`innerHTML`, CSS class names, `alert`, the `<select>` options, the progress bar and the score text. The question text and the button strings are kept.
- The row lines drawn in `requestAnimationFrame` (js/guitar.js:234-253) and the pixel positions of `buildPiano` (`whiteW`, `blackW`, `getComputedStyle`) are not modelled. The integer white-key slot of every key is kept.
- Web Audio is not modelled: `ensureAudio`, oscillators, gain ramps and `midiToFreq`. `active` is modelled as the list of sounding MIDI numbers, and `audioCtx` by whether audio was started.
- The metronome (js/guitar.js:47-100) is not modelled: it is made of timers and floating-point tempo arithmetic.
- Event wiring is not modelled: `attachHandlers`, pointer events, the octave buttons and the Enter key. Each handler is one method call.
- Piano.Piano.SetStartOctave: the label update between the clamp and `stopAll` is not modelled. The method states the end state only.
- QuizPage.Session.NextQuestion: the 800 ms delay after each answer, and a pending advance firing after a new `startQuiz`, are not modelled. The advance is the caller's explicit call.
- The quiz-type selector is a datatype. Every value `generateQuestion` does not know is `Other`, which generates nothing.
- QuizPage.Session.constructor: the model assumes the answer input is displayed at load, as the page's markup is not part of this model.
- QuizPage.Session.SubmitAnswer: the model ignores a submission while the input is hidden, because Enter checks the display and the hidden button cannot be clicked.
- Piano.BuildChord, Piano.ShowScale, Guitar.ScaleNoteSet, Guitar.BuildScaleSet and Guitar.Fretboard.ApplyScaleFilter require the selected chord or scale type to be a key of its formula table. The type options live in the page markup, outside this model. The TypeError that any other value would raise (js/piano.js:66-67, 90-91; js/guitar.js:160-162) is not modelled.
- Quiz.GenerateChoices:
  - its `requires Enough(...)` asks the draws to supply enough fresh candidates, because the source loops on otherwise;
  - the final `sort(() => Math.random() - 0.5)` is an arbitrary permutation given as a parameter, and only set and repeat-freedom facts are stated, not the distribution.
- Quiz.ToneCandidates: a chord-tones candidate is modelled as three different positions of the chromatic table. The biased shuffle that picks them is not modelled.
- Quiz.Normalize: `enharmonicMap[note] || note` would also find `Object.prototype` names such as `constructor`. Every argument here is a generated name or an upper-cased token, so the model uses a plain lookup.
- Strings.ToUpper: upper-cases ASCII letters only. The scripts upper-case note names, and the `♯`/`♭` signs are unaffected.
- SortSorted (`Strings.SortSorted`): the model orders characters by code point, where JavaScript's default `sort` compares UTF-16 code units. The two orders differ only between characters above U+FFFF and those in U+E000–U+FFFF. Grading only tests two sorted lists for equality, which both orders decide alike.

## Findings

| source | as written | input that shows it | evidently intended | confidence | as-written member | corrected member |
|---|---|---|---|---|---|---|
| js/guitar.js:118 | the test for a trailing upper-cased `B` (the flat sign after upper-casing) also fires on the bare letter B, which becomes "Bb" and is returned as "A#" | typing `B` (or `b`) in the note filter highlights A# | a bare B stays B, and only a letter followed by the flat sign is read as a flat | high (not executed) | Guitar.NormalizeNoteInputChromatic | Guitar.NormalizeNoteInputFixedChromatic |
| js/quiz.js:223 | the typed answer is upper-cased before `normalize`, so "Bb" reaches it as "BB", which is no key of `enharmonicMap`; typed flats never match | key F, typing `Bb`: graded wrong, while `A#` is graded right | a flat signature typed as listed, e.g. `Bb` for F major, is graded correct | high (not executed) | Quiz.KeyFTypedRejected | Quiz.SignatureTypedAsWrittenFixed |
| js/quiz.js:228-250 | `checkAnswer` scores every call. A question answered twice scores twice, and each answer arms its own advance, so the page moves on two questions. The overrun lasts from question 10 on, where `nextQuestion` only shows the end screen while the input still grades | key C quiz, each question answered once with the empty text and followed by its advance, then once more on the end screen: score 11 out of 10 (answering twice at once gives score 2 on question 1 before the advances) | one grading per question, score never above the question count | medium (not executed) | QuizPage.ScoreOverrunsQuiz | QuizPage.DoubleAnswerScoresOnce |
