/**
 * The piano page (js/piano.js): the chord and scale builders over the
 * twelve-name `notes` table, the two circle-of-fifths tables, the MIDI key
 * layout that `buildPiano` lays out octave by octave, and the page state —
 * the keys that sound, the start octave and the oscillator wave.
 */
module Piano {
  import opened Wrappers
  import opened Strings
  import opened Pitch

  // ---------------------------------------------------------------------------
  // Chords and scales

  /** `notes`: the names the chord and scale pickers offer, black keys in both spellings. */
  const Notes: seq<string> :=
    ["C", "C# / Db", "D", "D# / Eb", "E", "F", "F# / Gb", "G", "G# / Ab", "A", "A# / Bb", "B"]

  lemma NotesDistinct()
    ensures Distinct(Notes)
  {
  }

  /** `chordFormulas`: semitone offsets above the root. */
  const ChordFormulas: map<string, seq<int>> := map[
    "M" := [0, 4, 7],
    "m" := [0, 3, 7],
    "dim" := [0, 3, 6],
    "aug" := [0, 4, 8],
    "7" := [0, 4, 7, 10],
    "M7" := [0, 4, 7, 11],
    "m7" := [0, 3, 7, 10],
    "dim7" := [0, 3, 6, 9],
    "m7(b5)" := [0, 3, 6, 10],
    "sus2" := [0, 2, 7],
    "sus4" := [0, 5, 7],
    "7sus4" := [0, 5, 7, 10],
    "6" := [0, 4, 7, 9],
    "m6" := [0, 3, 7, 9],
    "mM7" := [0, 3, 7, 11],
    "7(#5)" := [0, 4, 8, 10],
    "M7(#5)" := [0, 4, 8, 11],
    "add9" := [0, 4, 7, 14],
    "madd9" := [0, 3, 7, 14]
  ]

  /** `scaleFormulas` of the piano page: seven offsets each. */
  const ScaleFormulas: map<string, seq<int>> := map[
    "Major (Ionian)" := [0, 2, 4, 5, 7, 9, 11],
    "Natural Minor (Aeolian)" := [0, 2, 3, 5, 7, 8, 10],
    "Harmonic Minor" := [0, 2, 3, 5, 7, 8, 11],
    "Melodic Minor" := [0, 2, 3, 5, 7, 9, 11],
    "Dorian" := [0, 2, 3, 5, 7, 9, 10],
    "Phrygian" := [0, 1, 3, 5, 7, 8, 10],
    "Lydian" := [0, 2, 4, 6, 7, 9, 11],
    "Mixolydian" := [0, 2, 4, 5, 7, 9, 10],
    "Locrian" := [0, 1, 3, 5, 6, 8, 10]
  ]

  /** A chord formula: three or four offsets from the root, none negative, no pitch class twice. */
  predicate ChordShape(f: seq<int>) {
    3 <= |f| <= 4 && f[0] == 0 && NonNegative(f) && DistinctModOctave(f)
  }

  /** Every formula but the two ninths climbs strictly inside one octave. */
  lemma ChordFormulasAscend()
    ensures forall t :: t in ChordFormulas && t != "add9" && t != "madd9" ==>
      ScaleShape(ChordFormulas[t]) && 3 <= |ChordFormulas[t]| <= 4
  {
  }

  lemma ScaleFormulasShape()
    ensures forall name :: name in ScaleFormulas ==> ScaleShape(ScaleFormulas[name]) && |ScaleFormulas[name]| == 7
  {
  }

  /** Every chord formula has three or four offsets from the root and names no pitch class twice. */
  lemma ChordFormulaOf(t: string)
    requires t in ChordFormulas
    ensures ChordShape(ChordFormulas[t])
  {
    if t == "add9" || t == "madd9" {
      var f := ChordFormulas[t];
      assert f == [0, 4, 7, 14] || f == [0, 3, 7, 14];
    } else {
      ChordFormulasAscend();
      ScaleShapeOffsets(ChordFormulas[t]);
    }
  }

  lemma ScaleFormulaOf(name: string)
    requires name in ScaleFormulas
    ensures ScaleShape(ScaleFormulas[name]) && |ScaleFormulas[name]| == 7
    ensures NonNegative(ScaleFormulas[name]) && DistinctModOctave(ScaleFormulas[name])
  {
    ScaleFormulasShape();
    ScaleShapeOffsets(ScaleFormulas[name]);
  }

  /** `notes.indexOf(root)` for a name the picker offers. */
  lemma NotesIndexOf(root: string)
    requires root in Notes
    ensures 0 <= IndexOf(Notes, root) < 12 && Notes[IndexOf(Notes, root)] == root
  {
    IndexOfFirst(Notes, root);
  }

  /** Each name of `notes` is found at its own position. */
  lemma NotesIndexAt(i: int)
    requires 0 <= i < 12
    ensures IndexOf(Notes, Notes[i]) == i
  {
    NotesDistinct();
    IndexOfDistinct(Notes, i);
  }

  /** `buildChord`: the formula of `t` spelled from `root` in `notes`. */
  function BuildChord(root: string, t: string): (r: seq<string>)
    requires root in Notes && t in ChordFormulas
    ensures |r| == |ChordFormulas[t]| && 3 <= |r| <= 4
  {
    NotesIndexOf(root);
    ChordFormulaOf(t);
    Spell(Notes, IndexOf(Notes, root), ChordFormulas[t])
  }

  /** `showScale`: the formula of `name` spelled from `root` in `notes`. */
  function ShowScale(root: string, name: string): (r: seq<string>)
    requires root in Notes && name in ScaleFormulas
    ensures |r| == |ScaleFormulas[name]| == 7
  {
    NotesIndexOf(root);
    ScaleFormulaOf(name);
    Spell(Notes, IndexOf(Notes, root), ScaleFormulas[name])
  }

  /**
   * `notes.indexOf` finds the `i`-th name at position `i`, so the chord on it
   * is the formula spelled from position `i`: by `SpellInTable`, its `k`-th
   * tone is the name `formula[k]` semitones above the root, wrapping at the
   * octave.
   */
  lemma BuildChordAt(i: int, t: string)
    requires 0 <= i < 12 && t in ChordFormulas
    ensures BuildChord(Notes[i], t) == Spell(Notes, i, ChordFormulas[t])
  {
    ChordFormulaOf(t);
    NotesIndexAt(i);
  }

  /** Tone by tone: the `k`-th tone of the chord on `Notes[i]` is the name `formula[k]` semitones up, wrapping at the octave. */
  lemma BuildChordTones(i: int, t: string, f: seq<int>)
    requires 0 <= i < 12 && t in ChordFormulas && f == ChordFormulas[t]
    ensures forall k :: 0 <= k < |f| ==> BuildChord(Notes[i], t)[k] == Notes[(i + f[k]) % 12]
  {
    assert NonNegative(f) by { ChordFormulaOf(t); }
    BuildChordAt(i, t);
    SpellEntries(BuildChord(Notes[i], t), Notes, i, f);
  }

  /** Every chord starts at its root. */
  lemma BuildChordRoot(i: int, t: string)
    requires 0 <= i < 12 && t in ChordFormulas
    ensures BuildChord(Notes[i], t)[0] == Notes[i]
  {
    ChordFormulaOf(t);
    BuildChordAt(i, t);
    SpellRootFirst(Notes, i, ChordFormulas[t]);
  }

  /** No chord names a note twice. */
  lemma BuildChordDistinct(i: int, t: string)
    requires 0 <= i < 12 && t in ChordFormulas
    ensures Distinct(BuildChord(Notes[i], t))
  {
    ChordFormulaOf(t);
    BuildChordAt(i, t);
    NotesDistinct();
    SpellDistinct(Notes, i, ChordFormulas[t]);
  }

  /** The ninth of add9 and madd9 (offset 14) is the name two semitones above the root. */
  lemma NinthWraps(i: int, t: string)
    requires 0 <= i < 12 && (t == "add9" || t == "madd9")
    ensures |BuildChord(Notes[i], t)| == 4
    ensures BuildChord(Notes[i], t)[3] == Notes[(i + 2) % 12]
  {
    NotesIndexAt(i);
    var f := ChordFormulas[t];
    assert f[3] == 14;
    assert (i + 14) % 12 == (i + 2) % 12;
    ChordFormulaOf(t);
  }

  /** The scale on the `i`-th name is its formula spelled from position `i`. */
  lemma ShowScaleAt(i: int, name: string)
    requires 0 <= i < 12 && name in ScaleFormulas
    ensures ShowScale(Notes[i], name) == Spell(Notes, i, ScaleFormulas[name])
  {
    ScaleFormulaOf(name);
    NotesIndexAt(i);
  }

  /** Note by note: the `k`-th note of the scale on `Notes[i]` is the name `formula[k]` semitones up, wrapping at the octave. */
  lemma ShowScaleNotes(i: int, name: string, f: seq<int>)
    requires 0 <= i < 12 && name in ScaleFormulas && f == ScaleFormulas[name]
    ensures forall k :: 0 <= k < |f| ==> ShowScale(Notes[i], name)[k] == Notes[(i + f[k]) % 12]
  {
    assert NonNegative(f) by { ScaleFormulaOf(name); }
    ShowScaleAt(i, name);
    SpellEntries(ShowScale(Notes[i], name), Notes, i, f);
  }

  /** Every scale has seven names and starts at its root. */
  lemma ShowScaleRoot(i: int, name: string)
    requires 0 <= i < 12 && name in ScaleFormulas
    ensures |ShowScale(Notes[i], name)| == 7 && ShowScale(Notes[i], name)[0] == Notes[i]
  {
    ScaleFormulaOf(name);
    ShowScaleAt(i, name);
    SpellRootFirst(Notes, i, ScaleFormulas[name]);
  }

  /** No scale names a note twice. */
  lemma ShowScaleDistinct(i: int, name: string)
    requires 0 <= i < 12 && name in ScaleFormulas
    ensures Distinct(ShowScale(Notes[i], name))
  {
    ScaleFormulaOf(name);
    ShowScaleAt(i, name);
    NotesDistinct();
    SpellDistinct(Notes, i, ScaleFormulas[name]);
  }

  // ---------------------------------------------------------------------------
  // The circle of fifths

  /** `circleUp`: ascending fifths from C. */
  const CircleUp: seq<string> := ["C", "G", "D", "A", "E", "B", "F# / Gb", "Db", "Ab", "Eb", "Bb", "F"]

  /** `circleDown`: ascending fourths from C. */
  const CircleDown: seq<string> := ["C", "F", "Bb", "Eb", "Ab", "Db", "F# / Gb", "B", "E", "A", "D", "G"]

  /** The pitch class of every spelling the circle tables use. */
  const PitchClass: map<string, int> := map[
    "C" := 0, "Db" := 1, "D" := 2, "Eb" := 3, "E" := 4, "F" := 5,
    "F# / Gb" := 6, "G" := 7, "Ab" := 8, "A" := 9, "Bb" := 10, "B" := 11
  ]

  /** The pitch classes of a circle table, position by position. */
  function CirclePitches(circle: seq<string>): (r: seq<int>)
    requires forall i :: 0 <= i < |circle| ==> circle[i] in PitchClass
    ensures |r| == |circle|
  {
    seq(|circle|, i requires 0 <= i < |circle| => PitchClass[circle[i]])
  }

  lemma CircleUpPitches()
    ensures forall i :: 0 <= i < 12 ==> CircleUp[i] in PitchClass
    ensures CirclePitches(CircleUp) == [0, 7, 2, 9, 4, 11, 6, 1, 8, 3, 10, 5]
  {
  }

  lemma CircleDownPitches()
    ensures forall i :: 0 <= i < 12 ==> CircleDown[i] in PitchClass
    ensures CirclePitches(CircleDown) == [0, 5, 10, 3, 8, 1, 6, 11, 4, 9, 2, 7]
  {
  }

  /** Each entry of `circleUp` is a fifth (7 semitones) above its predecessor. */
  lemma CircleUpFifths()
    ensures forall i :: 1 <= i < 12 ==> CirclePitches(CircleUp)[i] == (CirclePitches(CircleUp)[i - 1] + 7) % 12
  {
    CircleUpPitches();
  }

  /** Each entry of `circleDown` is a fourth (5 semitones) above its predecessor. */
  lemma CircleDownFourths()
    ensures forall i :: 1 <= i < 12 ==> CirclePitches(CircleDown)[i] == (CirclePitches(CircleDown)[i - 1] + 5) % 12
  {
    CircleDownPitches();
  }

  /** `circleUp` visits all twelve pitch classes, each exactly once. */
  lemma CircleUpVisitsAll()
    ensures Distinct(CirclePitches(CircleUp))
    ensures forall p :: 0 <= p < 12 ==> p in CirclePitches(CircleUp)
  {
    CircleUpPitches();
  }

  /** `circleDown` visits all twelve pitch classes, each exactly once. */
  lemma CircleDownVisitsAll()
    ensures Distinct(CirclePitches(CircleDown))
    ensures forall p :: 0 <= p < 12 ==> p in CirclePitches(CircleDown)
  {
    CircleDownPitches();
  }

  /** Going down the circle is going up it backwards: `circleDown[i]` is `circleUp[(12 - i) % 12]`. */
  lemma CircleDownReversesUp()
    ensures forall i :: 0 <= i < 12 ==> CirclePitches(CircleDown)[i] == CirclePitches(CircleUp)[(12 - i) % 12]
  {
    CircleUpPitches();
    CircleDownPitches();
    var up, down := CirclePitches(CircleUp), CirclePitches(CircleDown);
    forall i | 0 <= i < 12 ensures down[i] == up[(12 - i) % 12] {
      if i == 0 {} else if i == 1 {} else if i == 2 {} else if i == 3 {} else if i == 4 {} else if i == 5 {}
      else if i == 6 {} else if i == 7 {} else if i == 8 {} else if i == 9 {} else if i == 10 {} else {}
    }
  }

  // ---------------------------------------------------------------------------
  // The keyboard

  /** `WHITE_SEMIS`: the semitones of the seven white keys of an octave. */
  const WhiteSemis: seq<int> := [0, 2, 4, 5, 7, 9, 11]

  /** An entry of `BLACK_LAYOUT`: a black key's semitone, and the white key to its left. */
  datatype BlackKey = BlackKey(semi: int, leftWhite: int)

  const BlackLayout: seq<BlackKey> :=
    [BlackKey(1, 0), BlackKey(3, 1), BlackKey(6, 3), BlackKey(8, 4), BlackKey(10, 5)]

  /** The semitones of the five black keys. */
  function BlackSemis(): (r: seq<int>)
    ensures |r| == 5
  {
    seq(5, j requires 0 <= j < 5 => BlackLayout[j].semi)
  }

  /** White and black semitones share nothing and together are 0 to 11. */
  lemma OctaveSemis()
    ensures forall s :: s in WhiteSemis ==> s !in BlackSemis()
    ensures forall s :: 0 <= s < 12 <==> s in WhiteSemis || s in BlackSemis()
  {
    assert BlackSemis() == [1, 3, 6, 8, 10];
  }

  /** Each black key lies a semitone above the white key it names and a semitone below the next. */
  lemma BlackBetweenWhites()
    ensures forall j :: 0 <= j < 5 ==>
      0 <= BlackLayout[j].leftWhite < 6 &&
      WhiteSemis[BlackLayout[j].leftWhite] + 1 == BlackLayout[j].semi == WhiteSemis[BlackLayout[j].leftWhite + 1] - 1
  {
  }

  /** A key element: its MIDI number, its colour, and its white-key slot (for a black key, the slot to its left). */
  datatype Key = Key(midi: int, white: bool, slot: int)

  /** `totalOctaves`. */
  const TotalOctaves := 3

  /** The seven white keys of the octave from MIDI `baseC`, at slots from `startWhite`. */
  function WhiteKeys(baseC: int, startWhite: int): (r: seq<Key>)
    ensures |r| == 7
  {
    seq(7, i requires 0 <= i < 7 => Key(baseC + WhiteSemis[i], true, startWhite + i))
  }

  /** The five black keys of the same octave. */
  function BlackKeys(baseC: int, startWhite: int): (r: seq<Key>)
    ensures |r| == 5
  {
    seq(5, j requires 0 <= j < 5 => Key(baseC + BlackLayout[j].semi, false, startWhite + BlackLayout[j].leftWhite))
  }

  /** The keys `buildPiano` appends for `n` octaves from `startOctave`, in order. */
  function Layout(startOctave: int, n: nat): (r: seq<Key>)
    ensures |r| == 12 * n
  {
    if n == 0 then []
    else Layout(startOctave, n - 1) + WhiteKeys(12 * (startOctave + (n - 1) + 1), 7 * (n - 1))
                                    + BlackKeys(12 * (startOctave + (n - 1) + 1), 7 * (n - 1))
  }

  /** The MIDI numbers of a row of keys. */
  function Midis(keys: seq<Key>): (r: seq<int>)
    ensures |r| == |keys|
  {
    seq(|keys|, i requires 0 <= i < |keys| => keys[i].midi)
  }

  /**
   * `buildPiano`: for each octave, seven white keys then five black keys;
   * `globalWhiteIndex` counts the white keys. The pixel offsets are left out.
   */
  method BuildPiano(startOctave: int, totalOctaves: int) returns (keys: seq<Key>, globalWhiteIndex: int)
    requires 0 <= totalOctaves
    ensures keys == Layout(startOctave, totalOctaves)
    ensures globalWhiteIndex == 7 * totalOctaves
  {
    keys := [];
    globalWhiteIndex := 0;
    var o := 0;
    while o < totalOctaves
      invariant 0 <= o <= totalOctaves
      invariant keys == Layout(startOctave, o) && globalWhiteIndex == 7 * o
    {
      var octave := startOctave + o;
      var baseC := 12 * (octave + 1);
      ghost var before := keys;
      var i := 0;
      while i < |WhiteSemis|
        invariant 0 <= i <= 7
        invariant keys == before + WhiteKeys(baseC, 7 * o)[..i] && globalWhiteIndex == 7 * o + i
      {
        assert WhiteKeys(baseC, 7 * o)[..i + 1] == WhiteKeys(baseC, 7 * o)[..i] + [Key(baseC + WhiteSemis[i], true, globalWhiteIndex)];
        keys := keys + [Key(baseC + WhiteSemis[i], true, globalWhiteIndex)];
        globalWhiteIndex := globalWhiteIndex + 1;
        i := i + 1;
      }
      var j := 0;
      while j < |BlackLayout|
        invariant 0 <= j <= 5
        invariant keys == before + WhiteKeys(baseC, 7 * o) + BlackKeys(baseC, 7 * o)[..j]
        invariant globalWhiteIndex == 7 * o + 7
      {
        var b := BlackLayout[j];
        var octaveStartWhite := globalWhiteIndex - 7;
        assert BlackKeys(baseC, 7 * o)[..j + 1] == BlackKeys(baseC, 7 * o)[..j] + [Key(baseC + b.semi, false, octaveStartWhite + b.leftWhite)];
        keys := keys + [Key(baseC + b.semi, false, octaveStartWhite + b.leftWhite)];
        j := j + 1;
      }
      o := o + 1;
    }
  }

  /** The MIDI numbers of one octave's keys are exactly `baseC` to `baseC + 11`, once each. */
  lemma OctaveMidis(baseC: int, startWhite: int)
    ensures var m := Midis(WhiteKeys(baseC, startWhite) + BlackKeys(baseC, startWhite));
      Distinct(m) && forall x :: x in m <==> baseC <= x < baseC + 12
  {
    var m := Midis(WhiteKeys(baseC, startWhite) + BlackKeys(baseC, startWhite));
    OctaveMidisInOrder(baseC, startWhite);
    forall x | baseC <= x < baseC + 12 ensures x in m {
      var s := x - baseC;
      if s == 0 { assert m[0] == x; } else if s == 1 { assert m[7] == x; }
      else if s == 2 { assert m[1] == x; } else if s == 3 { assert m[8] == x; }
      else if s == 4 { assert m[2] == x; } else if s == 5 { assert m[3] == x; }
      else if s == 6 { assert m[9] == x; } else if s == 7 { assert m[4] == x; }
      else if s == 8 { assert m[10] == x; } else if s == 9 { assert m[5] == x; }
      else if s == 10 { assert m[11] == x; } else { assert m[6] == x; }
    }
  }

  /** One octave's MIDI numbers in emission order: the white keys, then the black keys. */
  lemma OctaveMidisInOrder(baseC: int, startWhite: int)
    ensures Midis(WhiteKeys(baseC, startWhite) + BlackKeys(baseC, startWhite)) ==
      [baseC, baseC + 2, baseC + 4, baseC + 5, baseC + 7, baseC + 9, baseC + 11,
       baseC + 1, baseC + 3, baseC + 6, baseC + 8, baseC + 10]
  {
    MidisAppend(WhiteKeys(baseC, startWhite), BlackKeys(baseC, startWhite));
  }

  lemma MidisAppend(a: seq<Key>, b: seq<Key>)
    ensures Midis(a + b) == Midis(a) + Midis(b)
  {
  }

  /**
   * `buildPiano` emits every MIDI number from C of `startOctave` up to the
   * B of `n` octaves later exactly once, `12·n` keys in all.
   */
  lemma {:induction false} LayoutMidis(startOctave: int, n: nat)
    ensures |Layout(startOctave, n)| == 12 * n
    ensures Distinct(Midis(Layout(startOctave, n)))
    ensures forall x :: x in Midis(Layout(startOctave, n)) <==>
      12 * (startOctave + 1) <= x < 12 * (startOctave + 1 + n)
  {
    if n > 0 {
      LayoutMidis(startOctave, n - 1);
      var baseC := 12 * (startOctave + (n - 1) + 1);
      var prev := Layout(startOctave, n - 1);
      var oct := WhiteKeys(baseC, 7 * (n - 1)) + BlackKeys(baseC, 7 * (n - 1));
      assert Layout(startOctave, n) == prev + oct;
      MidisAppend(prev, oct);
      OctaveMidis(baseC, 7 * (n - 1));
      var a, b := Midis(prev), Midis(oct);
      assert forall i, j :: 0 <= i < |a| && 0 <= j < |b| ==> a[i] < b[j] by {
        forall i, j | 0 <= i < |a| && 0 <= j < |b| ensures a[i] < b[j] {
          assert a[i] in a && b[j] in b;
        }
      }
      DistinctAppend(a, b);
    }
  }

  lemma DistinctAppend(a: seq<int>, b: seq<int>)
    requires Distinct(a) && Distinct(b)
    requires forall i, j :: 0 <= i < |a| && 0 <= j < |b| ==> a[i] < b[j]
    ensures Distinct(a + b)
  {
    var c := a + b;
    forall i, j | 0 <= i < j < |c| ensures c[i] != c[j] {
      if j < |a| {
      } else if i >= |a| {
        assert c[i] == b[i - |a|] && c[j] == b[j - |a|];
      } else {
        assert c[i] == a[i] && c[j] == b[j - |a|];
      }
    }
  }

  /** The MIDI number of the white key at a slot, counting slots from the first C. */
  function WhiteMidi(startOctave: int, slot: int): int
    requires 0 <= slot
  {
    12 * (startOctave + 1) + 12 * (slot / 7) + WhiteSemis[slot % 7]
  }

  /**
   * White keys sit at consecutive slots 0, 1, 2, … with the MIDI number of
   * their slot; each black key sits between the white keys of its slot and
   * the next, a semitone above the one and below the other.
   */
  lemma {:induction false} LayoutSlots(startOctave: int, n: nat)
    ensures forall k :: k in Layout(startOctave, n) && k.white ==>
      0 <= k.slot < 7 * n && k.midi == WhiteMidi(startOctave, k.slot)
    ensures forall k :: k in Layout(startOctave, n) && !k.white ==>
      0 <= k.slot && k.slot + 1 < 7 * n &&
      WhiteMidi(startOctave, k.slot) + 1 == k.midi == WhiteMidi(startOctave, k.slot + 1) - 1
  {
    if n > 0 {
      LayoutSlots(startOctave, n - 1);
      var baseC := 12 * (startOctave + (n - 1) + 1);
      var w := 7 * (n - 1);
      var prev, whites, blacks := Layout(startOctave, n - 1), WhiteKeys(baseC, w), BlackKeys(baseC, w);
      assert Layout(startOctave, n) == prev + whites + blacks;
      forall k | k in whites
        ensures 0 <= k.slot < 7 * n && k.midi == WhiteMidi(startOctave, k.slot)
      {
        OctaveWhiteSlots(startOctave, n - 1, k);
      }
      forall k | k in blacks
        ensures 0 <= k.slot && k.slot + 1 < 7 * n
        ensures WhiteMidi(startOctave, k.slot) + 1 == k.midi == WhiteMidi(startOctave, k.slot + 1) - 1
      {
        OctaveBlackSlots(startOctave, n - 1, k);
      }
    }
  }

  /** The white keys of octave `o` take slots `7·o` to `7·o + 6`. */
  lemma OctaveWhiteSlots(startOctave: int, o: int, k: Key)
    requires 0 <= o && k in WhiteKeys(12 * (startOctave + o + 1), 7 * o)
    ensures 7 * o <= k.slot < 7 * o + 7 && k.midi == WhiteMidi(startOctave, k.slot)
  {
    var i :| 0 <= i < 7 && WhiteKeys(12 * (startOctave + o + 1), 7 * o)[i] == k;
    WhiteMidiInOctave(startOctave, o, i, k.slot);
  }

  /** The black keys of octave `o` sit between two white keys of the same octave. */
  lemma OctaveBlackSlots(startOctave: int, o: int, k: Key)
    requires 0 <= o && k in BlackKeys(12 * (startOctave + o + 1), 7 * o)
    ensures 7 * o <= k.slot && k.slot + 1 < 7 * o + 7
    ensures WhiteMidi(startOctave, k.slot) + 1 == k.midi == WhiteMidi(startOctave, k.slot + 1) - 1
  {
    var j :| 0 <= j < 5 && BlackKeys(12 * (startOctave + o + 1), 7 * o)[j] == k;
    var lw := BlackLayout[j].leftWhite;
    assert 0 <= lw < 6 && WhiteSemis[lw] + 1 == BlackLayout[j].semi == WhiteSemis[lw + 1] - 1 by {
      BlackBetweenWhites();
    }
    WhiteMidiInOctave(startOctave, o, lw, k.slot);
    WhiteMidiInOctave(startOctave, o, lw + 1, k.slot + 1);
  }

  /** The white key at index `i` of octave `o` has slot 7o+i, and its MIDI number is the octave's C plus its semitone. */
  lemma WhiteMidiInOctave(startOctave: int, o: int, i: int, slot: int)
    requires 0 <= o && 0 <= i < 7 && slot == 7 * o + i
    ensures WhiteMidi(startOctave, slot) == 12 * (startOctave + o + 1) + WhiteSemis[i]
  {
    SlotDivision(o, i);
  }

  lemma SlotDivision(o: int, i: int)
    requires 0 <= o && 0 <= i < 7
    ensures (7 * o + i) / 7 == o && (7 * o + i) % 7 == i
  {
  }

  /** With the start octave within 0..6 and three octaves, every key is MIDI 12 to 119. */
  lemma KeyboardRange(startOctave: int)
    requires 0 <= startOctave <= 6
    ensures forall x :: x in Midis(Layout(startOctave, TotalOctaves)) ==> 12 <= x <= 119
  {
    LayoutMidis(startOctave, TotalOctaves);
  }

  // ---------------------------------------------------------------------------
  // Page state

  /** `clamp(n, a, b)`: `Math.max(a, Math.min(b, n))`. */
  function Clamp(n: int, a: int, b: int): (r: int)
    ensures a <= b ==> a <= r <= b
    ensures a <= n <= b ==> r == n
  {
    if b < n then (if a < b then b else a) else (if a < n then n else a)
  }

  /** Inside a non-empty range the result stays in it, leaves in-range values alone, and a second clamp changes nothing. */
  lemma ClampSpec(n: int, a: int, b: int)
    requires a <= b
    ensures a <= Clamp(n, a, b) <= b
    ensures a <= n <= b ==> Clamp(n, a, b) == n
    ensures n < a ==> Clamp(n, a, b) == a
    ensures b < n ==> Clamp(n, a, b) == b
    ensures Clamp(Clamp(n, a, b), a, b) == Clamp(n, a, b)
  {
  }

  /** The wave button's `order`. */
  const WaveOrder: seq<string> := ["sine", "triangle", "square", "sawtooth"]

  /** `order[(order.indexOf(currentWave) + 1) % order.length]`. */
  function WaveAfter(w: string): (r: string)
    ensures r in WaveOrder
  {
    WaveOrder[(IndexOf(WaveOrder, w) + 1) % |WaveOrder|]
  }

  lemma WaveOrderDistinct()
    ensures Distinct(WaveOrder)
  {
  }

  /** Each wave is followed by the next one of `order`, the last by the first. */
  lemma WaveStep(i: int)
    requires 0 <= i < 4
    ensures WaveAfter(WaveOrder[i]) == WaveOrder[(i + 1) % 4]
  {
    WaveOrderDistinct();
    IndexOfDistinct(WaveOrder, i);
  }

  /** Four clicks of the wave button come back to the starting wave. */
  lemma WaveCycle(i: int)
    requires 0 <= i < 4
    ensures WaveAfter(WaveAfter(WaveAfter(WaveAfter(WaveOrder[i])))) == WaveOrder[i]
  {
    WaveStep(0);
    WaveStep(1);
    WaveStep(2);
    WaveStep(3);
    assert (0 + 1) % 4 == 1 && (1 + 1) % 4 == 2 && (2 + 1) % 4 == 3 && (3 + 1) % 4 == 0;
  }

  /** A wave outside `order` is followed by the first entry, so the wave always lands in `order`. */
  lemma WaveAfterUnknown(w: string)
    ensures WaveAfter(w) in WaveOrder
    ensures w !in WaveOrder ==> WaveAfter(w) == "sine"
  {
    IndexOfFirst(WaveOrder, w);
  }

  /** `active.delete(midi)` on the keys of `active` in insertion order. */
  function Without(s: seq<int>, m: int): (r: seq<int>)
    ensures |r| <= |s|
  {
    if s == [] then []
    else if s[0] == m then Without(s[1..], m)
    else [s[0]] + Without(s[1..], m)
  }

  /** Deleting removes that key, keeps every other key, and keeps keys unique. */
  lemma {:induction false} WithoutSpec(s: seq<int>, m: int)
    ensures forall x :: x in Without(s, m) <==> x in s && x != m
    ensures Distinct(s) ==> Distinct(Without(s, m))
    ensures m !in s ==> Without(s, m) == s
  {
    if s != [] {
      WithoutSpec(s[1..], m);
      assert s == [s[0]] + s[1..];
      if s[0] != m && Distinct(s) {
        var r := Without(s, m);
        assert r == [s[0]] + Without(s[1..], m);
        assert s[0] !in s[1..];
        forall i, j | 0 <= i < j < |r| ensures r[i] != r[j] {
          if i == 0 {
            assert r[j] in Without(s[1..], m);
          } else {
            assert r[i] == Without(s[1..], m)[i - 1] && r[j] == Without(s[1..], m)[j - 1];
          }
        }
      }
    }
  }

  /** Deleting the first of unique keys leaves the rest, in order. */
  lemma WithoutFirst(s: seq<int>)
    requires s != [] && Distinct(s)
    ensures Without(s, s[0]) == s[1..]
  {
    assert s[0] !in s[1..];
    WithoutSpec(s[1..], s[0]);
  }

  /** The piano page's state. */
  class Piano {
    /** The keys of `active`, in the order they were set. */
    var active: seq<int>
    /** Whether `audioCtx` has been created. */
    var audioStarted: bool
    var startOctave: int
    var currentWave: string
    /** The key elements of the keyboard, as `buildPiano` last laid them out. */
    var keys: seq<Key>

    ghost predicate Valid()
      reads this
    {
      && Distinct(active)
      && (active != [] ==> audioStarted)
      && 0 <= startOctave <= 6
      && keys == Layout(startOctave, TotalOctaves)
      && currentWave in WaveOrder
    }

    /** The page at load: C3 first, triangle wave, nothing sounding. */
    constructor()
      ensures Valid()
      ensures active == [] && !audioStarted && startOctave == 3 && currentWave == "triangle"
    {
      active := [];
      audioStarted := false;
      startOctave := 3;
      currentWave := "triangle";
      var k, _ := BuildPiano(3, TotalOctaves);
      keys := k;
    }

    /** `noteOn`: a key already sounding is left alone; otherwise it joins `active`. */
    method NoteOn(midi: int)
      requires Valid()
      modifies this
      ensures Valid() && audioStarted
      ensures midi in old(active) ==> active == old(active)
      ensures midi !in old(active) ==> active == old(active) + [midi]
      ensures startOctave == old(startOctave) && currentWave == old(currentWave) && keys == old(keys)
    {
      audioStarted := true;
      if midi in active {
        return;
      }
      active := active + [midi];
    }

    /** `noteOff`: only `midi` stops sounding; a key that is not sounding changes nothing. */
    method NoteOff(midi: int)
      requires Valid()
      modifies this
      ensures Valid()
      ensures active == Without(old(active), midi)
      ensures midi !in old(active) ==> active == old(active)
      ensures audioStarted == old(audioStarted)
      ensures startOctave == old(startOctave) && currentWave == old(currentWave) && keys == old(keys)
    {
      WithoutSpec(active, midi);
      if midi !in active || !audioStarted {
        return;
      }
      active := Without(active, midi);
    }

    /** `stopAll`: `noteOff` for every key of a snapshot of `active`. */
    method StopAll()
      requires Valid()
      modifies this
      ensures Valid() && active == []
      ensures audioStarted == old(audioStarted)
      ensures startOctave == old(startOctave) && currentWave == old(currentWave) && keys == old(keys)
    {
      var snapshot := active;
      var i := 0;
      while i < |snapshot|
        invariant 0 <= i <= |snapshot|
        invariant Valid() && active == snapshot[i..]
        invariant audioStarted == old(audioStarted)
        invariant startOctave == old(startOctave) && currentWave == old(currentWave) && keys == old(keys)
      {
        WithoutFirst(active);
        NoteOff(snapshot[i]);
        i := i + 1;
      }
    }

    /** `setStartOctave`: clamp to 0..6, silence everything, lay the keyboard out again. */
    method SetStartOctave(next: int)
      requires Valid()
      modifies this
      ensures Valid()
      ensures startOctave == Clamp(next, 0, 6) && active == []
      ensures keys == Layout(startOctave, TotalOctaves)
      ensures currentWave == old(currentWave) && audioStarted == old(audioStarted)
    {
      ClampSpec(next, 0, 6);
      StopAll();
      startOctave := Clamp(next, 0, 6);
      var k, _ := BuildPiano(startOctave, TotalOctaves);
      keys := k;
    }

    /** The wave button: the next wave of `order`. */
    method NextWave()
      requires Valid()
      modifies this
      ensures Valid() && currentWave == WaveAfter(old(currentWave))
      ensures active == old(active) && startOctave == old(startOctave) && keys == old(keys)
    {
      var idx := IndexOf(WaveOrder, currentWave);
      WaveAfterUnknown(currentWave);
      currentWave := WaveOrder[(idx + 1) % |WaveOrder|];
    }
  }
}
