/**
 * The quiz page's music theory (js/quiz.js): its tables, the enharmonic
 * `normalize`, the answers each kind of question expects, the
 * multiple-choice generator and the two ways `checkAnswer` marks an answer.
 */
module Quiz {
  import opened Wrappers
  import opened Strings
  import opened Pitch

  // ---------------------------------------------------------------------------
  // Tables

  /** `roots`: the fourteen roots a question may start from, flats included. */
  const QuizRoots: seq<string> := ["C", "C#", "Db", "D", "Eb", "E", "F", "F#", "Gb", "G", "Ab", "A", "Bb", "B"]

  /** The position of each root's pitch in `chromatic`. */
  const RootPitch: seq<int> := [0, 1, 1, 2, 3, 4, 5, 6, 6, 7, 8, 9, 10, 11]

  /** `chordTypes`. */
  const ChordTypes: map<string, seq<int>> := map[
    "M" := [0, 4, 7],
    "m" := [0, 3, 7],
    "7" := [0, 4, 7, 10],
    "M7" := [0, 4, 7, 11],
    "m7" := [0, 3, 7, 10]
  ]

  /** `Object.keys(chordTypes)`: an integer-like key such as "7" comes before the others. */
  const ChordTypeKeys: seq<string> := ["7", "M", "m", "M7", "m7"]

  /** `scales`. */
  const Scales: map<string, seq<int>> := map[
    "Ionian" := [0, 2, 4, 5, 7, 9, 11],
    "Dorian" := [0, 2, 3, 5, 7, 9, 10],
    "Phrygian" := [0, 1, 3, 5, 7, 8, 10],
    "Lydian" := [0, 2, 4, 6, 7, 9, 11],
    "Mixolydian" := [0, 2, 4, 5, 7, 9, 10],
    "Aeolian" := [0, 2, 3, 5, 7, 8, 10],
    "Locrian" := [0, 1, 3, 5, 6, 8, 10]
  ]

  /** `Object.keys(scales)`, in insertion order. */
  const ScaleKeys: seq<string> := ["Ionian", "Dorian", "Phrygian", "Lydian", "Mixolydian", "Aeolian", "Locrian"]

  /** `keySignatures`: the accidentals of each major key. */
  const KeySignatures: map<string, seq<string>> := map[
    "C" := [],
    "G" := ["F#"],
    "D" := ["F#", "C#"],
    "A" := ["F#", "C#", "G#"],
    "E" := ["F#", "C#", "G#", "D#"],
    "B" := ["F#", "C#", "G#", "D#", "A#"],
    "F" := ["Bb"],
    "Bb" := ["Bb", "Eb"],
    "Eb" := ["Bb", "Eb", "Ab"],
    "Ab" := ["Bb", "Eb", "Ab", "Db"]
  ]

  /** The sharp keys, one more sharp each, and the flat keys, one more flat each. */
  const SharpKeys: seq<string> := ["C", "G", "D", "A", "E", "B"]
  const FlatKeys: seq<string> := ["F", "Bb", "Eb", "Ab"]

  /** `Object.keys(keySignatures)`, in insertion order. */
  const KeyKeys: seq<string> := SharpKeys + FlatKeys

  /** The standard order in which sharps (F C G D A E B) and flats (B E A D G C F) enter a signature. */
  const SharpOrder: seq<string> := ["F#", "C#", "G#", "D#", "A#", "E#", "B#"]
  const FlatOrder: seq<string> := ["Bb", "Eb", "Ab", "Db", "Gb", "Cb", "Fb"]

  /** Each `Object.keys` list names every key of its table exactly once. */
  lemma ChordTypeKeysMatch()
    ensures Distinct(ChordTypeKeys) && forall k :: k in ChordTypes <==> k in ChordTypeKeys
  {
    assert ChordTypes.Keys == {"7", "M", "m", "M7", "m7"};
  }

  lemma ScaleKeysMatch()
    ensures Distinct(ScaleKeys) && forall k :: k in Scales <==> k in ScaleKeys
  {
    assert Scales.Keys == {"Ionian", "Dorian", "Phrygian", "Lydian", "Mixolydian", "Aeolian", "Locrian"};
  }

  lemma KeyKeysMatch()
    ensures Distinct(KeyKeys) && forall k :: k in KeySignatures <==> k in KeyKeys
  {
    assert KeySignatures.Keys == {"C", "G", "D", "A", "E", "B", "F", "Bb", "Eb", "Ab"};
    assert KeyKeys == ["C", "G", "D", "A", "E", "B", "F", "Bb", "Eb", "Ab"];
  }

  /**
   * The `i`-th sharp key carries the first `i` sharps of the standard order,
   * the `i`-th flat key the first `i + 1` flats.
   */
  lemma KeySignatureOrder()
    ensures forall i :: 0 <= i < 6 ==> SharpKeys[i] in KeySignatures && KeySignatures[SharpKeys[i]] == SharpOrder[..i]
    ensures forall i :: 0 <= i < 4 ==> FlatKeys[i] in KeySignatures && KeySignatures[FlatKeys[i]] == FlatOrder[..i + 1]
  {
    assert SharpOrder[..0] == [] && SharpOrder[..1] == ["F#"] && SharpOrder[..2] == ["F#", "C#"];
    assert SharpOrder[..3] == ["F#", "C#", "G#"] && SharpOrder[..4] == ["F#", "C#", "G#", "D#"];
    assert SharpOrder[..5] == ["F#", "C#", "G#", "D#", "A#"];
    assert FlatOrder[..1] == ["Bb"] && FlatOrder[..2] == ["Bb", "Eb"];
    assert FlatOrder[..3] == ["Bb", "Eb", "Ab"] && FlatOrder[..4] == ["Bb", "Eb", "Ab", "Db"];
  }

  /** No two keys share a signature, so a signature names its key. */
  lemma KeySignaturesDistinct(i: int, j: int)
    requires 0 <= i < 10 && 0 <= j < 10
    requires KeySignatures[KeyKeys[i]] == KeySignatures[KeyKeys[j]]
    ensures i == j
  {
    KeySignatureOrder();
  }

  // ---------------------------------------------------------------------------
  // Normalisation and answers

  /** `normalize`: a flat of `enharmonicMap` becomes its sharp; anything else is left alone. */
  function Normalize(note: string): string {
    if note in FlatToSharp then FlatToSharp[note] else note
  }

  /** Normalising twice is normalising once; sharp names stay; flats turn into a different, chromatic name. */
  lemma NormalizeSpec(note: string)
    ensures Normalize(Normalize(note)) == Normalize(note)
    ensures note in Chromatic ==> Normalize(note) == note
    ensures note in FlatToSharp ==> Normalize(note) != note && Normalize(note) in Chromatic
  {
    FlatToSharpTargets();
  }

  /** Every root normalises to the chromatic name at its pitch, so `rootIndex` is never -1. */
  lemma RootsNormalize(i: int)
    requires 0 <= i < 14
    ensures 0 <= RootPitch[i] < 12 && Normalize(QuizRoots[i]) == Chromatic[RootPitch[i]]
    ensures ChromaticIndexOf(Normalize(QuizRoots[i])) == RootPitch[i]
  {
    assert 0 <= RootPitch[i] < 12 && Normalize(QuizRoots[i]) == Chromatic[RootPitch[i]] by {
      assert FlatToSharp.Keys == {"Db", "Eb", "Gb", "Ab", "Bb"};
      if i == 0 {} else if i == 1 {} else if i == 2 {} else if i == 3 {} else if i == 4 {} else if i == 5 {}
      else if i == 6 {} else if i == 7 {} else if i == 8 {} else if i == 9 {} else if i == 10 {}
      else if i == 11 {} else if i == 12 {} else {}
    }
    ChromaticIndexOfAt(RootPitch[i]);
  }

  /** Every quiz formula climbs strictly from the root inside one octave. */
  lemma QuizFormulasShape()
    ensures forall t :: t in ChordTypes ==> ScaleShape(ChordTypes[t])
    ensures forall s :: s in Scales ==> ScaleShape(Scales[s]) && |Scales[s]| == 7
  {
  }

  lemma ChordTypeOf(t: string)
    requires t in ChordTypes
    ensures ScaleShape(ChordTypes[t]) && NonNegative(ChordTypes[t]) && DistinctModOctave(ChordTypes[t])
    ensures 3 <= |ChordTypes[t]| <= 4
  {
    QuizFormulasShape();
    ScaleShapeOffsets(ChordTypes[t]);
  }

  lemma ScaleOf(s: string)
    requires s in Scales
    ensures ScaleShape(Scales[s]) && |Scales[s]| == 7 && NonNegative(Scales[s]) && DistinctModOctave(Scales[s])
  {
    QuizFormulasShape();
    ScaleShapeOffsets(Scales[s]);
  }

  /** `formula.map(i => chromatic[(rootIndex + i) % 12])` with `rootIndex = chromatic.indexOf(normalize(root))`. */
  function Spelled(root: string, formula: seq<int>): (r: seq<string>)
    requires 0 <= ChromaticIndexOf(Normalize(root)) && NonNegative(formula)
    ensures |r| == |formula|
  {
    Spell(Chromatic, ChromaticIndexOf(Normalize(root)), formula)
  }

  /** The answer of a chord question, `chordTypes[type]` spelled on the root. */
  function ChordAnswer(root: string, t: string): (r: seq<string>)
    requires 0 <= ChromaticIndexOf(Normalize(root)) && t in ChordTypes
    ensures |r| == |ChordTypes[t]|
  {
    ChordTypeOf(t);
    Spelled(root, ChordTypes[t])
  }

  /** The answer of a scale question, `scales[scaleName]` spelled on the root. */
  function ScaleAnswer(root: string, s: string): (r: seq<string>)
    requires 0 <= ChromaticIndexOf(Normalize(root)) && s in Scales
    ensures |r| == |Scales[s]| == 7
  {
    ScaleOf(s);
    Spelled(root, Scales[s])
  }

  /**
   * A formula spelled on the `i`-th root is spelled from that root's pitch:
   * it starts with the root in sharp spelling, names none twice, and consists
   * of chromatic names, which are words that `normalize` leaves alone.
   */
  lemma SpelledSpec(i: int, f: seq<int>)
    requires 0 <= i < 14 && ScaleShape(f)
    ensures 0 <= ChromaticIndexOf(Normalize(QuizRoots[i])) && NonNegative(f)
    ensures var r := Spelled(QuizRoots[i], f);
      && r == Spell(Chromatic, RootPitch[i], f)
      && r[0] == Normalize(QuizRoots[i])
      && Distinct(r)
      && forall k :: 0 <= k < |r| ==> r[k] in Chromatic
  {
    RootsNormalize(i);
    ScaleShapeOffsets(f);
    SpellRootFirst(Chromatic, RootPitch[i], f);
    ChromaticDistinct();
    SpellDistinct(Chromatic, RootPitch[i], f);
    forall k | 0 <= k < |f| ensures Spell(Chromatic, RootPitch[i], f)[k] in Chromatic {
      SpellInTable(Chromatic, RootPitch[i], f, k);
    }
  }

  /** Spelled on the same root, two formulas inside the octave give the same notes only if they are the same. */
  lemma SpellDecidesFormula(p: int, f1: seq<int>, f2: seq<int>)
    requires 0 <= p < 12 && ScaleShape(f1) && ScaleShape(f2) && |f1| == |f2|
    requires NonNegative(f1) && NonNegative(f2)
    requires Spell(Chromatic, p, f1) == Spell(Chromatic, p, f2)
    ensures f1 == f2
  {
    ChromaticDistinct();
    forall k | 0 <= k < |f1| ensures f1[k] == f2[k] {
      SpellDecidesOffset(Chromatic, p, f1, f2, k);
    }
  }

  /** Position `k` of the two formulas, read back from the notes spelled from a table without repeats. */
  lemma SpellDecidesOffset(table: seq<string>, p: int, f1: seq<int>, f2: seq<int>, k: int)
    requires |table| == 12 && Distinct(table)
    requires 0 <= p < 12 && ScaleShape(f1) && ScaleShape(f2) && |f1| == |f2| && 0 <= k < |f1|
    requires NonNegative(f1) && NonNegative(f2)
    requires Spell(table, p, f1)[k] == Spell(table, p, f2)[k]
    ensures f1[k] == f2[k]
  {
    ScaleShapeAt(f1, k);
    ScaleShapeAt(f2, k);
    SpellInTable(table, p, f1, k);
    SpellInTable(table, p, f2, k);
    SameNoteSameOffset(table, p, f1[k], f2[k]);
  }

  /** Two offsets inside the octave that name the same entry of a table without repeats, from the same root, are equal. */
  lemma SameNoteSameOffset(table: seq<string>, p: int, a: int, b: int)
    requires |table| == 12 && Distinct(table)
    requires 0 <= p < 12 && 0 <= a < 12 && 0 <= b < 12
    requires table[(p + a) % 12] == table[(p + b) % 12]
    ensures a == b
  {
    if a != b {
      ModShift(p, a, b);
    }
  }

  /** No two scales share a formula. */
  lemma ScalesDistinct(i: int, j: int)
    requires 0 <= i < 7 && 0 <= j < 7
    requires Scales[ScaleKeys[i]] == Scales[ScaleKeys[j]]
    ensures i == j
  {
  }

  /** Scale and key names are single words. */
  lemma NamesAreWords()
    ensures forall k :: 0 <= k < 7 ==> IsWord(ScaleKeys[k])
    ensures forall k :: 0 <= k < 10 ==> IsWord(KeyKeys[k])
  {
    assert KeyKeys == ["C", "G", "D", "A", "E", "B", "F", "Bb", "Eb", "Ab"];
  }

  /** Chromatic names are words that `normalize` leaves alone. */
  lemma ChromaticName(n: string)
    requires n in Chromatic
    ensures IsWord(n) && n !in FlatToSharp && Normalize(n) == n
  {
    FlatToSharpTargets();
  }

  /** The "(없음)" marker the key-signature question shows for no accidentals. */
  const NoneMarker: string := "(\U{C5C6}\U{C74C})"

  /** The key-signature question's text: the accidentals joined by spaces, or the marker. */
  function SignaturePrompt(sig: seq<string>): string {
    if |sig| > 0 then Join(sig, " ") else NoneMarker
  }

  /**
   * Every accidental of every signature is a word, and upper-casing it and
   * restoring a flat spelling gives it back.
   */
  lemma SignatureWords(i: int)
    requires 0 <= i < 10
    ensures forall k :: 0 <= k < |KeySignatures[KeyKeys[i]]| ==>
      && IsWord(KeySignatures[KeyKeys[i]][k])
      && IsWord(ToUpper(KeySignatures[KeyKeys[i]][k]))
      && RestoreFlat(ToUpper(KeySignatures[KeyKeys[i]][k])) == KeySignatures[KeyKeys[i]][k]
  {
    KeySignatureOrder();
    forall k | 0 <= k < 5 ensures IsWord(SharpOrder[k]) && IsWord(ToUpper(SharpOrder[k])) && RestoreFlat(ToUpper(SharpOrder[k])) == SharpOrder[k] {
      RestoreSignatureName(SharpOrder[k]);
    }
    forall k | 0 <= k < 4 ensures IsWord(FlatOrder[k]) && IsWord(ToUpper(FlatOrder[k])) && RestoreFlat(ToUpper(FlatOrder[k])) == FlatOrder[k] {
      RestoreSignatureName(FlatOrder[k]);
    }
  }

  /** Different keys show different signature prompts, so the prompt decides the answer. */
  lemma SignaturePromptDecides(i: int, j: int)
    requires 0 <= i < 10 && 0 <= j < 10
    requires SignaturePrompt(KeySignatures[KeyKeys[i]]) == SignaturePrompt(KeySignatures[KeyKeys[j]])
    ensures i == j
  {
    var a, b := KeySignatures[KeyKeys[i]], KeySignatures[KeyKeys[j]];
    SignatureWords(i);
    SignatureWords(j);
    if |a| > 0 && |b| > 0 {
      SplitJoin(a);
      SplitJoin(b);
    }
    KeySignaturesDistinct(i, j);
  }

  // ---------------------------------------------------------------------------
  // Multiple choice

  /** The `mode` argument of `generateChoices`. */
  datatype ChoiceMode = ScaleNames | Keys | ChordTones

  /**
   * One random draw of the loop: an index into the scale or key list, or the
   * three entries a shuffled copy of `chromatic` starts with.
   */
  predicate ValidDraw(mode: ChoiceMode, d: seq<int>) {
    match mode
    case ScaleNames => |d| == 1 && 0 <= d[0] < |ScaleKeys|
    case Keys => |d| == 1 && 0 <= d[0] < |KeyKeys|
    case ChordTones => |d| == 3 && Distinct(d) && forall k :: 0 <= k < 3 ==> 0 <= d[k] < 12
  }

  /** The candidate a draw produces. */
  function Candidate(mode: ChoiceMode, d: seq<int>): string
    requires ValidDraw(mode, d)
  {
    match mode
    case ScaleNames => ScaleKeys[d[0]]
    case Keys => KeyKeys[d[0]]
    case ChordTones => Join([Chromatic[d[0]], Chromatic[d[1]], Chromatic[d[2]]], " ")
  }

  function Candidates(mode: ChoiceMode, draws: seq<seq<int>>): (r: seq<string>)
    requires forall k :: 0 <= k < |draws| ==> ValidDraw(mode, draws[k])
    ensures |r| == |draws|
  {
    seq(|draws|, k requires 0 <= k < |draws| => Candidate(mode, draws[k]))
  }

  /** The `while` loop of `generateChoices` run over a sequence of candidates: keep a new one, skip a repeat, stop at four. */
  function Collect(choices: seq<string>, candidates: seq<string>): (r: seq<string>)
    ensures |choices| <= |r| && r[..|choices|] == choices
    ensures |choices| <= 4 ==> |r| <= 4
    ensures forall x :: x in r ==> x in choices || x in candidates
    decreases |candidates|
  {
    if |choices| >= 4 || candidates == [] then choices
    else Collect(if candidates[0] in choices then choices else choices + [candidates[0]], candidates[1..])
  }

  /**
   * Collecting keeps what was there in front, adds only candidates, never
   * repeats a string and never goes past four.
   */
  lemma {:induction false} CollectSpec(choices: seq<string>, candidates: seq<string>)
    requires Distinct(choices) && |choices| <= 4
    ensures var r := Collect(choices, candidates);
      && Distinct(r) && |choices| <= |r| <= 4 && r[..|choices|] == choices
      && forall x :: x in r ==> x in choices || x in candidates
    decreases |candidates|
  {
    if |choices| < 4 && candidates != [] {
      var c := candidates[0];
      var next := if c in choices then choices else choices + [c];
      assert Distinct(next) by {
        if c !in choices {
          forall i, j | 0 <= i < j < |next| ensures next[i] != next[j] {
            if j == |choices| {
              assert next[i] == choices[i];
            }
          }
        }
      }
      CollectSpec(next, candidates[1..]);
      var r := Collect(next, candidates[1..]);
      assert r[..|choices|] == next[..|choices|] == choices by {
        assert r[..|choices|] == r[..|next|][..|choices|];
      }
    }
  }

  /** The four strings the loop ends with. */
  predicate Enough(correct: string, candidates: seq<string>) {
    |Collect([correct], candidates)| == 4
  }

  /** The loop of `generateChoices` over the candidate draws. */
  method CollectChoices(correct: string, candidates: seq<string>) returns (choices: seq<string>)
    requires Enough(correct, candidates)
    ensures choices == Collect([correct], candidates)
  {
    choices := [correct];
    var n := 0;
    while |choices| < 4
      invariant 0 <= n <= |candidates|
      invariant Collect(choices, candidates[n..]) == Collect([correct], candidates)
      decreases |candidates| - n
    {
      if n == |candidates| {
        assert false;
      }
      var candidate := candidates[n];
      assert candidates[n..][1..] == candidates[n + 1..];
      if candidate !in choices {
        choices := choices + [candidate];
      }
      n := n + 1;
    }
    assert Collect(choices, candidates[n..]) == choices;
  }

  /** An ordering of four places, the result of `choices.sort(() => Math.random() - 0.5)`. */
  predicate IsOrder(order: seq<int>) {
    |order| == 4 && Distinct(order) && forall k :: 0 <= k < 4 ==> 0 <= order[k] < 4
  }

  /**
   * `generateChoices`: four different strings, `correct` among them once, the
   * others drawn candidates, in shuffled order.
   */
  method GenerateChoices(correct: string, mode: ChoiceMode, draws: seq<seq<int>>, order: seq<int>)
    returns (choices: seq<string>)
    requires forall k :: 0 <= k < |draws| ==> ValidDraw(mode, draws[k])
    requires Enough(correct, Candidates(mode, draws))
    requires IsOrder(order)
    ensures |choices| == 4 && Distinct(choices)
    ensures correct in choices
    ensures forall x :: x in choices ==> x == correct || x in Candidates(mode, draws)
    ensures forall x :: x in choices <==> x in Collect([correct], Candidates(mode, draws))
  {
    var collected := CollectChoices(correct, Candidates(mode, draws));
    CollectSpec([correct], Candidates(mode, draws));
    assert collected[0] == correct by {
      assert collected[..1] == [correct];
    }
    choices := seq(4, i requires 0 <= i < 4 => collected[order[i]]);
    OrderCovers(order);
    forall i, j | 0 <= i < j < 4 ensures choices[i] != choices[j] {
      assert order[i] != order[j];
    }
    forall x | x in collected ensures x in choices {
      var p :| 0 <= p < 4 && collected[p] == x;
      assert p in order;
      var i :| 0 <= i < 4 && order[i] == p;
      assert choices[i] == x;
    }
  }

  /** Four different places out of four cover all four. */
  lemma OrderCovers(order: seq<int>)
    requires IsOrder(order)
    ensures forall p :: 0 <= p < 4 ==> p in order
  {
    var s := set x | x in order;
    assert s <= {0, 1, 2, 3};
    DistinctCard(order);
    forall p | 0 <= p < 4 ensures p in order {
      if p !in s {
        var rest := {0, 1, 2, 3} - {p};
        assert |rest| == 3 by {
          if p == 0 { assert rest == {1, 2, 3}; }
          else if p == 1 { assert rest == {0, 2, 3}; }
          else if p == 2 { assert rest == {0, 1, 3}; }
          else { assert rest == {0, 1, 2}; }
        }
        SubsetCard(s, rest);
      }
    }
  }

  /** In "scaleNames" and "keys" mode every candidate is a key of its table. */
  lemma NameCandidates(mode: ChoiceMode, draws: seq<seq<int>>)
    requires mode != ChordTones && forall k :: 0 <= k < |draws| ==> ValidDraw(mode, draws[k])
    ensures mode == ScaleNames ==> forall x :: x in Candidates(mode, draws) ==> x in Scales
    ensures mode == Keys ==> forall x :: x in Candidates(mode, draws) ==> x in KeySignatures
  {
    ScaleKeysMatch();
    KeyKeysMatch();
  }

  /** A "chordTones" distractor is three different chromatic names joined by single spaces. */
  lemma ToneCandidates(draws: seq<seq<int>>, x: string)
    requires forall k :: 0 <= k < |draws| ==> ValidDraw(ChordTones, draws[k])
    requires x in Candidates(ChordTones, draws)
    ensures exists a, b, c ::
      (0 <= a < 12 && 0 <= b < 12 && 0 <= c < 12 && a != b && a != c && b != c &&
       x == Join([Chromatic[a], Chromatic[b], Chromatic[c]], " "))
  {
    var k :| 0 <= k < |draws| && Candidates(ChordTones, draws)[k] == x;
    var d := draws[k];
    assert d[0] != d[1] && d[0] != d[2] && d[1] != d[2];
  }

  // ---------------------------------------------------------------------------
  // Grading

  /** `correctAnswer`: a list of notes or one text. */
  datatype Answer = Tones(tones: seq<string>) | Text(text: string)

  /** What `checkAnswer` receives: the token array of `submitAnswer`, or a choice button's string. */
  datatype Reply = Typed(tokens: seq<string>) | Chosen(choice: string)

  function NormalizeAll(xs: seq<string>): (r: seq<string>)
    ensures |r| == |xs|
  {
    seq(|xs|, i requires 0 <= i < |xs| => Normalize(xs[i]))
  }

  /** `.filter(x => x.length)`. */
  function NonEmpty(xs: seq<string>): (r: seq<string>)
    ensures forall x :: x in r <==> x in xs && x != ""
  {
    if xs == [] then [] else if xs[0] == "" then NonEmpty(xs[1..]) else [xs[0]] + NonEmpty(xs[1..])
  }

  /** The list side of `checkAnswer`: the user's tokens, split if they came as one string. */
  function ReplyTokens(user: Reply): seq<string> {
    match user
    case Typed(ts) => ts
    case Chosen(s) => Split(s)
  }

  /** The text side of `checkAnswer`. */
  function ReplyText(user: Reply): string {
    match user
    case Typed(ts) => Trim(Join(ts, " "))
    case Chosen(s) => Trim(s)
  }

  /**
   * `checkAnswer`'s verdict: for a list answer, the sorted normalised lists
   * compared (`JSON.stringify` of two string arrays is equal exactly when the
   * arrays are); for a text answer, the trimmed reply compared verbatim. With
   * no question asked yet (`correctAnswer` null) nothing is correct.
   */
  function Grade(correct: Option<Answer>, user: Reply): (r: bool)
    ensures correct.None? ==> !r
  {
    match correct
    case None => false
    case Some(Tones(c)) => Sort(NormalizeAll(c)) == Sort(NonEmpty(NormalizeAll(ReplyTokens(user))))
    case Some(Text(c)) => ReplyText(user) == c
  }

  /**
   * A list answer is graded correct exactly when the normalised, non-empty
   * tokens are the normalised answer up to order: a missing or a doubled
   * token fails, a reordering passes.
   */
  lemma GradeTonesIsMultisetEquality(c: seq<string>, user: Reply)
    ensures Grade(Some(Tones(c)), user) <==>
      multiset(NormalizeAll(c)) == multiset(NonEmpty(NormalizeAll(ReplyTokens(user))))
  {
    SortEqualIffSameMultiset(NormalizeAll(c), NonEmpty(NormalizeAll(ReplyTokens(user))));
  }

  /** A text answer is graded correct exactly when the trimmed reply is that text; choosing the text itself passes. */
  lemma GradeTextIsVerbatim(c: string, s: string)
    ensures Grade(Some(Text(c)), Chosen(s)) <==> Trim(s) == c
    ensures (c == [] || (!IsSpace(c[0]) && !IsSpace(c[|c| - 1]))) ==> Grade(Some(Text(c)), Chosen(c))
  {
  }

  /** `answerInput.value.toUpperCase().trim().split(/\s+/)`. */
  function SubmitReply(text: string): (r: Reply)
    ensures r.Typed? && |r.tokens| >= 1
  {
    Typed(Split(Trim(ToUpper(text))))
  }

  /** Key C has no accidentals, and an empty submission is graded correct for it. */
  lemma EmptySubmissionForC()
    ensures KeySignatures["C"] == []
    ensures Grade(Some(Tones(KeySignatures["C"])), SubmitReply(""))
  {
    assert Trim(ToUpper("")) == "";
    assert Split("") == [""];
    assert NonEmpty(NormalizeAll([""])) == [];
  }

  /** A single word splits into itself. */
  lemma SplitWord(w: string)
    requires IsWord(w)
    ensures Split(w) == [w]
  {
    SplitJoin([w]);
  }

  /** A list reply is compared after normalising; for a one-note answer and a one-token reply that is all. */
  lemma GradeSingle(c: string, u: string)
    requires u != ""
    ensures Grade(Some(Tones([c])), Typed([u])) <==> Normalize(c) == Normalize(u)
  {
    assert NormalizeAll([c]) == [Normalize(c)];
    assert NormalizeAll([u]) == [Normalize(u)];
    assert Normalize(u) != "" by {
      FlatToSharpTargets();
    }
    assert NonEmpty([Normalize(u)]) == [Normalize(u)];
    assert Sort([Normalize(c)]) == [Normalize(c)];
    assert Sort([Normalize(u)]) == [Normalize(u)];
  }

  /** The list moved one place to the right, its last name first: "G C E" for "C E G". */
  function RotateRight(a: seq<string>): (r: seq<string>)
    requires |a| >= 1
    ensures |r| == |a| && r[0] == a[|a| - 1] && multiset(r) == multiset(a)
  {
    assert a == a[..|a| - 1] + a[|a| - 1..];
    a[|a| - 1..] + a[..|a| - 1]
  }

  /**
   * Rotating the tones of a triad gives a "chordTones" string that is
   * textually a different choice, yet it grades as correct: "G C E" for
   * C major.
   */
  lemma RotatedTriadGradesCorrect(i: int, f: seq<int>)
    requires 0 <= i < 14 && ScaleShape(f) && |f| == 3
    ensures 0 <= ChromaticIndexOf(Normalize(QuizRoots[i])) && NonNegative(f)
    ensures var a := Spelled(QuizRoots[i], f);
      && Join(RotateRight(a), " ") != Join(a, " ")
      && Grade(Some(Tones(a)), Chosen(Join(RotateRight(a), " ")))
  {
    SpelledSpec(i, f);
    var a := Spelled(QuizRoots[i], f);
    forall k | 0 <= k < 3 ensures IsWord(a[k]) && a[k] !in FlatToSharp {
      ChromaticName(a[k]);
    }
    RotationDiffers(a);
    GradeReordered(a, RotateRight(a));
  }

  /** Rotating words whose first and last differ gives a line that differs from the original. */
  lemma RotationDiffers(a: seq<string>)
    requires |a| >= 2 && a[0] != a[|a| - 1]
    requires forall k :: 0 <= k < |a| ==> IsWord(a[k])
    ensures Join(RotateRight(a), " ") != Join(a, " ")
  {
    var r := RotateRight(a);
    forall k | 0 <= k < |r| ensures IsWord(r[k]) {
      assert r[k] in multiset(a);
    }
    SplitJoin(a);
    SplitJoin(r);
    assert r[0] != a[0];
  }

  /** Normalising a list without flats leaves it as it is. */
  lemma NormalizeAllKeeps(xs: seq<string>)
    requires forall k :: 0 <= k < |xs| ==> xs[k] !in FlatToSharp
    ensures NormalizeAll(xs) == xs
  {
  }

  /** A reply holding the answer's own notes in another order, clicked as one button, grades as correct. */
  lemma GradeReordered(c: seq<string>, ws: seq<string>)
    requires |ws| >= 1 && multiset(c) == multiset(ws)
    requires forall k :: 0 <= k < |c| ==> IsWord(c[k]) && c[k] !in FlatToSharp
    ensures Grade(Some(Tones(c)), Chosen(Join(ws, " ")))
  {
    forall k | 0 <= k < |ws| ensures IsWord(ws[k]) && ws[k] !in FlatToSharp {
      assert ws[k] in multiset(c);
    }
    NormalizeAllKeeps(c);
    NormalizeAllKeeps(ws);
    SplitJoin(ws);
    NonEmptyWords(ws);
    GradeTonesIsMultisetEquality(c, Chosen(Join(ws, " ")));
  }

  // ---------------------------------------------------------------------------
  // Typed flats

  /** A single typed word reaches `checkAnswer` as its upper-case self. */
  lemma SubmitWord(w: string)
    requires IsWord(w)
    ensures IsWord(ToUpper(w)) && SubmitReply(w) == Typed([ToUpper(w)])
  {
    SplitWord(ToUpper(w));
  }

  /**
   * A flat typed as it is written reaches grading upper-cased ("BB" for
   * "Bb"), a name `normalize` does not know, so it is graded wrong; the
   * sharp it stands for is graded right.
   */
  lemma TypedFlatRejected(f: string)
    requires f in FlatToSharp
    ensures !Grade(Some(Tones([f])), SubmitReply(f))
    ensures Grade(Some(Tones([f])), SubmitReply(FlatToSharp[f]))
  {
    FlatSpelling(f);
    var up := ToUpper(f);
    var sharp := FlatToSharp[f];
    assert up == [f[0], 'B'];
    assert ToUpper(sharp) == sharp;
    NotFlat(up);
    NotFlat(sharp);
    SubmitWord(f);
    SubmitWord(sharp);
    GradeSingle(f, up);
    GradeSingle(f, sharp);
  }

  /** F major's signature, typed as it is written, is graded wrong. */
  lemma KeyFTypedRejected()
    ensures KeySignatures["F"] == ["Bb"]
    ensures !Grade(Some(Tones(KeySignatures["F"])), SubmitReply("Bb"))
    ensures Grade(Some(Tones(KeySignatures["F"])), SubmitReply("A#"))
  {
    assert KeySignatures["F"] == ["Bb"];
    TypedFlatRejected("Bb");
  }

  /** The flat names are a capital letter and a lower-case 'b'; their sharps a capital letter and '#'. */
  lemma FlatSpelling(f: string)
    requires f in FlatToSharp
    ensures |f| == 2 && 'A' <= f[0] <= 'G' && f[1] == 'b'
    ensures |FlatToSharp[f]| == 2 && 'A' <= FlatToSharp[f][0] <= 'G' && FlatToSharp[f][1] == '#'
  {
    assert FlatToSharp.Keys == {"Db", "Eb", "Gb", "Ab", "Bb"};
  }

  /** A two-character name whose second character is not 'b' is not a flat. */
  lemma NotFlat(w: string)
    requires |w| == 2 && w[1] != 'b'
    ensures w !in FlatToSharp
  {
    assert FlatToSharp.Keys == {"Db", "Eb", "Gb", "Ab", "Bb"};
  }

  /** An upper-cased token that reads as a letter and a flat gets its flat spelling back. */
  function RestoreFlat(token: string): string {
    if |token| == 2 && token[1] == 'B' && [token[0], 'b'] in FlatToSharp then [token[0], 'b'] else token
  }

  function RestoreFlats(tokens: seq<string>): (r: seq<string>)
    ensures |r| == |tokens|
  {
    seq(|tokens|, i requires 0 <= i < |tokens| => RestoreFlat(tokens[i]))
  }

  /** Restoring the upper-cased names gives back names that survive the round trip. */
  lemma RestoreUpper(xs: seq<string>, up: seq<string>)
    requires |up| == |xs|
    requires forall k :: 0 <= k < |xs| ==> up[k] == ToUpper(xs[k]) && RestoreFlat(ToUpper(xs[k])) == xs[k]
    ensures RestoreFlats(up) == xs
  {
  }

  /** `submitAnswer` as evidently intended: flats typed in any case are read as flats. */
  function SubmitReplyFixed(text: string): Reply {
    var tokens := Split(Trim(ToUpper(text)));
    Typed(RestoreFlats(tokens))
  }

  /** Upper-casing and restoring gives back every accidental a signature uses. */
  lemma RestoreSignatureName(x: string)
    requires x in SharpOrder[..5] || x in FlatOrder[..4]
    ensures IsWord(x) && IsWord(ToUpper(x)) && RestoreFlat(ToUpper(x)) == x
  {
  }

  /** `xs.map(x => x.toUpperCase())`. */
  function UpperAll(xs: seq<string>): (r: seq<string>)
    ensures |r| == |xs| && forall k :: 0 <= k < |xs| ==> r[k] == ToUpper(xs[k])
  {
    seq(|xs|, i requires 0 <= i < |xs| => ToUpper(xs[i]))
  }

  /** Upper-casing commutes with joining by spaces. */
  lemma {:induction false} ToUpperJoin(xs: seq<string>)
    ensures ToUpper(Join(xs, " ")) == Join(UpperAll(xs), " ")
    decreases |xs|
  {
    var ys := UpperAll(xs);
    if |xs| > 1 {
      var rest := Join(xs[1..], " ");
      ToUpperJoin(xs[1..]);
      assert ys[1..] == UpperAll(xs[1..]);
      assert Join(xs, " ") == xs[0] + (" " + rest);
      ToUpperAppend(xs[0], " " + rest);
      ToUpperAppend(" ", rest);
      assert ToUpper(" ") == " ";
      assert Join(ys, " ") == ys[0] + " " + Join(ys[1..], " ");
    }
  }

  lemma ToUpperAppend(a: string, b: string)
    ensures ToUpper(a + b) == ToUpper(a) + ToUpper(b)
  {
  }

  /**
   * The corrected submission reads back a space-separated list of words
   * that upper-casing and restoring leave as they are.
   */
  lemma SubmitFixedJoin(xs: seq<string>)
    requires |xs| >= 1
    requires forall k :: 0 <= k < |xs| ==> IsWord(ToUpper(xs[k])) && RestoreFlat(ToUpper(xs[k])) == xs[k]
    ensures SubmitReplyFixed(Join(xs, " ")) == Typed(xs)
  {
    var up := UpperAll(xs);
    forall k | 0 <= k < |up| ensures IsWord(up[k]) {
      assert up[k] == ToUpper(xs[k]);
    }
    assert ToUpper(Join(xs, " ")) == Join(up, " ") by {
      ToUpperJoin(xs);
    }
    assert Trim(Join(up, " ")) == Join(up, " ") by {
      TrimJoin(up);
    }
    assert Split(Join(up, " ")) == up by {
      SplitJoin(up);
    }
    assert RestoreFlats(up) == xs by {
      RestoreUpper(xs, up);
    }
  }

  /** Trimming a space-separated list of words changes nothing. */
  lemma TrimJoin(xs: seq<string>)
    requires |xs| >= 1 && forall k :: 0 <= k < |xs| ==> IsWord(xs[k])
    ensures Trim(Join(xs, " ")) == Join(xs, " ")
  {
    JoinStartsWithWord(xs);
    JoinEndsWithWord(xs);
  }

  /** A reply of exactly the answer's notes, none empty, grades as correct. */
  lemma GradeItself(c: seq<string>, user: Reply)
    requires forall k :: 0 <= k < |c| ==> c[k] != ""
    requires user == Typed(c)
    ensures Grade(Some(Tones(c)), user)
  {
    forall k | 0 <= k < |c| ensures NormalizeAll(c)[k] != "" {
      FlatToSharpTargets();
    }
    NonEmptyWords(NormalizeAll(c));
  }

  /** With the corrected submission, typing a key's signature exactly as the table lists it is graded correct. */
  lemma SignatureTypedAsWrittenFixed(i: int)
    requires 0 <= i < 10
    ensures Grade(Some(Tones(KeySignatures[KeyKeys[i]])), SubmitReplyFixed(Join(KeySignatures[KeyKeys[i]], " ")))
  {
    SignatureWords(i);
    TypedAsWrittenFixed(KeySignatures[KeyKeys[i]]);
  }

  /** Typing a list of names that survive upper-casing and restoring, as written, is graded correct. */
  lemma TypedAsWrittenFixed(sig: seq<string>)
    requires forall k :: 0 <= k < |sig| ==> IsWord(sig[k]) && IsWord(ToUpper(sig[k])) && RestoreFlat(ToUpper(sig[k])) == sig[k]
    ensures Grade(Some(Tones(sig)), SubmitReplyFixed(Join(sig, " ")))
  {
    if |sig| == 0 {
      EmptyFixedGraded();
    } else {
      TypedWordsFixed(sig);
    }
  }

  /** The non-empty case: the reply reads back as the signature itself, which grades as correct. */
  lemma TypedWordsFixed(sig: seq<string>)
    requires |sig| >= 1
    requires forall k :: 0 <= k < |sig| ==> IsWord(sig[k]) && IsWord(ToUpper(sig[k])) && RestoreFlat(ToUpper(sig[k])) == sig[k]
    ensures Grade(Some(Tones(sig)), SubmitReplyFixed(Join(sig, " ")))
  {
    WordsNonEmpty(sig);
    GradeItself(sig, Typed(sig));
    SubmitFixedJoin(sig);
  }

  lemma WordsNonEmpty(xs: seq<string>)
    requires forall k :: 0 <= k < |xs| ==> IsWord(xs[k])
    ensures forall k :: 0 <= k < |xs| ==> xs[k] != ""
  {
  }

  /** An empty submission is graded correct against an empty answer. */
  lemma EmptyFixedGraded()
    ensures Grade(Some(Tones([])), SubmitReplyFixed(Join([], " ")))
  {
    EmptyFixedSubmission();
    assert NonEmpty(NormalizeAll([""])) == [];
  }

  /** An empty submission reaches `checkAnswer` as one empty token. */
  lemma EmptyFixedSubmission()
    ensures SubmitReplyFixed("") == Typed([""])
  {
    assert ToUpper("") == "" && Trim("") == "" && Split("") == [""];
  }

  lemma {:induction false} JoinEndsWithWord(xs: seq<string>)
    requires |xs| >= 1 && forall k :: 0 <= k < |xs| ==> IsWord(xs[k])
    ensures var j := Join(xs, " "); j != [] && !IsSpace(j[|j| - 1])
    decreases |xs|
  {
    if |xs| > 1 {
      JoinEndsWithWord(xs[1..]);
      var t := Join(xs[1..], " ");
      assert Join(xs, " ") == xs[0] + " " + t;
    }
  }

  /** Filtering empty strings keeps a list with no empty string as it is. */
  lemma {:induction false} NonEmptyWords(xs: seq<string>)
    requires forall k :: 0 <= k < |xs| ==> xs[k] != ""
    ensures NonEmpty(xs) == xs
  {
    if xs != [] {
      NonEmptyWords(xs[1..]);
    }
  }
}
