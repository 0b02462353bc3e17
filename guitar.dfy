/**
 * js/guitar.js: the random chord-name drill, the strumming pattern, the note
 * parser behind the fretboard's note filter, fret transposition, scale
 * membership and the fretboard's filter state.
 */
module Guitar {
  import opened Wrappers
  import opened Strings
  import opened Pitch

  // ---------------------------------------------------------------------------
  // Random chord names: one per chord type, in shuffled order

  /** `roots`: display names of the twelve roots, flats paired with sharps. */
  const Roots: seq<string> :=
    ["C", "C#/Db", "D", "D#/Eb", "E", "F", "F#/Gb", "G", "G#/Ab", "A", "A#/Bb", "B"]

  /** `types`: the chord qualities the drill draws from. */
  const Types: seq<string> :=
    ["M", "m", "7", "M7", "m7", "sus4", "7sus4", "dim7", "m7(b5)", "6", "m6", "mM7", "7(#5)", "M7(#5)"]

  function Swap(s: seq<string>, i: int, j: int): (r: seq<string>)
    requires 0 <= i < |s| && 0 <= j < |s|
    ensures |r| == |s|
  {
    s[i := s[j]][j := s[i]]
  }

  lemma SwapPermutes(s: seq<string>, i: int, j: int)
    requires 0 <= i < |s| && 0 <= j < |s|
    ensures multiset(Swap(s, i, j)) == multiset(s)
  {
    if i != j {
      var t := s[i := s[j]];
      assert multiset(t) == multiset(s) - multiset{s[i]} + multiset{s[j]};
      assert t[j] == s[j];
      assert multiset(t[j := s[i]]) == multiset(t) - multiset{s[j]} + multiset{s[i]};
    } else {
      assert Swap(s, i, j) == s;
    }
  }

  lemma SwapDistinct(s: seq<string>, i: int, j: int)
    requires 0 <= i < |s| && 0 <= j < |s| && Distinct(s)
    ensures Distinct(Swap(s, i, j))
  {
    var r := Swap(s, i, j);
    forall a, b | 0 <= a < b < |r| ensures r[a] != r[b] {
      var a' := if a == i then j else if a == j then i else a;
      var b' := if b == i then j else if b == j then i else b;
      assert r[a] == s[a'] && r[b] == s[b'] && a' != b';
    }
  }

  /**
   * The draws of the Fisher–Yates loop: `draws[k]` is the `j` picked when the
   * loop counter is `i == n - 1 - k`, so `0 <= j <= i`.
   */
  predicate SwapDraws(n: int, draws: seq<int>) {
    n >= 1 && |draws| == n - 1 && forall k :: 0 <= k < |draws| ==> 0 <= draws[k] <= n - 1 - k
  }

  /** The order the swap loop leaves once it has run from counter `i` down to 1. */
  function ShuffleDown(s: seq<string>, draws: seq<int>, i: int): (r: seq<string>)
    requires SwapDraws(|s|, draws) && 0 <= i < |s|
    ensures |r| == |s|
    decreases i
  {
    if i == 0 then s else ShuffleDown(Swap(s, i, draws[|s| - 1 - i]), draws, i - 1)
  }

  lemma {:induction false} ShuffleDownPermutes(s: seq<string>, draws: seq<int>, i: int)
    requires SwapDraws(|s|, draws) && 0 <= i < |s|
    ensures multiset(ShuffleDown(s, draws, i)) == multiset(s)
    ensures Distinct(s) ==> Distinct(ShuffleDown(s, draws, i))
    decreases i
  {
    if i > 0 {
      var j := draws[|s| - 1 - i];
      SwapPermutes(s, i, j);
      if Distinct(s) { SwapDistinct(s, i, j); }
      ShuffleDownPermutes(Swap(s, i, j), draws, i - 1);
    }
  }

  /** The chord label the drill shows for the `k`-th shuffled type. */
  function CodeLabel(shuffled: seq<string>, rootDraws: seq<int>, k: int): string
    requires 0 <= k < |shuffled| && k < |rootDraws| && 0 <= rootDraws[k] < |Roots|
  {
    Roots[rootDraws[k]] + shuffled[k]
  }

  lemma TypesDistinct()
    ensures Distinct(Types)
  {
  }

  /** The swap loop of `generateCodeSet`, run in place on the copy of `types`. */
  method ShuffleInPlace(a: array<string>, swapDraws: seq<int>)
    requires SwapDraws(a.Length, swapDraws)
    modifies a
    ensures a[..] == ShuffleDown(old(a[..]), swapDraws, a.Length - 1)
  {
    ghost var target := ShuffleDown(a[..], swapDraws, a.Length - 1);
    var i := a.Length - 1;
    while i > 0
      invariant 0 <= i < a.Length
      invariant ShuffleDown(a[..], swapDraws, i) == target
    {
      var j := swapDraws[a.Length - 1 - i];
      ghost var before := a[..];
      a[i], a[j] := a[j], a[i];
      assert a[..] == Swap(before, i, j);
      i := i - 1;
    }
  }

  /**
   * `generateCodeSet`: shuffle a copy of `types` in place, then prefix each
   * type with a randomly drawn root. Every type appears exactly once.
   */
  method GenerateCodeSet(swapDraws: seq<int>, rootDraws: seq<int>) returns (result: seq<string>)
    requires SwapDraws(|Types|, swapDraws)
    requires |rootDraws| == |Types| && forall k :: 0 <= k < |rootDraws| ==> 0 <= rootDraws[k] < |Roots|
    ensures |result| == |Types|
    ensures forall k :: 0 <= k < |result| ==>
      result[k] == CodeLabel(ShuffleDown(Types, swapDraws, |Types| - 1), rootDraws, k)
    ensures multiset(ShuffleDown(Types, swapDraws, |Types| - 1)) == multiset(Types)
    ensures Distinct(ShuffleDown(Types, swapDraws, |Types| - 1))
  {
    var a := new string[|Types|](k requires 0 <= k < |Types| => Types[k]);
    assert a[..] == Types;
    ShuffleInPlace(a, swapDraws);
    ghost var shuffled := a[..];
    result := [];
    var k := 0;
    while k < a.Length
      invariant 0 <= k <= a.Length && |result| == k
      invariant forall m :: 0 <= m < k ==> result[m] == CodeLabel(shuffled, rootDraws, m)
    {
      result := result + [Roots[rootDraws[k]] + a[k]];
      k := k + 1;
    }
    TypesDistinct();
    ShuffleDownPermutes(Types, swapDraws, |Types| - 1);
  }

  // ---------------------------------------------------------------------------
  // Strumming pattern

  /** `positions`: the sixteenth-note counts of one bar. */
  const Positions: seq<string> := ["1", "e", "&", "a", "2", "e", "&", "a", "3", "e", "&", "a", "4", "e", "&", "a"]

  /** The mark of one sixteenth: a rest, an up-stroke on "e" and "a", a down-stroke otherwise. */
  function StrokeMark(position: string, rest: bool): char
  {
    if rest then '-' else if position == "e" || position == "a" then '\U{2191}' else '\U{2193}'
  }

  /**
   * `generateStroke`: the count line and the stroke line, each mark followed by
   * a space; `rests[k]` is the draw `Math.random() < 0.35` for position `k`.
   */
  method GenerateStroke(rests: seq<bool>) returns (counts: string, strokes: string)
    requires |rests| == |Positions|
    ensures |counts| == 2 * |Positions| && |strokes| == 2 * |Positions|
    ensures forall k :: 0 <= k < |Positions| ==>
      counts[2 * k] == Positions[k][0] && counts[2 * k + 1] == ' ' &&
      strokes[2 * k] == StrokeMark(Positions[k], rests[k]) && strokes[2 * k + 1] == ' '
    ensures forall k :: 0 <= k < |Positions| ==>
      (strokes[2 * k] == '-' <==> rests[k]) &&
      (strokes[2 * k] == '\U{2191}' <==> !rests[k] && k % 2 == 1)
  {
    counts, strokes := "", "";
    var k := 0;
    while k < |Positions|
      invariant 0 <= k <= |Positions|
      invariant |counts| == 2 * k && |strokes| == 2 * k
      invariant forall m :: 0 <= m < k ==>
        counts[2 * m] == Positions[m][0] && counts[2 * m + 1] == ' ' &&
        strokes[2 * m] == StrokeMark(Positions[m], rests[m]) && strokes[2 * m + 1] == ' '
    {
      var p := Positions[k];
      counts := counts + p + " ";
      strokes := strokes + [StrokeMark(p, rests[k]), ' '];
      k := k + 1;
    }
    forall k | 0 <= k < |Positions|
      ensures strokes[2 * k] == '\U{2191}' <==> !rests[k] && k % 2 == 1
    {
      assert Positions[k] == "e" || Positions[k] == "a" <==> k % 2 == 1;
    }
  }

  // ---------------------------------------------------------------------------
  // Note parsing

  /** What the note filter tests: the input trimmed, upper-cased, its first ♯ made '#' and its first ♭ made 'B'. */
  function Prepare(raw: string): (r: string)
    ensures |r| == |Trim(raw)|
  {
    ReplaceFirst(ReplaceFirst(ToUpper(Trim(raw)), '\U{266F}', '#'), '\U{266D}', 'B')
  }

  predicate IsNoteLetter(c: char) {
    'A' <= c <= 'G'
  }

  /** The pattern `^([A-G])([#B])?$`. */
  predicate MatchesNotePattern(s: string) {
    || (|s| == 1 && IsNoteLetter(s[0]))
    || (|s| == 2 && IsNoteLetter(s[0]) && (s[1] == '#' || s[1] == 'B'))
  }

  /** The flat table knows D, E, G, A and B flat; it has no C-flat and no F-flat. */
  lemma FlatKeys(c: char)
    requires IsNoteLetter(c)
    ensures [c, 'b'] in FlatToSharp <==> c != 'C' && c != 'F'
    ensures [c, 'b'] in FlatToSharp ==> SharpSpelling(FlatToSharp[[c, 'b']]) && FlatToSharp[[c, 'b']] != "B"
  {
    assert FlatToSharp.Keys == {"Db", "Eb", "Gb", "Ab", "Bb"};
    if c == 'C' { assert [c, 'b'] == "Cb"; }
    else if c == 'D' { assert [c, 'b'] == "Db"; }
    else if c == 'E' { assert [c, 'b'] == "Eb"; }
    else if c == 'F' { assert [c, 'b'] == "Fb"; }
    else if c == 'G' { assert [c, 'b'] == "Gb"; }
    else if c == 'A' { assert [c, 'b'] == "Ab"; }
    else { assert [c, 'b'] == "Bb"; }
  }

  /**
   * The last steps of `normalizeNoteInput`, on a prepared text that matched the
   * pattern: the flat test is "ends with B", which also catches the bare letter
   * B; flats go through the flat table, where Cb and Fb have no entry. What
   * comes out is a letter with at most a sharp, which takes in E# and B#.
   */
  function SpellingOf(s: string): (r: Option<string>)
    requires MatchesNotePattern(s)
    ensures r.None? <==> s == "CB" || s == "FB"
    ensures r.Some? ==> SharpSpelling(r.value) && r.value != "B"
  {
    var note := if s[|s| - 1] == 'B' then [s[0], 'b'] else s;
    if |note| == 2 && note[1] == 'b' then
      var flat := [note[0], 'b'];
      FlatKeys(note[0]);
      assert s == "CB" <==> note[0] == 'C' && |s| == 2;
      assert s == "FB" <==> note[0] == 'F' && |s| == 2;
      if flat in FlatToSharp then Some(FlatToSharp[flat]) else None
    else if |note| == 2 && note[1] == '#' then
      Some(note)
    else if |note| == 1 then
      Some(note)
    else None
  }

  /**
   * `normalizeNoteInput`: a letter A–G with an optional sharp or flat, in any
   * case, to its sharp spelling; `None` for the empty input, for anything that
   * does not match the pattern, and for Cb and Fb.
   */
  function NormalizeNoteInput(raw: string): (r: Option<string>)
    ensures r.None? <==>
      raw == "" || !MatchesNotePattern(Prepare(raw)) || Prepare(raw) == "CB" || Prepare(raw) == "FB"
    ensures r.Some? ==> SharpSpelling(r.value) && r.value != "B"
  {
    if raw == "" then None
    else
      var s := Prepare(raw);
      if !MatchesNotePattern(s) then None else SpellingOf(s)
  }

  /** The spellings the parser can return are the twelve chromatic names and the two extra sharps E# and B#. */
  lemma SharpSpellingChromatic(n: string)
    ensures SharpSpelling(n) <==> n in Chromatic || n == "E#" || n == "B#"
  {
    if n in Chromatic {
      ChromaticShape(n);
    }
    if SharpSpelling(n) {
      var c := n[0];
      if |n| == 1 {
        assert n == [c];
        if c == 'A' { assert n == Chromatic[9]; }
        else if c == 'B' { assert n == Chromatic[11]; }
        else if c == 'C' { assert n == Chromatic[0]; }
        else if c == 'D' { assert n == Chromatic[2]; }
        else if c == 'E' { assert n == Chromatic[4]; }
        else if c == 'F' { assert n == Chromatic[5]; }
        else { assert n == Chromatic[7]; }
      } else {
        assert n == [c, '#'];
        if c == 'A' { assert n == Chromatic[10]; }
        else if c == 'C' { assert n == Chromatic[1]; }
        else if c == 'D' { assert n == Chromatic[3]; }
        else if c == 'F' { assert n == Chromatic[6]; }
        else if c == 'G' { assert n == Chromatic[8]; }
      }
    }
  }

  /** Db, Eb, Gb, Ab and Bb, whatever their case or flat sign, come out sharp. */
  lemma NoteInputFlats(raw: string, letter: char)
    requires letter in "DEGAB" && Prepare(raw) == [letter, 'B']
    ensures raw != "" && NormalizeNoteInput(raw) == Some(FlatToSharp[[letter, 'b']])
  {
    assert [letter, 'b'] in FlatToSharp;
  }

  /** A sharp spelling, E# and B# included, comes back as typed (upper-cased and trimmed). */
  lemma NoteInputSharps(raw: string)
    requires |Prepare(raw)| == 2 && IsNoteLetter(Prepare(raw)[0]) && Prepare(raw)[1] == '#'
    ensures raw != "" && NormalizeNoteInput(raw) == Some(Prepare(raw))
  {
  }

  /** A letter other than B comes back as itself; the bare B is read as B-flat. */
  lemma NoteInputLetters(raw: string)
    requires |Prepare(raw)| == 1 && IsNoteLetter(Prepare(raw)[0])
    ensures raw != ""
    ensures Prepare(raw) != "B" ==> NormalizeNoteInput(raw) == Some(Prepare(raw))
    ensures Prepare(raw) == "B" ==> NormalizeNoteInput(raw) == Some("A#")
  {
  }

  /** A letter, in either case, followed by the sign ♭ is prepared to the upper-case letter and 'B': "e♭" to "EB". */
  lemma PrepareFlatSign(raw: string)
    requires |raw| == 2 && IsNoteLetter(UpperChar(raw[0])) && raw[1] == '\U{266D}'
    ensures Prepare(raw) == [UpperChar(raw[0]), 'B']
  {
    LetterNotBlank(raw[0]);
    assert Trim(raw) == raw;
    var u := ToUpper(raw);
    assert u == [UpperChar(raw[0]), '\U{266D}'];
    assert '\U{266F}' !in u;
    ReplaceFirstAbsent(u, '\U{266F}', '#');
    FlatSignReplaced(u);
  }

  /** The sign ♭ after a letter is replaced by 'B'. */
  lemma FlatSignReplaced(u: string)
    requires |u| == 2 && IsNoteLetter(u[0]) && u[1] == '\U{266D}'
    ensures ReplaceFirst(u, '\U{266D}', 'B') == [u[0], 'B']
  {
    assert u[1..][1..] == [];
  }

  /** A single letter, in either case, is prepared to its upper case: "b" to "B". */
  lemma PrepareLetter(raw: string)
    requires |raw| == 1 && IsNoteLetter(UpperChar(raw[0]))
    ensures Prepare(raw) == [UpperChar(raw[0])]
  {
    var u := [UpperChar(raw[0])];
    PrepareUpper(raw, u);
    PrepareFrom(raw, u);
  }

  /** Once trimmed and upper-cased, a text without the signs ♯ and ♭ is prepared as it is. */
  lemma PrepareFrom(raw: string, u: string)
    requires ToUpper(Trim(raw)) == u && '\U{266F}' !in u && '\U{266D}' !in u
    ensures Prepare(raw) == u
  {
    ReplaceFirstAbsent(u, '\U{266F}', '#');
    ReplaceFirstAbsent(u, '\U{266D}', 'B');
  }

  /** A text that starts with a letter and ends without a blank is upper-cased as it is; nothing is trimmed. */
  lemma PrepareUpper(raw: string, u: string)
    requires 1 <= |raw| <= 2 && IsNoteLetter(UpperChar(raw[0])) && !IsSpace(raw[|raw| - 1])
    requires |u| == |raw| && forall k :: 0 <= k < |raw| ==> u[k] == UpperChar(raw[k])
    ensures ToUpper(Trim(raw)) == u
  {
    LetterNotBlank(raw[0]);
    assert Trim(raw) == raw;
  }

  /** A character whose upper case is a note letter is an ASCII letter, so no blank. */
  lemma LetterNotBlank(c: char)
    requires IsNoteLetter(UpperChar(c))
    ensures !IsSpace(c)
  {
    if !('a' <= c <= 'z') {
      assert c == UpperChar(c);
    }
  }

  /** Blanks around the input do not matter: preparing the trimmed text gives the same result. */
  lemma PrepareIgnoresBlanks(raw: string)
    ensures Prepare(raw) == Prepare(Trim(raw))
  {
    var t := Trim(raw);
    assert t == [] || (!IsSpace(t[0]) && !IsSpace(t[|t| - 1]));
    assert Trim(t) == t;
  }

  /** A letter with at most a sharp survives trimming, upper-casing and the sign replacements unchanged. */
  lemma PrepareSharpSpelling(n: string)
    requires SharpSpelling(n)
    ensures Prepare(n) == n
  {
    assert TrimStart(n) == n && TrimEnd(n) == n;
    var u := ToUpper(Trim(n));
    assert u == n;
    assert '\U{266F}' !in n && '\U{266D}' !in n;
    ReplaceFirstAbsent(u, '\U{266F}', '#');
    ReplaceFirstAbsent(u, '\U{266D}', 'B');
  }

  /** Typed back, a letter with at most a sharp is accepted unchanged, except B, which comes back as A#. */
  lemma NormalizeNoteInputSharpSpelling(n: string)
    requires SharpSpelling(n)
    ensures n != "B" ==> NormalizeNoteInput(n) == Some(n)
    ensures n == "B" ==> NormalizeNoteInput(n) == Some("A#")
  {
    assert n != "" && MatchesNotePattern(n);
    if n == "B" {
      assert [n[0], 'b'] == "Bb";
      assert SpellingOf(n) == Some("A#");
    } else {
      assert |n| == 1 ==> n == [n[0]];
      assert n[|n| - 1] != 'B';
      assert SpellingOf(n) == Some(n);
    }
    PrepareSharpSpelling(n);
  }

  /** Every chromatic name but B is accepted as itself; B is read as B-flat. */
  lemma NormalizeNoteInputChromatic(n: string)
    requires n in Chromatic
    ensures n != "B" ==> NormalizeNoteInput(n) == Some(n)
    ensures n == "B" ==> NormalizeNoteInput(n) == Some("A#")
  {
    ChromaticShape(n);
    NormalizeNoteInputSharpSpelling(n);
  }

  /** As the parser evidently intends: 'B' is a flat sign only in second place. */
  function SpellingFixed(s: string): (r: Option<string>)
    requires MatchesNotePattern(s)
    ensures r.None? <==> s == "CB" || s == "FB"
    ensures r.Some? ==> SharpSpelling(r.value)
  {
    if |s| == 2 && s[1] == 'B' then
      var flat := [s[0], 'b'];
      FlatKeys(s[0]);
      assert s == "CB" <==> s[0] == 'C';
      assert s == "FB" <==> s[0] == 'F';
      if flat in FlatToSharp then Some(FlatToSharp[flat]) else None
    else
      Some(s)
  }

  /** The note parser with the flat test on the second character only. */
  function NormalizeNoteInputFixed(raw: string): (r: Option<string>)
    ensures r.None? <==>
      raw == "" || !MatchesNotePattern(Prepare(raw)) || Prepare(raw) == "CB" || Prepare(raw) == "FB"
    ensures r.Some? ==> SharpSpelling(r.value)
  {
    if raw == "" then None
    else
      var s := Prepare(raw);
      if !MatchesNotePattern(s) then None else SpellingFixed(s)
  }

  /** Every chromatic name, B included, is accepted as itself. */
  lemma NormalizeNoteInputFixedChromatic(n: string)
    requires n in Chromatic
    ensures NormalizeNoteInputFixed(n) == Some(n)
  {
    ChromaticShape(n);
    NormalizeNoteInputFixedSharpSpelling(n);
  }

  lemma NormalizeNoteInputFixedSharpSpelling(n: string)
    requires SharpSpelling(n)
    ensures NormalizeNoteInputFixed(n) == Some(n)
  {
    assert n != "" && MatchesNotePattern(n);
    assert SpellingFixed(n) == Some(n);
    PrepareSharpSpelling(n);
  }

  /** A letter and a 'b', each in either case, come out of the preparation as the upper-case letter and 'B': "Cb" and "cb" as "CB". */
  lemma PrepareFlatSpelling(f: string)
    requires |f| == 2 && IsNoteLetter(UpperChar(f[0])) && (f[1] == 'b' || f[1] == 'B')
    ensures Prepare(f) == [UpperChar(f[0]), 'B']
  {
    LetterNotBlank(f[0]);
    PrepareTwo(f);
  }

  /** Two characters, neither blank nor a sign once upper-cased, are prepared to their upper cases. */
  lemma PrepareTwo(raw: string)
    requires |raw| == 2 && !IsSpace(raw[0]) && !IsSpace(raw[1])
    requires UpperChar(raw[0]) < '\U{266D}' && UpperChar(raw[1]) < '\U{266D}'
    ensures Prepare(raw) == [UpperChar(raw[0]), UpperChar(raw[1])]
  {
    assert Trim(raw) == raw;
    var u := ToUpper(raw);
    assert u == [UpperChar(raw[0]), UpperChar(raw[1])];
    ReplaceFirstAbsent(u, '\U{266F}', '#');
    ReplaceFirstAbsent(u, '\U{266D}', 'B');
  }

  /** Every flat alias, written with a lower-case b, is accepted as its sharp. */
  lemma NormalizeNoteInputFixedFlats(f: string)
    requires f in FlatToSharp
    ensures NormalizeNoteInputFixed(f) == Some(FlatToSharp[f])
  {
    var u := [f[0], 'B'];
    assert MatchesNotePattern(u) && SpellingFixed(u) == Some(FlatToSharp[f]) by {
      FlatAliasShape(f);
      assert [u[0], 'b'] == f;
    }
    assert Prepare(f) == u by {
      FlatAliasShape(f);
      assert UpperChar(f[0]) == f[0];
      PrepareFlatSpelling(f);
    }
    NormalizeNoteInputFixedPrepared(f, u);
  }

  /** A flat alias is an upper-case letter followed by 'b'. */
  lemma FlatAliasShape(f: string)
    requires f in FlatToSharp
    ensures |f| == 2 && IsNoteLetter(f[0]) && f[1] == 'b'
  {
    assert FlatToSharp.Keys == {"Db", "Eb", "Gb", "Ab", "Bb"};
  }

  /** Once the preparation of a non-empty input matches the pattern, the fixed parser reads the prepared text. */
  lemma NormalizeNoteInputFixedPrepared(raw: string, s: string)
    requires raw != "" && Prepare(raw) == s && MatchesNotePattern(s)
    ensures NormalizeNoteInputFixed(raw) == SpellingFixed(s)
  {
  }

  // ---------------------------------------------------------------------------
  // Frets and scales

  /** `noteAt`: the note `fret` semitones above the open string; `None` where the index misses the table. */
  function NoteAt(open: string, fret: int): (r: Option<string>)
    ensures r.Some? ==> r.value in Chromatic
    ensures 0 <= ChromaticIndexOf(open) + fret ==> r.Some?
  {
    ChromaticStep(ChromaticIndexOf(open), fret)
  }

  /** Whatever `noteAt` returns is a chromatic name. */
  lemma NoteAtChromatic(open: string, fret: int)
    ensures NoteAt(open, fret).Some? ==> NoteAt(open, fret).value in Chromatic
  {
  }

  /** On the string tuned to `Chromatic[i]`, fret `f` sounds the name `f` semitones up the table. */
  lemma NoteAtTransposes(i: int, fret: int)
    requires 0 <= i < 12 && 0 <= fret
    ensures NoteAt(Chromatic[i], fret) == Some(Chromatic[(i + fret) % 12])
  {
    ChromaticIndexOfAt(i);
    ChromaticStepWraps(i, fret);
  }

  /** The open string and the twelfth fret sound the open note. */
  lemma NoteAtOctave(i: int)
    requires 0 <= i < 12
    ensures NoteAt(Chromatic[i], 0) == Some(Chromatic[i]) && NoteAt(Chromatic[i], 12) == Some(Chromatic[i])
  {
    assert (i + 0) % 12 == i;
    NoteAtTransposes(i, 0);
    ChromaticIndexOfAt(i);
    ChromaticStepWraps(i, 0);
  }

  /** Twelve frets up, the same note, wherever the table index plus the fret is non-negative. */
  lemma NoteAtPeriodic(open: string, fret: int)
    requires 0 <= ChromaticIndexOf(open) + fret
    ensures NoteAt(open, fret + 12) == NoteAt(open, fret)
  {
    ChromaticStepWraps(ChromaticIndexOf(open), fret);
  }

  /** A name `indexOf` does not find (any name outside the table, by `ChromaticIndexOfAbsent`): the open string has no note... */
  lemma NoteAtUnknownOpen(open: string)
    requires ChromaticIndexOf(open) == -1
    ensures NoteAt(open, 0) == None
  {
    assert ChromaticStep(-1, 0) == None;
  }

  /** ...and fret `f` reads the table one place low, so the twelfth fret says B while the open string says nothing. */
  lemma NoteAtUnknownFret(open: string, fret: int)
    requires ChromaticIndexOf(open) == -1 && 1 <= fret
    ensures NoteAt(open, fret) == Some(Chromatic[(fret - 1) % 12])
    ensures NoteAt(open, 12) == Some("B")
  {
    ChromaticStepWraps(-1, fret);
    ChromaticStepWraps(-1, 12);
  }

  /** `scaleFormulas` of the fretboard page. */
  const ScaleFormulas: map<string, seq<int>> := map[
    "Major" := [0, 2, 4, 5, 7, 9, 11],
    "Natural Minor" := [0, 2, 3, 5, 7, 8, 10],
    "Major Pentatonic" := [0, 2, 4, 7, 9],
    "Minor Pentatonic" := [0, 3, 5, 7, 10],
    "Blues" := [0, 3, 5, 6, 7, 10],
    "Dorian" := [0, 2, 3, 5, 7, 9, 10],
    "Phrygian" := [0, 1, 3, 5, 7, 8, 10],
    "Lydian" := [0, 2, 4, 6, 7, 9, 11],
    "Mixolydian" := [0, 2, 4, 5, 7, 9, 10],
    "Locrian" := [0, 1, 3, 5, 6, 8, 10]
  ]

  lemma ScaleFormulasShape()
    ensures forall name :: name in ScaleFormulas ==> ScaleShape(ScaleFormulas[name])
  {
  }

  /** The formula of a listed scale: starts at the root, offsets in one octave, no two alike. */
  lemma ScaleFormulaOf(name: string)
    requires name in ScaleFormulas
    ensures ScaleShape(ScaleFormulas[name]) && NonNegative(ScaleFormulas[name])
    ensures DistinctModOctave(ScaleFormulas[name])
  {
    ScaleFormulasShape();
    ScaleShapeOffsets(ScaleFormulas[name]);
  }

  /** The notes a scale filter highlights: the formula spelled from the root, as a set. */
  function ScaleNoteSet(root: string, name: string): (r: set<string>)
    requires root in Chromatic && name in ScaleFormulas
    ensures root in r
    ensures forall n :: n in r ==> n in Chromatic
  {
    ScaleFormulaOf(name);
    ChromaticIndexOfFound(root);
    var spelled := Spell(Chromatic, ChromaticIndexOf(root), ScaleFormulas[name]);
    SpellRootFirst(Chromatic, ChromaticIndexOf(root), ScaleFormulas[name]);
    SpellAllInTable(ChromaticIndexOf(root), ScaleFormulas[name]);
    set n | n in spelled
  }

  /** Every name spelled from a chromatic root is a chromatic name. */
  lemma SpellAllInTable(rootIdx: int, formula: seq<int>)
    requires 0 <= rootIdx < 12 && NonNegative(formula)
    ensures forall n :: n in Spell(Chromatic, rootIdx, formula) ==> n in Chromatic
  {
    var spelled := Spell(Chromatic, rootIdx, formula);
    forall n | n in spelled ensures n in Chromatic {
      var j :| 0 <= j < |spelled| && spelled[j] == n;
      SpellInTable(Chromatic, rootIdx, formula, j);
    }
  }

  /** The set holds the root, only chromatic names, and one name per offset of the formula. */
  lemma ScaleNoteSetShape(root: string, name: string)
    requires root in Chromatic && name in ScaleFormulas
    ensures root in ScaleNoteSet(root, name)
    ensures forall n :: n in ScaleNoteSet(root, name) ==> n in Chromatic
    ensures |ScaleNoteSet(root, name)| == |ScaleFormulas[name]|
  {
    var formula := ScaleFormulas[name];
    var rootIdx := ChromaticIndexOf(root);
    ScaleFormulaOf(name);
    ChromaticIndexOfFound(root);
    var spelled := Spell(Chromatic, rootIdx, formula);
    ChromaticDistinct();
    SpellDistinct(Chromatic, rootIdx, formula);
    DistinctCard(spelled);
    SpellRootFirst(Chromatic, rootIdx, formula);
    forall n | n in ScaleNoteSet(root, name) ensures n in Chromatic {
      var j :| 0 <= j < |spelled| && spelled[j] == n;
      SpellInTable(Chromatic, rootIdx, formula, j);
    }
  }

  /** `buildScaleSet`: add the note of every offset to a set. */
  method BuildScaleSet(root: string, name: string) returns (notes: set<string>)
    requires root in Chromatic && name in ScaleFormulas
    ensures notes == ScaleNoteSet(root, name)
  {
    var rootIdx := ChromaticIndexOf(root);
    ScaleFormulaOf(name);
    ChromaticIndexOfFound(root);
    notes := AddSteps(rootIdx, ScaleFormulas[name]);
  }

  /** The `forEach` of `buildScaleSet`: one set insertion per offset. */
  method AddSteps(rootIdx: int, formula: seq<int>) returns (notes: set<string>)
    requires 0 <= rootIdx && NonNegative(formula)
    ensures notes == set n | n in Spell(Chromatic, rootIdx, formula)
  {
    ghost var spelled := Spell(Chromatic, rootIdx, formula);
    notes := {};
    var k := 0;
    while k < |formula|
      invariant 0 <= k <= |formula|
      invariant forall n :: n in notes <==> n in spelled[..k]
    {
      assert spelled[..k + 1] == spelled[..k] + [spelled[k]];
      notes := notes + {Chromatic[(rootIdx + formula[k]) % 12]};
      k := k + 1;
    }
    assert spelled[..k] == spelled;
  }

  /** Each chromatic name turns up exactly once among frets 0–11 of a string tuned to a chromatic name. */
  lemma NoteAtFindsEachNoteOnce(t: int, a: int)
    requires 0 <= t < 12 && 0 <= a < 12
    ensures NoteAt(Chromatic[t], (a - t + 12) % 12) == Some(Chromatic[a])
    ensures forall f :: 0 <= f < 12 && NoteAt(Chromatic[t], f) == Some(Chromatic[a]) ==> f == (a - t + 12) % 12
  {
    var g := (a - t + 12) % 12;
    assert (t + g) % 12 == a;
    NoteAtTransposes(t, g);
    forall f | 0 <= f < 12 && NoteAt(Chromatic[t], f) == Some(Chromatic[a])
      ensures f == g
    {
      NoteAtTransposes(t, f);
      ChromaticInjective((t + f) % 12, a);
      OctaveStepUnique(t, a, f);
    }
  }

  // ---------------------------------------------------------------------------
  // The fretboard and its filter

  /** `tuning`: the open note of strings 1 (high E) to 6 (low E). */
  const Tuning: seq<string> := ["E", "B", "G", "D", "A", "E"]

  /** The position of each open string in the chromatic table. */
  const TuningPitch: seq<int> := [4, 11, 7, 2, 9, 4]

  const MaxFret := 12

  lemma TuningChromatic(r: int)
    requires 0 <= r < |Tuning|
    ensures 0 <= TuningPitch[r] < 12 && Tuning[r] == Chromatic[TuningPitch[r]]
  {
  }

  /** `sharpToPair`: the label a fret cell shows for a sharp name. */
  const SharpToPair: map<string, string> := map[
    "C" := "C", "C#" := "C#/Db", "D" := "D", "D#" := "D#/Eb", "E" := "E", "F" := "F",
    "F#" := "F#/Gb", "G" := "G", "G#" := "G#/Ab", "A" := "A", "A#" := "A#/Bb", "B" := "B"
  ]

  /** `activeFilterMode`: "all", "note" or "scale". */
  datatype FilterMode = All | NoteMode | ScaleMode

  /** The class a fret cell's note gets: none, `hl` or `dim`. */
  datatype Shade = Plain | Highlighted | Dimmed

  /** One fret cell: the sharp name, the caption shown, and its shade. */
  datatype Cell = Cell(note: Option<string>, caption: Option<string>, shade: Shade)

  /** The per-cell rule of `renderFretboard`. */
  function CellShade(mode: FilterMode, activeNote: Option<string>, activeScaleSet: Option<set<string>>,
                     note: Option<string>): Shade
  {
    match mode
    case All => Plain
    case NoteMode => if note == activeNote then Highlighted else Dimmed
    case ScaleMode =>
      if activeScaleSet.Some? && note.Some? && note.value in activeScaleSet.value then Highlighted else Dimmed
  }

  /** The cell of the string with open note `open` at fret `f`. */
  function CellAt(mode: FilterMode, activeNote: Option<string>, activeScaleSet: Option<set<string>>,
                  open: string, f: int): (r: Cell)
    ensures r.note == NoteAt(open, f)
    ensures r.caption.Some? <==> r.note.Some?
    ensures r.shade == Plain <==> mode == All
  {
    var note := NoteAt(open, f);
    assert SharpToPair.Keys == set n | n in Chromatic;
    var caption := if note.Some? && note.value in SharpToPair then Some(SharpToPair[note.value]) else None;
    Cell(note, caption, CellShade(mode, activeNote, activeScaleSet, note))
  }

  /**
   * In note mode a cell on a string tuned to `Chromatic[t]` (every string of
   * `Tuning`, by `TuningChromatic`) is highlighted exactly at the frets that
   * sound the active note, and dimmed everywhere else.
   */
  lemma NoteModeHighlight(t: int, a: int, f: int)
    requires 0 <= t < 12 && 0 <= a < 12 && 0 <= f
    ensures var c := CellAt(NoteMode, Some(Chromatic[a]), None, Chromatic[t], f);
      (c.shade == Highlighted <==> (t + f) % 12 == a) &&
      (c.shade != Highlighted ==> c.shade == Dimmed)
  {
    NoteAtTransposes(t, f);
    ChromaticInjective((t + f) % 12, a);
  }

  /** In scale mode a cell is highlighted exactly when the scale holds its note, and dimmed otherwise. */
  lemma ScaleModeHighlight(t: int, notes: set<string>, f: int)
    requires 0 <= t < 12 && 0 <= f
    ensures var c := CellAt(ScaleMode, None, Some(notes), Chromatic[t], f);
      (c.shade == Highlighted <==> Chromatic[(t + f) % 12] in notes) &&
      (c.shade != Highlighted ==> c.shade == Dimmed)
  {
    NoteAtTransposes(t, f);
  }

  /** With no filter every cell is plain, and its caption is the sharp/flat pair of its note. */
  lemma AllModePlain(t: int, f: int)
    requires 0 <= t < 12 && 0 <= f
    ensures var c := CellAt(All, None, None, Chromatic[t], f);
      c.shade == Plain && c.note.Some? && c.note.value in SharpToPair && c.caption == Some(SharpToPair[c.note.value])
  {
    NoteAtTransposes(t, f);
    var k := (t + f) % 12;
    assert Chromatic[k] in SharpToPair by {
      assert SharpToPair.Keys == set n | n in Chromatic;
    }
  }

  /** The fret of the string tuned to `Chromatic[t]`, among the first twelve, that sounds `Chromatic[a]`. */
  function FretOf(t: int, a: int): int {
    (a - t + 12) % 12
  }

  /**
   * A grid drawn in note mode shows the chosen note on every string, at the
   * one fret among the first twelve that sounds it.
   */
  lemma NoteShownOnEveryString(grid: seq<seq<Cell>>, a: int)
    requires 0 <= a < 12 && |grid| == |Tuning|
    requires forall r :: 0 <= r < |Tuning| ==> |grid[r]| == MaxFret + 1
    requires forall r, f :: 0 <= r < |Tuning| && 0 <= f <= MaxFret ==>
      grid[r][f] == CellAt(NoteMode, Some(Chromatic[a]), None, Tuning[r], f)
    ensures forall r :: 0 <= r < |Tuning| ==> grid[r][FretOf(TuningPitch[r], a)].shade == Highlighted
  {
    forall r | 0 <= r < |Tuning|
      ensures grid[r][FretOf(TuningPitch[r], a)].shade == Highlighted
    {
      TuningChromatic(r);
      var t := TuningPitch[r];
      var f := FretOf(t, a);
      assert (t + f) % 12 == a;
      NoteModeHighlight(t, a, f);
    }
  }

  /** The fretboard's filter state: `activeFilterMode`, `activeNote`, `activeScaleSet`. */
  class Fretboard {
    var mode: FilterMode
    var activeNote: Option<string>
    var activeScaleSet: Option<set<string>>

    /** Each mode carries exactly its own datum: a chromatic note, or a set of chromatic notes. */
    ghost predicate Valid()
      reads this
    {
      && (mode == All ==> activeNote == None && activeScaleSet == None)
      && (mode == NoteMode ==> activeNote.Some? && activeNote.value in Chromatic && activeScaleSet == None)
      && (mode == ScaleMode ==>
            activeNote == None && activeScaleSet.Some? && forall n :: n in activeScaleSet.value ==> n in Chromatic)
    }

    constructor()
      ensures Valid() && mode == All
    {
      mode := All;
      activeNote := None;
      activeScaleSet := None;
    }

    /** `showAllFretboard` (and `resetFretboardFilter`): back to ("all", null, null). */
    method ShowAll()
      modifies this
      ensures mode == All && activeNote == None && activeScaleSet == None
      ensures Valid()
    {
      mode := All;
      activeNote := None;
      activeScaleSet := None;
    }

    /**
     * `applySingleNoteFilter` as written: note mode on the parsed note when it
     * is one of the twelve names; otherwise (nothing parsed, Cb, Fb, E#, B#)
     * the state stays as it was. A typed B parses as A#, so A# is highlighted.
     */
    method ApplySingleNoteFilter(raw: string) returns (accepted: bool)
      modifies this
      ensures accepted <==> NormalizeNoteInput(raw).Some? && NormalizeNoteInput(raw).value in Chromatic
      ensures accepted ==> mode == NoteMode && activeNote == NormalizeNoteInput(raw) && activeScaleSet == None
      ensures !accepted ==> mode == old(mode) && activeNote == old(activeNote) && activeScaleSet == old(activeScaleSet)
      ensures Prepare(raw) == "B" ==> accepted && mode == NoteMode && activeNote == Some("A#")
      ensures old(Valid()) ==> Valid()
    {
      var n := NormalizeNoteInput(raw);
      if Prepare(raw) == "B" {
        NoteInputLetters(raw);
        assert Chromatic[10] == "A#";
      }
      accepted := SetNote(n);
    }

    /**
     * `applySingleNoteFilter` over the corrected parser: a typed B highlights B.
     */
    method ApplySingleNoteFilterFixed(raw: string) returns (accepted: bool)
      modifies this
      ensures accepted <==> NormalizeNoteInputFixed(raw).Some? && NormalizeNoteInputFixed(raw).value in Chromatic
      ensures accepted ==> mode == NoteMode && activeNote == NormalizeNoteInputFixed(raw) && activeScaleSet == None
      ensures !accepted ==> mode == old(mode) && activeNote == old(activeNote) && activeScaleSet == old(activeScaleSet)
      ensures old(Valid()) ==> Valid()
    {
      accepted := SetNote(NormalizeNoteInputFixed(raw));
    }

    /** The state change after parsing: note mode when `indexOf` finds the note, nothing otherwise. */
    method SetNote(n: Option<string>) returns (accepted: bool)
      modifies this
      ensures accepted <==> n.Some? && n.value in Chromatic
      ensures accepted ==> mode == NoteMode && activeNote == n && activeScaleSet == None
      ensures !accepted ==> mode == old(mode) && activeNote == old(activeNote) && activeScaleSet == old(activeScaleSet)
      ensures old(Valid()) ==> Valid()
    {
      if n.None? {
        return false;
      }
      if ChromaticIndexOf(n.value) == -1 {
        if n.value in Chromatic {
          ChromaticIndexOfFound(n.value);
        }
        return false;
      }
      ChromaticIndexOfAbsentConverse(n.value);
      mode := NoteMode;
      activeNote := n;
      activeScaleSet := None;
      accepted := true;
    }

    /** `applyScaleFilter`: scale mode on the set of the chosen root and scale. */
    method ApplyScaleFilter(root: string, name: string)
      requires root in Chromatic && name in ScaleFormulas
      modifies this
      ensures mode == ScaleMode && activeNote == None && activeScaleSet == Some(ScaleNoteSet(root, name))
      ensures Valid()
    {
      var notes := BuildScaleSet(root, name);
      ScaleNoteSetShape(root, name);
      mode := ScaleMode;
      activeNote := None;
      activeScaleSet := Some(notes);
    }

    /** The note cells of `renderFretboard`, row by row: six strings, frets 0 to 12. */
    method Render() returns (grid: seq<seq<Cell>>)
      requires Valid()
      ensures |grid| == |Tuning|
      ensures forall r :: 0 <= r < |Tuning| ==> |grid[r]| == MaxFret + 1
      ensures forall r, f :: 0 <= r < |Tuning| && 0 <= f <= MaxFret ==>
        grid[r][f] == CellAt(mode, activeNote, activeScaleSet, Tuning[r], f)
      ensures mode == NoteMode ==> forall r :: 0 <= r < |Tuning| ==>
        grid[r][FretOf(TuningPitch[r], ChromaticIndexOf(activeNote.value))].shade == Highlighted
    {
      var m, n, s := mode, activeNote, activeScaleSet;
      grid := RenderRows((open, f) => CellAt(m, n, s, open, f), Tuning);
      if m == NoteMode {
        ChromaticIndexOfFound(n.value);
        NoteShownOnEveryString(grid, ChromaticIndexOf(n.value));
      }
    }
  }

  /** The outer loop of `renderFretboard`: one row per open string; `cell` is the rule for one cell. */
  method RenderRows(cell: (string, int) -> Cell, opens: seq<string>) returns (grid: seq<seq<Cell>>)
    ensures |grid| == |opens|
    ensures forall r :: 0 <= r < |opens| ==> |grid[r]| == MaxFret + 1
    ensures forall r, f :: 0 <= r < |opens| && 0 <= f <= MaxFret ==> grid[r][f] == cell(opens[r], f)
  {
    grid := [];
    var r := 0;
    while r < |opens|
      invariant 0 <= r <= |opens| && |grid| == r
      invariant forall i :: 0 <= i < r ==> |grid[i]| == MaxFret + 1
      invariant forall i, f :: 0 <= i < r && 0 <= f <= MaxFret ==> grid[i][f] == cell(opens[i], f)
    {
      var row := RenderRow(cell, opens[r]);
      grid := grid + [row];
      r := r + 1;
    }
  }

  /** The inner loop of `renderFretboard`: the cells of frets 0 to `maxFret` of one string. */
  method RenderRow(cell: (string, int) -> Cell, open: string) returns (row: seq<Cell>)
    ensures |row| == MaxFret + 1
    ensures forall f :: 0 <= f <= MaxFret ==> row[f] == cell(open, f)
  {
    row := [];
    var f := 0;
    while f <= MaxFret
      invariant 0 <= f <= MaxFret + 1 && |row| == f
      invariant forall g :: 0 <= g < f ==> row[g] == cell(open, g)
    {
      row := row + [cell(open, f)];
      f := f + 1;
    }
  }
}
