/**
 * Pitch classes as the scripts handle them: positions 0..11 in a table of
 * twelve names, the five flat aliases, and the `formula.map(...)` builder that
 * turns a root and a list of semitone offsets into note names.
 */
module Pitch {
  import opened Wrappers
  import opened Strings

  /** `chromaticSharp` in js/guitar.js and `chromatic` in js/quiz.js: one table under two names. */
  const Chromatic: seq<string> := ["C", "C#", "D", "D#", "E", "F", "F#", "G", "G#", "A", "A#", "B"]

  /** `enharmonicToSharp` in js/guitar.js and `enharmonicMap` in js/quiz.js. */
  const FlatToSharp: map<string, string> :=
    map["Db" := "C#", "Eb" := "D#", "Gb" := "F#", "Ab" := "G#", "Bb" := "A#"]

  /** JavaScript's `%` on integers: the remainder takes the sign of the dividend. */
  function JsRem(a: int, n: int): (r: int)
    requires n > 0
    ensures -n < r < n
    ensures a >= 0 ==> r == a % n
    ensures a < 0 ==> r <= 0
  {
    if a >= 0 then a % n else -((-a) % n)
  }

  /** `xs.indexOf(x)`: the first position holding `x`, or -1. */
  function IndexOf<T(==)>(xs: seq<T>, x: T): (r: int)
    ensures -1 <= r < |xs|
    ensures 0 <= r ==> xs[r] == x
  {
    if xs == [] then -1
    else if xs[0] == x then 0
    else
      var k := IndexOf(xs[1..], x);
      if k == -1 then -1 else k + 1
  }

  /** -1 exactly when `x` is absent; otherwise no earlier position holds `x`. */
  lemma {:induction false} IndexOfFirst<T>(xs: seq<T>, x: T)
    ensures IndexOf(xs, x) == -1 <==> x !in xs
    ensures 0 <= IndexOf(xs, x) ==> x !in xs[..IndexOf(xs, x)]
  {
    if xs != [] && xs[0] != x {
      IndexOfFirst(xs[1..], x);
      var k := IndexOf(xs[1..], x);
      assert 0 <= k ==> xs[..k + 1] == [xs[0]] + xs[1..][..k];
      assert x in xs <==> x in xs[1..] by {
        assert xs == [xs[0]] + xs[1..];
      }
    }
  }

  /** In a table without repetitions, `indexOf` finds each entry at its own position. */
  lemma IndexOfDistinct<T>(xs: seq<T>, i: int)
    requires Distinct(xs) && 0 <= i < |xs|
    ensures IndexOf(xs, xs[i]) == i
  {
    IndexOfFirst(xs, xs[i]);
  }

  /** `chromaticSharp.indexOf(n)`: the position of a name in the sharp table, or -1. */
  function ChromaticIndexOf(n: string): int {
    IndexOf(Chromatic, n)
  }

  /**
   * `chromaticSharp[(index + semis) % 12]`: JavaScript's remainder keeps the
   * sign, so a negative sum reads `undefined`.
   */
  function ChromaticStep(index: int, semis: int): Option<string>
  {
    var k := JsRem(index + semis, 12);
    if 0 <= k then Some(Chromatic[k]) else None
  }

  /** From a non-negative sum the read wraps at the octave and always finds a name. */
  lemma ChromaticStepWraps(index: int, semis: int)
    requires 0 <= index + semis
    ensures ChromaticStep(index, semis) == Some(Chromatic[(index + semis) % 12])
    ensures ChromaticStep(index, semis + 12) == ChromaticStep(index, semis)
  {
    ModOctave(index + semis);
  }

  /** A name of the table is found, at a position that holds it. */
  lemma ChromaticIndexOfFound(n: string)
    requires n in Chromatic
    ensures 0 <= ChromaticIndexOf(n) < 12 && Chromatic[ChromaticIndexOf(n)] == n
  {
    IndexOfFirst(Chromatic, n);
  }

  /** A name that is found is a name of the table. */
  lemma ChromaticIndexOfAbsentConverse(n: string)
    requires ChromaticIndexOf(n) != -1
    ensures n in Chromatic
  {
    IndexOfFirst(Chromatic, n);
  }

  /** A name outside the table is not found. */
  lemma ChromaticIndexOfAbsent(n: string)
    requires n !in Chromatic
    ensures ChromaticIndexOf(n) == -1
  {
    IndexOfFirst(Chromatic, n);
  }

  /** Each name of the table is found at its own position. */
  lemma ChromaticIndexOfAt(i: int)
    requires 0 <= i < 12
    ensures ChromaticIndexOf(Chromatic[i]) == i
  {
    ChromaticDistinct();
    IndexOfDistinct(Chromatic, i);
  }

  /** Two positions of the table hold the same name only if they are the same position. */
  lemma ChromaticInjective(i: int, j: int)
    requires 0 <= i < 12 && 0 <= j < 12
    ensures Chromatic[i] == Chromatic[j] <==> i == j
  {
    ChromaticDistinct();
    if i < j {
      assert Chromatic[i] != Chromatic[j];
    } else if j < i {
      assert Chromatic[j] != Chromatic[i];
    }
  }

  lemma ChromaticDistinct()
    ensures Distinct(Chromatic)
  {
  }

  /** A letter A–G, alone or followed by '#'. */
  predicate SharpSpelling(n: string) {
    1 <= |n| <= 2 && 'A' <= n[0] <= 'G' && (|n| == 2 ==> n[1] == '#')
  }

  /** Every chromatic name is spelled with a letter and at most a sharp. */
  lemma ChromaticShape(n: string)
    requires n in Chromatic
    ensures SharpSpelling(n)
  {
    var i :| 0 <= i < 12 && Chromatic[i] == n;
    if i == 0 {} else if i == 1 {} else if i == 2 {} else if i == 3 {} else if i == 4 {} else if i == 5 {}
    else if i == 6 {} else if i == 7 {} else if i == 8 {} else if i == 9 {} else if i == 10 {} else {}
  }

  /** The five aliases are not chromatic names, and each stands for a chromatic name that is no alias. */
  lemma FlatToSharpTargets()
    ensures forall f :: f in FlatToSharp ==> f !in Chromatic && FlatToSharp[f] in Chromatic
    ensures forall n :: n in Chromatic ==> n !in FlatToSharp
  {
    assert FlatToSharp.Keys == {"Db", "Eb", "Gb", "Ab", "Bb"};
    forall n | n in Chromatic ensures n !in FlatToSharp {
      var i :| 0 <= i < 12 && Chromatic[i] == n;
    }
  }

  /** A formula whose offsets name different pitch classes: no two offsets are equal modulo 12. */
  predicate DistinctModOctave(formula: seq<int>) {
    forall i, j :: 0 <= i < j < |formula| ==> formula[i] % 12 != formula[j] % 12
  }

  predicate NonNegative(formula: seq<int>) {
    forall k :: 0 <= k < |formula| ==> 0 <= formula[k]
  }

  /** Offsets that start at the root, climb strictly and stay inside one octave. */
  predicate ScaleShape(f: seq<int>) {
    && f != [] && f[0] == 0 && f[|f| - 1] < 12
    && forall k :: 0 <= k < |f| - 1 ==> f[k] < f[k + 1]
  }

  lemma {:induction false} ScaleShapeOffsets(f: seq<int>)
    requires ScaleShape(f)
    ensures NonNegative(f) && DistinctModOctave(f)
    ensures forall k :: 0 <= k < |f| ==> 0 <= f[k] < 12
  {
    assert forall i, j :: 0 <= i < j < |f| ==> f[i] < f[j] by {
      forall i, j | 0 <= i < j < |f| ensures f[i] < f[j] {
        AscendingStep(f, i, j);
      }
    }
    assert forall k :: 0 <= k < |f| ==> 0 <= f[k] < 12 by {
      forall k | 0 <= k < |f| ensures 0 <= f[k] < 12 {
        if k > 0 { AscendingStep(f, 0, k); }
        if k < |f| - 1 { AscendingStep(f, k, |f| - 1); }
      }
    }
  }

  /** One offset of a formula that climbs inside the octave lies in 0..11. */
  lemma ScaleShapeAt(f: seq<int>, k: int)
    requires ScaleShape(f) && 0 <= k < |f|
    ensures 0 <= f[k] < 12
  {
    if k > 0 { AscendingStep(f, 0, k); }
    if k < |f| - 1 { AscendingStep(f, k, |f| - 1); }
  }

  lemma {:induction false} AscendingStep(f: seq<int>, i: int, j: int)
    requires forall k :: 0 <= k < |f| - 1 ==> f[k] < f[k + 1]
    requires 0 <= i < j < |f|
    ensures f[i] < f[j]
    decreases j - i
  {
    if j > i + 1 {
      AscendingStep(f, i, j - 1);
    }
  }

  /** `formula.map(i => table[(rootIndex + i) % 12])`. */
  function Spell(table: seq<string>, rootIndex: int, formula: seq<int>): (r: seq<string>)
    requires |table| == 12 && 0 <= rootIndex && NonNegative(formula)
    ensures |r| == |formula|
  {
    seq(|formula|, k requires 0 <= k < |formula| => table[(rootIndex + formula[k]) % 12])
  }

  /** Every spelled note is an entry of the table, sitting `formula[k]` semitones above the root's entry. */
  lemma SpellInTable(table: seq<string>, rootIndex: int, formula: seq<int>, k: int)
    requires |table| == 12 && 0 <= rootIndex && NonNegative(formula) && 0 <= k < |formula|
    ensures Spell(table, rootIndex, formula)[k] in table
    ensures Spell(table, rootIndex, formula)[k] == table[(rootIndex + formula[k]) % 12]
  {
  }

  /** Entry by entry: the `k`-th spelled name is `formula[k]` places past the root, wrapping at twelve. */
  lemma SpellEntries(r: seq<string>, table: seq<string>, rootIndex: int, formula: seq<int>)
    requires |table| == 12 && 0 <= rootIndex && NonNegative(formula)
    requires r == Spell(table, rootIndex, formula)
    ensures forall k :: 0 <= k < |formula| ==> r[k] == table[(rootIndex + formula[k]) % 12]
  {
    forall k | 0 <= k < |formula|
      ensures r[k] == table[(rootIndex + formula[k]) % 12]
    {
      SpellInTable(table, rootIndex, formula, k);
    }
  }

  /** A formula starting at offset 0 spells the root first. */
  lemma SpellRootFirst(table: seq<string>, rootIndex: int, formula: seq<int>)
    requires |table| == 12 && 0 <= rootIndex < 12 && NonNegative(formula)
    requires formula != [] && formula[0] == 0
    ensures Spell(table, rootIndex, formula)[0] == table[rootIndex]
  {
  }

  /** Distinct offsets modulo 12 over a table without repetitions spell distinct names. */
  lemma SpellDistinct(table: seq<string>, rootIndex: int, formula: seq<int>)
    requires |table| == 12 && Distinct(table) && 0 <= rootIndex && NonNegative(formula)
    requires DistinctModOctave(formula)
    ensures Distinct(Spell(table, rootIndex, formula))
  {
    var r := Spell(table, rootIndex, formula);
    forall i, j | 0 <= i < j < |r| ensures r[i] != r[j] {
      var a, b := (rootIndex + formula[i]) % 12, (rootIndex + formula[j]) % 12;
      ModShift(rootIndex, formula[i], formula[j]);
    }
  }

  /**
   * Spelled over a table without repetitions from a root position, a formula
   * that starts at 0 and names no pitch class twice gives the root first,
   * no name twice, and at place `k` the entry `formula[k]` positions above
   * the root, wrapping at the octave.
   */
  lemma SpellSpec(table: seq<string>, rootIndex: int, formula: seq<int>)
    requires |table| == 12 && Distinct(table) && 0 <= rootIndex < 12
    requires formula != [] && formula[0] == 0 && NonNegative(formula) && DistinctModOctave(formula)
    ensures var r := Spell(table, rootIndex, formula);
      && r[0] == table[rootIndex]
      && Distinct(r)
      && forall k :: 0 <= k < |r| ==> r[k] in table && IndexOf(table, r[k]) == (rootIndex + formula[k]) % 12
  {
    SpellRootFirst(table, rootIndex, formula);
    SpellDistinct(table, rootIndex, formula);
    var r := Spell(table, rootIndex, formula);
    forall k | 0 <= k < |r|
      ensures r[k] in table && IndexOf(table, r[k]) == (rootIndex + formula[k]) % 12
    {
      SpellInTable(table, rootIndex, formula, k);
      IndexOfDistinct(table, (rootIndex + formula[k]) % 12);
    }
  }

  /** `SpellSpec` by position: the `k`-th name is the table entry `formula[k]` places above the root's. */
  lemma SpellAt(table: seq<string>, rootIndex: int, formula: seq<int>)
    requires |table| == 12 && Distinct(table) && 0 <= rootIndex < 12
    requires formula != [] && formula[0] == 0 && NonNegative(formula) && DistinctModOctave(formula)
    ensures var r := Spell(table, rootIndex, formula);
      && r[0] == table[rootIndex]
      && Distinct(r)
      && forall k :: 0 <= k < |r| ==> r[k] == table[(rootIndex + formula[k]) % 12]
  {
    SpellRootFirst(table, rootIndex, formula);
    SpellDistinct(table, rootIndex, formula);
  }

  /** Adding an octave leaves the pitch class alone. */
  lemma ModOctave(a: int)
    ensures (a + 12) % 12 == a % 12
  {
  }

  /** Within one octave, the step from pitch class `t` up to pitch class `a` is unique. */
  lemma OctaveStepUnique(t: int, a: int, f: int)
    requires 0 <= t < 12 && 0 <= a < 12 && 0 <= f < 12 && (t + f) % 12 == a
    ensures f == (a - t + 12) % 12
  {
    if t + f < 12 {
      assert a == t + f;
      assert (a - t + 12) % 12 == (f + 12) % 12;
    } else {
      assert a == t + f - 12;
    }
  }

  lemma ModShift(r: int, x: int, y: int)
    requires 0 <= r && 0 <= x && 0 <= y && x % 12 != y % 12
    ensures (r + x) % 12 != (r + y) % 12
  {
  }
}
