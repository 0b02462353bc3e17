/**
 * The pieces of JavaScript's string and array library that the three scripts
 * lean on: `trim`, `toUpperCase`, `replace` with a one-character pattern,
 * `split(/\s+/)`, `join` and the comparator-less `Array.prototype.sort`.
 */
module Strings {

  /** The characters `String.prototype.trim` removes and the regular-expression class `\s` matches. */
  predicate IsSpace(c: char) {
    || c == '\t' || c == '\n' || c == '\U{000B}' || c == '\U{000C}' || c == '\r' || c == ' '
    || c == '\U{00A0}' || c == '\U{1680}' || ('\U{2000}' <= c <= '\U{200A}')
    || c == '\U{2028}' || c == '\U{2029}' || c == '\U{202F}' || c == '\U{205F}'
    || c == '\U{3000}' || c == '\U{FEFF}'
  }

  /** A non-empty string without whitespace: one token of `split(/\s+/)`. */
  predicate IsWord(w: string) {
    w != [] && forall i :: 0 <= i < |w| ==> !IsSpace(w[i])
  }

  /** `s.trimStart()`: the suffix left after the leading whitespace. */
  function TrimStart(s: string): (r: string)
    ensures |r| <= |s| && r == s[|s| - |r|..]
    ensures r == [] || !IsSpace(r[0])
    ensures forall i :: 0 <= i < |s| - |r| ==> IsSpace(s[i])
    ensures s != [] && IsSpace(s[0]) ==> |r| < |s|
    decreases |s|
  {
    if s != [] && IsSpace(s[0]) then TrimStart(s[1..]) else s
  }

  /** `s.trimEnd()`: the prefix left before the trailing whitespace. */
  function TrimEnd(s: string): (r: string)
    ensures |r| <= |s| && r == s[..|r|]
    ensures r == [] || !IsSpace(r[|r| - 1])
    ensures forall i :: |r| <= i < |s| ==> IsSpace(s[i])
    decreases |s|
  {
    if s != [] && IsSpace(s[|s| - 1]) then TrimEnd(s[..|s| - 1]) else s
  }

  /** `s.trim()`. */
  function Trim(s: string): (r: string)
    ensures |r| <= |s|
    ensures r == [] || (!IsSpace(r[0]) && !IsSpace(r[|r| - 1]))
    ensures (s == [] || (!IsSpace(s[0]) && !IsSpace(s[|s| - 1]))) ==> r == s
  {
    TrimEnd(TrimStart(s))
  }

  /** The upper case of a character, as far as the ASCII letters go. */
  function UpperChar(c: char): (u: char)
    ensures 'a' <= c <= 'z' ==> 'A' <= u <= 'Z' && u as int == c as int - 32
    ensures !('a' <= c <= 'z') ==> u == c
  {
    if 'a' <= c <= 'z' then (c as int - 32) as char else c
  }

  /** `s.toUpperCase()` on the ASCII letters; every other character is kept. */
  function ToUpper(s: string): (r: string)
    ensures |r| == |s| && forall i :: 0 <= i < |s| ==> r[i] == UpperChar(s[i])
  {
    seq(|s|, i requires 0 <= i < |s| => UpperChar(s[i]))
  }

  /** `s.replace(from, to)` with a one-character string pattern: only the first occurrence changes. */
  function ReplaceFirst(s: string, from: char, to: char): (r: string)
    ensures |r| == |s|
  {
    if s == [] then []
    else if s[0] == from then [to] + s[1..]
    else [s[0]] + ReplaceFirst(s[1..], from, to)
  }

  /** Only the first occurrence of `from` is replaced; the rest of the text is kept. */
  lemma {:induction false} ReplaceFirstAt(s: string, from: char, to: char, i: int)
    requires 0 <= i < |s|
    ensures ReplaceFirst(s, from, to)[i] == if s[i] == from && from !in s[..i] then to else s[i]
  {
    if s[0] != from && i > 0 {
      ReplaceFirstAt(s[1..], from, to, i - 1);
      assert s[1..][..i - 1] == s[1..i];
      assert s[..i] == [s[0]] + s[1..i];
    }
  }

  lemma {:induction false} ReplaceFirstAbsent(s: string, from: char, to: char)
    requires from !in s
    ensures ReplaceFirst(s, from, to) == s
  {
    if s != [] {
      assert from !in s[1..];
      ReplaceFirstAbsent(s[1..], from, to);
      assert s == [s[0]] + s[1..];
    }
  }

  /** `xs.join(sep)`. */
  function Join(xs: seq<string>, sep: string): string
  {
    if |xs| == 0 then "" else if |xs| == 1 then xs[0] else xs[0] + sep + Join(xs[1..], sep)
  }

  /** A joined list starts with its first element and, past it, the separator; one element joins to itself. */
  lemma JoinFirst(xs: seq<string>, sep: string)
    ensures |xs| == 0 ==> Join(xs, sep) == ""
    ensures |xs| == 1 ==> Join(xs, sep) == xs[0]
    ensures |xs| >= 2 ==> xs[0] + sep <= Join(xs, sep)
  {
  }

  /**
   * `s.split(/\s+/)`: the pieces between maximal runs of whitespace. Leading or
   * trailing whitespace yields an empty first or last piece, and the empty
   * string splits into `[""]`.
   */
  function Split(s: string): (r: seq<string>)
    ensures |r| >= 1
  {
    SplitFrom(s, "")
  }

  /** `Split`, with `cur` the piece collected so far. */
  function SplitFrom(s: string, cur: string): (r: seq<string>)
    ensures |r| >= 1
    decreases |s|
  {
    if s == [] then [cur]
    else if IsSpace(s[0]) then [cur] + SplitFrom(TrimStart(s), "")
    else SplitFrom(s[1..], cur + [s[0]])
  }

  lemma {:induction false} SplitFromWord(w: string, rest: string, cur: string)
    requires forall i :: 0 <= i < |w| ==> !IsSpace(w[i])
    ensures SplitFrom(w + rest, cur) == SplitFrom(rest, cur + w)
    decreases |w|
  {
    if w == [] {
      assert w + rest == rest;
      assert cur + w == cur;
    } else {
      assert (w + rest)[1..] == w[1..] + rest;
      assert cur + [w[0]] + w[1..] == cur + w;
      SplitFromWord(w[1..], rest, cur + [w[0]]);
    }
  }

  /** Splitting the text of words joined by single spaces gives the words back. */
  lemma {:induction false} SplitJoin(xs: seq<string>)
    requires |xs| >= 1
    requires forall k :: 0 <= k < |xs| ==> IsWord(xs[k])
    ensures Split(Join(xs, " ")) == xs
    decreases |xs|
  {
    if |xs| == 1 {
      SplitFromWord(xs[0], "", "");
      assert xs[0] + "" == xs[0];
      assert "" + xs[0] == xs[0];
    } else {
      var tail := Join(xs[1..], " ");
      JoinStartsWithWord(xs[1..]);
      assert Join(xs, " ") == xs[0] + (" " + tail);
      SplitFromWord(xs[0], " " + tail, "");
      assert "" + xs[0] == xs[0];
      assert TrimStart(" " + tail) == tail by {
        assert (" " + tail)[1..] == tail;
      }
      SplitJoin(xs[1..]);
      assert xs == [xs[0]] + xs[1..];
    }
  }

  lemma {:induction false} JoinStartsWithWord(xs: seq<string>)
    requires |xs| >= 1 && IsWord(xs[0])
    ensures Join(xs, " ") != [] && Join(xs, " ")[0] == xs[0][0]
  {
  }

  /**
   * `a <= b` character by character, a proper prefix first, comparing
   * characters by code point. `Array.prototype.sort` without a comparator
   * compares UTF-16 code units instead; the two orders agree below U+10000.
   */
  predicate CodeLe(a: string, b: string)
    decreases |a|
  {
    a == [] || (b != [] && (a[0] < b[0] || (a[0] == b[0] && CodeLe(a[1..], b[1..]))))
  }

  lemma {:induction false} CodeLeTotal(a: string, b: string)
    ensures CodeLe(a, b) || CodeLe(b, a)
    decreases |a|
  {
    if a != [] && b != [] && a[0] == b[0] {
      CodeLeTotal(a[1..], b[1..]);
    }
  }

  lemma {:induction false} CodeLeReflexive(a: string)
    ensures CodeLe(a, a)
    decreases |a|
  {
    if a != [] {
      CodeLeReflexive(a[1..]);
    }
  }

  lemma {:induction false} CodeLeAntisymmetric(a: string, b: string)
    requires CodeLe(a, b) && CodeLe(b, a)
    ensures a == b
    decreases |a|
  {
    if a != [] {
      CodeLeAntisymmetric(a[1..], b[1..]);
      assert a == [a[0]] + a[1..] && b == [b[0]] + b[1..];
    }
  }

  lemma {:induction false} CodeLeTransitive(a: string, b: string, c: string)
    requires CodeLe(a, b) && CodeLe(b, c)
    ensures CodeLe(a, c)
    decreases |a|
  {
    if a != [] && a[0] == b[0] && b[0] == c[0] {
      CodeLeTransitive(a[1..], b[1..], c[1..]);
    }
  }

  ghost predicate Sorted(s: seq<string>) {
    forall i, j :: 0 <= i < j < |s| ==> CodeLe(s[i], s[j])
  }

  function Insert(x: string, s: seq<string>): seq<string>
  {
    if s == [] then [x] else if CodeLe(x, s[0]) then [x] + s else [s[0]] + Insert(x, s[1..])
  }

  /** `xs.slice().sort()` on strings. */
  function Sort(xs: seq<string>): (r: seq<string>)
    ensures multiset(r) == multiset(xs)
  {
    if xs == [] then []
    else
      InsertPermutes(xs[0], Sort(xs[1..]));
      assert xs == [xs[0]] + xs[1..];
      Insert(xs[0], Sort(xs[1..]))
  }

  lemma {:induction false} InsertPermutes(x: string, s: seq<string>)
    ensures multiset(Insert(x, s)) == multiset(s) + multiset{x}
  {
    if s != [] && !CodeLe(x, s[0]) {
      InsertPermutes(x, s[1..]);
      assert s == [s[0]] + s[1..];
    }
  }

  lemma {:induction false} InsertSorted(x: string, s: seq<string>)
    requires Sorted(s)
    ensures Sorted(Insert(x, s))
  {
    if s == [] {
    } else if CodeLe(x, s[0]) {
      SortedCons(x, s);
    } else {
      CodeLeTotal(x, s[0]);
      InsertSorted(x, s[1..]);
      InsertPermutes(x, s[1..]);
      SortedBelowInsert(x, s, Insert(x, s[1..]));
    }
  }

  /** An element no larger than the head of a sorted list can go in front. */
  lemma SortedCons(x: string, s: seq<string>)
    requires Sorted(s) && s != [] && CodeLe(x, s[0])
    ensures Sorted([x] + s)
  {
    var r := [x] + s;
    forall i, j | 0 <= i < j < |r| ensures CodeLe(r[i], r[j]) {
      if i == 0 && j > 1 {
        CodeLeTransitive(x, s[0], s[j - 1]);
      }
    }
  }

  /** The head of a sorted list can go in front of the rest with `x` inserted. */
  lemma SortedBelowInsert(x: string, s: seq<string>, t: seq<string>)
    requires Sorted(s) && s != [] && CodeLe(s[0], x)
    requires Sorted(t) && multiset(t) == multiset(s[1..]) + multiset{x}
    ensures Sorted([s[0]] + t)
  {
    var r := [s[0]] + t;
    forall i, j | 0 <= i < j < |r| ensures CodeLe(r[i], r[j]) {
      if i == 0 {
        var y := t[j - 1];
        assert y in multiset(t);
        if y != x {
          assert y in multiset(s[1..]);
          var k :| 0 <= k < |s[1..]| && s[1..][k] == y;
          assert s[k + 1] == y;
        }
      }
    }
  }

  lemma {:induction false} SortSorted(xs: seq<string>)
    ensures Sorted(Sort(xs))
  {
    if xs != [] {
      SortSorted(xs[1..]);
      InsertSorted(xs[0], Sort(xs[1..]));
    }
  }

  /** The first element of a sorted sequence is below every element. */
  lemma HeadIsLeast(s: seq<string>, z: string)
    requires Sorted(s) && z in multiset(s)
    ensures CodeLe(s[0], z)
  {
    var i :| 0 <= i < |s| && s[i] == z;
    if i == 0 { CodeLeReflexive(z); }
  }

  lemma SortedTail(s: seq<string>)
    requires Sorted(s) && s != []
    ensures Sorted(s[1..])
  {
    forall i, j | 0 <= i < j < |s| - 1 ensures CodeLe(s[1..][i], s[1..][j]) {
      assert s[1..][i] == s[i + 1] && s[1..][j] == s[j + 1];
    }
  }

  /** Two sorted sequences with the same elements, counted with repetition, are equal. */
  lemma {:induction false} SortedUnique(a: seq<string>, b: seq<string>)
    requires Sorted(a) && Sorted(b) && multiset(a) == multiset(b)
    ensures a == b
    decreases |a|
  {
    if a == [] {
      assert |multiset(b)| == 0;
    } else {
      assert b != [] by { assert |multiset(b)| == |a|; }
      var x, y := a[0], b[0];
      assert multiset(a) == multiset{x} + multiset(a[1..]) by { assert a == [x] + a[1..]; }
      assert multiset(b) == multiset{y} + multiset(b[1..]) by { assert b == [y] + b[1..]; }
      HeadIsLeast(a, y);
      HeadIsLeast(b, x);
      CodeLeAntisymmetric(x, y);
      assert multiset(a[1..]) == multiset(b[1..]) by {
        assert multiset(a[1..]) == multiset(a) - multiset{x};
        assert multiset(b[1..]) == multiset(b) - multiset{x};
      }
      SortedTail(a);
      SortedTail(b);
      SortedUnique(a[1..], b[1..]);
      assert a == [x] + a[1..] && b == [y] + b[1..];
    }
  }

  /** Sorting both sides and comparing is comparing multisets: order is ignored, repetitions are not. */
  lemma SortEqualIffSameMultiset(a: seq<string>, b: seq<string>)
    ensures Sort(a) == Sort(b) <==> multiset(a) == multiset(b)
  {
    if multiset(a) == multiset(b) {
      SortSorted(a);
      SortSorted(b);
      SortedUnique(Sort(a), Sort(b));
    }
  }

  /** No element occurs twice. */
  predicate Distinct<T(==)>(s: seq<T>) {
    forall i, j :: 0 <= i < j < |s| ==> s[i] != s[j]
  }

  lemma {:induction false} DistinctCard<T>(s: seq<T>)
    requires Distinct(s)
    ensures |set x | x in s| == |s|
  {
    if s != [] {
      DistinctCard(s[1..]);
      var rest := set x | x in s[1..];
      assert (set x | x in s) == {s[0]} + rest;
      assert s[0] !in rest;
    }
  }

  lemma {:induction false} SubsetCard<T>(a: set<T>, b: set<T>)
    requires a <= b
    ensures |a| <= |b|
    decreases |a|
  {
    if a != {} {
      var x :| x in a;
      SubsetCard(a - {x}, b - {x});
    }
  }
}
