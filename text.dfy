/** String operations of the .NET base library that the model relies on:
    `String.Split(char)`, `String.Join`, ordinal `Contains`, `StartsWith` and
    `EndsWith`, and the first-occurrence de-duplication of LINQ `Distinct`. */
module Text {

  predicate Distinct<T(==)>(xs: seq<T>) {
    forall i, j :: 0 <= i < j < |xs| ==> xs[i] != xs[j]
  }

  /** `s.Split(sep)`: the pieces between the occurrences of `sep`, always at
      least one, none of them containing `sep`. */
  function Split(s: string, sep: char): (parts: seq<string>)
    ensures |parts| >= 1
    ensures forall i :: 0 <= i < |parts| ==> sep !in parts[i]
    decreases |s|
  {
    if s == [] then [""]
    else
      var rest := Split(s[1..], sep);
      if s[0] == sep then [""] + rest
      else [[s[0]] + rest[0]] + rest[1..]
  }

  /** `String.Join(sep, parts)`. */
  function Join(parts: seq<string>, sep: char): string
    requires |parts| >= 1
  {
    if |parts| == 1 then parts[0] else parts[0] + [sep] + Join(parts[1..], sep)
  }

  /** Joining the pieces of a split gives back the original string. */
  lemma {:induction false} JoinSplit(s: string, sep: char)
    ensures Join(Split(s, sep), sep) == s
    decreases |s|
  {
    if s != [] {
      var rest := Split(s[1..], sep);
      JoinSplit(s[1..], sep);
      if s[0] == sep {
        assert ([""] + rest)[1..] == rest;
      } else {
        var parts := [[s[0]] + rest[0]] + rest[1..];
        assert parts[1..] == rest[1..];
        if |rest| > 1 {
          assert rest[1..] == Split(s[1..], sep)[1..];
        }
      }
    }
  }

  /** A string without the separator splits into itself alone. */
  lemma {:induction false} SplitPlain(a: string, sep: char)
    requires sep !in a
    ensures Split(a, sep) == [a]
    decreases |a|
  {
    if a != [] {
      SplitPlain(a[1..], sep);
      assert [a[0]] + a[1..] == a;
    }
  }

  /** Splitting distributes over a separator between two strings. */
  lemma {:induction false} SplitAppend(a: string, b: string, sep: char)
    ensures Split(a + [sep] + b, sep) == Split(a, sep) + Split(b, sep)
    decreases |a|
  {
    var s := a + [sep] + b;
    if a == [] {
      assert s[1..] == b;
    } else {
      assert s[0] == a[0];
      assert s[1..] == a[1..] + [sep] + b;
      SplitAppend(a[1..], b, sep);
    }
  }

  /** A string holding the separator splits into at least two pieces. */
  lemma {:induction false} SplitAtSeparator(s: string, sep: char)
    requires sep in s
    ensures |Split(s, sep)| >= 2
    decreases |s|
  {
    if s[0] != sep {
      assert s == [s[0]] + s[1..];
      SplitAtSeparator(s[1..], sep);
    }
  }

  /** Splitting a join of separator-free pieces gives back the pieces. */
  lemma {:induction false} SplitJoin(parts: seq<string>, sep: char)
    requires |parts| >= 1
    requires forall i :: 0 <= i < |parts| ==> sep !in parts[i]
    ensures Split(Join(parts, sep), sep) == parts
    decreases |parts|
  {
    SplitPlain(parts[0], sep);
    if |parts| > 1 {
      SplitJoin(parts[1..], sep);
      SplitAppend(parts[0], Join(parts[1..], sep), sep);
      assert [parts[0]] + parts[1..] == parts;
    }
  }

  /** `sub` occurs in `s` starting at index `i`. */
  predicate OccursAt(s: string, sub: string, i: int) {
    0 <= i && i + |sub| <= |s| && s[i..i + |sub|] == sub
  }

  /** Ordinal `s.Contains(sub)`. */
  predicate Contains(s: string, sub: string) {
    exists i | 0 <= i <= |s| :: OccursAt(s, sub, i)
  }

  /** Ordinal `s.StartsWith(prefix)`. */
  predicate StartsWith(s: string, prefix: string) {
    |prefix| <= |s| && s[..|prefix|] == prefix
  }

  /** Ordinal `s.EndsWith(suffix)`. */
  predicate EndsWith(s: string, suffix: string) {
    |suffix| <= |s| && s[|s| - |suffix|..] == suffix
  }

  /** A suffix, and any string itself, occurs in the string. */
  lemma EndsWithContains(s: string, x: string)
    ensures EndsWith(s, x) ==> Contains(s, x)
    ensures Contains(s, s) && EndsWith(s, s) && StartsWith(s, s)
  {
    assert OccursAt(s, s, 0);
    if EndsWith(s, x) {
      assert OccursAt(s, x, |s| - |x|);
    }
  }

  // ---------------------------------------------------------------------
  // Regrouping of concatenations, stated once for every element type.

  lemma AppendNothing<T>(xs: seq<T>)
    ensures xs + [] == xs
  {
  }

  lemma NothingBefore<T>(xs: seq<T>)
    ensures [] + xs == xs
  {
  }

  lemma AppendAssoc<T>(a: seq<T>, b: seq<T>, c: seq<T>)
    ensures a + b + c == a + (b + c)
  {
  }

  lemma AppendAssocFour<T>(a: seq<T>, b: seq<T>, c: seq<T>, d: seq<T>)
    ensures a + b + c + d == a + (b + c + d)
  {
  }

  /** LINQ `Distinct()`: the first occurrence of every element, in order. */
  function Dedup(xs: seq<string>): (r: seq<string>)
    ensures forall x :: x in r <==> x in xs
    ensures Distinct(r)
    ensures |r| <= |xs|
  {
    if xs == [] then []
    else
      var d := Dedup(xs[..|xs| - 1]);
      if xs[|xs| - 1] in d then d else d + [xs[|xs| - 1]]
  }

  /** The position of the first occurrence of `x` in `xs`. */
  function FirstIndex(xs: seq<string>, x: string): (i: nat)
    requires x in xs
    ensures i < |xs| && xs[i] == x
    ensures forall u :: 0 <= u < i ==> xs[u] != x
  {
    if xs[0] == x then 0 else 1 + FirstIndex(xs[1..], x)
  }

  /** An occurrence with none before it is the first occurrence. */
  lemma FirstIndexUnique(xs: seq<string>, x: string, i: nat)
    requires i < |xs| && xs[i] == x
    requires forall u :: 0 <= u < i ==> xs[u] != x
    ensures FirstIndex(xs, x) == i
  {
  }

  /** `Dedup` lists the elements in the order of their first occurrences:
      together with its own contract, it is the subsequence of `xs` made of
      first occurrences. */
  lemma {:induction false} DedupFirstOrder(xs: seq<string>)
    ensures forall a, b :: 0 <= a < b < |Dedup(xs)| ==> FirstIndex(xs, Dedup(xs)[a]) < FirstIndex(xs, Dedup(xs)[b])
  {
    if xs != [] {
      var init := xs[..|xs| - 1];
      var y := xs[|xs| - 1];
      var d := Dedup(init);
      DedupFirstOrder(init);
      forall x | x in init ensures FirstIndex(xs, x) == FirstIndex(init, x) {
        var k := FirstIndex(init, x);
        assert forall u :: 0 <= u < k ==> xs[u] == init[u];
        FirstIndexUnique(xs, x, k);
      }
      if y !in d {
        assert forall u :: 0 <= u < |init| ==> xs[u] == init[u];
        FirstIndexUnique(xs, y, |init|);
        assert Dedup(xs) == d + [y];
        forall a, b | 0 <= a < b < |Dedup(xs)| ensures FirstIndex(xs, Dedup(xs)[a]) < FirstIndex(xs, Dedup(xs)[b]) {
          assert Dedup(xs)[a] == d[a] && d[a] in init;
          if b < |d| {
            assert Dedup(xs)[b] == d[b] && d[b] in init;
          }
        }
      } else {
        forall a, b | 0 <= a < b < |Dedup(xs)| ensures FirstIndex(xs, Dedup(xs)[a]) < FirstIndex(xs, Dedup(xs)[b]) {
          assert d[a] in init && d[b] in init;
        }
      }
    }
  }

  /** De-duplicating a sequence without repetitions changes nothing. */
  lemma {:induction false} DedupOfDistinct(xs: seq<string>)
    requires Distinct(xs)
    ensures Dedup(xs) == xs
  {
    if xs != [] {
      var init := xs[..|xs| - 1];
      DedupOfDistinct(init);
      assert init + [xs[|xs| - 1]] == xs;
    }
  }

  /** De-duplication keeps every element only when there was no repetition. */
  lemma {:induction false} DedupKeepsAllOnlyIfDistinct(xs: seq<string>)
    requires |Dedup(xs)| == |xs|
    ensures Distinct(xs)
  {
    if xs != [] {
      var init := xs[..|xs| - 1];
      var d := Dedup(init);
      if xs[|xs| - 1] in d {
        assert false;
      } else {
        DedupKeepsAllOnlyIfDistinct(init);
        assert xs == init + [xs[|xs| - 1]];
        forall i, j | 0 <= i < j < |xs| ensures xs[i] != xs[j] {
          if j < |xs| - 1 {
            assert xs[i] == init[i] && xs[j] == init[j];
          } else {
            assert xs[i] == init[i];
            assert init[i] in init;
          }
        }
      }
    }
  }
  /** Two repetition-free lists with no common element concatenate to one. */
  lemma DistinctConcat(a: seq<string>, b: seq<string>)
    requires Distinct(a) && Distinct(b)
    requires forall x :: x in a ==> x !in b
    ensures Distinct(a + b)
  {
    forall i, j | 0 <= i < j < |a + b| ensures (a + b)[i] != (a + b)[j] {
      if j < |a| {
        assert (a + b)[i] == a[i] && (a + b)[j] == a[j];
      } else if i >= |a| {
        assert (a + b)[i] == b[i - |a|] && (a + b)[j] == b[j - |a|];
      } else {
        assert (a + b)[i] == a[i] && (a + b)[j] == b[j - |a|];
        assert a[i] in a;
      }
    }
  }
}
