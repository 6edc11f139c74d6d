/** The string keys under which decision variables are registered: an
    assignment key `hero_ship_position` and a trinket key `hero_trinket`, and
    what the substring, prefix and suffix tests of the constraint builders and
    the `Split('_')` of the result decoders see in them. */
module Keys {
  import opened Text

  const Sep: char := '_'

  /** A name that cannot be confused with the separator. */
  predicate Plain(name: string) {
    Sep !in name
  }

  /** Every name of the list is plain. */
  predicate AllPlain(names: seq<string>) {
    forall i :: 0 <= i < |names| ==> Plain(names[i])
  }

  /** `$"{hero.Name}_{ship}_{position}"` (Factories/VariableFactory.cs). */
  function Key3(hero: string, ship: string, position: string): string {
    hero + [Sep] + ship + [Sep] + position
  }

  /** `$"{hero.Name}_{trinket.Name}"` (Factories/VariableFactory.cs). */
  function Key2(hero: string, trinket: string): string {
    hero + [Sep] + trinket
  }

  /** An assignment key built from a name holding `_` splits into more than
      three pieces. */
  lemma SeparatedKey3Splits(h: string, s: string, p: string)
    requires !(Plain(h) && Plain(s) && Plain(p))
    ensures |Split(Key3(h, s, p), Sep)| > 3
  {
    assert Key3(h, s, p) == h + [Sep] + (s + [Sep] + p);
    SplitAppend(h, s + [Sep] + p, Sep);
    SplitAppend(s, p, Sep);
    if !Plain(h) {
      SplitAtSeparator(h, Sep);
    } else if !Plain(s) {
      SplitAtSeparator(s, Sep);
    } else {
      SplitAtSeparator(p, Sep);
    }
  }

  /** A trinket key built from a name holding `_` splits into more than two
      pieces. */
  lemma SeparatedKey2Splits(h: string, t: string)
    requires !(Plain(h) && Plain(t))
    ensures |Split(Key2(h, t), Sep)| > 2
  {
    SplitAppend(h, t, Sep);
    if !Plain(h) {
      SplitAtSeparator(h, Sep);
    } else {
      SplitAtSeparator(t, Sep);
    }
  }

  /** Splitting an assignment key recovers the triple when no name holds `_`. */
  lemma Key3RoundTrip(h: string, s: string, p: string)
    requires Plain(h) && Plain(s) && Plain(p)
    ensures Split(Key3(h, s, p), Sep) == [h, s, p]
  {
    var parts := [h, s, p];
    assert parts[1..] == [s, p] && parts[1..][1..] == [p];
    assert Join([s, p], Sep) == s + [Sep] + p;
    assert Join(parts, Sep) == h + [Sep] + (s + [Sep] + p) == Key3(h, s, p);
    SplitJoin(parts, Sep);
  }

  /** Splitting a trinket key recovers the pair when no name holds `_`. */
  lemma Key2RoundTrip(h: string, t: string)
    requires Plain(h) && Plain(t)
    ensures Split(Key2(h, t), Sep) == [h, t]
  {
    var parts := [h, t];
    assert parts[1..] == [t];
    assert Join(parts, Sep) == Key2(h, t);
    SplitJoin(parts, Sep);
  }

  /** Assignment keys of plain names are equal only for equal triples. */
  lemma Key3Injective(h: string, s: string, p: string, h2: string, s2: string, p2: string)
    requires Plain(h) && Plain(s) && Plain(p) && Plain(h2) && Plain(s2) && Plain(p2)
    ensures Key3(h, s, p) == Key3(h2, s2, p2) <==> h == h2 && s == s2 && p == p2
  {
    Key3RoundTrip(h, s, p);
    Key3RoundTrip(h2, s2, p2);
  }

  /** Trinket keys of plain names are equal only for equal pairs. */
  lemma Key2Injective(h: string, t: string, h2: string, t2: string)
    requires Plain(h) && Plain(t) && Plain(h2) && Plain(t2)
    ensures Key2(h, t) == Key2(h2, t2) <==> h == h2 && t == t2
  {
    Key2RoundTrip(h, t);
    Key2RoundTrip(h2, t2);
  }

  /** A key that splits into three parts is the assignment key of those parts. */
  lemma Key3OfParts(k: string)
    requires |Split(k, Sep)| == 3
    ensures var parts := Split(k, Sep); k == Key3(parts[0], parts[1], parts[2])
  {
    var parts := Split(k, Sep);
    JoinSplit(k, Sep);
    assert parts[1..] == [parts[1], parts[2]] && parts[1..][1..] == [parts[2]];
    assert Join(parts[1..], Sep) == parts[1] + [Sep] + parts[2];
    assert k == parts[0] + [Sep] + (parts[1] + [Sep] + parts[2]);
  }

  /** A key that splits into two parts is the trinket key of those parts. */
  lemma Key2OfParts(k: string)
    requires |Split(k, Sep)| == 2
    ensures var parts := Split(k, Sep); k == Key2(parts[0], parts[1])
  {
    var parts := Split(k, Sep);
    JoinSplit(k, Sep);
    assert parts[1..] == [parts[1]];
  }

  /** The characters of `a_b`, position by position. */
  lemma JoinedAt(a: string, b: string)
    ensures var k := a + [Sep] + b;
      && |k| == |a| + 1 + |b|
      && k[|a|] == Sep
      && (forall j :: 0 <= j < |a| ==> k[j] == a[j])
      && (forall m :: |a| < m < |k| ==> k[m] == b[m - |a| - 1])
  {
  }

  /** A separator-free text occurs in `a_b` exactly when it occurs in `a` or in `b`. */
  lemma PlainContainsAcrossSep(a: string, b: string, x: string)
    requires Plain(x)
    ensures Contains(a + [Sep] + b, x) <==> Contains(a, x) || Contains(b, x)
  {
    var k := a + [Sep] + b;
    JoinedAt(a, b);
    if Contains(k, x) {
      var i :| 0 <= i <= |k| && OccursAt(k, x, i);
      assert forall m :: i <= m < i + |x| ==> k[m] == x[m - i];
      assert i + |x| <= |a| || i >= |a| + 1;
      if i + |x| <= |a| {
        assert k[i..i + |x|] == a[i..i + |x|];
        assert OccursAt(a, x, i);
      } else {
        var m := i - |a| - 1;
        assert k[i..i + |x|] == b[m..m + |x|];
        assert OccursAt(b, x, m);
      }
    }
    if Contains(a, x) {
      var i :| 0 <= i <= |a| && OccursAt(a, x, i);
      assert k[i..i + |x|] == a[i..i + |x|];
      assert OccursAt(k, x, i);
    }
    if Contains(b, x) {
      var i :| 0 <= i <= |b| && OccursAt(b, x, i);
      ShiftedOccurrence(a, b, x, i);
    }
  }

  /** A needle `x_y` cannot occur in a name without separators. */
  lemma PlainLacksSepNeedle(p: string, x: string, y: string)
    requires Plain(p)
    ensures !Contains(p, x + [Sep] + y)
  {
    var n := x + [Sep] + y;
    forall i | 0 <= i <= |p| ensures !OccursAt(p, n, i) {
      assert n[|x|] == Sep;
    }
  }

  /** A separator-free prefix of `s_p` is a prefix of `s`. */
  lemma PlainPrefixAcrossSep(s: string, p: string, y: string)
    requires Plain(y)
    ensures StartsWith(s + [Sep] + p, y) <==> StartsWith(s, y)
  {
    var k := s + [Sep] + p;
    JoinedAt(s, p);
    if StartsWith(k, y) {
      assert forall m :: 0 <= m < |y| ==> k[m] == y[m];
      assert |y| <= |s|;
      assert k[..|y|] == s[..|y|];
    }
    if StartsWith(s, y) {
      assert k[..|y|] == s[..|y|];
    }
  }

  /** Where a needle `x_y` can occur in `a_b` when `a`, `x` and `y` are plain:
      straddling the first separator, or inside `b`. */
  lemma SepNeedleAcrossSep(a: string, b: string, x: string, y: string)
    requires Plain(a) && Plain(x) && Plain(y)
    ensures Contains(a + [Sep] + b, x + [Sep] + y) <==>
              (EndsWith(a, x) && StartsWith(b, y)) || Contains(b, x + [Sep] + y)
  {
    var k := a + [Sep] + b;
    var n := x + [Sep] + y;
    if Contains(k, n) {
      var i :| 0 <= i <= |k| && OccursAt(k, n, i);
      SepNeedleOccurrence(a, b, x, y, i);
    }
    if EndsWith(a, x) && StartsWith(b, y) {
      StraddleOccurrence(a, b, x, y);
    }
    if Contains(b, n) {
      var i :| 0 <= i <= |b| && OccursAt(b, n, i);
      ShiftedOccurrence(a, b, n, i);
    }
  }

  /** An occurrence of `x_y` in `a_b` (with `a`, `x` plain) either puts its
      separator on the first one, or lies inside `b`. */
  lemma SepNeedleOccurrence(a: string, b: string, x: string, y: string, i: int)
    requires Plain(a) && Plain(x)
    requires OccursAt(a + [Sep] + b, x + [Sep] + y, i)
    ensures (EndsWith(a, x) && StartsWith(b, y)) || OccursAt(b, x + [Sep] + y, i - |a| - 1)
  {
    SepPlacement(a, b, x, y, i);
    if i + |x| == |a| {
      SepOnFirst(a, b, x, y, i);
    } else {
      SepInside(a, b, x + [Sep] + y, i);
    }
  }

  /** The needle's separator can only meet the first one of `a_b`, or lie
      after it. */
  lemma SepPlacement(a: string, b: string, x: string, y: string, i: int)
    requires Plain(a) && Plain(x)
    requires OccursAt(a + [Sep] + b, x + [Sep] + y, i)
    ensures i + |x| == |a| || i > |a|
  {
    var k := a + [Sep] + b;
    var n := x + [Sep] + y;
    JoinedAt(a, b);
    JoinedAt(x, y);
    assert forall m :: i <= m < i + |n| ==> k[m] == n[m - i];
  }

  /** When the separators meet, `x` ends `a` and `y` starts `b`. */
  lemma SepOnFirst(a: string, b: string, x: string, y: string, i: int)
    requires OccursAt(a + [Sep] + b, x + [Sep] + y, i) && i + |x| == |a|
    ensures EndsWith(a, x) && StartsWith(b, y)
  {
    var k := a + [Sep] + b;
    var n := x + [Sep] + y;
    JoinedAt(a, b);
    JoinedAt(x, y);
    assert k[i..i + |n|] == n;
    forall j | 0 <= j < |x| ensures a[i..][j] == x[j] {
      assert a[i + j] == k[i + j] == n[j];
    }
    forall j | 0 <= j < |y| ensures b[..|y|][j] == y[j] {
      assert b[j] == k[|a| + 1 + j] == n[|x| + 1 + j];
    }
    assert a[i..] == x;
    assert b[..|y|] == y;
  }

  /** An occurrence after the separator lies inside `b`. */
  lemma SepInside(a: string, b: string, n: string, i: int)
    requires OccursAt(a + [Sep] + b, n, i) && i > |a|
    ensures OccursAt(b, n, i - |a| - 1)
  {
    var k := a + [Sep] + b;
    var m := i - |a| - 1;
    JoinedAt(a, b);
    assert b[m..m + |n|] == k[i..i + |n|];
  }

  /** An occurrence inside `b` is an occurrence inside `a_b`, shifted. */
  lemma ShiftedOccurrence(a: string, b: string, x: string, i: int)
    requires OccursAt(b, x, i)
    ensures OccursAt(a + [Sep] + b, x, |a| + 1 + i)
  {
    var k := a + [Sep] + b;
    var m := |a| + 1 + i;
    assert k[m..m + |x|] == b[i..i + |x|];
  }

  /** `x_y` occurs in `a_b` across its first separator when `a` ends with `x`
      and `b` starts with `y`. */
  lemma StraddleOccurrence(a: string, b: string, x: string, y: string)
    requires EndsWith(a, x) && StartsWith(b, y)
    ensures OccursAt(a + [Sep] + b, x + [Sep] + y, |a| - |x|)
  {
    var k := a + [Sep] + b;
    var n := x + [Sep] + y;
    var i := |a| - |x|;
    JoinedAt(a, b);
    JoinedAt(x, y);
    assert forall j :: 0 <= j < |x| ==> x[j] == a[i + j];
    assert forall j :: 0 <= j < |y| ==> y[j] == b[j];
    assert k[i..i + |n|] == n;
  }

  /** `Key3(h, s, p).Contains(ship + "_" + pos)` for plain names holds exactly
      when the needle straddles one of the two separators of the key. */
  lemma SlotNeedleInKey3(h: string, s: string, p: string, ship: string, pos: string)
    requires Plain(h) && Plain(s) && Plain(p) && Plain(ship) && Plain(pos)
    ensures Contains(Key3(h, s, p), ship + [Sep] + pos) <==>
              (EndsWith(h, ship) && StartsWith(s, pos)) || (EndsWith(s, ship) && StartsWith(p, pos))
  {
    assert Key3(h, s, p) == h + [Sep] + (s + [Sep] + p);
    SepNeedleAcrossSep(h, s + [Sep] + p, ship, pos);
    PlainPrefixAcrossSep(s, p, pos);
    SepNeedleAcrossSep(s, p, ship, pos);
    PlainLacksSepNeedle(p, ship, pos);
  }

  /** `Key3(h, s, p).Contains(ship)` for a plain ship name holds exactly when
      the ship name occurs inside one of the three parts. */
  lemma ShipNameInKey3(h: string, s: string, p: string, ship: string)
    requires Plain(ship)
    ensures Contains(Key3(h, s, p), ship) <==> Contains(h, ship) || Contains(s, ship) || Contains(p, ship)
  {
    assert Key3(h, s, p) == h + [Sep] + (s + [Sep] + p);
    PlainContainsAcrossSep(h, s + [Sep] + p, ship);
    PlainContainsAcrossSep(s, p, ship);
  }

  /** A suffix `_n` of `h_t` with `t` and `n` plain starts at the separator. */
  lemma SepSuffixLength(h: string, t: string, n: string)
    requires Plain(t) && Plain(n)
    requires EndsWith(h + [Sep] + t, [Sep] + n)
    ensures |n| == |t|
  {
    var k := h + [Sep] + t;
    var suffix := [Sep] + n;
    var start := |k| - |suffix|;
    JoinedAt(h, t);
    assert forall m :: start <= m < |k| ==> k[m] == suffix[m - start];
    assert forall j :: 1 <= j < |suffix| ==> suffix[j] == n[j - 1];
    assert k[start] == Sep;
  }

  /** `Key2(h, t).EndsWith("_" + n)` for plain trinket names holds exactly when
      the key is for trinket `n`, whatever the hero name. */
  lemma TrinketSuffixInKey2(h: string, t: string, n: string)
    requires Plain(t) && Plain(n)
    ensures EndsWith(Key2(h, t), [Sep] + n) <==> t == n
  {
    var k := Key2(h, t);
    var suffix := [Sep] + n;
    assert k[|h|..] == [Sep] + t;
    if EndsWith(k, suffix) {
      SepSuffixLength(h, t, n);
      assert n == suffix[1..] == k[|h|..][1..] == t;
    }
  }

  /** `Key2(h2, t).StartsWith(h)` for a plain hero name `h` holds exactly when
      `h` is a prefix of `h2`: all of the hero's own keys, and the keys of every
      hero whose name extends it. */
  lemma HeroPrefixInKey2(h2: string, t: string, h: string)
    requires Plain(h)
    ensures StartsWith(Key2(h2, t), h) <==> StartsWith(h2, h)
  {
    PlainPrefixAcrossSep(h2, t, h);
  }
}
