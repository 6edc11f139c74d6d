/** Solvers/TrinketSolver.cs: after the solver has run, the trinket keys
    whose variable is 1 are split back into hero and trinket and grouped by
    hero. The solver itself is an input: its status and the value it gives
    each variable. */
module TrinketSolver {
  import opened Wrappers
  import opened Text
  import opened Keys
  import opened CpSat
  import opened VarMaps
  import opened Domain
  import opened VariableFactory
  import opened TrinketConstraints
  import opened Grouping

  /** What one entry of `trinketAssignmentsByHero` reports: the description
      `Hero {hero} is assigned trinket {trinket}.` is made of these two fields. */
  datatype Held = Held(hero: string, trinket: string)

  /** The decoded solution: `trinketAssignmentsByHero` and `anyAssigned`. */
  datatype Report = Report(byHero: Groups<Held>, anyAssigned: bool)

  /** The statuses for which a solution is read back. */
  predicate Solved(status: Status) {
    status == Optimal || status == Feasible
  }

  /** One pass of the `foreach (var kvp in trinketAssignments)` loop. */
  function Step(r: Report, key: string, value: int): Report {
    if value != 1 then r
    else
      var parts := Split(key, Sep);
      if |parts| != 2 then r
      else Report(r.byHero.AddTo(parts[0], Held(parts[0], parts[1])), true)
  }

  /** The report after the first `n` keys of the dictionary. */
  function Decode(holds: VarMap, val: seq<int>, n: nat): Report
    requires holds.Valid() && n <= |holds.order|
  {
    if n == 0 then Report(NoGroups(), false)
    else
      var key := holds.order[n - 1];
      Step(Decode(holds, val, n - 1), key, Value(val, holds.ids[key]))
  }

  /** `SolveTrinketAssignments` after `solver.Solve`: nothing is decoded
      unless the status is Optimal or Feasible; otherwise the report is the
      whole dictionary decoded in key order. */
  method SolveTrinketAssignments(status: Status, val: seq<int>, trinketAssignments: VarMap) returns (r: Option<Report>)
    requires trinketAssignments.Valid()
    ensures !Solved(status) ==> r == None
    ensures Solved(status) ==> r == Some(Decode(trinketAssignments, val, |trinketAssignments.order|))
  {
    if status == Optimal || status == Feasible {
      var anyAssigned := false;
      var trinketAssignmentsByHero: Groups<Held> := NoGroups();
      for j := 0 to |trinketAssignments.order|
        invariant Report(trinketAssignmentsByHero, anyAssigned) == Decode(trinketAssignments, val, j)
      {
        var key := trinketAssignments.order[j];
        if Value(val, trinketAssignments.ids[key]) == 1 {
          var parts := Split(key, Sep);
          if |parts| != 2 {
            continue;
          }
          var hero := parts[0];
          var trinket := parts[1];
          var entry := Held(hero, trinket);
          ghost var before := trinketAssignmentsByHero;
          if hero !in trinketAssignmentsByHero.lists {
            trinketAssignmentsByHero := Groups(trinketAssignmentsByHero.order + [hero], trinketAssignmentsByHero.lists[hero := []]);
          }
          trinketAssignmentsByHero := trinketAssignmentsByHero.(lists :=
            trinketAssignmentsByHero.lists[hero := trinketAssignmentsByHero.lists[hero] + [entry]]);
          anyAssigned := true;
          if hero !in before.lists {
            assert [] + [entry] == [entry];
            assert trinketAssignmentsByHero.lists == before.lists[hero := [entry]];
          }
          assert trinketAssignmentsByHero == before.AddTo(hero, entry);
        }
      }
      r := Some(Report(trinketAssignmentsByHero, anyAssigned));
    } else {
      r := None;
    }
  }

  // ---------------------------------------------------------------------
  // What the report holds.

  /** The dictionary is well formed and no hero has an empty list. */
  lemma {:induction false} DecodeWellFormed(holds: VarMap, val: seq<int>, n: nat)
    requires holds.Valid() && n <= |holds.order|
    ensures Decode(holds, val, n).byHero.Valid() && Decode(holds, val, n).byHero.NonEmpty()
  {
    if n > 0 {
      DecodeWellFormed(holds, val, n - 1);
      var key := holds.order[n - 1];
      var parts := Split(key, Sep);
      if Value(val, holds.ids[key]) == 1 && |parts| == 2 {
        AddToKeeps(Decode(holds, val, n - 1).byHero, parts[0], Held(parts[0], parts[1]));
      }
    }
  }

  /** The `j`-th key is valued 1 and splits into exactly `hero` and `trinket`. */
  ghost predicate Reads(holds: VarMap, val: seq<int>, j: int, hero: string, trinket: string)
    requires holds.Valid()
  {
    0 <= j < |holds.order| && Value(val, holds.ids[holds.order[j]]) == 1 && Split(holds.order[j], Sep) == [hero, trinket]
  }

  /** How one step changes the entries listed under a hero. */
  lemma StepEntries(r: Report, key: string, value: int, hero: string, entry: Held)
    ensures (hero in Step(r, key, value).byHero.lists && entry in Step(r, key, value).byHero.lists[hero]) <==>
      (hero in r.byHero.lists && entry in r.byHero.lists[hero])
      || (value == 1 && entry.hero == hero && Split(key, Sep) == [hero, entry.trinket])
  {
    var parts := Split(key, Sep);
    if value == 1 && |parts| == 2 {
      if entry.hero == hero && Split(key, Sep) == [hero, entry.trinket] {
        assert entry == Held(parts[0], parts[1]);
      }
    }
  }

  /** An entry is listed under a hero exactly when it names that hero and
      one of the first `n` keys is valued 1 and splits into that hero and
      trinket; keys valued otherwise and keys that do not split into two
      report nothing. */
  lemma {:induction false} DecodeEntries(holds: VarMap, val: seq<int>, n: nat, hero: string, entry: Held)
    requires holds.Valid() && n <= |holds.order|
    ensures (hero in Decode(holds, val, n).byHero.lists && entry in Decode(holds, val, n).byHero.lists[hero]) <==>
      entry.hero == hero && exists j :: j < n && Reads(holds, val, j, hero, entry.trinket)
  {
    if n > 0 {
      DecodeEntries(holds, val, n - 1, hero, entry);
      var key := holds.order[n - 1];
      StepEntries(Decode(holds, val, n - 1), key, Value(val, holds.ids[key]), hero, entry);
      if exists j :: j < n && Reads(holds, val, j, hero, entry.trinket) {
        var j :| j < n && Reads(holds, val, j, hero, entry.trinket);
        if j < n - 1 {
          assert exists j :: j < n - 1 && Reads(holds, val, j, hero, entry.trinket);
        }
      }
      if Value(val, holds.ids[key]) == 1 && Split(key, Sep) == [hero, entry.trinket] {
        assert Reads(holds, val, n - 1, hero, entry.trinket);
      }
    }
  }

  /** A hero is a key of the dictionary exactly when some key valued 1
      splits into two parts with that hero first. */
  lemma {:induction false} DecodeHeroes(holds: VarMap, val: seq<int>, n: nat, hero: string)
    requires holds.Valid() && n <= |holds.order|
    ensures hero in Decode(holds, val, n).byHero.lists <==> exists j, trinket :: j < n && Reads(holds, val, j, hero, trinket)
  {
    if n > 0 {
      DecodeHeroes(holds, val, n - 1, hero);
      var prev := Decode(holds, val, n - 1);
      var key := holds.order[n - 1];
      var parts := Split(key, Sep);
      if Value(val, holds.ids[key]) == 1 && |parts| == 2 {
        assert Decode(holds, val, n).byHero == prev.byHero.AddTo(parts[0], Held(parts[0], parts[1]));
        if parts[0] == hero {
          assert parts == [hero, parts[1]];
          assert Reads(holds, val, n - 1, hero, parts[1]);
        }
      } else {
        assert Decode(holds, val, n) == prev;
      }
      if exists j, trinket :: j < n && Reads(holds, val, j, hero, trinket) {
        var j, trinket :| j < n && Reads(holds, val, j, hero, trinket);
        if j < n - 1 {
          assert exists j, trinket :: j < n - 1 && Reads(holds, val, j, hero, trinket);
        }
      }
    }
  }

  /** `anyAssigned` is set exactly when some key valued 1 splits into two parts. */
  lemma {:induction false} DecodeAny(holds: VarMap, val: seq<int>, n: nat)
    requires holds.Valid() && n <= |holds.order|
    ensures Decode(holds, val, n).anyAssigned <==>
      exists j :: 0 <= j < n && Value(val, holds.ids[holds.order[j]]) == 1 && |Split(holds.order[j], Sep)| == 2
  {
    if n > 0 {
      DecodeAny(holds, val, n - 1);
    }
  }

  /** For the dictionary built by `CreateTrinketAssignmentVariables` over
      names without `_`, the report lists under each hero exactly the
      trinkets the valuation gives that hero; every one of them is in stock. */
  lemma DecodeHoldings(heroes: seq<Hero>, trinkets: seq<Trinket>, base: nat, val: seq<int>, hero: string, trinket: string)
    requires AllPlain(HeroNames(heroes)) && AllPlain(TrinketNames(trinkets))
    ensures var m := Holdings(heroes, trinkets, base);
      var r := Decode(m, val, |m.order|);
      (hero in r.byHero.lists && Held(hero, trinket) in r.byHero.lists[hero]) <==>
        (hero in HeroNames(heroes) && trinket in TrinketNames(trinkets) && Holding(m, val, hero, trinket))
    ensures hero in HeroNames(heroes) && trinket in TrinketNames(trinkets) && Holding(Holdings(heroes, trinkets, base), val, hero, trinket) ==>
      exists j :: 0 <= j < |trinkets| && trinkets[j].name == trinket && trinkets[j].amount > 0
  {
    var m := Holdings(heroes, trinkets, base);
    var hs, ts := HeroNames(heroes), TrinketNames(trinkets);
    DecodeEntries(m, val, |m.order|, hero, Held(hero, trinket));
    if exists j :: j < |m.order| && Reads(m, val, j, hero, trinket) {
      var j :| j < |m.order| && Reads(m, val, j, hero, trinket);
      var key := m.order[j];
      LastMapEntry(HoldKeys(heroes, trinkets), base, key);
      HoldKeysMembers(heroes, trinkets, key);
      var i, u :| 0 <= i < |heroes| && 0 <= u < |trinkets| && trinkets[u].amount > 0 && key == Key2(heroes[i].name, trinkets[u].name);
      assert hs[i] == heroes[i].name && ts[u] == trinkets[u].name;
      Key2RoundTrip(heroes[i].name, trinkets[u].name);
    }
    var k := Key2(hero, trinket);
    if hero in hs && trinket in ts && Holding(m, val, hero, trinket) {
      var j :| 0 <= j < |m.order| && m.order[j] == k;
      Key2RoundTrip(hero, trinket);
      assert Reads(m, val, j, hero, trinket);
      TrinketVariableExists(heroes, trinkets, base, hero, trinket);
    }
  }

  /** End to end: in a solution of the trinket constraints with 0/1
      variables, every hero is reported with at most one trinket. */
  lemma ReportedOneTrinket(heroes: seq<Hero>, trinkets: seq<Trinket>, base: nat, val: seq<int>, hero: string, t1: string, t2: string)
    requires AllPlain(HeroNames(heroes)) && AllPlain(TrinketNames(trinkets))
    requires AllHold(TrinketConstraintList(Holdings(heroes, trinkets, base), heroes, trinkets), val)
    requires Holdings(heroes, trinkets, base).BoolValued(val)
    requires var m := Holdings(heroes, trinkets, base);
      var r := Decode(m, val, |m.order|);
      hero in r.byHero.lists && Held(hero, t1) in r.byHero.lists[hero] && Held(hero, t2) in r.byHero.lists[hero]
    ensures t1 == t2
  {
    DecodeHoldings(heroes, trinkets, base, val, hero, t1);
    DecodeHoldings(heroes, trinkets, base, val, hero, t2);
    var hs, ts := HeroNames(heroes), TrinketNames(trinkets);
    var i :| 0 <= i < |hs| && hs[i] == hero;
    OneTrinketPerHero(heroes, trinkets, base, val, i, t1, t2);
  }

  // ---------------------------------------------------------------------
  // Names holding `_`.

  /** A key valued 1 whose hero or trinket name holds `_` splits into more
      than two pieces: it is skipped with the format error and the report
      does not change. */
  lemma SeparatedKeySkipped(r: Report, h: string, t: string, value: int)
    requires !(Plain(h) && Plain(t))
    ensures Step(r, Key2(h, t), value) == r
  {
    SeparatedKey2Splits(h, t);
  }

  /** No entry whose hero or trinket name holds `_` is ever reported,
      whatever the valuation. */
  lemma SeparatedNamesUnreported(holds: VarMap, val: seq<int>, n: nat, hero: string, entry: Held)
    requires holds.Valid() && n <= |holds.order|
    requires !(Plain(entry.hero) && Plain(entry.trinket))
    ensures !(hero in Decode(holds, val, n).byHero.lists && entry in Decode(holds, val, n).byHero.lists[hero])
  {
    DecodeEntries(holds, val, n, hero, entry);
    if entry.hero == hero && exists j :: j < n && Reads(holds, val, j, hero, entry.trinket) {
      assert false;
    }
  }
}
