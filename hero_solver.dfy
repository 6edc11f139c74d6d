/** Solvers/HeroSolver.cs: after the solver has run, the assignment keys
    whose variable is 1 are split back into hero, ship and position and
    grouped by ship. The solver itself is an input: its status and the
    value it gives each variable. */
module HeroSolver {
  import opened Wrappers
  import opened Text
  import opened Keys
  import opened CpSat
  import opened VarMaps
  import opened Domain
  import opened VariableFactory
  import opened HeroConstraints
  import opened Grouping

  /** What one entry of `assignmentsByShip` reports: the description
      `Hero {hero} is assigned to {position}.` is made of these two fields. */
  datatype Seat = Seat(hero: string, position: string)

  /** The decoded solution: `assignmentsByShip` and `anyAssigned`. */
  datatype Report = Report(byShip: Groups<Seat>, anyAssigned: bool)

  /** The statuses for which a solution is read back. */
  predicate Solved(status: Status) {
    status == Optimal || status == Feasible
  }

  /** One pass of the `foreach (var kvp in assignments)` loop. */
  function Step(r: Report, key: string, value: int): Report {
    if value != 1 then r
    else
      var parts := Split(key, Sep);
      if |parts| != 3 then r
      else Report(r.byShip.AddTo(parts[1], Seat(parts[0], parts[2])), true)
  }

  /** The report after the first `n` keys of the dictionary. */
  function Decode(assignments: VarMap, val: seq<int>, n: nat): Report
    requires assignments.Valid() && n <= |assignments.order|
  {
    if n == 0 then Report(NoGroups(), false)
    else
      var key := assignments.order[n - 1];
      Step(Decode(assignments, val, n - 1), key, Value(val, assignments.ids[key]))
  }

  /** `SolveHeroAssignments` after `solver.Solve`: nothing is decoded unless
      the status is Optimal or Feasible; otherwise the report is the whole
      dictionary decoded in key order. */
  method SolveHeroAssignments(status: Status, val: seq<int>, assignments: VarMap) returns (r: Option<Report>)
    requires assignments.Valid()
    ensures !Solved(status) ==> r == None
    ensures Solved(status) ==> r == Some(Decode(assignments, val, |assignments.order|))
  {
    if status == Optimal || status == Feasible {
      var anyAssigned := false;
      var assignmentsByShip: Groups<Seat> := NoGroups();
      for j := 0 to |assignments.order|
        invariant Report(assignmentsByShip, anyAssigned) == Decode(assignments, val, j)
      {
        var key := assignments.order[j];
        if Value(val, assignments.ids[key]) == 1 {
          var parts := Split(key, Sep);
          if |parts| != 3 {
            continue;
          }
          var hero := parts[0];
          var ship := parts[1];
          var position := parts[2];
          var entry := Seat(hero, position);
          ghost var before := assignmentsByShip;
          if ship !in assignmentsByShip.lists {
            assignmentsByShip := Groups(assignmentsByShip.order + [ship], assignmentsByShip.lists[ship := []]);
          }
          assignmentsByShip := assignmentsByShip.(lists := assignmentsByShip.lists[ship := assignmentsByShip.lists[ship] + [entry]]);
          anyAssigned := true;
          if ship !in before.lists {
            assert [] + [entry] == [entry];
            assert assignmentsByShip.lists == before.lists[ship := [entry]];
          }
          assert assignmentsByShip == before.AddTo(ship, entry);
        }
      }
      r := Some(Report(assignmentsByShip, anyAssigned));
    } else {
      r := None;
    }
  }

  // ---------------------------------------------------------------------
  // What the report holds.

  /** The dictionary is well formed and no ship has an empty list. */
  lemma {:induction false} DecodeWellFormed(assignments: VarMap, val: seq<int>, n: nat)
    requires assignments.Valid() && n <= |assignments.order|
    ensures Decode(assignments, val, n).byShip.Valid() && Decode(assignments, val, n).byShip.NonEmpty()
  {
    if n > 0 {
      DecodeWellFormed(assignments, val, n - 1);
      var key := assignments.order[n - 1];
      var parts := Split(key, Sep);
      if Value(val, assignments.ids[key]) == 1 && |parts| == 3 {
        AddToKeeps(Decode(assignments, val, n - 1).byShip, parts[1], Seat(parts[0], parts[2]));
      }
    }
  }

  /** The `j`-th key is valued 1 and splits into exactly `hero`, `ship`, `position`. */
  ghost predicate Reads(assignments: VarMap, val: seq<int>, j: int, hero: string, ship: string, position: string)
    requires assignments.Valid()
  {
    0 <= j < |assignments.order| && Value(val, assignments.ids[assignments.order[j]]) == 1
      && Split(assignments.order[j], Sep) == [hero, ship, position]
  }

  /** How one step changes the seats listed under a ship. */
  lemma StepSeats(r: Report, key: string, value: int, ship: string, seat: Seat)
    ensures (ship in Step(r, key, value).byShip.lists && seat in Step(r, key, value).byShip.lists[ship]) <==>
      (ship in r.byShip.lists && seat in r.byShip.lists[ship]) || (value == 1 && Split(key, Sep) == [seat.hero, ship, seat.position])
  {
    var parts := Split(key, Sep);
    if value == 1 && |parts| == 3 {
      if Split(key, Sep) == [seat.hero, ship, seat.position] {
        assert seat == Seat(parts[0], parts[2]);
      }
    }
  }

  /** A seat is listed under a ship exactly when one of the first `n` keys
      is valued 1 and splits into that hero, ship and position: keys valued
      otherwise, and keys that do not split into three, report nothing. */
  lemma {:induction false} DecodeSeats(assignments: VarMap, val: seq<int>, n: nat, ship: string, seat: Seat)
    requires assignments.Valid() && n <= |assignments.order|
    ensures (ship in Decode(assignments, val, n).byShip.lists && seat in Decode(assignments, val, n).byShip.lists[ship]) <==>
      exists j :: j < n && Reads(assignments, val, j, seat.hero, ship, seat.position)
  {
    if n > 0 {
      DecodeSeats(assignments, val, n - 1, ship, seat);
      var key := assignments.order[n - 1];
      StepSeats(Decode(assignments, val, n - 1), key, Value(val, assignments.ids[key]), ship, seat);
      if exists j :: j < n && Reads(assignments, val, j, seat.hero, ship, seat.position) {
        var j :| j < n && Reads(assignments, val, j, seat.hero, ship, seat.position);
        if j < n - 1 {
          assert exists j :: j < n - 1 && Reads(assignments, val, j, seat.hero, ship, seat.position);
        }
      }
      if Value(val, assignments.ids[key]) == 1 && Split(key, Sep) == [seat.hero, ship, seat.position] {
        assert Reads(assignments, val, n - 1, seat.hero, ship, seat.position);
      }
    }
  }

  /** A ship is a key of the dictionary exactly when some key valued 1
      splits into three parts with that ship in the middle. */
  lemma {:induction false} DecodeShips(assignments: VarMap, val: seq<int>, n: nat, ship: string)
    requires assignments.Valid() && n <= |assignments.order|
    ensures ship in Decode(assignments, val, n).byShip.lists <==>
      exists j, hero, position :: j < n && Reads(assignments, val, j, hero, ship, position)
  {
    if n > 0 {
      DecodeShips(assignments, val, n - 1, ship);
      var prev := Decode(assignments, val, n - 1);
      var key := assignments.order[n - 1];
      var parts := Split(key, Sep);
      if Value(val, assignments.ids[key]) == 1 && |parts| == 3 {
        assert Decode(assignments, val, n).byShip == prev.byShip.AddTo(parts[1], Seat(parts[0], parts[2]));
        if parts[1] == ship {
          assert parts == [parts[0], ship, parts[2]];
          assert Reads(assignments, val, n - 1, parts[0], ship, parts[2]);
        }
      } else {
        assert Decode(assignments, val, n) == prev;
      }
      if exists j, hero, position :: j < n && Reads(assignments, val, j, hero, ship, position) {
        var j, hero, position :| j < n && Reads(assignments, val, j, hero, ship, position);
        if j < n - 1 {
          assert exists j, hero, position :: j < n - 1 && Reads(assignments, val, j, hero, ship, position);
        }
      }
    }
  }

  /** `anyAssigned` is set exactly when some key valued 1 splits into three parts. */
  lemma {:induction false} DecodeAny(assignments: VarMap, val: seq<int>, n: nat)
    requires assignments.Valid() && n <= |assignments.order|
    ensures Decode(assignments, val, n).anyAssigned <==>
      exists j :: 0 <= j < n && Value(val, assignments.ids[assignments.order[j]]) == 1 && |Split(assignments.order[j], Sep)| == 3
  {
    if n > 0 {
      DecodeAny(assignments, val, n - 1);
    }
  }

  /** For the dictionary built by `CreateAssignmentVariables` over names
      without `_`, the report lists exactly the seats the valuation fills:
      splitting each key recovers the hero, ship and position it was built from. */
  lemma DecodeAssignments(heroes: seq<Hero>, ships: seq<string>, positions: seq<string>, base: nat, val: seq<int>,
                          hero: string, ship: string, position: string)
    requires AllPlain(HeroNames(heroes)) && AllPlain(ships) && AllPlain(positions)
    ensures var a := Assignments(heroes, ships, positions, base);
      var r := Decode(a, val, |a.order|);
      (ship in r.byShip.lists && Seat(hero, position) in r.byShip.lists[ship]) <==>
        (hero in HeroNames(heroes) && ship in ships && position in positions && Seated(a, val, hero, ship, position))
  {
    var a := Assignments(heroes, ships, positions, base);
    var names := HeroNames(heroes);
    DecodeSeats(a, val, |a.order|, ship, Seat(hero, position));
    if exists j :: j < |a.order| && Reads(a, val, j, hero, ship, position) {
      var j :| j < |a.order| && Reads(a, val, j, hero, ship, position);
      var key := a.order[j];
      AssignmentsKeys(heroes, ships, positions, base, key);
      var i, s, p :| 0 <= i < |heroes| && s in ships && p in positions && key == Key3(heroes[i].name, s, p);
      assert names[i] == heroes[i].name;
      Key3RoundTrip(heroes[i].name, s, p);
    }
    var k := Key3(hero, ship, position);
    if hero in names && ship in ships && position in positions && Seated(a, val, hero, ship, position) {
      var j :| 0 <= j < |a.order| && a.order[j] == k;
      Key3RoundTrip(hero, ship, position);
      assert Reads(a, val, j, hero, ship, position);
    }
  }

  /** End to end: in a solution of the hero constraints with 0/1 variables,
      a hero is reported at most once, under one ship and one position. */
  lemma ReportedOnce(heroes: seq<Hero>, ships: seq<string>, positions: seq<string>, base: nat, val: seq<int>,
                     hero: string, s1: string, p1: string, s2: string, p2: string)
    requires AllPlain(HeroNames(heroes)) && AllPlain(ships) && AllPlain(positions)
    requires AllHold(HeroConstraintList(Assignments(heroes, ships, positions, base), heroes, ships, positions), val)
    requires Assignments(heroes, ships, positions, base).BoolValued(val)
    requires var a := Assignments(heroes, ships, positions, base);
      var r := Decode(a, val, |a.order|);
      s1 in r.byShip.lists && Seat(hero, p1) in r.byShip.lists[s1] && s2 in r.byShip.lists && Seat(hero, p2) in r.byShip.lists[s2]
    ensures s1 == s2 && p1 == p2
  {
    DecodeAssignments(heroes, ships, positions, base, val, hero, s1, p1);
    DecodeAssignments(heroes, ships, positions, base, val, hero, s2, p2);
    var names := HeroNames(heroes);
    var i :| 0 <= i < |names| && names[i] == hero;
    AtMostOnePosition(heroes, ships, positions, base, val, i, s1, p1, s2, p2);
  }

  // ---------------------------------------------------------------------
  // Names holding `_`.

  /** A key valued 1 whose hero, ship or position name holds `_` splits into
      more than three pieces: it is skipped with the format error and the
      report does not change. */
  lemma SeparatedKeySkipped(r: Report, h: string, s: string, p: string, value: int)
    requires !(Plain(h) && Plain(s) && Plain(p))
    ensures Step(r, Key3(h, s, p), value) == r
  {
    SeparatedKey3Splits(h, s, p);
  }

  /** No seat whose hero, ship or position name holds `_` is ever reported,
      whatever the valuation: such a hero can be seated by the solver and
      still be missing from the output. */
  lemma SeparatedNamesUnreported(assignments: VarMap, val: seq<int>, n: nat, ship: string, seat: Seat)
    requires assignments.Valid() && n <= |assignments.order|
    requires !(Plain(seat.hero) && Plain(ship) && Plain(seat.position))
    ensures !(ship in Decode(assignments, val, n).byShip.lists && seat in Decode(assignments, val, n).byShip.lists[ship])
  {
    DecodeSeats(assignments, val, n, ship, seat);
    if exists j :: j < n && Reads(assignments, val, j, seat.hero, ship, seat.position) {
      assert false;
    }
  }
}
