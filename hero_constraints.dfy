/** Constraints/HeroConstraints.cs: a hero holds at most one position on at
    most one ship, and the preference score of one assignment. */
module HeroConstraints {
  import opened Keys
  import opened CpSat
  import opened VarMaps
  import opened Domain
  import opened VariableFactory

  /** The variables of the keys `hero_ship_position` of one ship that exist,
      position by position; a missing key is skipped. */
  function SlotVars(assignments: VarMap, hero: string, ship: string, positions: seq<string>): seq<VarId> {
    if positions == [] then []
    else
      var k := Key3(hero, ship, positions[|positions| - 1]);
      SlotVars(assignments, hero, ship, positions[..|positions| - 1])
        + (if k in assignments.ids then [assignments.ids[k]] else [])
  }

  /** `heroAssignments`: the variables of the existing keys of one hero, ship
      by ship. */
  function HeroVars(assignments: VarMap, hero: string, ships: seq<string>, positions: seq<string>): seq<VarId> {
    if ships == [] then []
    else
      HeroVars(assignments, hero, ships[..|ships| - 1], positions)
        + SlotVars(assignments, hero, ships[|ships| - 1], positions)
  }

  /** `Sum(heroAssignments) <= 1`, posted even when the list is empty. */
  function HeroConstraint(assignments: VarMap, hero: string, ships: seq<string>, positions: seq<string>): Constraint {
    Constraint(Sum(HeroVars(assignments, hero, ships, positions)), AtMost, Const(1))
  }

  /** Everything `AddHeroAssignmentConstraints` posts: one constraint per hero. */
  function HeroConstraintList(assignments: VarMap, heroes: seq<Hero>, ships: seq<string>, positions: seq<string>): seq<Constraint> {
    seq(|heroes|, i requires 0 <= i < |heroes| => HeroConstraint(assignments, heroes[i].name, ships, positions))
  }

  // ---------------------------------------------------------------------
  // The builder.

  /** The innermost `foreach (var position in positions)`. */
  method CollectSlotVars(assignments: VarMap, hero: string, ship: string, positions: seq<string>) returns (xs: seq<VarId>)
    ensures xs == SlotVars(assignments, hero, ship, positions)
  {
    xs := [];
    for k := 0 to |positions|
      invariant xs == SlotVars(assignments, hero, ship, positions[..k])
    {
      assert positions[..k + 1][..k] == positions[..k];
      var varName := Key3(hero, ship, positions[k]);
      if varName in assignments.ids {
        xs := xs + [assignments.ids[varName]];
      }
    }
    assert positions[..|positions|] == positions;
  }

  /** The `foreach (var ship in ships)` that fills `heroAssignments`. */
  method CollectHeroVars(assignments: VarMap, hero: string, ships: seq<string>, positions: seq<string>) returns (xs: seq<VarId>)
    ensures xs == HeroVars(assignments, hero, ships, positions)
  {
    xs := [];
    for j := 0 to |ships|
      invariant xs == HeroVars(assignments, hero, ships[..j], positions)
    {
      assert ships[..j + 1][..j] == ships[..j];
      var ys := CollectSlotVars(assignments, hero, ships[j], positions);
      xs := xs + ys;
    }
    assert ships[..|ships|] == ships;
  }

  /** `AddHeroAssignmentConstraints`: posts exactly `HeroConstraintList`,
      after the constraints already in the model; creates no variable. */
  method AddHeroAssignmentConstraints(model: CpModel, assignments: VarMap, heroes: seq<Hero>, ships: seq<string>, positions: seq<string>)
    requires model.Valid() && assignments.IdsBelow(|model.vars|)
    modifies model
    ensures model.Valid()
    ensures model.constraints == old(model.constraints) + HeroConstraintList(assignments, heroes, ships, positions)
    ensures model.vars == old(model.vars) && model.objective == old(model.objective)
  {
    for i := 0 to |heroes|
      invariant model.Valid() && model.vars == old(model.vars) && model.objective == old(model.objective)
      invariant model.constraints == old(model.constraints) + HeroConstraintList(assignments, heroes[..i], ships, positions)
    {
      HeroConstraintListStep(assignments, heroes, ships, positions, i);
      var heroAssignments := CollectHeroVars(assignments, heroes[i].name, ships, positions);
      HeroVarsBelow(assignments, heroes[i].name, ships, positions, |model.vars|);
      SumOver(heroAssignments, |model.vars|);
      model.Add(Constraint(Sum(heroAssignments), AtMost, Const(1)));
    }
    assert heroes[..|heroes|] == heroes;
  }

  lemma HeroConstraintListStep(assignments: VarMap, heroes: seq<Hero>, ships: seq<string>, positions: seq<string>, i: nat)
    requires i < |heroes|
    ensures HeroConstraintList(assignments, heroes[..i + 1], ships, positions)
      == HeroConstraintList(assignments, heroes[..i], ships, positions) + [HeroConstraint(assignments, heroes[i].name, ships, positions)]
  {
  }

  /** The collected variables belong to the model when the dictionary's do. */
  lemma HeroVarsBelow(assignments: VarMap, hero: string, ships: seq<string>, positions: seq<string>, n: nat)
    requires assignments.IdsBelow(n)
    ensures forall u :: 0 <= u < |HeroVars(assignments, hero, ships, positions)| ==> HeroVars(assignments, hero, ships, positions)[u] < n
  {
    var xs := HeroVars(assignments, hero, ships, positions);
    forall u | 0 <= u < |xs| ensures xs[u] < n {
      HeroVarsMembers(assignments, hero, ships, positions, xs[u]);
    }
  }

  // ---------------------------------------------------------------------
  // What the constraints mean.

  lemma {:induction false} SlotVarsMembers(assignments: VarMap, hero: string, ship: string, positions: seq<string>, x: VarId)
    ensures x in SlotVars(assignments, hero, ship, positions) <==>
      exists p :: p in positions && Key3(hero, ship, p) in assignments.ids && assignments.ids[Key3(hero, ship, p)] == x
  {
    if positions != [] {
      var init := positions[..|positions| - 1];
      var last := positions[|positions| - 1];
      SlotVarsMembers(assignments, hero, ship, init, x);
      assert positions == init + [last];
    }
  }

  /** A hero's sum ranges over exactly the variables of the existing keys
      `hero_ship_position` for the listed ships and positions. */
  lemma {:induction false} HeroVarsMembers(assignments: VarMap, hero: string, ships: seq<string>, positions: seq<string>, x: VarId)
    ensures x in HeroVars(assignments, hero, ships, positions) <==>
      exists s, p :: s in ships && p in positions && Key3(hero, s, p) in assignments.ids && assignments.ids[Key3(hero, s, p)] == x
  {
    if ships != [] {
      var init := ships[..|ships| - 1];
      var last := ships[|ships| - 1];
      HeroVarsMembers(assignments, hero, init, positions, x);
      SlotVarsMembers(assignments, hero, last, positions, x);
      assert ships == init + [last];
      if exists s, p :: s in ships && p in positions && Key3(hero, s, p) in assignments.ids && assignments.ids[Key3(hero, s, p)] == x {
        var s, p :| s in ships && p in positions && Key3(hero, s, p) in assignments.ids && assignments.ids[Key3(hero, s, p)] == x;
        if s != last {
          assert s in init;
        }
      }
    }
  }

  /** The posted constraints hold exactly when every hero's collected
      variables sum to at most 1 (an empty list sums to 0). */
  lemma HeroConstraintsMean(assignments: VarMap, heroes: seq<Hero>, ships: seq<string>, positions: seq<string>, val: seq<int>)
    ensures AllHold(HeroConstraintList(assignments, heroes, ships, positions), val) <==>
      forall i :: 0 <= i < |heroes| ==> SumVals(HeroVars(assignments, heroes[i].name, ships, positions), val) <= 1
  {
    var cs := HeroConstraintList(assignments, heroes, ships, positions);
    forall i | 0 <= i < |heroes|
      ensures Holds(cs[i], val) <==> SumVals(HeroVars(assignments, heroes[i].name, ships, positions), val) <= 1
    {
      EvalSum(HeroVars(assignments, heroes[i].name, ships, positions), val);
      EvalSimple(0, 0, 1, val);
    }
  }

  /** In any valuation satisfying the posted constraints, with 0/1
      assignment variables and names without `_`, a hero sits in at most one
      position of at most one ship. */
  lemma AtMostOnePosition(heroes: seq<Hero>, ships: seq<string>, positions: seq<string>, base: nat, val: seq<int>,
                          i: int, s1: string, p1: string, s2: string, p2: string)
    requires AllHold(HeroConstraintList(Assignments(heroes, ships, positions, base), heroes, ships, positions), val)
    requires Assignments(heroes, ships, positions, base).BoolValued(val)
    requires 0 <= i < |heroes| && Plain(heroes[i].name) && AllPlain(ships) && AllPlain(positions)
    requires s1 in ships && p1 in positions && s2 in ships && p2 in positions
    requires Seated(Assignments(heroes, ships, positions, base), val, heroes[i].name, s1, p1)
    requires Seated(Assignments(heroes, ships, positions, base), val, heroes[i].name, s2, p2)
    ensures s1 == s2 && p1 == p2
  {
    var a := Assignments(heroes, ships, positions, base);
    var h := heroes[i].name;
    var xs := HeroVars(a, h, ships, positions);
    var k1, k2 := Key3(h, s1, p1), Key3(h, s2, p2);
    HeroConstraintsMean(a, heroes, ships, positions, val);
    HeroVarsMembers(a, h, ships, positions, a.ids[k1]);
    HeroVarsMembers(a, h, ships, positions, a.ids[k2]);
    var u :| 0 <= u < |xs| && xs[u] == a.ids[k1];
    var w :| 0 <= w < |xs| && xs[w] == a.ids[k2];
    forall t | 0 <= t < |xs| ensures Value(val, xs[t]) >= 0 {
      HeroVarsMembers(a, h, ships, positions, xs[t]);
    }
    AtMostOneOn(xs, val);
    FirstMapInjective(AssignmentKeys(heroes, ships, positions), base, k1, k2);
    var c1 :| 0 <= c1 < |ships| && ships[c1] == s1;
    var c2 :| 0 <= c2 < |ships| && ships[c2] == s2;
    var d1 :| 0 <= d1 < |positions| && positions[d1] == p1;
    var d2 :| 0 <= d2 < |positions| && positions[d2] == p2;
    Key3Injective(h, s1, p1, h, s2, p2);
  }

  // ---------------------------------------------------------------------
  // The preference score.

  /** `CalculatePreferenceScore`: 10 for a preferred ship together with a
      preferred position, 1 for every other assignment. */
  function CalculatePreferenceScore(hero: Hero, ship: string, position: string): (score: int)
    ensures score == 1 || score == MaxScorePerHero
    ensures score == MaxScorePerHero <==> ship in hero.preferredShips && position in hero.preferredPositions
  {
    if ship in hero.preferredShips && position in hero.preferredPositions then 10 else 1
  }
}
