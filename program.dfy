/** Program.cs: the list of ships, the exclusion filters and the assembly of
    the whole model in `Main`. The lines read from the files and the names
    the user ticks in the two prompts are inputs. */
module Program {
  import opened Wrappers
  import opened Text
  import opened Keys
  import opened CpSat
  import opened VarMaps
  import opened Domain
  import opened VariableFactory
  import opened ShipConstraints
  import opened HeroConstraints
  import opened TrinketConstraints
  import opened ModelInitializer

  // ---------------------------------------------------------------------
  // Ships and exclusions.

  /** `heroes.SelectMany(hero => hero.PreferredShips)`. */
  function AllPreferredShips(heroes: seq<Hero>): seq<string> {
    if heroes == [] then []
    else AllPreferredShips(heroes[..|heroes| - 1]) + heroes[|heroes| - 1].preferredShips
  }

  /** `GetDistinctShips`: every preferred ship once, in order of first mention. */
  function GetDistinctShips(heroes: seq<Hero>): seq<string> {
    Dedup(AllPreferredShips(heroes))
  }

  lemma AllPreferredShipsMembers(heroes: seq<Hero>, s: string)
    ensures s in AllPreferredShips(heroes) <==> exists i :: 0 <= i < |heroes| && s in heroes[i].preferredShips
  {
    if s in AllPreferredShips(heroes) {
      PreferredShipSound(heroes, s);
    } else if exists i :: 0 <= i < |heroes| && s in heroes[i].preferredShips {
      var i :| 0 <= i < |heroes| && s in heroes[i].preferredShips;
      PreferredShipComplete(heroes, s, i);
    }
  }

  /** Every ship listed is preferred by some hero. */
  lemma {:induction false} PreferredShipSound(heroes: seq<Hero>, s: string)
    requires s in AllPreferredShips(heroes)
    ensures exists i :: 0 <= i < |heroes| && s in heroes[i].preferredShips
  {
    var n := |heroes| - 1;
    if s in heroes[n].preferredShips {
      assert 0 <= n < |heroes| && s in heroes[n].preferredShips;
    } else {
      PreferredShipSound(heroes[..n], s);
      var i :| 0 <= i < n && s in heroes[..n][i].preferredShips;
      assert heroes[i] == heroes[..n][i];
    }
  }

  /** Every ship a hero prefers is listed. */
  lemma {:induction false} PreferredShipComplete(heroes: seq<Hero>, s: string, i: int)
    requires 0 <= i < |heroes| && s in heroes[i].preferredShips
    ensures s in AllPreferredShips(heroes)
  {
    var n := |heroes| - 1;
    if i < n {
      assert heroes[..n][i] == heroes[i];
      PreferredShipComplete(heroes[..n], s, i);
    }
  }

  /** The ship list holds every ship some hero prefers, each exactly once,
      and nothing else. */
  lemma DistinctShips(heroes: seq<Hero>, s: string)
    ensures Distinct(GetDistinctShips(heroes))
    ensures s in GetDistinctShips(heroes) <==> exists i :: 0 <= i < |heroes| && s in heroes[i].preferredShips
  {
    AllPreferredShipsMembers(heroes, s);
  }

  /** `heroes.Except(heroes.Where(hero => exclusions.Contains(hero.Name)))`:
      heroes are compared by reference, and every hero read is a separate
      object, so this keeps, in order, each hero whose name was not ticked. */
  function RemoveExcludedHeroes(heroes: seq<Hero>, exclusions: seq<string>): seq<Hero> {
    if heroes == [] then []
    else
      var hero := heroes[|heroes| - 1];
      RemoveExcludedHeroes(heroes[..|heroes| - 1], exclusions) + (if hero.name in exclusions then [] else [hero])
  }

  /** No excluded hero remains, every other hero is kept, and the order of
      the kept heroes is their order in the input. */
  lemma RemoveExcludedHeroesMeans(heroes: seq<Hero>, exclusions: seq<string>, hero: Hero)
    ensures hero in RemoveExcludedHeroes(heroes, exclusions) <==> hero in heroes && hero.name !in exclusions
    ensures (forall i :: 0 <= i < |heroes| ==> heroes[i].name !in exclusions) ==> RemoveExcludedHeroes(heroes, exclusions) == heroes
  {
    RemovedMembers(heroes, exclusions, hero);
    if forall i :: 0 <= i < |heroes| ==> heroes[i].name !in exclusions {
      NothingRemoved(heroes, exclusions);
    }
  }

  /** A hero remains exactly when it was read and its name was not ticked. */
  lemma {:induction false} RemovedMembers(heroes: seq<Hero>, exclusions: seq<string>, hero: Hero)
    ensures hero in RemoveExcludedHeroes(heroes, exclusions) <==> hero in heroes && hero.name !in exclusions
  {
    if heroes != [] {
      var n := |heroes| - 1;
      RemovedMembers(heroes[..n], exclusions, hero);
      assert heroes == heroes[..n] + [heroes[n]];
    }
  }

  /** With no hero's name ticked, the hero list is unchanged. */
  lemma NothingRemoved(heroes: seq<Hero>, exclusions: seq<string>)
    requires forall i :: 0 <= i < |heroes| ==> heroes[i].name !in exclusions
    ensures RemoveExcludedHeroes(heroes, exclusions) == heroes
  {
    NothingRemovedUpTo(heroes, exclusions, |heroes|);
    assert heroes[..|heroes|] == heroes;
  }

  lemma {:induction false} NothingRemovedUpTo(heroes: seq<Hero>, exclusions: seq<string>, k: nat)
    requires forall i :: 0 <= i < |heroes| ==> heroes[i].name !in exclusions
    requires k <= |heroes|
    ensures RemoveExcludedHeroes(heroes[..k], exclusions) == heroes[..k]
  {
    if k > 0 {
      NothingRemovedUpTo(heroes, exclusions, k - 1);
      assert heroes[..k][..k - 1] == heroes[..k - 1];
      assert heroes[..k] == heroes[..k - 1] + [heroes[k - 1]];
    }
  }

  /** The ships not in `excluded`, in order. */
  function KeepShips(ships: seq<string>, excluded: seq<string>): seq<string> {
    if ships == [] then []
    else
      var ship := ships[|ships| - 1];
      KeepShips(ships[..|ships| - 1], excluded) + (if ship in excluded then [] else [ship])
  }

  /** `ships.Except(excludedShips)`: the ships not excluded, each once. */
  function ExceptShips(ships: seq<string>, excluded: seq<string>): seq<string> {
    Dedup(KeepShips(ships, excluded))
  }

  lemma {:induction false} KeepShipsMembers(ships: seq<string>, excluded: seq<string>, s: string)
    ensures s in KeepShips(ships, excluded) <==> s in ships && s !in excluded
  {
    if ships != [] {
      var n := |ships| - 1;
      KeepShipsMembers(ships[..n], excluded, s);
      assert ships == ships[..n] + [ships[n]];
    }
  }

  lemma {:induction false} KeepShipsDistinct(ships: seq<string>, excluded: seq<string>)
    requires Distinct(ships)
    ensures Distinct(KeepShips(ships, excluded))
  {
    if ships != [] {
      var n := |ships| - 1;
      var init := ships[..n];
      assert Distinct(init) by {
        forall i, j | 0 <= i < j < |init| ensures init[i] != init[j] {
          assert init[i] == ships[i] && init[j] == ships[j];
        }
      }
      KeepShipsDistinct(init, excluded);
      forall x | x in KeepShips(init, excluded) ensures x !in [ships[n]] {
        KeepShipsMembers(init, excluded, x);
        var i :| 0 <= i < |init| && init[i] == x;
        assert ships[i] == x;
      }
      DistinctConcat(KeepShips(init, excluded), if ships[n] in excluded then [] else [ships[n]]);
    }
  }

  /** No excluded ship remains and every other ship is kept; a list
      without repetitions keeps its order. */
  lemma ExceptShipsMeans(ships: seq<string>, excluded: seq<string>, s: string)
    ensures s in ExceptShips(ships, excluded) <==> s in ships && s !in excluded
    ensures Distinct(ExceptShips(ships, excluded))
    ensures Distinct(ships) ==> ExceptShips(ships, excluded) == KeepShips(ships, excluded)
  {
    KeepShipsMembers(ships, excluded, s);
    if Distinct(ships) {
      KeepShipsDistinct(ships, excluded);
      DedupOfDistinct(KeepShips(ships, excluded));
    }
  }

  // ---------------------------------------------------------------------
  // The model `Main` builds.

  /** The ship, hero and trinket rules, in the order `Main` posts them. */
  function Rules(assignments: VarMap, holds: VarMap, active: VarMap, heroes: seq<Hero>, trinkets: seq<Trinket>,
                 ships: seq<string>, positions: seq<string>): seq<Constraint>
    requires assignments.Valid() && holds.Valid() && active.Valid() && forall s :: s in ships ==> s in active.ids
  {
    ShipConstraintList(assignments, active, ships, positions)
      + HeroConstraintList(assignments, heroes, ships, positions)
      + TrinketConstraintList(holds, heroes, trinkets)
  }

  /** What a score initialiser posts when its total is variable `total`:
      the contribution definitions, then `Sum == total`. */
  function ScoreDefinition(comps: seq<Scored>, total: VarId): seq<Constraint> {
    ContribConstraints(comps, total + 1) + [TotalConstraint(total + 1, |comps|, total)]
  }

  /** `overallTotalScore == totalScoreForHeroes + totalScoreForTrinkets`. */
  function OverallConstraint(overall: VarId, heroTotal: VarId, trinketTotal: VarId): Constraint {
    Constraint(Var(overall), Equal, Sum([heroTotal, trinketTotal]))
  }

  /** The hero score, the trinket score and the overall score, the hero
      total being variable `base`. */
  function Scoring(heroScored: seq<Scored>, trinketScored: seq<Scored>, base: nat): seq<Constraint> {
    var trinketTotal := base + 1 + |heroScored|;
    ScoreDefinition(heroScored, base) + ScoreDefinition(trinketScored, trinketTotal)
      + [OverallConstraint(trinketTotal + 1 + |trinketScored|, base, trinketTotal)]
  }

  /** The constraints `InitializeHeroes`, `InitializeTrinkets` and the
      overall score add for these dictionaries, numbered from `base`. */
  function ScoreConstraints(assignments: VarMap, holds: VarMap, heroes: seq<Hero>, positions: seq<string>, base: nat): seq<Constraint> {
    Scoring(HeroScored(assignments, heroes, positions), HeroTrinketScored(holds, heroes), base)
  }

  /** How many decision variables `Main` declares: one per assignment key,
      one per hero and trinket, one per ship. */
  function DecisionCount(assignments: VarMap, heroes: seq<Hero>, trinkets: seq<Trinket>, ships: seq<string>): nat {
    ShipBase(assignments, heroes, trinkets) + |ships|
  }

  /** The first ship variable: after the assignment variables and the hero
      and trinket variables. */
  function ShipBase(assignments: VarMap, heroes: seq<Hero>, trinkets: seq<Trinket>): nat {
    |assignments.order| + |HoldKeys(heroes, trinkets)|
  }

  lemma FirstMapBelow(seen: seq<string>, base: nat)
    ensures FirstMap(seen, base).IdsBelow(base + |FirstMap(seen, base).order|)
  {
    var m := FirstMap(seen, base);
    FirstMapRegisters(seen, base);
    forall k | k in m.ids ensures m.ids[k] < base + |m.order| {
      var t :| 0 <= t < |m.order| && m.order[t] == k;
    }
  }

  lemma LastMapBelow(seen: seq<string>, base: nat)
    ensures LastMap(seen, base).IdsBelow(base + |seen|)
    ensures forall k :: k in seen ==> k in LastMap(seen, base).ids
  {
    forall k ensures (k in LastMap(seen, base).ids ==> LastMap(seen, base).ids[k] < base + |seen|)
                  && (k in seen ==> k in LastMap(seen, base).ids) {
      LastMapEntry(seen, base, k);
    }
  }

  lemma BelowMore(m: VarMap, n: nat, k: nat)
    requires m.IdsBelow(n) && n <= k
    ensures m.IdsBelow(k)
  {
  }

  /** `Main` lines 29 to 31: the three dictionaries of decision variables,
      created in an empty model before any constraint. */
  method CreateDecisionVariables(model: CpModel, heroes: seq<Hero>, trinkets: seq<Trinket>, ships: seq<string>, positions: seq<string>)
    returns (assignments: VarMap, trinketAssignments: VarMap, shipActiveVars: VarMap)
    requires model.Valid() && model.vars == [] && model.constraints == [] && model.objective == None
    modifies model
    ensures model.Valid() && model.constraints == [] && model.objective == None
    ensures assignments == Assignments(heroes, ships, positions, 0)
    ensures trinketAssignments == Holdings(heroes, trinkets, |assignments.order|)
    ensures shipActiveVars == LastMap(ships, ShipBase(assignments, heroes, trinkets))
    ensures model.vars == BoolDecls(assignments.order) + BoolDecls(HoldKeys(heroes, trinkets)) + BoolDecls(ActiveNames(ships))
    ensures |model.vars| == DecisionCount(assignments, heroes, trinkets, ships)
    ensures assignments.IdsBelow(|model.vars|) && trinketAssignments.IdsBelow(|model.vars|) && shipActiveVars.IdsBelow(|model.vars|)
    ensures shipActiveVars.Valid() && forall s :: s in ships ==> s in shipActiveVars.ids
  {
    assignments := CreateAssignmentVariables(model, heroes, ships, positions);
    ghost var d1 := BoolDecls(assignments.order);
    NothingBefore(d1);
    ghost var holdBase := |model.vars|;
    trinketAssignments := CreateTrinketAssignmentVariables(model, heroes, trinkets);
    ghost var d2 := BoolDecls(HoldKeys(heroes, trinkets));
    ghost var shipBase := |model.vars|;
    shipActiveVars := CreateShipActiveVariables(model, ships);
    assert shipBase == ShipBase(assignments, heroes, trinkets);
    assert model.vars == d1 + d2 + BoolDecls(ActiveNames(ships));
    FirstMapWithin(AssignmentKeys(heroes, ships, positions), assignments, |model.vars|);
    LastMapWithin(HoldKeys(heroes, trinkets), holdBase, trinketAssignments, |model.vars|);
    LastMapWithin(ships, shipBase, shipActiveVars, |model.vars|);
  }

  /** The dictionary of first occurrences names only the variables declared
      for it. */
  lemma FirstMapWithin(seen: seq<string>, m: VarMap, n: nat)
    requires m == FirstMap(seen, 0) && |m.order| <= n
    ensures m.IdsBelow(n)
  {
    FirstMapBelow(seen, 0);
    BelowMore(m, |m.order|, n);
  }

  /** The dictionary of last occurrences names only the variables declared
      for it, and holds every key visited. */
  lemma LastMapWithin(seen: seq<string>, base: nat, m: VarMap, n: nat)
    requires m == LastMap(seen, base) && base + |seen| <= n
    ensures m.IdsBelow(n) && m.Valid() && forall s :: s in seen ==> s in m.ids
  {
    LastMapBelow(seen, base);
    LastMapRegisters(seen, base);
    BelowMore(m, base + |seen|, n);
  }

  /** `Main` lines 34 to 36: the ship, hero and trinket rules. */
  method PostRules(model: CpModel, assignments: VarMap, trinketAssignments: VarMap, shipActiveVars: VarMap,
                   heroes: seq<Hero>, trinkets: seq<Trinket>, ships: seq<string>, positions: seq<string>)
    requires model.Valid() && assignments.Valid() && trinketAssignments.Valid() && shipActiveVars.Valid()
    requires assignments.IdsBelow(|model.vars|) && trinketAssignments.IdsBelow(|model.vars|) && shipActiveVars.IdsBelow(|model.vars|)
    requires forall s :: s in ships ==> s in shipActiveVars.ids
    modifies model
    ensures model.Valid()
    ensures model.constraints == old(model.constraints) + Rules(assignments, trinketAssignments, shipActiveVars, heroes, trinkets, ships, positions)
    ensures model.vars == old(model.vars) && model.objective == old(model.objective)
  {
    ghost var cs0 := model.constraints;
    AddShipAndHeroConstraints(model, assignments, shipActiveVars, ships, positions);
    ghost var shipRules := ShipConstraintList(assignments, shipActiveVars, ships, positions);
    AddHeroAssignmentConstraints(model, assignments, heroes, ships, positions);
    ghost var heroRules := HeroConstraintList(assignments, heroes, ships, positions);
    AddTrinketConstraints(model, trinketAssignments, heroes, trinkets);
    ghost var trinketRules := TrinketConstraintList(trinketAssignments, heroes, trinkets);
    AppendAssocFour(cs0, shipRules, heroRules, trinketRules);
  }

  /** The constraints the score initialisers and the overall score add,
      one group after the other. */
  lemma TotalsAfter(cs: seq<Constraint>, assignments: VarMap, holds: VarMap, heroes: seq<Hero>, positions: seq<string>, base: nat)
    ensures cs + ScoreDefinition(HeroScored(assignments, heroes, positions), base)
      + ScoreDefinition(HeroTrinketScored(holds, heroes), base + 1 + |HeroScored(assignments, heroes, positions)|)
      + [OverallConstraint(base + 1 + |HeroScored(assignments, heroes, positions)| + 1 + |HeroTrinketScored(holds, heroes)|,
                           base, base + 1 + |HeroScored(assignments, heroes, positions)|)]
      == cs + ScoreConstraints(assignments, holds, heroes, positions, base)
  {
  }

  /** `Main` lines 38 to 39: the hero score total, then the trinket score total. */
  method PostTotals(model: CpModel, assignments: VarMap, trinketAssignments: VarMap, heroes: seq<Hero>,
                    ships: seq<string>, positions: seq<string>)
    returns (totalScoreForHeroes: VarId, totalScoreForTrinkets: VarId)
    requires model.Valid() && assignments.IdsBelow(|model.vars|) && trinketAssignments.IdsBelow(|model.vars|)
    modifies model
    ensures model.Valid()
    ensures totalScoreForHeroes == |old(model.vars)|
    ensures totalScoreForTrinkets == totalScoreForHeroes + 1 + |HeroScored(assignments, heroes, positions)|
    ensures |model.vars| == totalScoreForTrinkets + 1 + |HeroTrinketScored(trinketAssignments, heroes)|
    ensures model.vars[..|old(model.vars)|] == old(model.vars)
    ensures model.constraints == old(model.constraints)
      + ScoreDefinition(HeroScored(assignments, heroes, positions), totalScoreForHeroes)
      + ScoreDefinition(HeroTrinketScored(trinketAssignments, heroes), totalScoreForTrinkets)
    ensures model.objective == old(model.objective)
  {
    ghost var vars0 := model.vars;
    totalScoreForHeroes := InitializeTotalScoreForHeroes(model, assignments, heroes, ships, positions);
    totalScoreForTrinkets := InitializeTotalScoreForTrinkets(model, trinketAssignments, heroes);
    assert model.vars[..|vars0|] == vars0;
  }

  /** `Main` lines 38 to 46: the two score totals, the overall score with
      domain `[0, |heroes| * 20]`, and the objective that maximises it. */
  method PostScores(model: CpModel, assignments: VarMap, trinketAssignments: VarMap, heroes: seq<Hero>,
                    ships: seq<string>, positions: seq<string>)
    returns (overallTotalScore: VarId)
    requires model.Valid() && assignments.IdsBelow(|model.vars|) && trinketAssignments.IdsBelow(|model.vars|)
    modifies model
    ensures model.Valid()
    ensures overallTotalScore == |model.vars| - 1
      == |old(model.vars)| + 1 + |HeroScored(assignments, heroes, positions)| + 1 + |HeroTrinketScored(trinketAssignments, heroes)|
    ensures model.vars[..|old(model.vars)|] == old(model.vars)
    ensures model.constraints == old(model.constraints)
      + ScoreConstraints(assignments, trinketAssignments, heroes, positions, |old(model.vars)|)
    ensures model.vars[overallTotalScore] == VarDecl(0, |heroes| * (MaxScorePerHero + MaxScorePerTrinket), "overallTotalScore")
    ensures model.objective == Some(Var(overallTotalScore))
  {
    ghost var vars0 := model.vars;
    ghost var cs0 := model.constraints;
    var totalScoreForHeroes, totalScoreForTrinkets := PostTotals(model, assignments, trinketAssignments, heroes, ships, positions);
    ghost var vars1 := model.vars;
    var combinedMaxScore := |heroes| * (MaxScorePerHero + MaxScorePerTrinket);
    overallTotalScore := model.NewIntVar(0, combinedMaxScore, "overallTotalScore");
    SumOver([totalScoreForHeroes, totalScoreForTrinkets], |model.vars|);
    model.Add(OverallConstraint(overallTotalScore, totalScoreForHeroes, totalScoreForTrinkets));
    model.Maximize(Var(overallTotalScore));
    assert model.vars[..|vars0|] == vars1[..|vars0|];
    TotalsAfter(cs0, assignments, trinketAssignments, heroes, positions, |vars0|);
  }

  /** `Main` from `new CpModel()` to the last rule: a new model, the
      decision variables and the rules, before any score. */
  method StartModel(heroes: seq<Hero>, trinkets: seq<Trinket>, ships: seq<string>, positions: seq<string>)
    returns (model: CpModel, assignments: VarMap, trinketAssignments: VarMap, shipActiveVars: VarMap)
    ensures fresh(model) && model.Valid()
    ensures assignments == Assignments(heroes, ships, positions, 0)
    ensures trinketAssignments == Holdings(heroes, trinkets, |assignments.order|)
    ensures shipActiveVars == LastMap(ships, ShipBase(assignments, heroes, trinkets))
    ensures shipActiveVars.Valid() && forall s :: s in ships ==> s in shipActiveVars.ids
    ensures model.vars == BoolDecls(assignments.order) + BoolDecls(HoldKeys(heroes, trinkets)) + BoolDecls(ActiveNames(ships))
    ensures |model.vars| == DecisionCount(assignments, heroes, trinkets, ships)
    ensures assignments.IdsBelow(|model.vars|) && trinketAssignments.IdsBelow(|model.vars|)
    ensures model.constraints == Rules(assignments, trinketAssignments, shipActiveVars, heroes, trinkets, ships, positions)
    ensures model.objective == None
  {
    model := new CpModel();
    assignments, trinketAssignments, shipActiveVars := CreateDecisionVariables(model, heroes, trinkets, ships, positions);
    PostRules(model, assignments, trinketAssignments, shipActiveVars, heroes, trinkets, ships, positions);
    NothingBefore(Rules(assignments, trinketAssignments, shipActiveVars, heroes, trinkets, ships, positions));
  }

  /** `Main` from `new CpModel()` to `Maximize`, for the heroes, ships and
      positions left after the filters: a new model, the decision
      variables, the rules and the scores. */
  method AssembleModel(heroes: seq<Hero>, trinkets: seq<Trinket>, ships: seq<string>, positions: seq<string>)
    returns (model: CpModel, assignments: VarMap, trinketAssignments: VarMap, shipActiveVars: VarMap, overallTotalScore: VarId)
    ensures fresh(model) && model.Valid()
    ensures assignments == Assignments(heroes, ships, positions, 0)
    ensures trinketAssignments == Holdings(heroes, trinkets, |assignments.order|)
    ensures shipActiveVars == LastMap(ships, ShipBase(assignments, heroes, trinkets))
    ensures shipActiveVars.Valid() && forall s :: s in ships ==> s in shipActiveVars.ids
    ensures DecisionCount(assignments, heroes, trinkets, ships) < |model.vars|
    ensures model.vars[..DecisionCount(assignments, heroes, trinkets, ships)]
      == BoolDecls(assignments.order) + BoolDecls(HoldKeys(heroes, trinkets)) + BoolDecls(ActiveNames(ships))
    ensures model.constraints == Rules(assignments, trinketAssignments, shipActiveVars, heroes, trinkets, ships, positions)
      + ScoreConstraints(assignments, trinketAssignments, heroes, positions, DecisionCount(assignments, heroes, trinkets, ships))
    ensures overallTotalScore == |model.vars| - 1
    ensures model.vars[overallTotalScore] == VarDecl(0, |heroes| * (MaxScorePerHero + MaxScorePerTrinket), "overallTotalScore")
    ensures model.objective == Some(Var(overallTotalScore))
  {
    model, assignments, trinketAssignments, shipActiveVars := StartModel(heroes, trinkets, ships, positions);
    ghost var started := model.constraints;
    ghost var declared := |model.vars|;
    overallTotalScore := PostScores(model, assignments, trinketAssignments, heroes, ships, positions);
    ScoresAfterRules(started, Rules(assignments, trinketAssignments, shipActiveVars, heroes, trinkets, ships, positions),
                     assignments, trinketAssignments, heroes, positions,
                     declared, DecisionCount(assignments, heroes, trinkets, ships), model.constraints);
    DeclarationsKept(model.vars, BoolDecls(assignments.order) + BoolDecls(HoldKeys(heroes, trinkets)) + BoolDecls(ActiveNames(ships)),
                     declared, DecisionCount(assignments, heroes, trinkets, ships));
  }

  /** The scores only add variables after the decision variables. */
  lemma DeclarationsKept(vars: seq<VarDecl>, decls: seq<VarDecl>, declared: nat, decisionVars: nat)
    requires declared == decisionVars <= |vars| && vars[..declared] == decls
    ensures vars[..decisionVars] == decls
  {
  }

  /** The scores are posted after the rules, numbered from the first
      variable after the decision variables. */
  lemma ScoresAfterRules(started: seq<Constraint>, rules: seq<Constraint>, assignments: VarMap, holds: VarMap,
                         heroes: seq<Hero>, positions: seq<string>, declared: nat, decisionVars: nat, posted: seq<Constraint>)
    requires started == rules && declared == decisionVars
    requires posted == started + ScoreConstraints(assignments, holds, heroes, positions, declared)
    ensures posted == rules + ScoreConstraints(assignments, holds, heroes, positions, decisionVars)
  {
  }

  /** `Main` from the ship list to `Maximize`: the ships every hero prefers,
      the heroes and ships left after the two exclusion prompts, and the
      model assembled over them with the positions Captain, First Mate and
      Gunner. */
  method BuildModel(heroesRead: seq<Hero>, trinkets: seq<Trinket>, excludedHeroNames: seq<string>, excludedShips: seq<string>)
    returns (model: CpModel, heroes: seq<Hero>, ships: seq<string>,
             assignments: VarMap, trinketAssignments: VarMap, shipActiveVars: VarMap, overallTotalScore: VarId)
    ensures fresh(model) && model.Valid()
    ensures heroes == RemoveExcludedHeroes(heroesRead, excludedHeroNames)
    ensures ships == ExceptShips(GetDistinctShips(heroesRead), excludedShips)
    ensures assignments == Assignments(heroes, ships, Positions, 0)
    ensures trinketAssignments == Holdings(heroes, trinkets, |assignments.order|)
    ensures shipActiveVars == LastMap(ships, ShipBase(assignments, heroes, trinkets))
    ensures shipActiveVars.Valid() && forall s :: s in ships ==> s in shipActiveVars.ids
    ensures DecisionCount(assignments, heroes, trinkets, ships) < |model.vars|
    ensures model.vars[..DecisionCount(assignments, heroes, trinkets, ships)]
      == BoolDecls(assignments.order) + BoolDecls(HoldKeys(heroes, trinkets)) + BoolDecls(ActiveNames(ships))
    ensures model.constraints == Rules(assignments, trinketAssignments, shipActiveVars, heroes, trinkets, ships, Positions)
      + ScoreConstraints(assignments, trinketAssignments, heroes, Positions, DecisionCount(assignments, heroes, trinkets, ships))
    ensures overallTotalScore == |model.vars| - 1
    ensures model.vars[overallTotalScore] == VarDecl(0, |heroes| * (MaxScorePerHero + MaxScorePerTrinket), "overallTotalScore")
    ensures model.objective == Some(Var(overallTotalScore))
    ensures Assembled(heroes, trinkets, ships, assignments, trinketAssignments, shipActiveVars, model.vars, model.constraints)
  {
    ships := GetDistinctShips(heroesRead);
    heroes := RemoveExcludedHeroes(heroesRead, excludedHeroNames);
    ships := ExceptShips(ships, excludedShips);
    var positions := Positions;
    model, assignments, trinketAssignments, shipActiveVars, overallTotalScore := AssembleModel(heroes, trinkets, ships, positions);
  }

  // ---------------------------------------------------------------------
  // What a solution of the assembled model means.

  /** In any valuation that satisfies every posted constraint, the overall
      score is the weighted sum of the preferred seats taken plus the
      weighted sum of the preferred trinkets held. */
  lemma OverallScore(heroScored: seq<Scored>, trinketScored: seq<Scored>, base: nat, rules: seq<Constraint>, val: seq<int>)
    requires AllHold(rules + Scoring(heroScored, trinketScored, base), val)
    ensures Value(val, base + 1 + |heroScored| + 1 + |trinketScored|) == Weighted(heroScored, val) + Weighted(trinketScored, val)
  {
    var trinketTotal := base + 1 + |heroScored|;
    var overall := trinketTotal + 1 + |trinketScored|;
    var heroPart := ScoreDefinition(heroScored, base);
    var trinketPart := ScoreDefinition(trinketScored, trinketTotal);
    var last := [OverallConstraint(overall, base, trinketTotal)];
    AllHoldAppend(rules, heroPart + trinketPart + last, val);
    AllHoldAppend(heroPart + trinketPart, last, val);
    AllHoldAppend(heroPart, trinketPart, val);
    TotalIsWeightedSum(heroScored, base, val);
    TotalIsWeightedSum(trinketScored, trinketTotal, val);
    assert Holds(last[0], val);
    EvalSimple(overall, 0, 0, val);
    EvalSum([base, trinketTotal], val);
    assert SumVals([base, trinketTotal], val) == Value(val, base) + Value(val, trinketTotal) by {
      assert [base][..0] == [];
      assert SumVals([base], val) == Value(val, base);
      assert [base, trinketTotal][..1] == [base];
    }
  }

  /** A valuation that satisfies the rules and whatever is posted after
      them satisfies each of the three groups of rules. */
  lemma RulesHold(assignments: VarMap, holds: VarMap, active: VarMap, heroes: seq<Hero>, trinkets: seq<Trinket>,
                  ships: seq<string>, positions: seq<string>, scoring: seq<Constraint>, val: seq<int>)
    requires assignments.Valid() && holds.Valid() && active.Valid() && forall s :: s in ships ==> s in active.ids
    requires AllHold(Rules(assignments, holds, active, heroes, trinkets, ships, positions) + scoring, val)
    ensures AllHold(ShipConstraintList(assignments, active, ships, positions), val)
    ensures AllHold(HeroConstraintList(assignments, heroes, ships, positions), val)
    ensures AllHold(TrinketConstraintList(holds, heroes, trinkets), val)
  {
    var shipRules := ShipConstraintList(assignments, active, ships, positions);
    var heroRules := HeroConstraintList(assignments, heroes, ships, positions);
    var trinketRules := TrinketConstraintList(holds, heroes, trinkets);
    AllHoldAppend(Rules(assignments, holds, active, heroes, trinkets, ships, positions), scoring, val);
    AllHoldAppend(shipRules + heroRules, trinketRules, val);
    AllHoldAppend(shipRules, heroRules, val);
  }

  /** The three position names do not contain the key separator. */
  lemma PositionsPlain()
    ensures AllPlain(Positions)
  {
    forall i | 0 <= i < |Positions| ensures Plain(Positions[i]) {
      var p := Positions[i];
      forall k | 0 <= k < |p| ensures p[k] != Sep {
      }
    }
  }

  /** In any valuation with 0/1 decision variables that satisfies the rules
      `Main` posts, whatever follows them, and names without `_`, no hero
      holds two seats. */
  lemma OneSeatPerHero(heroes: seq<Hero>, holds: VarMap, active: VarMap, trinkets: seq<Trinket>,
                       ships: seq<string>, scoring: seq<Constraint>, val: seq<int>, i: int, s1: string, p1: string, s2: string, p2: string)
    requires holds.Valid() && active.Valid() && forall s :: s in ships ==> s in active.ids
    requires AllHold(Rules(Assignments(heroes, ships, Positions, 0), holds, active, heroes, trinkets, ships, Positions) + scoring, val)
    requires Assignments(heroes, ships, Positions, 0).BoolValued(val)
    requires AllPlain(HeroNames(heroes)) && AllPlain(ships)
    requires 0 <= i < |heroes| && s1 in ships && s2 in ships && p1 in Positions && p2 in Positions
    requires Seated(Assignments(heroes, ships, Positions, 0), val, heroes[i].name, s1, p1)
    requires Seated(Assignments(heroes, ships, Positions, 0), val, heroes[i].name, s2, p2)
    ensures s1 == s2 && p1 == p2
  {
    RulesHold(Assignments(heroes, ships, Positions, 0), holds, active, heroes, trinkets, ships, Positions, scoring, val);
    assert HeroNames(heroes)[i] == heroes[i].name;
    PositionsPlain();
    AtMostOnePosition(heroes, ships, Positions, 0, val, i, s1, p1, s2, p2);
  }

  /** In any valuation with 0/1 trinket variables that satisfies the rules
      `Main` posts, whatever follows them, and names without `_`, no hero
      holds two trinkets. */
  lemma OneTrinketEach(assignments: VarMap, active: VarMap, heroes: seq<Hero>, trinkets: seq<Trinket>, ships: seq<string>,
                       positions: seq<string>, base: nat, scoring: seq<Constraint>, val: seq<int>, i: int, t1: string, t2: string)
    requires assignments.Valid() && active.Valid() && forall s :: s in ships ==> s in active.ids
    requires AllHold(Rules(assignments, Holdings(heroes, trinkets, base), active, heroes, trinkets, ships, positions) + scoring, val)
    requires Holdings(heroes, trinkets, base).BoolValued(val)
    requires 0 <= i < |heroes| && Plain(heroes[i].name) && Plain(t1) && Plain(t2)
    requires Holding(Holdings(heroes, trinkets, base), val, heroes[i].name, t1)
    requires Holding(Holdings(heroes, trinkets, base), val, heroes[i].name, t2)
    ensures t1 == t2
  {
    RulesHold(assignments, Holdings(heroes, trinkets, base), active, heroes, trinkets, ships, positions, scoring, val);
    OneTrinketPerHero(heroes, trinkets, base, val, i, t1, t2);
  }

  /** In any valuation with 0/1 decision variables that satisfies the rules
      `Main` posts, whatever follows them, over names the substring filters
      cannot confuse: four ships are active, each position of an active ship
      holds one hero and no position of an inactive ship any, and an active
      ship's crew numbers three. */
  lemma ShipsManned(heroes: seq<Hero>, holds: VarMap, active: VarMap, trinkets: seq<Trinket>,
                    ships: seq<string>, scoring: seq<Constraint>, val: seq<int>, ship: string)
    requires holds.Valid() && active.Valid() && forall s :: s in ships ==> s in active.ids
    requires AllHold(Rules(Assignments(heroes, ships, Positions, 0), holds, active, heroes, trinkets, ships, Positions) + scoring, val)
    requires Assignments(heroes, ships, Positions, 0).BoolValued(val) && active.BoolValued(val)
    requires Separated(HeroNames(heroes), ships, Positions)
    requires ship in ships
    ensures CountOnes(active.Values(), val) == 4
    ensures Value(val, active.ids[ship]) == 1 ==> forall position :: position in Positions ==>
      exists i :: 0 <= i < |heroes| && Seated(Assignments(heroes, ships, Positions, 0), val, heroes[i].name, ship, position)
    ensures Value(val, active.ids[ship]) == 0 ==> forall i, position :: 0 <= i < |heroes| && position in Positions ==>
      !Seated(Assignments(heroes, ships, Positions, 0), val, heroes[i].name, ship, position)
    ensures CountOnes(CrewMembers(Assignments(heroes, ships, Positions, 0), ship), val) == 3 * Value(val, active.ids[ship])
  {
    var a := Assignments(heroes, ships, Positions, 0);
    RulesHold(a, holds, active, heroes, trinkets, ships, Positions, scoring, val);
    forall i | 0 <= i < |active.Values()| ensures 0 <= Value(val, active.Values()[i]) <= 1 {
      assert active.order[i] in active.ids;
    }
    FourShipsActive(a, active, ships, Positions, val);
    ThreeHeroesPerActiveShip(heroes, ships, Positions, 0, active, val, ship);
    forall position | position in Positions
      ensures Value(val, active.ids[ship]) == 1 ==> exists i :: 0 <= i < |heroes| && Seated(a, val, heroes[i].name, ship, position)
      ensures Value(val, active.ids[ship]) == 0 ==> forall i :: 0 <= i < |heroes| ==> !Seated(a, val, heroes[i].name, ship, position)
    {
      OneHeroPerPosition(heroes, ships, Positions, 0, active, val, ship, position);
    }
  }

  /** With fewer than four ships left after the exclusion prompt, no
      valuation with 0/1 active flags satisfies the rules `Main` posts: the
      fleet rule asks for exactly four. */
  lemma FewShipsNoSolution(assignments: VarMap, holds: VarMap, heroes: seq<Hero>, trinkets: seq<Trinket>,
                           ships: seq<string>, positions: seq<string>, base: nat, scoring: seq<Constraint>, val: seq<int>)
    requires assignments.Valid() && holds.Valid()
    requires |ships| < 4 && LastMap(ships, base).BoolValued(val)
    ensures LastMap(ships, base).Valid() && forall s :: s in ships ==> s in LastMap(ships, base).ids
    ensures !AllHold(Rules(assignments, holds, LastMap(ships, base), heroes, trinkets, ships, positions) + scoring, val)
  {
    var active := LastMap(ships, base);
    LastMapRegisters(ships, base);
    forall s | s in ships ensures s in active.ids {
      LastMapEntry(ships, base, s);
    }
    if AllHold(Rules(assignments, holds, active, heroes, trinkets, ships, positions) + scoring, val) {
      RulesHold(assignments, holds, active, heroes, trinkets, ships, positions, scoring, val);
      NoSolutionBelowFourShips(assignments, active, ships, positions, val);
      assert false;
    }
  }

  // ---------------------------------------------------------------------
  // What a solver's answer for the assembled model means.

  /** The state `BuildModel` leaves for the heroes, trinkets and ships it
      kept: the factories' three dictionaries, their Boolean variables first
      among the model's, and the rules followed by the scores. */
  ghost predicate Assembled(heroes: seq<Hero>, trinkets: seq<Trinket>, ships: seq<string>,
                            assignments: VarMap, holds: VarMap, active: VarMap,
                            vars: seq<VarDecl>, constraints: seq<Constraint>) {
    && assignments == Assignments(heroes, ships, Positions, 0)
    && holds == Holdings(heroes, trinkets, |assignments.order|)
    && active == LastMap(ships, ShipBase(assignments, heroes, trinkets))
    && active.Valid() && (forall s :: s in ships ==> s in active.ids)
    && DecisionCount(assignments, heroes, trinkets, ships) < |vars|
    && vars[..DecisionCount(assignments, heroes, trinkets, ships)]
         == BoolDecls(assignments.order) + BoolDecls(HoldKeys(heroes, trinkets)) + BoolDecls(ActiveNames(ships))
    && constraints == Rules(assignments, holds, active, heroes, trinkets, ships, Positions)
         + ScoreConstraints(assignments, holds, heroes, Positions, DecisionCount(assignments, heroes, trinkets, ships))
  }

  /** Every declaration `NewBoolVar` makes has domain {0, 1}. */
  lemma BoolDeclsBoolean(names: seq<string>)
    ensures forall i :: 0 <= i < |BoolDecls(names)| ==> BoolDecls(names)[i].lo == 0 && BoolDecls(names)[i].hi == 1
  {
    forall i | 0 <= i < |BoolDecls(names)| ensures BoolDecls(names)[i].lo == 0 && BoolDecls(names)[i].hi == 1 {
      BoolDeclsAt(names, i);
    }
  }

  /** A valuation inside the declared domains gives every decision variable
      the value 0 or 1: the three dictionaries are 0/1-valued. */
  lemma DecisionVariablesBoolean(heroes: seq<Hero>, trinkets: seq<Trinket>, ships: seq<string>,
                                 assignments: VarMap, holds: VarMap, active: VarMap,
                                 vars: seq<VarDecl>, constraints: seq<Constraint>, val: seq<int>)
    requires Assembled(heroes, trinkets, ships, assignments, holds, active, vars, constraints)
    requires InDomains(vars, val)
    ensures assignments.BoolValued(val) && holds.BoolValued(val) && active.BoolValued(val)
  {
    var n := DecisionCount(assignments, heroes, trinkets, ships);
    var b1, b2, b3 := BoolDecls(assignments.order), BoolDecls(HoldKeys(heroes, trinkets)), BoolDecls(ActiveNames(ships));
    BoolDeclsBoolean(assignments.order);
    BoolDeclsBoolean(HoldKeys(heroes, trinkets));
    BoolDeclsBoolean(ActiveNames(ships));
    forall v | 0 <= v < n ensures 0 <= Value(val, v) <= 1 {
      assert vars[v] == (b1 + b2 + b3)[v];
      if v < |b1| {
        assert (b1 + b2 + b3)[v] == b1[v];
      } else if v < |b1| + |b2| {
        assert (b1 + b2 + b3)[v] == b2[v - |b1|];
      } else {
        assert (b1 + b2 + b3)[v] == b3[v - |b1| - |b2|];
      }
    }
    FirstMapBelow(AssignmentKeys(heroes, ships, Positions), 0);
    LastMapBelow(HoldKeys(heroes, trinkets), |assignments.order|);
    LastMapBelow(ships, ShipBase(assignments, heroes, trinkets));
  }

  /** For a valuation a solver reports as Optimal or Feasible for the
      assembled model, with names without `_`: no hero holds two seats. */
  lemma SolutionSeatsHeroOnce(heroes: seq<Hero>, trinkets: seq<Trinket>, ships: seq<string>,
                              assignments: VarMap, holds: VarMap, active: VarMap,
                              vars: seq<VarDecl>, constraints: seq<Constraint>, val: seq<int>,
                              i: int, s1: string, p1: string, s2: string, p2: string)
    requires Assembled(heroes, trinkets, ships, assignments, holds, active, vars, constraints)
    requires Satisfies(vars, constraints, val)
    requires AllPlain(HeroNames(heroes)) && AllPlain(ships)
    requires 0 <= i < |heroes| && s1 in ships && s2 in ships && p1 in Positions && p2 in Positions
    requires Seated(assignments, val, heroes[i].name, s1, p1) && Seated(assignments, val, heroes[i].name, s2, p2)
    ensures s1 == s2 && p1 == p2
  {
    DecisionVariablesBoolean(heroes, trinkets, ships, assignments, holds, active, vars, constraints, val);
    var scoring := ScoreConstraints(assignments, holds, heroes, Positions, DecisionCount(assignments, heroes, trinkets, ships));
    OneSeatPerHero(heroes, holds, active, trinkets, ships, scoring, val, i, s1, p1, s2, p2);
  }

  /** For a valuation a solver reports for the assembled model: no hero with
      a plain name holds two plainly named trinkets. */
  lemma SolutionOneTrinketEach(heroes: seq<Hero>, trinkets: seq<Trinket>, ships: seq<string>,
                               assignments: VarMap, holds: VarMap, active: VarMap,
                               vars: seq<VarDecl>, constraints: seq<Constraint>, val: seq<int>,
                               i: int, t1: string, t2: string)
    requires Assembled(heroes, trinkets, ships, assignments, holds, active, vars, constraints)
    requires Satisfies(vars, constraints, val)
    requires 0 <= i < |heroes| && Plain(heroes[i].name) && Plain(t1) && Plain(t2)
    requires Holding(holds, val, heroes[i].name, t1) && Holding(holds, val, heroes[i].name, t2)
    ensures t1 == t2
  {
    DecisionVariablesBoolean(heroes, trinkets, ships, assignments, holds, active, vars, constraints, val);
    var scoring := ScoreConstraints(assignments, holds, heroes, Positions, DecisionCount(assignments, heroes, trinkets, ships));
    OneTrinketEach(assignments, active, heroes, trinkets, ships, Positions, |assignments.order|, scoring, val, i, t1, t2);
  }

  /** For a valuation a solver reports for the assembled model, over names
      the substring filters cannot confuse: four ships are active, each
      position of an active ship holds one hero, an inactive ship none, and
      an active ship's crew numbers three. */
  lemma SolutionShipsManned(heroes: seq<Hero>, trinkets: seq<Trinket>, ships: seq<string>,
                            assignments: VarMap, holds: VarMap, active: VarMap,
                            vars: seq<VarDecl>, constraints: seq<Constraint>, val: seq<int>, ship: string)
    requires Assembled(heroes, trinkets, ships, assignments, holds, active, vars, constraints)
    requires Satisfies(vars, constraints, val)
    requires Separated(HeroNames(heroes), ships, Positions) && ship in ships
    ensures CountOnes(active.Values(), val) == 4
    ensures Value(val, active.ids[ship]) == 1 ==> forall position :: position in Positions ==>
      exists i :: 0 <= i < |heroes| && Seated(assignments, val, heroes[i].name, ship, position)
    ensures Value(val, active.ids[ship]) == 0 ==> forall i, position :: 0 <= i < |heroes| && position in Positions ==>
      !Seated(assignments, val, heroes[i].name, ship, position)
    ensures CountOnes(CrewMembers(assignments, ship), val) == 3 * Value(val, active.ids[ship])
  {
    DecisionVariablesBoolean(heroes, trinkets, ships, assignments, holds, active, vars, constraints, val);
    var scoring := ScoreConstraints(assignments, holds, heroes, Positions, DecisionCount(assignments, heroes, trinkets, ships));
    ShipsManned(heroes, holds, active, trinkets, ships, scoring, val, ship);
  }

  /** With fewer than four ships left, no valuation satisfies the assembled
      model: the solver can only report that there is no solution. */
  lemma SolutionNeedsFourShips(heroes: seq<Hero>, trinkets: seq<Trinket>, ships: seq<string>,
                               assignments: VarMap, holds: VarMap, active: VarMap,
                               vars: seq<VarDecl>, constraints: seq<Constraint>, val: seq<int>)
    requires Assembled(heroes, trinkets, ships, assignments, holds, active, vars, constraints)
    requires |ships| < 4
    ensures !Satisfies(vars, constraints, val)
  {
    if InDomains(vars, val) {
      DecisionVariablesBoolean(heroes, trinkets, ships, assignments, holds, active, vars, constraints, val);
      var scoring := ScoreConstraints(assignments, holds, heroes, Positions, DecisionCount(assignments, heroes, trinkets, ships));
      FewShipsNoSolution(assignments, holds, heroes, trinkets, ships, Positions, ShipBase(assignments, heroes, trinkets), scoring, val);
    }
  }
}
