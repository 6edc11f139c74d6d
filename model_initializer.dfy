/** Initializers/ModelInitializer.cs: the two score variables. Every
    preferred assignment whose key exists gets a contribution variable
    constrained to `assignment * score`, and a bounded total variable is
    constrained to the sum of the contributions. */
module ModelInitializer {
  import opened Text
  import opened Keys
  import opened CpSat
  import opened VarMaps
  import opened Domain
  import opened HeroConstraints

  /** One entry of `scoredComponents`: the key it scores, the decision
      variable of that key and the weight. */
  datatype Scored = Scored(key: string, assign: VarId, score: int)

  // ---------------------------------------------------------------------
  // The contributions, in creation order.

  /** The innermost `foreach (var position in positions)` for one hero and ship. */
  function SlotScored(assignments: VarMap, hero: Hero, ship: string, positions: seq<string>): seq<Scored> {
    if positions == [] then []
    else
      var p := positions[|positions| - 1];
      var k := Key3(hero.name, ship, p);
      SlotScored(assignments, hero, ship, positions[..|positions| - 1])
        + (if p in hero.preferredPositions && k in assignments.ids
           then [Scored(k, assignments.ids[k], CalculatePreferenceScore(hero, ship, p))]
           else [])
  }

  /** The `foreach (var ship in hero.PreferredShips)` for one hero. */
  function ShipsScored(assignments: VarMap, hero: Hero, ships: seq<string>, positions: seq<string>): seq<Scored> {
    if ships == [] then []
    else ShipsScored(assignments, hero, ships[..|ships| - 1], positions) + SlotScored(assignments, hero, ships[|ships| - 1], positions)
  }

  /** The hero contributions, hero by hero. */
  function HeroScored(assignments: VarMap, heroes: seq<Hero>, positions: seq<string>): seq<Scored> {
    if heroes == [] then []
    else
      var hero := heroes[|heroes| - 1];
      HeroScored(assignments, heroes[..|heroes| - 1], positions) + ShipsScored(assignments, hero, hero.preferredShips, positions)
  }

  /** The `foreach (var trinket in hero.PreferredTrinkets)` for one hero. */
  function TrinketsScored(holds: VarMap, hero: string, trinkets: seq<string>): seq<Scored> {
    if trinkets == [] then []
    else
      var k := Key2(hero, trinkets[|trinkets| - 1]);
      TrinketsScored(holds, hero, trinkets[..|trinkets| - 1])
        + (if k in holds.ids then [Scored(k, holds.ids[k], MaxScorePerTrinket)] else [])
  }

  /** The trinket contributions, hero by hero. */
  function HeroTrinketScored(holds: VarMap, heroes: seq<Hero>): seq<Scored> {
    if heroes == [] then []
    else
      var hero := heroes[|heroes| - 1];
      HeroTrinketScored(holds, heroes[..|heroes| - 1]) + TrinketsScored(holds, hero.name, hero.preferredTrinkets)
  }

  // ---------------------------------------------------------------------
  // What the contributions add to the model.

  /** `NewIntVar(0, score, prefix + key)` for each contribution. */
  function ContribDecls(prefix: string, comps: seq<Scored>): seq<VarDecl> {
    seq(|comps|, t requires 0 <= t < |comps| => VarDecl(0, comps[t].score, prefix + comps[t].key))
  }

  /** `contribution == assignment * score`, the `t`-th contribution being
      variable `first + t`. */
  function ContribConstraints(comps: seq<Scored>, first: nat): seq<Constraint> {
    seq(|comps|, t requires 0 <= t < |comps| => Constraint(Var(first + t), Equal, Scaled(comps[t].score, comps[t].assign)))
  }

  /** The variables `first, first + 1, ..., first + n - 1`. */
  function Consecutive(first: nat, n: nat): seq<VarId> {
    seq(n, t requires 0 <= t < n => first + t)
  }

  /** `Sum(scoredComponents) == totalScore`. */
  function TotalConstraint(first: nat, n: nat, total: VarId): Constraint {
    Constraint(Sum(Consecutive(first, n)), Equal, Var(total))
  }

  /** The sum of a list of integers. */
  function Total(xs: seq<int>): int {
    if xs == [] then 0 else Total(xs[..|xs| - 1]) + xs[|xs| - 1]
  }

  /** The weighted sum the contributions stand for: each scored assignment
      variable's value times its score. */
  function Weighted(comps: seq<Scored>, val: seq<int>): int {
    Total(seq(|comps|, t requires 0 <= t < |comps| => comps[t].score * Value(val, comps[t].assign)))
  }

  // ---------------------------------------------------------------------
  // The builders.

  /** One contribution: a fresh variable with domain `[0, score]`, tied to
      `assignment * score`. */
  method Contribute(model: CpModel, prefix: string, c: Scored, ghost v1: seq<VarDecl>, ghost c1: seq<Constraint>,
                    ghost done: seq<Scored>, scored: seq<VarId>) returns (scored': seq<VarId>)
    requires model.Valid() && c.assign < |v1|
    requires model.vars == v1 + ContribDecls(prefix, done)
    requires model.constraints == c1 + ContribConstraints(done, |v1|)
    requires scored == Consecutive(|v1|, |done|)
    modifies model
    ensures model.Valid()
    ensures model.vars == v1 + ContribDecls(prefix, done + [c])
    ensures model.constraints == c1 + ContribConstraints(done + [c], |v1|)
    ensures scored' == Consecutive(|v1|, |done + [c]|)
    ensures model.objective == old(model.objective)
  {
    var scoreContribution := model.NewIntVar(0, c.score, prefix + c.key);
    model.Add(Constraint(Var(scoreContribution), Equal, Scaled(c.score, c.assign)));
    scored' := scored + [scoreContribution];
    assert ContribDecls(prefix, done + [c]) == ContribDecls(prefix, done) + [VarDecl(0, c.score, prefix + c.key)];
    assert ContribConstraints(done + [c], |v1|) == ContribConstraints(done, |v1|) + [Constraint(Var(|v1| + |done|), Equal, Scaled(c.score, c.assign))];
  }

  /** The `foreach (var position in positions)` of one hero and ship. */
  method AddSlotContributions(model: CpModel, assignments: VarMap, hero: Hero, ship: string, positions: seq<string>,
                              ghost v1: seq<VarDecl>, ghost c1: seq<Constraint>, ghost done: seq<Scored>, scored: seq<VarId>)
    returns (scored': seq<VarId>)
    requires model.Valid() && assignments.IdsBelow(|v1|)
    requires model.vars == v1 + ContribDecls("scoreContrib_", done)
    requires model.constraints == c1 + ContribConstraints(done, |v1|)
    requires scored == Consecutive(|v1|, |done|)
    modifies model
    ensures model.Valid()
    ensures model.vars == v1 + ContribDecls("scoreContrib_", done + SlotScored(assignments, hero, ship, positions))
    ensures model.constraints == c1 + ContribConstraints(done + SlotScored(assignments, hero, ship, positions), |v1|)
    ensures scored' == Consecutive(|v1|, |done + SlotScored(assignments, hero, ship, positions)|)
    ensures model.objective == old(model.objective)
  {
    scored' := scored;
    assert positions[..0] == [];
    for k := 0 to |positions|
      invariant model.Valid() && model.objective == old(model.objective)
      invariant model.vars == v1 + ContribDecls("scoreContrib_", done + SlotScored(assignments, hero, ship, positions[..k]))
      invariant model.constraints == c1 + ContribConstraints(done + SlotScored(assignments, hero, ship, positions[..k]), |v1|)
      invariant scored' == Consecutive(|v1|, |done + SlotScored(assignments, hero, ship, positions[..k])|)
    {
      ghost var before := done + SlotScored(assignments, hero, ship, positions[..k]);
      assert positions[..k + 1][..k] == positions[..k];
      var position := positions[k];
      if position in hero.preferredPositions {
        var varName := Key3(hero.name, ship, position);
        if varName in assignments.ids {
          var preferenceScore := CalculatePreferenceScore(hero, ship, position);
          var c := Scored(varName, assignments.ids[varName], preferenceScore);
          scored' := Contribute(model, "scoreContrib_", c, v1, c1, before, scored');
          AppendAssoc(done, SlotScored(assignments, hero, ship, positions[..k]), [c]);
        }
      }
    }
    assert positions[..|positions|] == positions;
  }

  /** The `foreach (var ship in hero.PreferredShips)` of one hero. */
  method AddHeroContributions(model: CpModel, assignments: VarMap, hero: Hero, positions: seq<string>,
                              ghost v1: seq<VarDecl>, ghost c1: seq<Constraint>, ghost done: seq<Scored>, scored: seq<VarId>)
    returns (scored': seq<VarId>)
    requires model.Valid() && assignments.IdsBelow(|v1|)
    requires model.vars == v1 + ContribDecls("scoreContrib_", done)
    requires model.constraints == c1 + ContribConstraints(done, |v1|)
    requires scored == Consecutive(|v1|, |done|)
    modifies model
    ensures model.Valid()
    ensures model.vars == v1 + ContribDecls("scoreContrib_", done + ShipsScored(assignments, hero, hero.preferredShips, positions))
    ensures model.constraints == c1 + ContribConstraints(done + ShipsScored(assignments, hero, hero.preferredShips, positions), |v1|)
    ensures scored' == Consecutive(|v1|, |done + ShipsScored(assignments, hero, hero.preferredShips, positions)|)
    ensures model.objective == old(model.objective)
  {
    var ships := hero.preferredShips;
    scored' := scored;
    assert ships[..0] == [];
    for j := 0 to |ships|
      invariant model.Valid() && model.objective == old(model.objective)
      invariant model.vars == v1 + ContribDecls("scoreContrib_", done + ShipsScored(assignments, hero, ships[..j], positions))
      invariant model.constraints == c1 + ContribConstraints(done + ShipsScored(assignments, hero, ships[..j], positions), |v1|)
      invariant scored' == Consecutive(|v1|, |done + ShipsScored(assignments, hero, ships[..j], positions)|)
    {
      assert ships[..j + 1][..j] == ships[..j];
      scored' := AddSlotContributions(model, assignments, hero, ships[j], positions, v1, c1,
                                      done + ShipsScored(assignments, hero, ships[..j], positions), scored');
      AppendAssoc(done, ShipsScored(assignments, hero, ships[..j], positions), SlotScored(assignments, hero, ships[j], positions));
    }
    assert ships[..|ships|] == ships;
  }

  /** `InitializeTotalScoreForHeroes`: the total variable, numbered after the
      existing ones, with domain `[0, |heroes| * MaxScorePerHero]`; then one
      contribution per scored assignment; then `Sum == total`. The list of
      ships is not read: each hero's preferred ships are visited instead. */
  method InitializeTotalScoreForHeroes(model: CpModel, assignments: VarMap, heroes: seq<Hero>, ships: seq<string>, positions: seq<string>)
    returns (totalScore: VarId)
    requires model.Valid() && assignments.IdsBelow(|model.vars|)
    modifies model
    ensures model.Valid()
    ensures totalScore == |old(model.vars)|
    ensures model.vars == old(model.vars) + [VarDecl(0, |heroes| * MaxScorePerHero, "totalScoreForHeroes")]
      + ContribDecls("scoreContrib_", HeroScored(assignments, heroes, positions))
    ensures model.constraints == old(model.constraints) + ContribConstraints(HeroScored(assignments, heroes, positions), totalScore + 1)
      + [TotalConstraint(totalScore + 1, |HeroScored(assignments, heroes, positions)|, totalScore)]
    ensures model.objective == old(model.objective)
  {
    var maxScore := |heroes| * MaxScorePerHero;
    totalScore := model.NewIntVar(0, maxScore, "totalScoreForHeroes");
    ghost var v1 := model.vars;
    ghost var c1 := model.constraints;
    var scoredComponents: seq<VarId> := [];
    assert heroes[..0] == [];
    for i := 0 to |heroes|
      invariant model.Valid() && model.objective == old(model.objective)
      invariant model.vars == v1 + ContribDecls("scoreContrib_", HeroScored(assignments, heroes[..i], positions))
      invariant model.constraints == c1 + ContribConstraints(HeroScored(assignments, heroes[..i], positions), |v1|)
      invariant scoredComponents == Consecutive(|v1|, |HeroScored(assignments, heroes[..i], positions)|)
    {
      assert heroes[..i + 1][..i] == heroes[..i];
      scoredComponents := AddHeroContributions(model, assignments, heroes[i], positions, v1, c1,
                                               HeroScored(assignments, heroes[..i], positions), scoredComponents);
    }
    assert heroes[..|heroes|] == heroes;
    ConsecutiveBelow(|v1|, |scoredComponents|);
    SumOver(scoredComponents, |model.vars|);
    model.Add(Constraint(Sum(scoredComponents), Equal, Var(totalScore)));
  }

  /** The `foreach (var trinket in hero.PreferredTrinkets)` of one hero. */
  method AddTrinketContributions(model: CpModel, holds: VarMap, hero: Hero,
                                 ghost v1: seq<VarDecl>, ghost c1: seq<Constraint>, ghost done: seq<Scored>, scored: seq<VarId>)
    returns (scored': seq<VarId>)
    requires model.Valid() && holds.IdsBelow(|v1|)
    requires model.vars == v1 + ContribDecls("trinketContrib_", done)
    requires model.constraints == c1 + ContribConstraints(done, |v1|)
    requires scored == Consecutive(|v1|, |done|)
    modifies model
    ensures model.Valid()
    ensures model.vars == v1 + ContribDecls("trinketContrib_", done + TrinketsScored(holds, hero.name, hero.preferredTrinkets))
    ensures model.constraints == c1 + ContribConstraints(done + TrinketsScored(holds, hero.name, hero.preferredTrinkets), |v1|)
    ensures scored' == Consecutive(|v1|, |done + TrinketsScored(holds, hero.name, hero.preferredTrinkets)|)
    ensures model.objective == old(model.objective)
  {
    var trinkets := hero.preferredTrinkets;
    scored' := scored;
    assert trinkets[..0] == [];
    for j := 0 to |trinkets|
      invariant model.Valid() && model.objective == old(model.objective)
      invariant model.vars == v1 + ContribDecls("trinketContrib_", done + TrinketsScored(holds, hero.name, trinkets[..j]))
      invariant model.constraints == c1 + ContribConstraints(done + TrinketsScored(holds, hero.name, trinkets[..j]), |v1|)
      invariant scored' == Consecutive(|v1|, |done + TrinketsScored(holds, hero.name, trinkets[..j])|)
    {
      ghost var before := done + TrinketsScored(holds, hero.name, trinkets[..j]);
      assert trinkets[..j + 1][..j] == trinkets[..j];
      var varName := Key2(hero.name, trinkets[j]);
      if varName in holds.ids {
        var preferenceScore := MaxScorePerTrinket;
        var c := Scored(varName, holds.ids[varName], preferenceScore);
        scored' := Contribute(model, "trinketContrib_", c, v1, c1, before, scored');
        AppendAssoc(done, TrinketsScored(holds, hero.name, trinkets[..j]), [c]);
      }
    }
    assert trinkets[..|trinkets|] == trinkets;
  }

  /** `InitializeTotalScoreForTrinkets`: the total variable with domain
      `[0, |heroes| * MaxScorePerTrinket]`, one contribution per preferred
      trinket whose key exists, then `Sum == total`. */
  method InitializeTotalScoreForTrinkets(model: CpModel, holds: VarMap, heroes: seq<Hero>) returns (totalScore: VarId)
    requires model.Valid() && holds.IdsBelow(|model.vars|)
    modifies model
    ensures model.Valid()
    ensures totalScore == |old(model.vars)|
    ensures model.vars == old(model.vars) + [VarDecl(0, |heroes| * MaxScorePerTrinket, "totalScoreForTrinkets")]
      + ContribDecls("trinketContrib_", HeroTrinketScored(holds, heroes))
    ensures model.constraints == old(model.constraints) + ContribConstraints(HeroTrinketScored(holds, heroes), totalScore + 1)
      + [TotalConstraint(totalScore + 1, |HeroTrinketScored(holds, heroes)|, totalScore)]
    ensures model.objective == old(model.objective)
  {
    var maxScore := |heroes| * MaxScorePerTrinket;
    totalScore := model.NewIntVar(0, maxScore, "totalScoreForTrinkets");
    ghost var v1 := model.vars;
    ghost var c1 := model.constraints;
    var scoredComponents: seq<VarId> := [];
    assert heroes[..0] == [];
    for i := 0 to |heroes|
      invariant model.Valid() && model.objective == old(model.objective)
      invariant model.vars == v1 + ContribDecls("trinketContrib_", HeroTrinketScored(holds, heroes[..i]))
      invariant model.constraints == c1 + ContribConstraints(HeroTrinketScored(holds, heroes[..i]), |v1|)
      invariant scoredComponents == Consecutive(|v1|, |HeroTrinketScored(holds, heroes[..i])|)
    {
      assert heroes[..i + 1][..i] == heroes[..i];
      scoredComponents := AddTrinketContributions(model, holds, heroes[i], v1, c1, HeroTrinketScored(holds, heroes[..i]), scoredComponents);
    }
    assert heroes[..|heroes|] == heroes;
    ConsecutiveBelow(|v1|, |scoredComponents|);
    SumOver(scoredComponents, |model.vars|);
    model.Add(Constraint(Sum(scoredComponents), Equal, Var(totalScore)));
  }

  lemma ConsecutiveBelow(first: nat, n: nat)
    ensures forall t :: 0 <= t < |Consecutive(first, n)| ==> Consecutive(first, n)[t] < first + n
  {
  }

  // ---------------------------------------------------------------------
  // What the contributions are.

  lemma {:induction false} SlotScoredMembers(assignments: VarMap, hero: Hero, ship: string, positions: seq<string>, c: Scored)
    ensures c in SlotScored(assignments, hero, ship, positions) <==>
      exists p :: p in positions && p in hero.preferredPositions && Key3(hero.name, ship, p) in assignments.ids
        && c == Scored(Key3(hero.name, ship, p), assignments.ids[Key3(hero.name, ship, p)], CalculatePreferenceScore(hero, ship, p))
  {
    if positions != [] {
      var init := positions[..|positions| - 1];
      var last := positions[|positions| - 1];
      SlotScoredMembers(assignments, hero, ship, init, c);
      assert positions == init + [last];
    }
  }

  lemma {:induction false} ShipsScoredMembers(assignments: VarMap, hero: Hero, ships: seq<string>, positions: seq<string>, c: Scored)
    ensures c in ShipsScored(assignments, hero, ships, positions) <==>
      exists s, p :: s in ships && p in positions && p in hero.preferredPositions && Key3(hero.name, s, p) in assignments.ids
        && c == Scored(Key3(hero.name, s, p), assignments.ids[Key3(hero.name, s, p)], CalculatePreferenceScore(hero, s, p))
  {
    if ships != [] {
      var init := ships[..|ships| - 1];
      var last := ships[|ships| - 1];
      ShipsScoredMembers(assignments, hero, init, positions, c);
      SlotScoredMembers(assignments, hero, last, positions, c);
      assert ships == init + [last];
      if exists s, p :: s in ships && p in positions && p in hero.preferredPositions && Key3(hero.name, s, p) in assignments.ids
          && c == Scored(Key3(hero.name, s, p), assignments.ids[Key3(hero.name, s, p)], CalculatePreferenceScore(hero, s, p)) {
        var s, p :| s in ships && p in positions && p in hero.preferredPositions && Key3(hero.name, s, p) in assignments.ids
          && c == Scored(Key3(hero.name, s, p), assignments.ids[Key3(hero.name, s, p)], CalculatePreferenceScore(hero, s, p));
        if s != last {
          assert s in init;
        }
      }
    }
  }

  /** A hero contribution exists exactly for a preferred ship, a listed and
      preferred position and an existing key, and its score is always
      `MaxScorePerHero`: both preference tests have already passed. */
  lemma HeroScoredMembers(assignments: VarMap, heroes: seq<Hero>, positions: seq<string>, c: Scored)
    ensures c in HeroScored(assignments, heroes, positions) <==>
      exists i, s, p :: 0 <= i < |heroes| && s in heroes[i].preferredShips && p in positions && p in heroes[i].preferredPositions
        && Key3(heroes[i].name, s, p) in assignments.ids
        && c == Scored(Key3(heroes[i].name, s, p), assignments.ids[Key3(heroes[i].name, s, p)], MaxScorePerHero)
  {
    if c in HeroScored(assignments, heroes, positions) {
      HeroScoredSound(assignments, heroes, positions, c);
    } else if exists i, s, p :: 0 <= i < |heroes| && s in heroes[i].preferredShips && p in positions && p in heroes[i].preferredPositions
                && Key3(heroes[i].name, s, p) in assignments.ids
                && c == Scored(Key3(heroes[i].name, s, p), assignments.ids[Key3(heroes[i].name, s, p)], MaxScorePerHero) {
      var i, s, p :| 0 <= i < |heroes| && s in heroes[i].preferredShips && p in positions && p in heroes[i].preferredPositions
        && Key3(heroes[i].name, s, p) in assignments.ids
        && c == Scored(Key3(heroes[i].name, s, p), assignments.ids[Key3(heroes[i].name, s, p)], MaxScorePerHero);
      HeroScoredComplete(assignments, heroes, positions, i, s, p);
    }
  }

  /** Every score component is a preferred seat of a listed hero, worth the
      full score. */
  lemma {:induction false} HeroScoredSound(assignments: VarMap, heroes: seq<Hero>, positions: seq<string>, c: Scored)
    requires c in HeroScored(assignments, heroes, positions)
    ensures exists i, s, p :: 0 <= i < |heroes| && s in heroes[i].preferredShips && p in positions && p in heroes[i].preferredPositions
              && Key3(heroes[i].name, s, p) in assignments.ids
              && c == Scored(Key3(heroes[i].name, s, p), assignments.ids[Key3(heroes[i].name, s, p)], MaxScorePerHero)
  {
    var n := |heroes| - 1;
    var init := heroes[..n];
    var hero := heroes[n];
    if c in HeroScored(assignments, init, positions) {
      HeroScoredSound(assignments, init, positions, c);
      var i, s, p :| 0 <= i < |init| && s in init[i].preferredShips && p in positions && p in init[i].preferredPositions
        && Key3(init[i].name, s, p) in assignments.ids
        && c == Scored(Key3(init[i].name, s, p), assignments.ids[Key3(init[i].name, s, p)], MaxScorePerHero);
      assert heroes[i] == init[i];
    } else {
      ShipsScoredMembers(assignments, hero, hero.preferredShips, positions, c);
      var s, p :| s in hero.preferredShips && p in positions && p in hero.preferredPositions && Key3(hero.name, s, p) in assignments.ids
        && c == Scored(Key3(hero.name, s, p), assignments.ids[Key3(hero.name, s, p)], CalculatePreferenceScore(hero, s, p));
      assert CalculatePreferenceScore(hero, s, p) == MaxScorePerHero;
    }
  }

  /** Every preferred seat of a listed hero that has a variable is a score
      component worth the full score. */
  lemma {:induction false} HeroScoredComplete(assignments: VarMap, heroes: seq<Hero>, positions: seq<string>, i: int, s: string, p: string)
    requires 0 <= i < |heroes| && s in heroes[i].preferredShips && p in positions && p in heroes[i].preferredPositions
    requires Key3(heroes[i].name, s, p) in assignments.ids
    ensures Scored(Key3(heroes[i].name, s, p), assignments.ids[Key3(heroes[i].name, s, p)], MaxScorePerHero)
      in HeroScored(assignments, heroes, positions)
  {
    var n := |heroes| - 1;
    var init := heroes[..n];
    var hero := heroes[n];
    var c := Scored(Key3(heroes[i].name, s, p), assignments.ids[Key3(heroes[i].name, s, p)], MaxScorePerHero);
    assert HeroScored(assignments, heroes, positions) == HeroScored(assignments, init, positions) + ShipsScored(assignments, hero, hero.preferredShips, positions);
    if i < n {
      assert init[i] == heroes[i];
      HeroScoredComplete(assignments, init, positions, i, s, p);
    } else {
      ShipsScoredMembers(assignments, hero, hero.preferredShips, positions, c);
      assert CalculatePreferenceScore(hero, s, p) == MaxScorePerHero;
    }
  }

  lemma {:induction false} TrinketsScoredMembers(holds: VarMap, hero: string, trinkets: seq<string>, c: Scored)
    ensures c in TrinketsScored(holds, hero, trinkets) <==>
      exists t :: t in trinkets && Key2(hero, t) in holds.ids && c == Scored(Key2(hero, t), holds.ids[Key2(hero, t)], MaxScorePerTrinket)
  {
    if trinkets != [] {
      var init := trinkets[..|trinkets| - 1];
      var last := trinkets[|trinkets| - 1];
      TrinketsScoredMembers(holds, hero, init, c);
      assert trinkets == init + [last];
    }
  }

  /** A trinket contribution exists exactly for a preferred trinket whose
      key exists, with score `MaxScorePerTrinket`. */
  lemma {:induction false} HeroTrinketScoredMembers(holds: VarMap, heroes: seq<Hero>, c: Scored)
    ensures c in HeroTrinketScored(holds, heroes) <==>
      exists i, t :: 0 <= i < |heroes| && t in heroes[i].preferredTrinkets && Key2(heroes[i].name, t) in holds.ids
        && c == Scored(Key2(heroes[i].name, t), holds.ids[Key2(heroes[i].name, t)], MaxScorePerTrinket)
  {
    if heroes != [] {
      var n := |heroes| - 1;
      var init := heroes[..n];
      HeroTrinketScoredMembers(holds, init, c);
      TrinketsScoredMembers(holds, heroes[n].name, heroes[n].preferredTrinkets, c);
      if c in HeroTrinketScored(holds, init) {
        var i, t :| 0 <= i < |init| && t in init[i].preferredTrinkets && Key2(init[i].name, t) in holds.ids
          && c == Scored(Key2(init[i].name, t), holds.ids[Key2(init[i].name, t)], MaxScorePerTrinket);
        assert heroes[i] == init[i];
      }
      if exists i, t :: 0 <= i < |heroes| && t in heroes[i].preferredTrinkets && Key2(heroes[i].name, t) in holds.ids
          && c == Scored(Key2(heroes[i].name, t), holds.ids[Key2(heroes[i].name, t)], MaxScorePerTrinket) {
        var i, t :| 0 <= i < |heroes| && t in heroes[i].preferredTrinkets && Key2(heroes[i].name, t) in holds.ids
          && c == Scored(Key2(heroes[i].name, t), holds.ids[Key2(heroes[i].name, t)], MaxScorePerTrinket);
        if i < n {
          assert init[i] == heroes[i];
        }
      }
    }
  }

  /** Visiting two lists of ships scores each in turn: a ship listed twice
      among a hero's preferences is scored twice, with the same variables. */
  lemma {:induction false} ShipsScoredAppend(assignments: VarMap, hero: Hero, s1: seq<string>, s2: seq<string>, positions: seq<string>)
    ensures ShipsScored(assignments, hero, s1 + s2, positions)
      == ShipsScored(assignments, hero, s1, positions) + ShipsScored(assignments, hero, s2, positions)
  {
    if s2 != [] {
      var init := s2[..|s2| - 1];
      ShipsScoredAppend(assignments, hero, s1, init, positions);
      assert (s1 + s2)[..|s1 + s2| - 1] == s1 + init;
    } else {
      assert s1 + s2 == s1;
    }
  }

  /** Likewise, a trinket listed twice among a hero's preferences is scored twice. */
  lemma {:induction false} TrinketsScoredAppend(holds: VarMap, hero: string, t1: seq<string>, t2: seq<string>)
    ensures TrinketsScored(holds, hero, t1 + t2) == TrinketsScored(holds, hero, t1) + TrinketsScored(holds, hero, t2)
  {
    if t2 != [] {
      var init := t2[..|t2| - 1];
      TrinketsScoredAppend(holds, hero, t1, init);
      assert (t1 + t2)[..|t1 + t2| - 1] == t1 + init;
    } else {
      assert t1 + t2 == t1;
    }
  }

  // ---------------------------------------------------------------------
  // What the posted constraints mean.

  /** Under the contribution constraints, the contribution variables sum to
      the weighted sum of the scored assignment variables. */
  lemma {:induction false} ContributionsSum(comps: seq<Scored>, first: nat, val: seq<int>)
    requires AllHold(ContribConstraints(comps, first), val)
    ensures SumVals(Consecutive(first, |comps|), val) == Weighted(comps, val)
  {
    if comps != [] {
      var n := |comps| - 1;
      var init := comps[..n];
      forall t | 0 <= t < |init| ensures Holds(ContribConstraints(init, first)[t], val) {
        assert ContribConstraints(init, first)[t] == ContribConstraints(comps, first)[t];
      }
      ContributionsSum(init, first, val);
      assert Consecutive(first, |comps|)[..n] == Consecutive(first, n);
      assert Holds(ContribConstraints(comps, first)[n], val);
      EvalSimple(first + n, comps[n].score, 0, val);
      EvalSimple(comps[n].assign, comps[n].score, 0, val);
      var ws := seq(|comps|, t requires 0 <= t < |comps| => comps[t].score * Value(val, comps[t].assign));
      assert ws[..n] == seq(|init|, t requires 0 <= t < |init| => init[t].score * Value(val, init[t].assign));
    }
  }

  /** Under the constraints a score initialiser posts, the total variable
      equals the weighted sum of its scored assignments, and 0 when nothing
      was scored. */
  lemma TotalIsWeightedSum(comps: seq<Scored>, total: VarId, val: seq<int>)
    requires AllHold(ContribConstraints(comps, total + 1) + [TotalConstraint(total + 1, |comps|, total)], val)
    ensures Value(val, total) == Weighted(comps, val)
    ensures comps == [] ==> Value(val, total) == 0
  {
    var cs := ContribConstraints(comps, total + 1);
    AllHoldAppend(cs, [TotalConstraint(total + 1, |comps|, total)], val);
    ContributionsSum(comps, total + 1, val);
    EvalSum(Consecutive(total + 1, |comps|), val);
    EvalSimple(total, 0, 0, val);
    assert Holds([TotalConstraint(total + 1, |comps|, total)][0], val);
  }
}
