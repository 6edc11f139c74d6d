/** Constraints/TrinketConstraints.cs: the stock of every trinket caps its
    holders, and a hero holds at most one trinket. The variables of a
    trinket are found by a suffix test on the keys, those of a hero by a
    prefix test. */
module TrinketConstraints {
  import opened Text
  import opened Keys
  import opened CpSat
  import opened VarMaps
  import opened Domain
  import opened VariableFactory

  /** `key => key.EndsWith(suffix)`. */
  function EndsWithTest(suffix: string): string -> bool {
    k => EndsWith(k, suffix)
  }

  /** `key => key.StartsWith(prefix)`. */
  function StartsWithTest(prefix: string): string -> bool {
    k => StartsWith(k, prefix)
  }

  /** `allAssignmentsForTrinket`: the variables of the keys ending in `_trinket`. */
  function TrinketHolders(holds: VarMap, trinket: string): seq<VarId>
    requires holds.Valid()
  {
    holds.Select(EndsWithTest([Sep] + trinket))
  }

  /** `heroTrinketAssignments`: the variables of the keys starting with the hero's name. */
  function HeroTrinkets(holds: VarMap, hero: string): seq<VarId>
    requires holds.Valid()
  {
    holds.Select(StartsWithTest(hero))
  }

  /** `Sum(holders) <= Amount`, posted only when some key matched. */
  function StockConstraint(holds: VarMap, trinket: Trinket): seq<Constraint>
    requires holds.Valid()
  {
    var xs := TrinketHolders(holds, trinket.name);
    if |xs| > 0 then [Constraint(Sum(xs), AtMost, Const(trinket.amount))] else []
  }

  /** `Sum(hero's trinkets) <= 1`, posted only when some key matched. */
  function OneTrinketConstraint(holds: VarMap, hero: string): seq<Constraint>
    requires holds.Valid()
  {
    var xs := HeroTrinkets(holds, hero);
    if |xs| > 0 then [Constraint(Sum(xs), AtMost, Const(1))] else []
  }

  function StockConstraints(holds: VarMap, trinkets: seq<Trinket>): seq<Constraint>
    requires holds.Valid()
  {
    if trinkets == [] then []
    else StockConstraints(holds, trinkets[..|trinkets| - 1]) + StockConstraint(holds, trinkets[|trinkets| - 1])
  }

  function OneTrinketConstraints(holds: VarMap, heroes: seq<Hero>): seq<Constraint>
    requires holds.Valid()
  {
    if heroes == [] then []
    else OneTrinketConstraints(holds, heroes[..|heroes| - 1]) + OneTrinketConstraint(holds, heroes[|heroes| - 1].name)
  }

  /** Everything `AddTrinketConstraints` posts, in posting order. */
  function TrinketConstraintList(holds: VarMap, heroes: seq<Hero>, trinkets: seq<Trinket>): seq<Constraint>
    requires holds.Valid()
  {
    StockConstraints(holds, trinkets) + OneTrinketConstraints(holds, heroes)
  }

  // ---------------------------------------------------------------------
  // The builder.

  /** `AddTrinketConstraints`: posts exactly `TrinketConstraintList`, after
      the constraints already in the model; creates no variable. */
  method AddTrinketConstraints(model: CpModel, holds: VarMap, heroes: seq<Hero>, trinkets: seq<Trinket>)
    requires model.Valid() && holds.Valid() && holds.IdsBelow(|model.vars|)
    modifies model
    ensures model.Valid()
    ensures model.constraints == old(model.constraints) + TrinketConstraintList(holds, heroes, trinkets)
    ensures model.vars == old(model.vars) && model.objective == old(model.objective)
  {
    AppendNothing(old(model.constraints));
    for j := 0 to |trinkets|
      invariant model.Valid() && model.vars == old(model.vars) && model.objective == old(model.objective)
      invariant model.constraints == old(model.constraints) + StockConstraints(holds, trinkets[..j])
    {
      var trinket := trinkets[j];
      var allAssignmentsForTrinket := holds.Select(EndsWithTest([Sep] + trinket.name));
      SelectBelow(holds, EndsWithTest([Sep] + trinket.name), |model.vars|);
      SumOver(allAssignmentsForTrinket, |model.vars|);
      if |allAssignmentsForTrinket| > 0 {
        model.Add(Constraint(Sum(allAssignmentsForTrinket), AtMost, Const(trinket.amount)));
      }
      StockStep(old(model.constraints), holds, trinkets, j);
    }
    assert trinkets[..|trinkets|] == trinkets;
    ghost var posted := model.constraints;
    AppendNothing(posted);
    for i := 0 to |heroes|
      invariant model.Valid() && model.vars == old(model.vars) && model.objective == old(model.objective)
      invariant model.constraints == posted + OneTrinketConstraints(holds, heroes[..i])
    {
      var hero := heroes[i];
      var heroTrinketAssignments := holds.Select(StartsWithTest(hero.name));
      SelectBelow(holds, StartsWithTest(hero.name), |model.vars|);
      SumOver(heroTrinketAssignments, |model.vars|);
      if |heroTrinketAssignments| > 0 {
        model.Add(Constraint(Sum(heroTrinketAssignments), AtMost, Const(1)));
      }
      OneTrinketStep(posted, holds, heroes, i);
    }
    assert heroes[..|heroes|] == heroes;
    AppendAssoc(old(model.constraints), StockConstraints(holds, trinkets), OneTrinketConstraints(holds, heroes));
  }

  /** One more trinket visited by the stock loop, after the constraints `cs`. */
  lemma StockStep(cs: seq<Constraint>, holds: VarMap, trinkets: seq<Trinket>, j: nat)
    requires holds.Valid() && j < |trinkets|
    ensures cs + StockConstraints(holds, trinkets[..j + 1]) == cs + StockConstraints(holds, trinkets[..j]) + StockConstraint(holds, trinkets[j])
  {
    assert trinkets[..j + 1][..j] == trinkets[..j];
  }

  /** One more hero visited by the one-trinket loop, after the constraints `cs`. */
  lemma OneTrinketStep(cs: seq<Constraint>, holds: VarMap, heroes: seq<Hero>, i: nat)
    requires holds.Valid() && i < |heroes|
    ensures cs + OneTrinketConstraints(holds, heroes[..i + 1]) == cs + OneTrinketConstraints(holds, heroes[..i]) + OneTrinketConstraint(holds, heroes[i].name)
  {
    assert heroes[..i + 1][..i] == heroes[..i];
  }

  // ---------------------------------------------------------------------
  // Where each constraint sits in the list.

  lemma {:induction false} StockListed(holds: VarMap, trinkets: seq<Trinket>, j: int)
    requires holds.Valid() && 0 <= j < |trinkets|
    ensures forall c :: c in StockConstraint(holds, trinkets[j]) ==> c in StockConstraints(holds, trinkets)
  {
    var n := |trinkets| - 1;
    if j < n {
      StockListed(holds, trinkets[..n], j);
      assert trinkets[..n][j] == trinkets[j];
    }
  }

  lemma {:induction false} OneTrinketListed(holds: VarMap, heroes: seq<Hero>, i: int)
    requires holds.Valid() && 0 <= i < |heroes|
    ensures forall c :: c in OneTrinketConstraint(holds, heroes[i].name) ==> c in OneTrinketConstraints(holds, heroes)
  {
    var n := |heroes| - 1;
    if i < n {
      OneTrinketListed(holds, heroes[..n], i);
      assert heroes[..n][i] == heroes[i];
    }
  }

  // ---------------------------------------------------------------------
  // Which variables the suffix and prefix tests pick.

  /** With plain trinket names, the variables collected for trinket `t` are
      exactly those of the keys `hero_t`, one per hero. */
  lemma TrinketHoldersExact(heroes: seq<Hero>, trinkets: seq<Trinket>, base: nat, t: string, x: VarId)
    requires AllPlain(TrinketNames(trinkets)) && Plain(t)
    ensures x in TrinketHolders(Holdings(heroes, trinkets, base), t) <==>
      exists i :: 0 <= i < |heroes| && Key2(heroes[i].name, t) in Holdings(heroes, trinkets, base).ids
        && x == Holdings(heroes, trinkets, base).ids[Key2(heroes[i].name, t)]
  {
    var m := Holdings(heroes, trinkets, base);
    if x in TrinketHolders(m, t) {
      TrinketHolderKey(heroes, trinkets, base, t, x);
    } else if exists i :: 0 <= i < |heroes| && Key2(heroes[i].name, t) in m.ids && x == m.ids[Key2(heroes[i].name, t)] {
      var i :| 0 <= i < |heroes| && Key2(heroes[i].name, t) in m.ids && x == m.ids[Key2(heroes[i].name, t)];
      KeyTrinketHolder(m, heroes[i].name, t);
    }
  }

  /** A collected variable belongs to the key `hero_t` of a listed hero. */
  lemma TrinketHolderKey(heroes: seq<Hero>, trinkets: seq<Trinket>, base: nat, t: string, x: VarId)
    requires AllPlain(TrinketNames(trinkets)) && Plain(t)
    requires x in TrinketHolders(Holdings(heroes, trinkets, base), t)
    ensures exists i :: 0 <= i < |heroes| && Key2(heroes[i].name, t) in Holdings(heroes, trinkets, base).ids
                        && x == Holdings(heroes, trinkets, base).ids[Key2(heroes[i].name, t)]
  {
    var m := Holdings(heroes, trinkets, base);
    var keep := EndsWithTest([Sep] + t);
    SelectMembers(m.order, m.ids, keep, x);
    var u :| 0 <= u < |m.order| && keep(m.order[u]) && m.ids[m.order[u]] == x;
    var k := m.order[u];
    LastMapEntry(HoldKeys(heroes, trinkets), base, k);
    HoldKeysMembers(heroes, trinkets, k);
    var i, j :| 0 <= i < |heroes| && 0 <= j < |trinkets| && trinkets[j].amount > 0 && k == Key2(heroes[i].name, trinkets[j].name);
    assert TrinketNames(trinkets)[j] == trinkets[j].name;
    TrinketSuffixInKey2(heroes[i].name, trinkets[j].name, t);
    assert Key2(heroes[i].name, t) == k;
  }

  /** The suffix test for a plain trinket name collects the variable of every
      key `hero_t` of the dictionary. */
  lemma KeyTrinketHolder(holds: VarMap, h: string, t: string)
    requires holds.Valid() && Plain(t) && Key2(h, t) in holds.ids
    ensures holds.ids[Key2(h, t)] in TrinketHolders(holds, t)
  {
    var k := Key2(h, t);
    var keep := EndsWithTest([Sep] + t);
    var u :| 0 <= u < |holds.order| && holds.order[u] == k;
    TrinketSuffixInKey2(h, t, t);
    assert keep(holds.order[u]);
    SelectMembers(holds.order, holds.ids, keep, holds.ids[k]);
  }

  /** The prefix test for hero `h` collects the variable of every key
      `h2_trinket` whose hero name `h2` starts with `h`: all of `h`'s own
      keys, and those of any hero whose name extends `h`. */
  lemma HeroTrinketsPrefix(heroes: seq<Hero>, trinkets: seq<Trinket>, base: nat, h: string, x: VarId)
    requires Plain(h)
    ensures x in HeroTrinkets(Holdings(heroes, trinkets, base), h) <==>
      exists i, j :: 0 <= i < |heroes| && 0 <= j < |trinkets| && trinkets[j].amount > 0
        && StartsWith(heroes[i].name, h)
        && Key2(heroes[i].name, trinkets[j].name) in Holdings(heroes, trinkets, base).ids
        && x == Holdings(heroes, trinkets, base).ids[Key2(heroes[i].name, trinkets[j].name)]
  {
    var m := Holdings(heroes, trinkets, base);
    var keep := StartsWithTest(h);
    SelectMembers(m.order, m.ids, keep, x);
    if x in HeroTrinkets(m, h) {
      var u :| 0 <= u < |m.order| && keep(m.order[u]) && m.ids[m.order[u]] == x;
      LastMapEntry(HoldKeys(heroes, trinkets), base, m.order[u]);
      HoldKeysMembers(heroes, trinkets, m.order[u]);
      var i, j :| 0 <= i < |heroes| && 0 <= j < |trinkets| && trinkets[j].amount > 0 && m.order[u] == Key2(heroes[i].name, trinkets[j].name);
      HeroPrefixInKey2(heroes[i].name, trinkets[j].name, h);
    }
    if exists i, j :: 0 <= i < |heroes| && 0 <= j < |trinkets| && trinkets[j].amount > 0
        && StartsWith(heroes[i].name, h) && Key2(heroes[i].name, trinkets[j].name) in m.ids
        && x == m.ids[Key2(heroes[i].name, trinkets[j].name)] {
      var i, j :| 0 <= i < |heroes| && 0 <= j < |trinkets| && trinkets[j].amount > 0
        && StartsWith(heroes[i].name, h) && Key2(heroes[i].name, trinkets[j].name) in m.ids
        && x == m.ids[Key2(heroes[i].name, trinkets[j].name)];
      var k := Key2(heroes[i].name, trinkets[j].name);
      HoldKeysMembers(heroes, trinkets, k);
      LastMapEntry(HoldKeys(heroes, trinkets), base, k);
      var u :| 0 <= u < |m.order| && m.order[u] == k;
      HeroPrefixInKey2(heroes[i].name, trinkets[j].name, h);
      assert keep(m.order[u]);
    }
  }

  /** A trinket none of whose namesakes is in stock has no variable, so no
      cap is posted for it. */
  lemma OutOfStockUnconstrained(heroes: seq<Hero>, trinkets: seq<Trinket>, base: nat, t: string)
    requires AllPlain(TrinketNames(trinkets)) && Plain(t)
    requires forall j :: 0 <= j < |trinkets| && trinkets[j].name == t ==> trinkets[j].amount <= 0
    ensures TrinketHolders(Holdings(heroes, trinkets, base), t) == []
    ensures forall j :: 0 <= j < |trinkets| && trinkets[j].name == t ==> StockConstraint(Holdings(heroes, trinkets, base), trinkets[j]) == []
  {
    var m := Holdings(heroes, trinkets, base);
    var xs := TrinketHolders(m, t);
    if xs != [] {
      TrinketHoldersExact(heroes, trinkets, base, t, xs[0]);
      var i :| 0 <= i < |heroes| && Key2(heroes[i].name, t) in m.ids && xs[0] == m.ids[Key2(heroes[i].name, t)];
      var k := Key2(heroes[i].name, t);
      LastMapEntry(HoldKeys(heroes, trinkets), base, k);
      HoldKeysMembers(heroes, trinkets, k);
      var i2, j :| 0 <= i2 < |heroes| && 0 <= j < |trinkets| && trinkets[j].amount > 0 && k == Key2(heroes[i2].name, trinkets[j].name);
      assert TrinketNames(trinkets)[j] == trinkets[j].name;
      TrinketSuffixInKey2(heroes[i].name, t, t);
      TrinketSuffixInKey2(heroes[i2].name, trinkets[j].name, t);
      assert false;
    }
  }

  // ---------------------------------------------------------------------
  // What a satisfying valuation looks like.

  /** The holders of a listed trinket at 1 number at most its stock, when
      any variable was collected for it. */
  lemma StockRespected(holds: VarMap, heroes: seq<Hero>, trinkets: seq<Trinket>, val: seq<int>, j: int)
    requires holds.Valid() && holds.BoolValued(val)
    requires AllHold(TrinketConstraintList(holds, heroes, trinkets), val)
    requires 0 <= j < |trinkets|
    ensures |TrinketHolders(holds, trinkets[j].name)| > 0 ==>
      CountOnes(TrinketHolders(holds, trinkets[j].name), val) <= trinkets[j].amount
  {
    var xs := TrinketHolders(holds, trinkets[j].name);
    if |xs| > 0 {
      var c := Constraint(Sum(xs), AtMost, Const(trinkets[j].amount));
      StockListed(holds, trinkets, j);
      assert c in StockConstraint(holds, trinkets[j]);
      AllHoldAppend(StockConstraints(holds, trinkets), OneTrinketConstraints(holds, heroes), val);
      var u :| 0 <= u < |StockConstraints(holds, trinkets)| && StockConstraints(holds, trinkets)[u] == c;
      EvalSum(xs, val);
      EvalSimple(0, 0, trinkets[j].amount, val);
      SelectZeroOne(holds, EndsWithTest([Sep] + trinkets[j].name), val);
      ZeroOneSumCounts(xs, val);
    }
  }

  /** Under the posted constraints and 0/1 trinket variables, at most one
      variable collected by the prefix test of a listed hero is non-zero. */
  lemma HeroTrinketsAtMostOne(holds: VarMap, heroes: seq<Hero>, trinkets: seq<Trinket>, val: seq<int>, i: int)
    requires holds.Valid() && holds.BoolValued(val)
    requires AllHold(TrinketConstraintList(holds, heroes, trinkets), val)
    requires 0 <= i < |heroes|
    ensures AtMostOneNonZero(HeroTrinkets(holds, heroes[i].name), val)
  {
    var xs := HeroTrinkets(holds, heroes[i].name);
    if |xs| > 0 {
      var c := Constraint(Sum(xs), AtMost, Const(1));
      OneTrinketListed(holds, heroes, i);
      assert c in OneTrinketConstraint(holds, heroes[i].name);
      AllHoldAppend(StockConstraints(holds, trinkets), OneTrinketConstraints(holds, heroes), val);
      var v :| 0 <= v < |OneTrinketConstraints(holds, heroes)| && OneTrinketConstraints(holds, heroes)[v] == c;
      EvalSum(xs, val);
      EvalSimple(0, 0, 1, val);
      SelectZeroOne(holds, StartsWithTest(heroes[i].name), val);
      AtMostOneOn(xs, val);
    }
  }

  /** The prefix test for a plain hero name collects the variable of each of
      that hero's own keys. */
  lemma OwnKeyCollected(holds: VarMap, h: string, t: string)
    requires holds.Valid() && Plain(h) && Key2(h, t) in holds.ids
    ensures exists w :: 0 <= w < |HeroTrinkets(holds, h)| && HeroTrinkets(holds, h)[w] == holds.ids[Key2(h, t)]
  {
    var k := Key2(h, t);
    var keep := StartsWithTest(h);
    EndsWithContains(h, h);
    HeroPrefixInKey2(h, t, h);
    var u :| 0 <= u < |holds.order| && holds.order[u] == k;
    assert keep(holds.order[u]);
    SelectMembers(holds.order, holds.ids, keep, holds.ids[k]);
    assert holds.ids[k] in HeroTrinkets(holds, h);
  }

  /** Under the posted constraints and 0/1 trinket variables, a hero with a
      plain name holds at most one of the plainly named trinkets. */
  lemma OneTrinketPerHero(heroes: seq<Hero>, trinkets: seq<Trinket>, base: nat, val: seq<int>, i: int, t1: string, t2: string)
    requires AllHold(TrinketConstraintList(Holdings(heroes, trinkets, base), heroes, trinkets), val)
    requires Holdings(heroes, trinkets, base).BoolValued(val)
    requires 0 <= i < |heroes| && Plain(heroes[i].name) && Plain(t1) && Plain(t2)
    requires Holding(Holdings(heroes, trinkets, base), val, heroes[i].name, t1)
    requires Holding(Holdings(heroes, trinkets, base), val, heroes[i].name, t2)
    ensures t1 == t2
  {
    var m := Holdings(heroes, trinkets, base);
    var h := heroes[i].name;
    var k1, k2 := Key2(h, t1), Key2(h, t2);
    OwnKeyCollected(m, h, t1);
    OwnKeyCollected(m, h, t2);
    HeroTrinketsAtMostOne(m, heroes, trinkets, val, i);
    var xs := HeroTrinkets(m, h);
    var w1 :| 0 <= w1 < |xs| && xs[w1] == m.ids[k1];
    var w2 :| 0 <= w2 < |xs| && xs[w2] == m.ids[k2];
    assert m.ids[k1] == m.ids[k2];
    LastMapInjective(HoldKeys(heroes, trinkets), base, k1, k2);
    Key2Injective(h, t1, h, t2);
  }
}
