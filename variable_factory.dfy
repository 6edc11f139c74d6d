/** Factories/VariableFactory.cs: the Boolean decision variables of the two
    models, registered in dictionaries under their string keys. */
module VariableFactory {
  import opened Text
  import opened Keys
  import opened CpSat
  import opened VarMaps
  import opened Domain

  // ---------------------------------------------------------------------
  // The keys the loops visit, in visiting order.

  /** The keys of one hero on one ship, one per position. */
  function SlotKeys(hero: string, ship: string, positions: seq<string>): seq<string> {
    if positions == [] then []
    else SlotKeys(hero, ship, positions[..|positions| - 1]) + [Key3(hero, ship, positions[|positions| - 1])]
  }

  /** The keys of one hero, ship by ship. */
  function ShipKeys(hero: string, ships: seq<string>, positions: seq<string>): seq<string> {
    if ships == [] then []
    else ShipKeys(hero, ships[..|ships| - 1], positions) + SlotKeys(hero, ships[|ships| - 1], positions)
  }

  /** Every `hero_ship_position` key, hero by hero. */
  function AssignmentKeys(heroes: seq<Hero>, ships: seq<string>, positions: seq<string>): seq<string> {
    if heroes == [] then []
    else AssignmentKeys(heroes[..|heroes| - 1], ships, positions) + ShipKeys(heroes[|heroes| - 1].name, ships, positions)
  }

  /** The `hero_trinket` keys of one hero, for the trinkets in stock. */
  function HeldKeys(hero: string, trinkets: seq<Trinket>): seq<string> {
    if trinkets == [] then []
    else
      var t := trinkets[|trinkets| - 1];
      HeldKeys(hero, trinkets[..|trinkets| - 1]) + (if t.amount > 0 then [Key2(hero, t.name)] else [])
  }

  /** Every `hero_trinket` key with the trinket in stock, hero by hero. */
  function HoldKeys(heroes: seq<Hero>, trinkets: seq<Trinket>): seq<string> {
    if heroes == [] then []
    else HoldKeys(heroes[..|heroes| - 1], trinkets) + HeldKeys(heroes[|heroes| - 1].name, trinkets)
  }

  /** `$"active_{ship}"`. */
  function ActiveName(ship: string): string {
    "active_" + ship
  }

  function ActiveNames(ships: seq<string>): (names: seq<string>)
    ensures |names| == |ships|
    ensures forall i :: 0 <= i < |ships| ==> names[i] == ActiveName(ships[i])
  {
    if ships == [] then [] else ActiveNames(ships[..|ships| - 1]) + [ActiveName(ships[|ships| - 1])]
  }

  /** The declarations `NewBoolVar` makes for `names`, in order. */
  function BoolDecls(names: seq<string>): (ds: seq<VarDecl>)
    ensures |ds| == |names|
  {
    if names == [] then [] else BoolDecls(names[..|names| - 1]) + [BoolDecl(names[|names| - 1])]
  }

  // ---------------------------------------------------------------------
  // What a dictionary built by a loop holds.

  /** The dictionary left by visiting `seen` and creating the next variable
      (numbered from `base`) for a key only the first time it is met:
      `if (!dictionary.ContainsKey(key)) dictionary[key] = model.NewBoolVar(key)`. */
  function FirstMap(seen: seq<string>, base: nat): VarMap {
    if seen == [] then Empty
    else
      var m := FirstMap(seen[..|seen| - 1], base);
      var x := seen[|seen| - 1];
      if x in m.ids then m else VarMap(m.order + [x], m.ids[x := base + |m.order|])
  }

  /** The dictionary left by visiting `seen` and creating a variable for
      every key met (the `base + t`-th for the `t`-th key), stored with
      `dictionary[key] = variable`. */
  function LastMap(seen: seq<string>, base: nat): VarMap {
    if seen == [] then Empty
    else LastMap(seen[..|seen| - 1], base).Put(seen[|seen| - 1], base + |seen| - 1)
  }

  /** The last position of `x` in `xs`, or -1 when it does not occur. */
  function LastIndex(xs: seq<string>, x: string): int {
    if xs == [] then -1
    else if xs[|xs| - 1] == x then |xs| - 1
    else LastIndex(xs[..|xs| - 1], x)
  }

  /** Only first visits create a variable: one key per distinct visited key,
      in order of first visit, the keys numbered consecutively from `base`. */
  lemma {:induction false} FirstMapRegisters(seen: seq<string>, base: nat)
    ensures var m := FirstMap(seen, base);
      && m.Valid()
      && m.order == Dedup(seen)
      && forall t :: 0 <= t < |m.order| ==> m.ids[m.order[t]] == base + t
  {
    if seen != [] {
      FirstMapRegisters(seen[..|seen| - 1], base);
    }
  }

  /** Every visited key is present, in order of first visit, and holds the
      variable created at its last visit. */
  lemma {:induction false} LastMapRegisters(seen: seq<string>, base: nat)
    ensures var m := LastMap(seen, base);
      && m.Valid()
      && m.order == Dedup(seen)
      && forall k :: k in m.ids ==> m.ids[k] == base + LastIndex(seen, k)
  {
    if seen != [] {
      LastMapRegisters(seen[..|seen| - 1], base);
    }
  }

  /** `LastIndex` finds the last occurrence of a key that occurs. */
  lemma {:induction false} LastIndexIsLast(xs: seq<string>, x: string)
    ensures x in xs <==> 0 <= LastIndex(xs, x)
    ensures x in xs ==> LastIndex(xs, x) < |xs| && xs[LastIndex(xs, x)] == x
    ensures forall u :: 0 <= LastIndex(xs, x) < u < |xs| ==> xs[u] != x
  {
    if xs != [] {
      var init := xs[..|xs| - 1];
      LastIndexIsLast(init, x);
      assert xs == init + [xs[|xs| - 1]];
    }
  }

  /** The `i`-th declaration is the Boolean variable named by the `i`-th name. */
  lemma {:induction false} BoolDeclsAt(names: seq<string>, i: nat)
    requires i < |names|
    ensures BoolDecls(names)[i] == BoolDecl(names[i])
  {
    if i < |names| - 1 {
      BoolDeclsAt(names[..|names| - 1], i);
    }
  }

  lemma BoolDeclsSnoc(names: seq<string>, x: string)
    ensures BoolDecls(names + [x]) == BoolDecls(names) + [BoolDecl(x)]
  {
    assert (names + [x])[..|names|] == names;
  }

  /** One more ship visited: one more `active_` declaration and one more entry. */
  lemma ActiveStep(ships: seq<string>, i: nat, base: nat)
    requires i < |ships|
    ensures BoolDecls(ActiveNames(ships[..i + 1])) == BoolDecls(ActiveNames(ships[..i])) + [BoolDecl(ActiveName(ships[i]))]
    ensures LastMap(ships[..i + 1], base) == LastMap(ships[..i], base).Put(ships[i], base + i)
  {
    assert ships[..i + 1][..i] == ships[..i];
    BoolDeclsSnoc(ActiveNames(ships[..i]), ActiveName(ships[i]));
  }

  /** A key visited again leaves a first-wins dictionary as it was. */
  lemma FirstRepeat(seen: seq<string>, base: nat, x: string)
    requires x in FirstMap(seen, base).ids
    ensures FirstMap(seen + [x], base) == FirstMap(seen, base)
  {
    assert (seen + [x])[..|seen|] == seen;
  }

  /** A key visited for the first time gets the next variable. */
  lemma FirstStep(seen: seq<string>, base: nat, x: string)
    requires x !in FirstMap(seen, base).ids
    ensures FirstMap(seen + [x], base)
      == VarMap(FirstMap(seen, base).order + [x], FirstMap(seen, base).ids[x := base + |FirstMap(seen, base).order|])
  {
    assert (seen + [x])[..|seen|] == seen;
  }

  /** One more declaration after those already made. */
  lemma AppendDecl(vars0: seq<VarDecl>, ds: seq<VarDecl>, d: VarDecl)
    ensures vars0 + ds + [d] == vars0 + (ds + [d])
  {
  }

  /** One more key visited by a last-wins loop. */
  lemma LastStep(seen: seq<string>, base: nat, x: string)
    ensures LastMap(seen + [x], base) == LastMap(seen, base).Put(x, base + |seen|)
    ensures BoolDecls(seen + [x]) == BoolDecls(seen) + [BoolDecl(x)]
  {
    assert (seen + [x])[..|seen|] == seen;
    BoolDeclsSnoc(seen, x);
  }

  /** One more position visited for a ship, after the keys `seen` already visited. */
  lemma SlotKeysStep(seen: seq<string>, hero: string, ship: string, positions: seq<string>, k: nat)
    requires k < |positions|
    ensures seen + SlotKeys(hero, ship, positions[..k + 1]) == seen + SlotKeys(hero, ship, positions[..k]) + [Key3(hero, ship, positions[k])]
  {
    assert positions[..k + 1][..k] == positions[..k];
  }

  /** One more ship visited for a hero, after the keys `seen` already visited. */
  lemma ShipKeysStep(seen: seq<string>, hero: string, ships: seq<string>, positions: seq<string>, j: nat)
    requires j < |ships|
    ensures seen + ShipKeys(hero, ships[..j + 1], positions) == seen + ShipKeys(hero, ships[..j], positions) + SlotKeys(hero, ships[j], positions)
  {
    assert ships[..j + 1][..j] == ships[..j];
  }

  lemma AssignmentKeysStep(heroes: seq<Hero>, ships: seq<string>, positions: seq<string>, i: nat)
    requires i < |heroes|
    ensures AssignmentKeys(heroes[..i + 1], ships, positions) == AssignmentKeys(heroes[..i], ships, positions) + ShipKeys(heroes[i].name, ships, positions)
  {
    assert heroes[..i + 1][..i] == heroes[..i];
  }

  /** One more trinket visited for a hero, after the keys `seen` already visited. */
  lemma HeldKeysStep(seen: seq<string>, hero: string, trinkets: seq<Trinket>, j: nat)
    requires j < |trinkets|
    ensures trinkets[j].amount > 0 ==>
      seen + HeldKeys(hero, trinkets[..j + 1]) == seen + HeldKeys(hero, trinkets[..j]) + [Key2(hero, trinkets[j].name)]
    ensures trinkets[j].amount <= 0 ==> seen + HeldKeys(hero, trinkets[..j + 1]) == seen + HeldKeys(hero, trinkets[..j])
  {
    assert trinkets[..j + 1][..j] == trinkets[..j];
  }

  lemma HoldKeysStep(heroes: seq<Hero>, trinkets: seq<Trinket>, i: nat)
    requires i < |heroes|
    ensures HoldKeys(heroes[..i + 1], trinkets) == HoldKeys(heroes[..i], trinkets) + HeldKeys(heroes[i].name, trinkets)
  {
    assert heroes[..i + 1][..i] == heroes[..i];
  }

  // ---------------------------------------------------------------------
  // The factories.

  /** `if (!dictionary.ContainsKey(key)) dictionary[key] = model.NewBoolVar(key)`
      inside a first-wins loop. */
  method StoreIfNew(model: CpModel, m: VarMap, ghost seen: seq<string>, ghost vars0: seq<VarDecl>, key: string)
    returns (m': VarMap)
    requires model.Valid()
    requires m == FirstMap(seen, |vars0|) && model.vars == vars0 + BoolDecls(m.order)
    modifies model
    ensures model.Valid()
    ensures m' == FirstMap(seen + [key], |vars0|) && model.vars == vars0 + BoolDecls(m'.order)
    ensures model.constraints == old(model.constraints) && model.objective == old(model.objective)
  {
    if key in m.ids {
      FirstRepeat(seen, |vars0|, key);
      m' := m;
    } else {
      var v := model.NewBoolVar(key);
      assert v == |vars0| + |m.order|;
      m' := VarMap(m.order + [key], m.ids[key := v]);
      FirstStep(seen, |vars0|, key);
      BoolDeclsSnoc(m.order, key);
      AppendDecl(vars0, BoolDecls(m.order), BoolDecl(key));
    }
  }

  /** `dictionary[key] = model.NewBoolVar(key)` inside a last-wins loop. */
  method StoreNew(model: CpModel, m: VarMap, ghost seen: seq<string>, ghost vars0: seq<VarDecl>, key: string)
    returns (m': VarMap)
    requires model.Valid()
    requires m == LastMap(seen, |vars0|) && model.vars == vars0 + BoolDecls(seen)
    modifies model
    ensures model.Valid()
    ensures m' == LastMap(seen + [key], |vars0|) && model.vars == vars0 + BoolDecls(seen + [key])
    ensures model.constraints == old(model.constraints) && model.objective == old(model.objective)
  {
    var v := model.NewBoolVar(key);
    m' := m.Put(key, v);
    LastStep(seen, |vars0|, key);
    AppendDecl(vars0, BoolDecls(seen), BoolDecl(key));
  }

  /** The position loop of `CreateAssignmentVariables` for one hero and one ship. */
  method StoreSlots(model: CpModel, m: VarMap, ghost seen: seq<string>, ghost vars0: seq<VarDecl>,
                    hero: string, ship: string, positions: seq<string>)
    returns (m': VarMap)
    requires model.Valid()
    requires m == FirstMap(seen, |vars0|) && model.vars == vars0 + BoolDecls(m.order)
    modifies model
    ensures model.Valid()
    ensures m' == FirstMap(seen + SlotKeys(hero, ship, positions), |vars0|)
    ensures model.vars == vars0 + BoolDecls(m'.order)
    ensures model.constraints == old(model.constraints) && model.objective == old(model.objective)
  {
    m' := m;
    AppendNothing(seen);
    for k := 0 to |positions|
      invariant model.Valid()
      invariant m' == FirstMap(seen + SlotKeys(hero, ship, positions[..k]), |vars0|)
      invariant model.vars == vars0 + BoolDecls(m'.order)
      invariant model.constraints == old(model.constraints) && model.objective == old(model.objective)
    {
      SlotKeysStep(seen, hero, ship, positions, k);
      m' := StoreIfNew(model, m', seen + SlotKeys(hero, ship, positions[..k]), vars0, Key3(hero, ship, positions[k]));
    }
    assert positions[..|positions|] == positions;
  }

  /** The ship loop of `CreateAssignmentVariables` for one hero. */
  method StoreShips(model: CpModel, m: VarMap, ghost seen: seq<string>, ghost vars0: seq<VarDecl>,
                    hero: string, ships: seq<string>, positions: seq<string>)
    returns (m': VarMap)
    requires model.Valid()
    requires m == FirstMap(seen, |vars0|) && model.vars == vars0 + BoolDecls(m.order)
    modifies model
    ensures model.Valid()
    ensures m' == FirstMap(seen + ShipKeys(hero, ships, positions), |vars0|)
    ensures model.vars == vars0 + BoolDecls(m'.order)
    ensures model.constraints == old(model.constraints) && model.objective == old(model.objective)
  {
    m' := m;
    AppendNothing(seen);
    for j := 0 to |ships|
      invariant model.Valid()
      invariant m' == FirstMap(seen + ShipKeys(hero, ships[..j], positions), |vars0|)
      invariant model.vars == vars0 + BoolDecls(m'.order)
      invariant model.constraints == old(model.constraints) && model.objective == old(model.objective)
    {
      ShipKeysStep(seen, hero, ships, positions, j);
      m' := StoreSlots(model, m', seen + ShipKeys(hero, ships[..j], positions), vars0, hero, ships[j], positions);
    }
    assert ships[..|ships|] == ships;
  }

  /** `CreateAssignmentVariables`: one Boolean variable per distinct
      `hero_ship_position` key, created in visiting order and named by its key. */
  method CreateAssignmentVariables(model: CpModel, heroes: seq<Hero>, ships: seq<string>, positions: seq<string>)
    returns (assignments: VarMap)
    requires model.Valid()
    modifies model
    ensures model.Valid()
    ensures assignments == FirstMap(AssignmentKeys(heroes, ships, positions), |old(model.vars)|)
    ensures model.vars == old(model.vars) + BoolDecls(assignments.order)
    ensures model.constraints == old(model.constraints) && model.objective == old(model.objective)
  {
    ghost var vars0 := model.vars;
    assignments := Empty;
    for i := 0 to |heroes|
      invariant model.Valid()
      invariant assignments == FirstMap(AssignmentKeys(heroes[..i], ships, positions), |vars0|)
      invariant model.vars == vars0 + BoolDecls(assignments.order)
      invariant model.constraints == old(model.constraints) && model.objective == old(model.objective)
    {
      AssignmentKeysStep(heroes, ships, positions, i);
      assignments := StoreShips(model, assignments, AssignmentKeys(heroes[..i], ships, positions), vars0,
                                heroes[i].name, ships, positions);
    }
    assert heroes[..|heroes|] == heroes;
  }

  /** `CreateShipActiveVariables`: one variable `active_<ship>` per listed
      ship, a repeated ship getting a fresh variable that replaces the
      earlier one in the dictionary. */
  method CreateShipActiveVariables(model: CpModel, ships: seq<string>) returns (active: VarMap)
    requires model.Valid()
    modifies model
    ensures model.Valid()
    ensures active == LastMap(ships, |old(model.vars)|)
    ensures model.vars == old(model.vars) + BoolDecls(ActiveNames(ships))
    ensures model.constraints == old(model.constraints) && model.objective == old(model.objective)
  {
    ghost var vars0 := model.vars;
    ghost var base := |model.vars|;
    active := Empty;
    for i := 0 to |ships|
      invariant model.Valid()
      invariant active == LastMap(ships[..i], base)
      invariant model.vars == vars0 + BoolDecls(ActiveNames(ships[..i]))
      invariant model.constraints == old(model.constraints) && model.objective == old(model.objective)
    {
      var ship := ships[i];
      var v := model.NewBoolVar(ActiveName(ship));
      assert v == base + i;
      active := active.Put(ship, v);
      ActiveStep(ships, i, base);
      AppendDecl(vars0, BoolDecls(ActiveNames(ships[..i])), BoolDecl(ActiveName(ship)));
    }
    assert ships[..|ships|] == ships;
  }

  /** `CreateTrinketAssignmentVariables`: one variable per hero and per
      trinket in stock, named `hero_trinket`; a repeated key gets a fresh
      variable that replaces the earlier one in the dictionary. */
  method CreateTrinketAssignmentVariables(model: CpModel, heroes: seq<Hero>, trinkets: seq<Trinket>)
    returns (holds: VarMap)
    requires model.Valid()
    modifies model
    ensures model.Valid()
    ensures holds == LastMap(HoldKeys(heroes, trinkets), |old(model.vars)|)
    ensures model.vars == old(model.vars) + BoolDecls(HoldKeys(heroes, trinkets))
    ensures model.constraints == old(model.constraints) && model.objective == old(model.objective)
  {
    ghost var vars0 := model.vars;
    ghost var base := |model.vars|;
    ghost var seen: seq<string> := [];
    holds := Empty;
    for i := 0 to |heroes|
      invariant model.Valid()
      invariant seen == HoldKeys(heroes[..i], trinkets)
      invariant holds == LastMap(seen, base)
      invariant model.vars == vars0 + BoolDecls(seen)
      invariant model.constraints == old(model.constraints) && model.objective == old(model.objective)
    {
      var hero := heroes[i];
      ghost var before := seen;
      AppendNothing(before);
      for j := 0 to |trinkets|
        invariant model.Valid()
        invariant seen == before + HeldKeys(hero.name, trinkets[..j])
        invariant holds == LastMap(seen, base)
        invariant model.vars == vars0 + BoolDecls(seen)
        invariant model.constraints == old(model.constraints) && model.objective == old(model.objective)
      {
        var trinket := trinkets[j];
        HeldKeysStep(before, hero.name, trinkets, j);
        if trinket.amount > 0 {
          var varName := Key2(hero.name, trinket.name);
          holds := StoreNew(model, holds, seen, vars0, varName);
          seen := seen + [varName];
        }
      }
      assert trinkets[..|trinkets|] == trinkets;
      HoldKeysStep(heroes, trinkets, i);
    }
    assert heroes[..|heroes|] == heroes;
  }

  // ---------------------------------------------------------------------
  // Which keys get a variable.

  lemma {:induction false} SlotKeysMembers(hero: string, ship: string, positions: seq<string>, k: string)
    ensures k in SlotKeys(hero, ship, positions) <==> exists p :: p in positions && k == Key3(hero, ship, p)
  {
    if positions != [] {
      var init := positions[..|positions| - 1];
      SlotKeysMembers(hero, ship, init, k);
      assert positions == init + [positions[|positions| - 1]];
    }
  }

  lemma {:induction false} ShipKeysMembers(hero: string, ships: seq<string>, positions: seq<string>, k: string)
    ensures k in ShipKeys(hero, ships, positions) <==>
      exists s, p :: s in ships && p in positions && k == Key3(hero, s, p)
  {
    if ships != [] {
      var init := ships[..|ships| - 1];
      var last := ships[|ships| - 1];
      ShipKeysMembers(hero, init, positions, k);
      SlotKeysMembers(hero, last, positions, k);
      assert ships == init + [last];
      if exists s, p :: s in ships && p in positions && k == Key3(hero, s, p) {
        var s, p :| s in ships && p in positions && k == Key3(hero, s, p);
        if s != last {
          assert s in init;
        }
      }
    }
  }

  /** The assignment keys are exactly the `hero_ship_position` keys of every
      hero, every ship and every position. */
  lemma {:induction false} AssignmentKeysMembers(heroes: seq<Hero>, ships: seq<string>, positions: seq<string>, k: string)
    ensures k in AssignmentKeys(heroes, ships, positions) <==>
      exists i, s, p :: 0 <= i < |heroes| && s in ships && p in positions && k == Key3(heroes[i].name, s, p)
  {
    if k in AssignmentKeys(heroes, ships, positions) {
      AssignmentKeysSound(heroes, ships, positions, k);
    } else if exists i, s, p :: 0 <= i < |heroes| && s in ships && p in positions && k == Key3(heroes[i].name, s, p) {
      var i, s, p :| 0 <= i < |heroes| && s in ships && p in positions && k == Key3(heroes[i].name, s, p);
      AssignmentKeysComplete(heroes, ships, positions, heroes[i], s, p);
    }
  }

  /** Every assignment key is built from a hero, a ship and a position. */
  lemma {:induction false} AssignmentKeysSound(heroes: seq<Hero>, ships: seq<string>, positions: seq<string>, k: string)
    requires k in AssignmentKeys(heroes, ships, positions)
    ensures exists i, s, p :: 0 <= i < |heroes| && s in ships && p in positions && k == Key3(heroes[i].name, s, p)
  {
    var n := |heroes| - 1;
    var init := heroes[..n];
    if k in AssignmentKeys(init, ships, positions) {
      AssignmentKeysSound(init, ships, positions, k);
      var i, s, p :| 0 <= i < |init| && s in ships && p in positions && k == Key3(init[i].name, s, p);
      assert heroes[i] == init[i];
    } else {
      ShipKeysMembers(heroes[n].name, ships, positions, k);
      var s, p :| s in ships && p in positions && k == Key3(heroes[n].name, s, p);
    }
  }

  /** Every hero, ship and position has its assignment key. */
  lemma {:induction false} AssignmentKeysComplete(heroes: seq<Hero>, ships: seq<string>, positions: seq<string>, hero: Hero, s: string, p: string)
    requires hero in heroes && s in ships && p in positions
    ensures Key3(hero.name, s, p) in AssignmentKeys(heroes, ships, positions)
  {
    var init := heroes[..|heroes| - 1];
    var last := heroes[|heroes| - 1];
    if hero == last {
      ShipKeysComplete(last.name, ships, positions, s, p);
    } else {
      assert heroes == init + [last];
      assert hero in init;
      AssignmentKeysComplete(init, ships, positions, hero, s, p);
    }
  }

  /** Every ship and position has its key for one hero. */
  lemma {:induction false} ShipKeysComplete(hero: string, ships: seq<string>, positions: seq<string>, s: string, p: string)
    requires s in ships && p in positions
    ensures Key3(hero, s, p) in ShipKeys(hero, ships, positions)
  {
    var init := ships[..|ships| - 1];
    var last := ships[|ships| - 1];
    assert ShipKeys(hero, ships, positions) == ShipKeys(hero, init, positions) + SlotKeys(hero, last, positions);
    if s == last {
      SlotKeysComplete(hero, last, positions, p);
    } else {
      assert ships == init + [last];
      assert s in init;
      ShipKeysComplete(hero, init, positions, s, p);
    }
  }

  /** Every position has its key for one hero and one ship. */
  lemma {:induction false} SlotKeysComplete(hero: string, ship: string, positions: seq<string>, p: string)
    requires p in positions
    ensures Key3(hero, ship, p) in SlotKeys(hero, ship, positions)
  {
    var init := positions[..|positions| - 1];
    var last := positions[|positions| - 1];
    if p != last {
      assert positions == init + [last];
      assert p in init;
      SlotKeysComplete(hero, ship, init, p);
    }
  }

  /** The loops visit `|heroes| * |ships| * |positions|` keys. */
  lemma {:induction false} AssignmentKeysCount(heroes: seq<Hero>, ships: seq<string>, positions: seq<string>)
    ensures |AssignmentKeys(heroes, ships, positions)| == |heroes| * (|ships| * |positions|)
  {
    if heroes != [] {
      var n := |heroes| - 1;
      AssignmentKeysCount(heroes[..n], ships, positions);
      ShipKeysCount(heroes[n].name, ships, positions);
      MulSucc(|heroes|, |ships| * |positions|);
    }
  }

  lemma {:induction false} ShipKeysCount(hero: string, ships: seq<string>, positions: seq<string>)
    ensures |ShipKeys(hero, ships, positions)| == |ships| * |positions|
  {
    if ships != [] {
      ShipKeysCount(hero, ships[..|ships| - 1], positions);
      SlotKeysCount(hero, ships[|ships| - 1], positions);
      MulSucc(|ships|, |positions|);
    }
  }

  lemma {:induction false} SlotKeysCount(hero: string, ship: string, positions: seq<string>)
    ensures |SlotKeys(hero, ship, positions)| == |positions|
  {
    if positions != [] {
      SlotKeysCount(hero, ship, positions[..|positions| - 1]);
    }
  }

  lemma MulSucc(n: int, m: int)
    ensures n * m == (n - 1) * m + m
  {
  }

  lemma {:induction false} SlotKeysDistinct(hero: string, ship: string, positions: seq<string>)
    requires Plain(hero) && Plain(ship) && AllPlain(positions) && Distinct(positions)
    ensures Distinct(SlotKeys(hero, ship, positions))
  {
    if positions != [] {
      var init := positions[..|positions| - 1];
      var last := positions[|positions| - 1];
      SlotKeysDistinct(hero, ship, init);
      forall k | k in SlotKeys(hero, ship, init) ensures k !in [Key3(hero, ship, last)] {
        SlotKeysMembers(hero, ship, init, k);
        var p :| p in init && k == Key3(hero, ship, p);
        var t :| 0 <= t < |init| && init[t] == p;
        assert positions[t] == p;
        Key3Injective(hero, ship, p, hero, ship, last);
      }
      DistinctConcat(SlotKeys(hero, ship, init), [Key3(hero, ship, last)]);
    }
  }

  lemma {:induction false} ShipKeysDistinct(hero: string, ships: seq<string>, positions: seq<string>)
    requires Plain(hero) && AllPlain(ships) && Distinct(ships) && AllPlain(positions) && Distinct(positions)
    ensures Distinct(ShipKeys(hero, ships, positions))
  {
    if ships != [] {
      var init := ships[..|ships| - 1];
      var last := ships[|ships| - 1];
      ShipKeysDistinct(hero, init, positions);
      SlotKeysDistinct(hero, last, positions);
      forall k | k in ShipKeys(hero, init, positions) ensures k !in SlotKeys(hero, last, positions) {
        ShipKeysMembers(hero, init, positions, k);
        SlotKeysMembers(hero, last, positions, k);
        var s, p :| s in init && p in positions && k == Key3(hero, s, p);
        var t :| 0 <= t < |init| && init[t] == s;
        assert ships[t] == s;
        forall p2 | p2 in positions ensures k != Key3(hero, last, p2) {
          var u :| 0 <= u < |positions| && positions[u] == p2;
          var v :| 0 <= v < |positions| && positions[v] == p;
          Key3Injective(hero, s, p, hero, last, p2);
        }
      }
      DistinctConcat(ShipKeys(hero, init, positions), SlotKeys(hero, last, positions));
    }
  }

  /** With plain, pairwise different names every visited key is new. */
  lemma {:induction false} AssignmentKeysDistinct(heroes: seq<Hero>, ships: seq<string>, positions: seq<string>)
    requires AllPlain(HeroNames(heroes)) && Distinct(HeroNames(heroes))
    requires AllPlain(ships) && Distinct(ships) && AllPlain(positions) && Distinct(positions)
    ensures Distinct(AssignmentKeys(heroes, ships, positions))
  {
    if heroes != [] {
      var n := |heroes| - 1;
      var init := heroes[..n];
      var names := HeroNames(heroes);
      assert HeroNames(init) == names[..n];
      AssignmentKeysDistinct(init, ships, positions);
      assert Plain(names[n]);
      ShipKeysDistinct(heroes[n].name, ships, positions);
      forall k | k in AssignmentKeys(init, ships, positions) ensures k !in ShipKeys(heroes[n].name, ships, positions) {
        AssignmentKeysMembers(init, ships, positions, k);
        ShipKeysMembers(heroes[n].name, ships, positions, k);
        var i, s, p :| 0 <= i < |init| && s in ships && p in positions && k == Key3(init[i].name, s, p);
        assert names[i] == init[i].name && Plain(names[i]) && names[i] != names[n];
        forall s2, p2 | s2 in ships && p2 in positions ensures k != Key3(heroes[n].name, s2, p2) {
          var a :| 0 <= a < |ships| && ships[a] == s;
          var b :| 0 <= b < |positions| && positions[b] == p;
          var c :| 0 <= c < |ships| && ships[c] == s2;
          var d :| 0 <= d < |positions| && positions[d] == p2;
          Key3Injective(init[i].name, s, p, heroes[n].name, s2, p2);
        }
      }
      DistinctConcat(AssignmentKeys(init, ships, positions), ShipKeys(heroes[n].name, ships, positions));
    }
  }

  /** `CreateAssignmentVariables` makes at most one variable per hero, ship
      and position, and exactly one for each when the names are plain and
      pairwise different. */
  lemma AssignmentVariableCount(heroes: seq<Hero>, ships: seq<string>, positions: seq<string>, base: nat)
    ensures |FirstMap(AssignmentKeys(heroes, ships, positions), base).order| <= |heroes| * (|ships| * |positions|)
    ensures AllPlain(HeroNames(heroes)) && Distinct(HeroNames(heroes)) &&
            AllPlain(ships) && Distinct(ships) && AllPlain(positions) && Distinct(positions) ==>
      |FirstMap(AssignmentKeys(heroes, ships, positions), base).order| == |heroes| * (|ships| * |positions|)
  {
    var keys := AssignmentKeys(heroes, ships, positions);
    FirstMapRegisters(keys, base);
    AssignmentKeysCount(heroes, ships, positions);
    if AllPlain(HeroNames(heroes)) && Distinct(HeroNames(heroes)) &&
       AllPlain(ships) && Distinct(ships) && AllPlain(positions) && Distinct(positions) {
      AssignmentKeysDistinct(heroes, ships, positions);
      DedupOfDistinct(keys);
    }
  }

  /** The entries of a last-wins dictionary: every visited key, holding
      the variable created at its last visit. */
  lemma LastMapEntry(seen: seq<string>, base: nat, k: string)
    ensures var m := LastMap(seen, base);
      && (k in m.ids <==> k in seen)
      && (k in m.ids ==>
           && base <= m.ids[k] < base + |seen|
           && seen[m.ids[k] - base] == k
           && forall u :: m.ids[k] - base < u < |seen| ==> seen[u] != k)
  {
    LastMapRegisters(seen, base);
    LastIndexIsLast(seen, k);
  }

  lemma {:induction false} HeldKeysMembers(hero: string, trinkets: seq<Trinket>, k: string)
    ensures k in HeldKeys(hero, trinkets) <==>
      exists j :: 0 <= j < |trinkets| && trinkets[j].amount > 0 && k == Key2(hero, trinkets[j].name)
  {
    if trinkets != [] {
      var n := |trinkets| - 1;
      var init := trinkets[..n];
      HeldKeysMembers(hero, init, k);
      if k in HeldKeys(hero, init) {
        var j :| 0 <= j < |init| && init[j].amount > 0 && k == Key2(hero, init[j].name);
        assert trinkets[j] == init[j];
      } else if trinkets[n].amount > 0 && k == Key2(hero, trinkets[n].name) {
      } else {
        forall j | 0 <= j < |trinkets| && trinkets[j].amount > 0
          ensures k != Key2(hero, trinkets[j].name)
        {
          if j < n {
            assert init[j] == trinkets[j];
          }
        }
      }
    }
  }

  /** The trinket keys are the `hero_trinket` keys of every hero and every
      trinket with a positive amount. */
  lemma HoldKeysMembers(heroes: seq<Hero>, trinkets: seq<Trinket>, k: string)
    ensures k in HoldKeys(heroes, trinkets) <==>
      exists i, j :: 0 <= i < |heroes| && 0 <= j < |trinkets| && trinkets[j].amount > 0 &&
                     k == Key2(heroes[i].name, trinkets[j].name)
  {
    if k in HoldKeys(heroes, trinkets) {
      HoldKeysSound(heroes, trinkets, k);
    } else if exists i, j :: 0 <= i < |heroes| && 0 <= j < |trinkets| && trinkets[j].amount > 0 &&
                             k == Key2(heroes[i].name, trinkets[j].name) {
      var i, j :| 0 <= i < |heroes| && 0 <= j < |trinkets| && trinkets[j].amount > 0 &&
                  k == Key2(heroes[i].name, trinkets[j].name);
      HoldKeysComplete(heroes, trinkets, heroes[i], j);
    }
  }

  /** Every trinket key pairs a hero with a trinket in stock. */
  lemma {:induction false} HoldKeysSound(heroes: seq<Hero>, trinkets: seq<Trinket>, k: string)
    requires k in HoldKeys(heroes, trinkets)
    ensures exists i, j :: 0 <= i < |heroes| && 0 <= j < |trinkets| && trinkets[j].amount > 0 &&
                           k == Key2(heroes[i].name, trinkets[j].name)
  {
    var n := |heroes| - 1;
    var init := heroes[..n];
    if k in HoldKeys(init, trinkets) {
      HoldKeysSound(init, trinkets, k);
      var i, j :| 0 <= i < |init| && 0 <= j < |trinkets| && trinkets[j].amount > 0 &&
                  k == Key2(init[i].name, trinkets[j].name);
      assert heroes[i].name == init[i].name;
    } else {
      HeldKeysMembers(heroes[n].name, trinkets, k);
      var j :| 0 <= j < |trinkets| && trinkets[j].amount > 0 && k == Key2(heroes[n].name, trinkets[j].name);
    }
  }

  /** Every hero has a key for every trinket in stock. */
  lemma {:induction false} HoldKeysComplete(heroes: seq<Hero>, trinkets: seq<Trinket>, hero: Hero, j: int)
    requires hero in heroes && 0 <= j < |trinkets| && trinkets[j].amount > 0
    ensures Key2(hero.name, trinkets[j].name) in HoldKeys(heroes, trinkets)
  {
    var init := heroes[..|heroes| - 1];
    var last := heroes[|heroes| - 1];
    if hero == last {
      HeldKeysMembers(last.name, trinkets, Key2(hero.name, trinkets[j].name));
    } else {
      assert heroes == init + [last];
      assert hero in init;
      HoldKeysComplete(init, trinkets, hero, j);
    }
  }

  /** With plain names, hero `h` has a variable for trinket `t` exactly when
      `h` is one of the heroes and some trinket named `t` is in stock. */
  lemma TrinketVariableExists(heroes: seq<Hero>, trinkets: seq<Trinket>, base: nat, h: string, t: string)
    requires AllPlain(HeroNames(heroes)) && AllPlain(TrinketNames(trinkets)) && Plain(h) && Plain(t)
    ensures Key2(h, t) in LastMap(HoldKeys(heroes, trinkets), base).ids <==>
      (exists i :: 0 <= i < |heroes| && heroes[i].name == h) &&
      (exists j :: 0 <= j < |trinkets| && trinkets[j].name == t && trinkets[j].amount > 0)
  {
    var k := Key2(h, t);
    LastMapEntry(HoldKeys(heroes, trinkets), base, k);
    HoldKeysMembers(heroes, trinkets, k);
    if k in HoldKeys(heroes, trinkets) {
      var i, j :| 0 <= i < |heroes| && 0 <= j < |trinkets| && trinkets[j].amount > 0 &&
                  k == Key2(heroes[i].name, trinkets[j].name);
      assert HeroNames(heroes)[i] == heroes[i].name && TrinketNames(trinkets)[j] == trinkets[j].name;
      Key2Injective(h, t, heroes[i].name, trinkets[j].name);
    }
  }

  /** Distinct keys of a dictionary filled on first visits hold distinct variables. */
  lemma FirstMapInjective(seen: seq<string>, base: nat, k1: string, k2: string)
    requires k1 in FirstMap(seen, base).ids && k2 in FirstMap(seen, base).ids
    requires FirstMap(seen, base).ids[k1] == FirstMap(seen, base).ids[k2]
    ensures k1 == k2
  {
    var m := FirstMap(seen, base);
    FirstMapRegisters(seen, base);
    var t1 :| 0 <= t1 < |m.order| && m.order[t1] == k1;
    var t2 :| 0 <= t2 < |m.order| && m.order[t2] == k2;
  }

  /** The assignment dictionary `CreateAssignmentVariables` returns when the
      model held `base` variables before. */
  function Assignments(heroes: seq<Hero>, ships: seq<string>, positions: seq<string>, base: nat): (m: VarMap)
    ensures m.Valid()
  {
    FirstMapRegisters(AssignmentKeys(heroes, ships, positions), base);
    FirstMap(AssignmentKeys(heroes, ships, positions), base)
  }

  /** The keys of the assignment dictionary are the `hero_ship_position`
      keys of the listed heroes, ships and positions. */
  lemma AssignmentsKeys(heroes: seq<Hero>, ships: seq<string>, positions: seq<string>, base: nat, k: string)
    ensures k in Assignments(heroes, ships, positions, base).ids <==>
      exists i, s, p :: 0 <= i < |heroes| && s in ships && p in positions && k == Key3(heroes[i].name, s, p)
  {
    FirstMapRegisters(AssignmentKeys(heroes, ships, positions), base);
    AssignmentKeysMembers(heroes, ships, positions, k);
  }

  /** Hero `h` holds `position` on `ship` under `val`. */
  predicate Seated(assignments: VarMap, val: seq<int>, h: string, ship: string, position: string) {
    Key3(h, ship, position) in assignments.ids && Value(val, assignments.ids[Key3(h, ship, position)]) == 1
  }

  /** The trinket dictionary `CreateTrinketAssignmentVariables` returns when
      the model held `base` variables before. */
  function Holdings(heroes: seq<Hero>, trinkets: seq<Trinket>, base: nat): (m: VarMap)
    ensures m.Valid()
  {
    LastMapRegisters(HoldKeys(heroes, trinkets), base);
    LastMap(HoldKeys(heroes, trinkets), base)
  }

  /** Hero `h` holds trinket `t` under `val`. */
  predicate Holding(holds: VarMap, val: seq<int>, h: string, t: string) {
    Key2(h, t) in holds.ids && Value(val, holds.ids[Key2(h, t)]) == 1
  }

  /** Distinct keys of a last-wins dictionary hold distinct variables. */
  lemma LastMapInjective(seen: seq<string>, base: nat, k1: string, k2: string)
    requires k1 in LastMap(seen, base).ids && k2 in LastMap(seen, base).ids
    requires LastMap(seen, base).ids[k1] == LastMap(seen, base).ids[k2]
    ensures k1 == k2
  {
    LastMapEntry(seen, base, k1);
    LastMapEntry(seen, base, k2);
  }
}
