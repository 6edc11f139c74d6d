/** `ShipConstraints.AddShipAndHeroConstraints` (Constraints/ShipConstraints.cs):
    four ships are active, every position of a ship is filled exactly when
    the ship is active, and an active ship carries three heroes. The
    variables of one position of a ship, and of the whole ship, are found by
    substring search over the assignment keys. */
module ShipConstraints {
  import opened Text
  import opened Keys
  import opened CpSat
  import opened VarMaps
  import opened Domain
  import opened VariableFactory

  /** `key => key.Contains(needle)`. */
  function ContainsTest(needle: string): string -> bool {
    k => Contains(k, needle)
  }

  /** The `$"{ship}_{position}"` needle. */
  function SlotNeedle(ship: string, position: string): string {
    ship + [Sep] + position
  }

  /** The assignment variables collected for one position of one ship. */
  function SlotMembers(assignments: VarMap, ship: string, position: string): seq<VarId>
    requires assignments.Valid()
  {
    assignments.Select(ContainsTest(SlotNeedle(ship, position)))
  }

  /** The assignment variables collected for a whole ship. */
  function CrewMembers(assignments: VarMap, ship: string): seq<VarId>
    requires assignments.Valid()
  {
    assignments.Select(ContainsTest(ship))
  }

  // ---------------------------------------------------------------------
  // The constraints posted, in posting order.

  /** `Sum(shipActiveVars.Values) == 4`. */
  function FleetSize(active: VarMap): Constraint
    requires active.Valid()
  {
    Constraint(Sum(active.Values()), Equal, Const(4))
  }

  /** A position is filled exactly when its ship is active, and, when any
      variable was collected for it, at most once. */
  function SlotConstraints(assignments: VarMap, active: VarMap, ship: string, position: string): seq<Constraint>
    requires assignments.Valid() && ship in active.ids
  {
    var xs := SlotMembers(assignments, ship, position);
    [Constraint(Sum(xs), Equal, Var(active.ids[ship]))]
      + (if |xs| > 0 then [Constraint(Sum(xs), AtMost, Const(1))] else [])
  }

  function PositionConstraints(assignments: VarMap, active: VarMap, ship: string, positions: seq<string>): seq<Constraint>
    requires assignments.Valid() && ship in active.ids
  {
    if positions == [] then []
    else
      PositionConstraints(assignments, active, ship, positions[..|positions| - 1])
        + SlotConstraints(assignments, active, ship, positions[|positions| - 1])
  }

  /** `Sum(ship's variables) == 3 * active[ship]`. */
  function CrewConstraint(assignments: VarMap, active: VarMap, ship: string): Constraint
    requires assignments.Valid() && ship in active.ids
  {
    Constraint(Sum(CrewMembers(assignments, ship)), Equal, Scaled(3, active.ids[ship]))
  }

  function FleetConstraints(assignments: VarMap, active: VarMap, ships: seq<string>, positions: seq<string>): seq<Constraint>
    requires assignments.Valid() && forall s :: s in ships ==> s in active.ids
  {
    if ships == [] then []
    else
      var ship := ships[|ships| - 1];
      FleetConstraints(assignments, active, ships[..|ships| - 1], positions)
        + PositionConstraints(assignments, active, ship, positions)
        + [CrewConstraint(assignments, active, ship)]
  }

  /** Everything `AddShipAndHeroConstraints` posts. */
  function ShipConstraintList(assignments: VarMap, active: VarMap, ships: seq<string>, positions: seq<string>): seq<Constraint>
    requires assignments.Valid() && active.Valid() && forall s :: s in ships ==> s in active.ids
  {
    [FleetSize(active)] + FleetConstraints(assignments, active, ships, positions)
  }

  // ---------------------------------------------------------------------
  // The builder.

  /** The `foreach` over `assignments.Keys.Where(a => a.Contains(needle))`. */
  method CollectMatching(m: VarMap, needle: string) returns (xs: seq<VarId>)
    requires m.Valid()
    ensures xs == m.Select(ContainsTest(needle))
  {
    xs := [];
    for t := 0 to |m.order|
      invariant xs == SelectFrom(m.order[..t], m.ids, ContainsTest(needle))
    {
      var key := m.order[t];
      assert m.order[..t + 1][..t] == m.order[..t];
      if Contains(key, needle) {
        xs := xs + [m.ids[key]];
      }
    }
    assert m.order[..|m.order|] == m.order;
  }

  /** One more position visited for a ship, after the constraints `cs`. */
  lemma PositionConstraintsStep(cs: seq<Constraint>, assignments: VarMap, active: VarMap, ship: string, positions: seq<string>, k: nat)
    requires assignments.Valid() && ship in active.ids && k < |positions|
    ensures cs + PositionConstraints(assignments, active, ship, positions[..k + 1])
      == cs + PositionConstraints(assignments, active, ship, positions[..k]) + SlotConstraints(assignments, active, ship, positions[k])
  {
    assert positions[..k + 1][..k] == positions[..k];
  }

  /** The constraints of one position, posted one after the other after `cs`. */
  lemma SlotPosted(cs: seq<Constraint>, assignments: VarMap, active: VarMap, ship: string, position: string)
    requires assignments.Valid() && ship in active.ids
    ensures var xs := SlotMembers(assignments, ship, position);
      cs + SlotConstraints(assignments, active, ship, position)
        == cs + [Constraint(Sum(xs), Equal, Var(active.ids[ship]))]
           + (if |xs| > 0 then [Constraint(Sum(xs), AtMost, Const(1))] else [])
  {
  }

  /** One more ship visited, after the constraints `cs`. */
  lemma FleetConstraintsStep(cs: seq<Constraint>, assignments: VarMap, active: VarMap, ships: seq<string>, positions: seq<string>, j: nat)
    requires assignments.Valid() && (forall s :: s in ships ==> s in active.ids) && j < |ships|
    ensures cs + FleetConstraints(assignments, active, ships[..j + 1], positions)
      == cs + FleetConstraints(assignments, active, ships[..j], positions)
        + PositionConstraints(assignments, active, ships[j], positions)
        + [CrewConstraint(assignments, active, ships[j])]
  {
    assert ships[..j + 1][..j] == ships[..j];
  }

  /** The inner `foreach (var position in positions)` for one ship. */
  method AddPositionConstraints(model: CpModel, assignments: VarMap, active: VarMap, ship: string, positions: seq<string>)
    requires model.Valid() && assignments.Valid() && assignments.IdsBelow(|model.vars|)
    requires ship in active.ids && active.ids[ship] < |model.vars|
    modifies model
    ensures model.Valid()
    ensures model.constraints == old(model.constraints) + PositionConstraints(assignments, active, ship, positions)
    ensures model.vars == old(model.vars) && model.objective == old(model.objective)
  {
    assert positions[..0] == [];
    AppendNothing(old(model.constraints));
    for k := 0 to |positions|
      invariant model.Valid() && model.vars == old(model.vars) && model.objective == old(model.objective)
      invariant model.constraints == old(model.constraints) + PositionConstraints(assignments, active, ship, positions[..k])
    {
      ghost var before := model.constraints;
      var positionAssignments := CollectMatching(assignments, SlotNeedle(ship, positions[k]));
      SelectBelow(assignments, ContainsTest(SlotNeedle(ship, positions[k])), |model.vars|);
      SumOver(positionAssignments, |model.vars|);
      model.Add(Constraint(Sum(positionAssignments), Equal, Var(active.ids[ship])));
      if |positionAssignments| > 0 {
        model.Add(Constraint(Sum(positionAssignments), AtMost, Const(1)));
      } else {
        AppendNothing(model.constraints);
      }
      SlotPosted(before, assignments, active, ship, positions[k]);
      PositionConstraintsStep(old(model.constraints), assignments, active, ship, positions, k);
    }
    assert positions[..|positions|] == positions;
  }

  /** The body of the `foreach (var ship in ships)` loop. */
  method AddCrewConstraints(model: CpModel, assignments: VarMap, active: VarMap, ship: string, positions: seq<string>)
    requires model.Valid() && assignments.Valid() && assignments.IdsBelow(|model.vars|)
    requires ship in active.ids && active.ids[ship] < |model.vars|
    modifies model
    ensures model.Valid()
    ensures model.constraints == old(model.constraints)
      + PositionConstraints(assignments, active, ship, positions) + [CrewConstraint(assignments, active, ship)]
    ensures model.vars == old(model.vars) && model.objective == old(model.objective)
  {
    AddPositionConstraints(model, assignments, active, ship, positions);
    var allShipAssignments := assignments.Select(ContainsTest(ship));
    SelectBelow(assignments, ContainsTest(ship), |model.vars|);
    SumOver(allShipAssignments, |model.vars|);
    model.Add(Constraint(Sum(allShipAssignments), Equal, Scaled(3, active.ids[ship])));
  }

  /** `AddShipAndHeroConstraints`: posts exactly `ShipConstraintList`, after
      the constraints already in the model; creates no variable. */
  method AddShipAndHeroConstraints(model: CpModel, assignments: VarMap, active: VarMap, ships: seq<string>, positions: seq<string>)
    requires model.Valid() && assignments.Valid() && active.Valid()
    requires assignments.IdsBelow(|model.vars|) && active.IdsBelow(|model.vars|)
    requires forall s :: s in ships ==> s in active.ids
    modifies model
    ensures model.Valid()
    ensures model.constraints == old(model.constraints) + ShipConstraintList(assignments, active, ships, positions)
    ensures model.vars == old(model.vars) && model.objective == old(model.objective)
  {
    ValuesBelow(active, |model.vars|);
    SumOver(active.Values(), |model.vars|);
    model.Add(FleetSize(active));
    ghost var posted := model.constraints;
    assert ships[..0] == [];
    AppendNothing(posted);
    for j := 0 to |ships|
      invariant model.Valid() && model.vars == old(model.vars) && model.objective == old(model.objective)
      invariant model.constraints == posted + FleetConstraints(assignments, active, ships[..j], positions)
    {
      FleetConstraintsStep(posted, assignments, active, ships, positions, j);
      AddCrewConstraints(model, assignments, active, ships[j], positions);
    }
    assert ships[..|ships|] == ships;
    AppendAssoc(old(model.constraints), [FleetSize(active)], FleetConstraints(assignments, active, ships, positions));
  }

  // ---------------------------------------------------------------------
  // Where each constraint sits in the list.

  lemma {:induction false} SlotConstraintsListed(assignments: VarMap, active: VarMap, ship: string, positions: seq<string>, p: string)
    requires assignments.Valid() && ship in active.ids && p in positions
    ensures forall c :: c in SlotConstraints(assignments, active, ship, p) ==> c in PositionConstraints(assignments, active, ship, positions)
  {
    var n := |positions|;
    var init := positions[..n - 1];
    if positions[n - 1] != p {
      assert positions == init + [positions[n - 1]];
      assert p in init;
      SlotConstraintsListed(assignments, active, ship, init, p);
    }
  }

  lemma {:induction false} ShipConstraintsListed(assignments: VarMap, active: VarMap, ships: seq<string>, positions: seq<string>, s: string)
    requires assignments.Valid() && (forall x :: x in ships ==> x in active.ids) && s in ships
    ensures forall c :: c in PositionConstraints(assignments, active, s, positions) ==> c in FleetConstraints(assignments, active, ships, positions)
    ensures CrewConstraint(assignments, active, s) in FleetConstraints(assignments, active, ships, positions)
  {
    var n := |ships|;
    var init := ships[..n - 1];
    if ships[n - 1] != s {
      assert ships == init + [ships[n - 1]];
      assert s in init;
      ShipConstraintsListed(assignments, active, init, positions, s);
    }
  }

  lemma HoldsListed(cs: seq<Constraint>, c: Constraint, val: seq<int>)
    requires AllHold(cs, val) && c in cs
    ensures Holds(c, val)
  {
    var i :| 0 <= i < |cs| && cs[i] == c;
  }

  // ---------------------------------------------------------------------
  // What every satisfying valuation looks like.

  /** The active flags sum to four; with 0/1 flags, exactly four entries of
      the active-ship dictionary are set. */
  lemma FourShipsActive(assignments: VarMap, active: VarMap, ships: seq<string>, positions: seq<string>, val: seq<int>)
    requires assignments.Valid() && active.Valid() && forall s :: s in ships ==> s in active.ids
    requires AllHold(ShipConstraintList(assignments, active, ships, positions), val)
    ensures SumVals(active.Values(), val) == 4
    ensures ZeroOne(active.Values(), val) ==> CountOnes(active.Values(), val) == 4
  {
    assert Holds(ShipConstraintList(assignments, active, ships, positions)[0], val);
    EvalSum(active.Values(), val);
    EvalSimple(0, 0, 4, val);
    if ZeroOne(active.Values(), val) {
      ZeroOneSumCounts(active.Values(), val);
    }
  }

  /** Each position of a listed ship holds as many heroes as the ship's
      active flag, and never more than one; so the flag itself is 0 or 1.
      With 0/1 assignment variables, an active ship has exactly one
      collected variable at 1 for the position, and an inactive ship none. */
  lemma SlotFollowsActive(assignments: VarMap, active: VarMap, ships: seq<string>, positions: seq<string>, val: seq<int>, ship: string, position: string)
    requires assignments.Valid() && active.Valid() && forall s :: s in ships ==> s in active.ids
    requires AllHold(ShipConstraintList(assignments, active, ships, positions), val)
    requires ship in ships && position in positions
    requires ZeroOne(SlotMembers(assignments, ship, position), val)
    ensures SumVals(SlotMembers(assignments, ship, position), val) == Value(val, active.ids[ship])
    ensures 0 <= Value(val, active.ids[ship]) <= 1
    ensures Value(val, active.ids[ship]) == 1 ==>
      exists i :: 0 <= i < |SlotMembers(assignments, ship, position)| && Value(val, SlotMembers(assignments, ship, position)[i]) == 1
    ensures Value(val, active.ids[ship]) == 0 ==>
      forall i :: 0 <= i < |SlotMembers(assignments, ship, position)| ==> Value(val, SlotMembers(assignments, ship, position)[i]) == 0
    ensures forall i, j :: 0 <= i < j < |SlotMembers(assignments, ship, position)| ==>
      Value(val, SlotMembers(assignments, ship, position)[i]) == 0 || Value(val, SlotMembers(assignments, ship, position)[j]) == 0
  {
    var xs := SlotMembers(assignments, ship, position);
    var cs := ShipConstraintList(assignments, active, ships, positions);
    var fill := Constraint(Sum(xs), Equal, Var(active.ids[ship]));
    SlotConstraintsListed(assignments, active, ship, positions, position);
    ShipConstraintsListed(assignments, active, ships, positions, ship);
    assert fill in SlotConstraints(assignments, active, ship, position);
    HoldsListed(cs, fill, val);
    EvalSum(xs, val);
    EvalSimple(active.ids[ship], 0, 0, val);
    ValueAtMostSum(xs, val);
    if |xs| > 0 {
      var most := Constraint(Sum(xs), AtMost, Const(1));
      assert most in SlotConstraints(assignments, active, ship, position);
      HoldsListed(cs, most, val);
      EvalSimple(0, 0, 1, val);
    }
    SumAtMostOne(xs, val);
    if Value(val, active.ids[ship]) == 1 {
      ExactlyOneAtOne(xs, val);
    } else if Value(val, active.ids[ship]) == 0 {
      SumZeroAllZero(xs, val);
    }
  }

  /** The variables collected for a listed ship sum to three times its
      active flag: three heroes on an active ship, none on an inactive one. */
  lemma CrewFollowsActive(assignments: VarMap, active: VarMap, ships: seq<string>, positions: seq<string>, val: seq<int>, ship: string)
    requires assignments.Valid() && active.Valid() && forall s :: s in ships ==> s in active.ids
    requires AllHold(ShipConstraintList(assignments, active, ships, positions), val)
    requires ship in ships
    ensures SumVals(CrewMembers(assignments, ship), val) == 3 * Value(val, active.ids[ship])
    ensures ZeroOne(CrewMembers(assignments, ship), val) ==>
      CountOnes(CrewMembers(assignments, ship), val) == 3 * Value(val, active.ids[ship])
  {
    var xs := CrewMembers(assignments, ship);
    ShipConstraintsListed(assignments, active, ships, positions, ship);
    HoldsListed(ShipConstraintList(assignments, active, ships, positions), CrewConstraint(assignments, active, ship), val);
    EvalSum(xs, val);
    EvalSimple(active.ids[ship], 3, 0, val);
    if ZeroOne(xs, val) {
      ZeroOneSumCounts(xs, val);
    }
  }

  // ---------------------------------------------------------------------
  // When the substring filters pick exactly the intended keys.

  /** No name of the list starts another one. */
  predicate PrefixFree(names: seq<string>) {
    forall a, b :: 0 <= a < |names| && 0 <= b < |names| && StartsWith(names[b], names[a]) ==> names[b] == names[a]
  }

  /** Names the substring filters cannot confuse: no name holds the
      separator, a ship name occurs inside no hero name, no position name and
      no other ship name, and no position name starts another one. */
  predicate Separated(heroNames: seq<string>, ships: seq<string>, positions: seq<string>) {
    && AllPlain(heroNames) && AllPlain(ships) && AllPlain(positions)
    && (forall a, b :: 0 <= a < |ships| && 0 <= b < |heroNames| ==> !Contains(heroNames[b], ships[a]))
    && (forall a, b :: 0 <= a < |ships| && 0 <= b < |ships| && Contains(ships[b], ships[a]) ==> ships[b] == ships[a])
    && (forall a, b :: 0 <= a < |ships| && 0 <= b < |positions| ==> !Contains(positions[b], ships[a]))
    && PrefixFree(positions)
  }

  /** The ship positions of the game are plain and prefix-free. */
  lemma PositionsPrefixFree()
    ensures AllPlain(Positions) && PrefixFree(Positions)
  {
    forall a, b | 0 <= a < |Positions| && 0 <= b < |Positions| && StartsWith(Positions[b], Positions[a])
      ensures Positions[b] == Positions[a]
    {
      assert Positions[a][0] == Positions[b][..|Positions[a]|][0] == Positions[b][0];
    }
  }

  lemma SlotFilterExact(heroNames: seq<string>, ships: seq<string>, positions: seq<string>, h: string, s: string, p: string, ship: string, position: string)
    requires Separated(heroNames, ships, positions)
    requires h in heroNames && s in ships && p in positions && ship in ships && position in positions
    ensures Contains(Key3(h, s, p), SlotNeedle(ship, position)) <==> s == ship && p == position
  {
    var bh :| 0 <= bh < |heroNames| && heroNames[bh] == h;
    var bs :| 0 <= bs < |ships| && ships[bs] == s;
    var bp :| 0 <= bp < |positions| && positions[bp] == p;
    var a :| 0 <= a < |ships| && ships[a] == ship;
    var ap :| 0 <= ap < |positions| && positions[ap] == position;
    SlotNeedleInKey3(h, s, p, ship, position);
    EndsWithContains(h, ship);
    EndsWithContains(s, ship);
    EndsWithContains(p, p);
  }

  lemma CrewFilterExact(heroNames: seq<string>, ships: seq<string>, positions: seq<string>, h: string, s: string, p: string, ship: string)
    requires Separated(heroNames, ships, positions)
    requires h in heroNames && s in ships && p in positions && ship in ships
    ensures Contains(Key3(h, s, p), ship) <==> s == ship
  {
    var bh :| 0 <= bh < |heroNames| && heroNames[bh] == h;
    var bs :| 0 <= bs < |ships| && ships[bs] == s;
    var bp :| 0 <= bp < |positions| && positions[bp] == p;
    var a :| 0 <= a < |ships| && ships[a] == ship;
    ShipNameInKey3(h, s, p, ship);
    EndsWithContains(s, s);
  }

  /** With separated names, the variables collected for a position of a ship
      are exactly those of the keys `hero_ship_position` of every hero. */
  lemma SlotMembersExact(heroes: seq<Hero>, ships: seq<string>, positions: seq<string>, base: nat, ship: string, position: string, x: VarId)
    requires Separated(HeroNames(heroes), ships, positions)
    requires ship in ships && position in positions
    ensures forall i :: 0 <= i < |heroes| ==> Key3(heroes[i].name, ship, position) in Assignments(heroes, ships, positions, base).ids
    ensures x in SlotMembers(Assignments(heroes, ships, positions, base), ship, position) <==>
      exists i :: 0 <= i < |heroes| && x == Assignments(heroes, ships, positions, base).ids[Key3(heroes[i].name, ship, position)]
  {
    var a := Assignments(heroes, ships, positions, base);
    forall i | 0 <= i < |heroes| ensures Key3(heroes[i].name, ship, position) in a.ids {
      SlotKeyPresent(heroes, ships, positions, base, i, ship, position);
    }
    if x in SlotMembers(a, ship, position) {
      SlotMemberKey(heroes, ships, positions, base, ship, position, x);
    } else if exists i :: 0 <= i < |heroes| && x == a.ids[Key3(heroes[i].name, ship, position)] {
      var i :| 0 <= i < |heroes| && x == a.ids[Key3(heroes[i].name, ship, position)];
      KeySlotMember(heroes, ships, positions, base, ship, position, i);
    }
  }

  /** Every listed hero has a key for every listed ship and position. */
  lemma SlotKeyPresent(heroes: seq<Hero>, ships: seq<string>, positions: seq<string>, base: nat, i: int, ship: string, position: string)
    requires 0 <= i < |heroes| && ship in ships && position in positions
    ensures Key3(heroes[i].name, ship, position) in Assignments(heroes, ships, positions, base).ids
  {
    AssignmentsKeys(heroes, ships, positions, base, Key3(heroes[i].name, ship, position));
  }

  /** A variable collected for a position is that of a listed hero's key for it. */
  lemma SlotMemberKey(heroes: seq<Hero>, ships: seq<string>, positions: seq<string>, base: nat, ship: string, position: string, x: VarId)
    requires Separated(HeroNames(heroes), ships, positions)
    requires ship in ships && position in positions
    requires x in SlotMembers(Assignments(heroes, ships, positions, base), ship, position)
    ensures exists i :: 0 <= i < |heroes| && Key3(heroes[i].name, ship, position) in Assignments(heroes, ships, positions, base).ids
                        && x == Assignments(heroes, ships, positions, base).ids[Key3(heroes[i].name, ship, position)]
  {
    var a := Assignments(heroes, ships, positions, base);
    var names := HeroNames(heroes);
    var keep := ContainsTest(SlotNeedle(ship, position));
    SelectMembers(a.order, a.ids, keep, x);
    var t :| 0 <= t < |a.order| && keep(a.order[t]) && a.ids[a.order[t]] == x;
    AssignmentsKeys(heroes, ships, positions, base, a.order[t]);
    var i, s, p :| 0 <= i < |heroes| && s in ships && p in positions && a.order[t] == Key3(heroes[i].name, s, p);
    assert names[i] == heroes[i].name;
    SlotFilterExact(names, ships, positions, heroes[i].name, s, p, ship, position);
    assert a.order[t] == Key3(heroes[i].name, ship, position);
  }

  /** The variable of a listed hero's key for a position is collected for it. */
  lemma KeySlotMember(heroes: seq<Hero>, ships: seq<string>, positions: seq<string>, base: nat, ship: string, position: string, i: int)
    requires Separated(HeroNames(heroes), ships, positions)
    requires ship in ships && position in positions && 0 <= i < |heroes|
    ensures Key3(heroes[i].name, ship, position) in Assignments(heroes, ships, positions, base).ids
    ensures Assignments(heroes, ships, positions, base).ids[Key3(heroes[i].name, ship, position)]
      in SlotMembers(Assignments(heroes, ships, positions, base), ship, position)
  {
    var a := Assignments(heroes, ships, positions, base);
    var names := HeroNames(heroes);
    var keep := ContainsTest(SlotNeedle(ship, position));
    var k := Key3(heroes[i].name, ship, position);
    SlotKeyPresent(heroes, ships, positions, base, i, ship, position);
    var t :| 0 <= t < |a.order| && a.order[t] == k;
    assert names[i] == heroes[i].name;
    SlotFilterExact(names, ships, positions, heroes[i].name, ship, position, ship, position);
    assert keep(a.order[t]);
    SelectMembers(a.order, a.ids, keep, a.ids[k]);
  }

  /** The variable of every key `hero_ship_position` of `ship` is collected for `ship`. */
  lemma CrewKeyCollected(heroes: seq<Hero>, ships: seq<string>, positions: seq<string>, base: nat, ship: string, i: int, p: string)
    requires Separated(HeroNames(heroes), ships, positions)
    requires ship in ships && 0 <= i < |heroes| && p in positions
    ensures Key3(heroes[i].name, ship, p) in Assignments(heroes, ships, positions, base).ids
    ensures Assignments(heroes, ships, positions, base).ids[Key3(heroes[i].name, ship, p)]
      in CrewMembers(Assignments(heroes, ships, positions, base), ship)
  {
    var a := Assignments(heroes, ships, positions, base);
    var names := HeroNames(heroes);
    var keep := ContainsTest(ship);
    var k := Key3(heroes[i].name, ship, p);
    AssignmentsKeys(heroes, ships, positions, base, k);
    var t :| 0 <= t < |a.order| && a.order[t] == k;
    assert names[i] == heroes[i].name;
    CrewFilterExact(names, ships, positions, heroes[i].name, ship, p, ship);
    assert keep(a.order[t]);
    SelectMembers(a.order, a.ids, keep, a.ids[k]);
  }

  /** Every variable collected for `ship` is that of a key `hero_ship_position` of `ship`. */
  lemma CrewCollectedKey(heroes: seq<Hero>, ships: seq<string>, positions: seq<string>, base: nat, ship: string, x: VarId)
    requires Separated(HeroNames(heroes), ships, positions)
    requires ship in ships
    requires x in CrewMembers(Assignments(heroes, ships, positions, base), ship)
    ensures exists i, p ::
      (0 <= i < |heroes| && p in positions
       && Key3(heroes[i].name, ship, p) in Assignments(heroes, ships, positions, base).ids
       && x == Assignments(heroes, ships, positions, base).ids[Key3(heroes[i].name, ship, p)])
  {
    var a := Assignments(heroes, ships, positions, base);
    var names := HeroNames(heroes);
    var keep := ContainsTest(ship);
    SelectMembers(a.order, a.ids, keep, x);
    var t :| 0 <= t < |a.order| && keep(a.order[t]) && a.ids[a.order[t]] == x;
    AssignmentsKeys(heroes, ships, positions, base, a.order[t]);
    var i, s, p :| 0 <= i < |heroes| && s in ships && p in positions && a.order[t] == Key3(heroes[i].name, s, p);
    assert names[i] == heroes[i].name;
    CrewFilterExact(names, ships, positions, heroes[i].name, s, p, ship);
  }

  /** The promise of `AddShipAndHeroConstraints`, for separated names and
      0/1 assignment variables: every position of an active ship is held by
      exactly one hero, and no position of an inactive ship by any. */
  lemma OneHeroPerPosition(heroes: seq<Hero>, ships: seq<string>, positions: seq<string>, base: nat,
                           active: VarMap, val: seq<int>, ship: string, position: string)
    requires Separated(HeroNames(heroes), ships, positions)
    requires active.Valid() && forall s :: s in ships ==> s in active.ids
    requires ship in ships && position in positions
    requires AllHold(ShipConstraintList(Assignments(heroes, ships, positions, base), active, ships, positions), val)
    requires Assignments(heroes, ships, positions, base).BoolValued(val)
    ensures 0 <= Value(val, active.ids[ship]) <= 1
    ensures Value(val, active.ids[ship]) == 1 ==>
      exists i :: 0 <= i < |heroes| && Seated(Assignments(heroes, ships, positions, base), val, heroes[i].name, ship, position)
    ensures Value(val, active.ids[ship]) == 0 ==>
      forall i :: 0 <= i < |heroes| ==> !Seated(Assignments(heroes, ships, positions, base), val, heroes[i].name, ship, position)
    ensures forall i, j ::
      (0 <= i < |heroes| && 0 <= j < |heroes|
       && Seated(Assignments(heroes, ships, positions, base), val, heroes[i].name, ship, position)
       && Seated(Assignments(heroes, ships, positions, base), val, heroes[j].name, ship, position))
      ==> heroes[i].name == heroes[j].name
  {
    var a := Assignments(heroes, ships, positions, base);
    var xs := SlotMembers(a, ship, position);
    var names := HeroNames(heroes);
    SelectZeroOne(a, ContainsTest(SlotNeedle(ship, position)), val);
    SlotFollowsActive(a, active, ships, positions, val, ship, position);
    if Value(val, active.ids[ship]) == 1 {
      var u :| 0 <= u < |xs| && Value(val, xs[u]) == 1;
      SlotMembersExact(heroes, ships, positions, base, ship, position, xs[u]);
      var i :| 0 <= i < |heroes| && xs[u] == a.ids[Key3(heroes[i].name, ship, position)];
      assert Seated(a, val, heroes[i].name, ship, position);
    }
    if Value(val, active.ids[ship]) == 0 {
      forall i | 0 <= i < |heroes| ensures !Seated(a, val, heroes[i].name, ship, position) {
        SlotMembersExact(heroes, ships, positions, base, ship, position, 0);
        var x := a.ids[Key3(heroes[i].name, ship, position)];
        SlotMembersExact(heroes, ships, positions, base, ship, position, x);
        var u :| 0 <= u < |xs| && xs[u] == x;
      }
    }
    AtMostOneOn(xs, val);
    forall i, j | 0 <= i < |heroes| && 0 <= j < |heroes|
      && Seated(a, val, heroes[i].name, ship, position) && Seated(a, val, heroes[j].name, ship, position)
      ensures heroes[i].name == heroes[j].name
    {
      SeatedOnce(heroes, ships, positions, base, val, ship, position, i, j);
    }
  }

  /** When at most one variable collected for a position is non-zero, two
      listed heroes seated there are the same hero. */
  lemma SeatedOnce(heroes: seq<Hero>, ships: seq<string>, positions: seq<string>, base: nat,
                   val: seq<int>, ship: string, position: string, i: int, j: int)
    requires Separated(HeroNames(heroes), ships, positions)
    requires ship in ships && position in positions
    requires AtMostOneNonZero(SlotMembers(Assignments(heroes, ships, positions, base), ship, position), val)
    requires 0 <= i < |heroes| && 0 <= j < |heroes|
    requires Seated(Assignments(heroes, ships, positions, base), val, heroes[i].name, ship, position)
    requires Seated(Assignments(heroes, ships, positions, base), val, heroes[j].name, ship, position)
    ensures heroes[i].name == heroes[j].name
  {
    var a := Assignments(heroes, ships, positions, base);
    var xs := SlotMembers(a, ship, position);
    var names := HeroNames(heroes);
    var ki := Key3(heroes[i].name, ship, position);
    var kj := Key3(heroes[j].name, ship, position);
    KeySlotMember(heroes, ships, positions, base, ship, position, i);
    KeySlotMember(heroes, ships, positions, base, ship, position, j);
    var u :| 0 <= u < |xs| && xs[u] == a.ids[ki];
    var w :| 0 <= w < |xs| && xs[w] == a.ids[kj];
    FirstMapInjective(AssignmentKeys(heroes, ships, positions), base, ki, kj);
    assert names[i] == heroes[i].name && names[j] == heroes[j].name;
    Key3Injective(heroes[i].name, ship, position, heroes[j].name, ship, position);
  }

  /** For separated names and 0/1 assignment variables, the `hero_ship_*`
      variables at 1 number three for an active ship and none for an
      inactive one. */
  lemma ThreeHeroesPerActiveShip(heroes: seq<Hero>, ships: seq<string>, positions: seq<string>, base: nat,
                                 active: VarMap, val: seq<int>, ship: string)
    requires Separated(HeroNames(heroes), ships, positions)
    requires active.Valid() && forall s :: s in ships ==> s in active.ids
    requires ship in ships
    requires AllHold(ShipConstraintList(Assignments(heroes, ships, positions, base), active, ships, positions), val)
    requires Assignments(heroes, ships, positions, base).BoolValued(val)
    ensures forall x :: x in CrewMembers(Assignments(heroes, ships, positions, base), ship) <==>
      exists i, p :: 0 <= i < |heroes| && p in positions
        && Key3(heroes[i].name, ship, p) in Assignments(heroes, ships, positions, base).ids
        && x == Assignments(heroes, ships, positions, base).ids[Key3(heroes[i].name, ship, p)]
    ensures CountOnes(CrewMembers(Assignments(heroes, ships, positions, base), ship), val) == 3 * Value(val, active.ids[ship])
  {
    var a := Assignments(heroes, ships, positions, base);
    forall x | x in CrewMembers(a, ship)
      ensures exists i, p :: 0 <= i < |heroes| && p in positions && Key3(heroes[i].name, ship, p) in a.ids && x == a.ids[Key3(heroes[i].name, ship, p)]
    {
      CrewCollectedKey(heroes, ships, positions, base, ship, x);
    }
    forall i, p | 0 <= i < |heroes| && p in positions ensures Key3(heroes[i].name, ship, p) in a.ids && a.ids[Key3(heroes[i].name, ship, p)] in CrewMembers(a, ship) {
      CrewKeyCollected(heroes, ships, positions, base, ship, i, p);
    }
    SelectZeroOne(a, ContainsTest(ship), val);
    CrewFollowsActive(a, active, ships, positions, val, ship);
  }

  // ---------------------------------------------------------------------
  // What the literal four and the substring filters do outside those names.

  /** The fleet rule asks for four active flags at 1: with 0/1 flags and
      fewer than four entries in the active-ship dictionary, no valuation
      satisfies the ship rules, so the solver can only report that there is
      no solution. */
  lemma NoSolutionBelowFourShips(assignments: VarMap, active: VarMap, ships: seq<string>, positions: seq<string>, val: seq<int>)
    requires assignments.Valid() && active.Valid() && forall s :: s in ships ==> s in active.ids
    requires |active.order| < 4 && active.BoolValued(val)
    ensures !AllHold(ShipConstraintList(assignments, active, ships, positions), val)
  {
    if AllHold(ShipConstraintList(assignments, active, ships, positions), val) {
      forall i | 0 <= i < |active.Values()| ensures 0 <= Value(val, active.Values()[i]) <= 1 {
        assert active.order[i] in active.ids;
      }
      FourShipsActive(assignments, active, ships, positions, val);
      CountOnesAtMost(active.Values(), val);
      assert false;
    }
  }

  /** The crew filter `Contains(ship)` also collects, for every ship and
      position, the variables of a hero whose name contains the ship name:
      their seats on other ships count toward this ship's three. */
  lemma CrewCollectsNamesakes(heroes: seq<Hero>, ships: seq<string>, positions: seq<string>, base: nat,
                              ship: string, i: int, s: string, p: string)
    requires Plain(ship) && 0 <= i < |heroes| && s in ships && p in positions
    requires Contains(heroes[i].name, ship)
    ensures Key3(heroes[i].name, s, p) in Assignments(heroes, ships, positions, base).ids
    ensures Assignments(heroes, ships, positions, base).ids[Key3(heroes[i].name, s, p)]
      in CrewMembers(Assignments(heroes, ships, positions, base), ship)
  {
    var a := Assignments(heroes, ships, positions, base);
    var keep := ContainsTest(ship);
    var k := Key3(heroes[i].name, s, p);
    AssignmentsKeys(heroes, ships, positions, base, k);
    var t :| 0 <= t < |a.order| && a.order[t] == k;
    ShipNameInKey3(heroes[i].name, s, p, ship);
    assert keep(a.order[t]);
    SelectMembers(a.order, a.ids, keep, a.ids[k]);
  }

  /** The position filter `Contains(ship + "_" + position)` also collects the
      variables of a ship whose name ends with `ship`, at any position that
      starts with `position`: both fill the same position of `ship`. */
  lemma SlotCollectsSuffixShips(heroes: seq<Hero>, ships: seq<string>, positions: seq<string>, base: nat,
                                ship: string, position: string, i: int, s: string, p: string)
    requires 0 <= i < |heroes| && s in ships && p in positions
    requires EndsWith(s, ship) && StartsWith(p, position)
    ensures Key3(heroes[i].name, s, p) in Assignments(heroes, ships, positions, base).ids
    ensures Assignments(heroes, ships, positions, base).ids[Key3(heroes[i].name, s, p)]
      in SlotMembers(Assignments(heroes, ships, positions, base), ship, position)
  {
    var a := Assignments(heroes, ships, positions, base);
    var keep := ContainsTest(SlotNeedle(ship, position));
    var k := Key3(heroes[i].name, s, p);
    AssignmentsKeys(heroes, ships, positions, base, k);
    var t :| 0 <= t < |a.order| && a.order[t] == k;
    assert k == heroes[i].name + [Sep] + (s + [Sep] + p);
    StraddleOccurrence(s, p, ship, position);
    ShiftedOccurrence(heroes[i].name, s + [Sep] + p, SlotNeedle(ship, position), |s| - |ship|);
    assert keep(a.order[t]);
    SelectMembers(a.order, a.ids, keep, a.ids[k]);
  }

  /** For instance a hero "Baylee" is crew of a ship "Bay" wherever that hero sits,
      and a ship "Bay" shares every position with a ship "NewBay". */
  lemma BayExamples(heroes: seq<Hero>, ships: seq<string>, positions: seq<string>, base: nat, i: int, s: string, p: string)
    requires 0 <= i < |heroes| && heroes[i].name == "Baylee" && s in ships && p in positions && "NewBay" in ships
    ensures var a := Assignments(heroes, ships, positions, base);
      Key3("Baylee", s, p) in a.ids && a.ids[Key3("Baylee", s, p)] in CrewMembers(a, "Bay")
    ensures var a := Assignments(heroes, ships, positions, base);
      Key3("Baylee", "NewBay", p) in a.ids && a.ids[Key3("Baylee", "NewBay", p)] in SlotMembers(a, "Bay", p)
  {
    assert OccursAt("Baylee", "Bay", 0);
    assert Plain("Bay") by {
      forall k | 0 <= k < 3 ensures "Bay"[k] != Sep {
      }
    }
    CrewCollectsNamesakes(heroes, ships, positions, base, "Bay", i, s, p);
    assert "NewBay"[3..] == "Bay";
    EndsWithContains(p, p);
    SlotCollectsSuffixShips(heroes, ships, positions, base, "Bay", p, i, "NewBay", p);
  }
}
