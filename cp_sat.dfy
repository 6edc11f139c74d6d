/** The part of the OR-Tools CP-SAT modelling interface that the builders
    use: bounded integer and Boolean variables, linear relations `lhs == rhs`
    and `lhs <= rhs`, a linear objective to maximise, and what it means for a
    valuation returned by a solver to satisfy them. The search itself is not
    modelled: a solver is any (status, valuation) pair. */
module CpSat {
  import opened Wrappers

  /** Variables are numbered in creation order. */
  type VarId = nat

  /** A variable with its domain `[lo, hi]` and its name. */
  datatype VarDecl = VarDecl(lo: int, hi: int, name: string)

  datatype Term = Term(coef: int, id: VarId)

  /** `sum(coef * variable) + constant`. */
  datatype LinExpr = LinExpr(terms: seq<Term>, constant: int)

  datatype Relation = Equal | AtMost

  /** `model.Add(lhs == rhs)` or `model.Add(lhs <= rhs)`. */
  datatype Constraint = Constraint(lhs: LinExpr, rel: Relation, rhs: LinExpr)

  /** `CpSolverStatus`. */
  datatype Status = Unknown | ModelInvalid | Feasible | Infeasible | Optimal

  /** `NewBoolVar(name)` declares a variable with domain {0, 1}. */
  function BoolDecl(name: string): VarDecl {
    VarDecl(0, 1, name)
  }

  function Ones(ids: seq<VarId>): (ts: seq<Term>)
    ensures |ts| == |ids|
    ensures forall i :: 0 <= i < |ids| ==> ts[i] == Term(1, ids[i])
  {
    seq(|ids|, i requires 0 <= i < |ids| => Term(1, ids[i]))
  }

  /** `LinearExpr.Sum(ids)`. */
  function Sum(ids: seq<VarId>): LinExpr {
    LinExpr(Ones(ids), 0)
  }

  /** A single variable used as an expression. */
  function Var(id: VarId): LinExpr {
    LinExpr([Term(1, id)], 0)
  }

  /** `coef * variable`. */
  function Scaled(coef: int, id: VarId): LinExpr {
    LinExpr([Term(coef, id)], 0)
  }

  function Const(k: int): LinExpr {
    LinExpr([], k)
  }

  // ---------------------------------------------------------------------
  // Semantics over a valuation: `val[v]` is the value of variable `v`.

  function Value(val: seq<int>, id: VarId): int {
    if id < |val| then val[id] else 0
  }

  function TermsValue(ts: seq<Term>, val: seq<int>): int {
    if ts == [] then 0
    else TermsValue(ts[..|ts| - 1], val) + ts[|ts| - 1].coef * Value(val, ts[|ts| - 1].id)
  }

  function Eval(e: LinExpr, val: seq<int>): int {
    TermsValue(e.terms, val) + e.constant
  }

  predicate Holds(c: Constraint, val: seq<int>) {
    match c.rel
    case Equal => Eval(c.lhs, val) == Eval(c.rhs, val)
    case AtMost => Eval(c.lhs, val) <= Eval(c.rhs, val)
  }

  predicate AllHold(cs: seq<Constraint>, val: seq<int>) {
    forall i :: 0 <= i < |cs| ==> Holds(cs[i], val)
  }

  /** Every variable takes a value inside its declared domain. */
  predicate InDomains(decls: seq<VarDecl>, val: seq<int>) {
    |val| == |decls| && forall v :: 0 <= v < |decls| ==> decls[v].lo <= val[v] <= decls[v].hi
  }

  /** What a solver reporting Optimal or Feasible promises of its valuation. */
  predicate Satisfies(decls: seq<VarDecl>, cs: seq<Constraint>, val: seq<int>) {
    InDomains(decls, val) && AllHold(cs, val)
  }

  function SumVals(ids: seq<VarId>, val: seq<int>): int {
    if ids == [] then 0 else SumVals(ids[..|ids| - 1], val) + Value(val, ids[|ids| - 1])
  }

  /** The number of positions of `ids` whose variable has value 1. */
  function CountOnes(ids: seq<VarId>, val: seq<int>): nat {
    if ids == [] then 0
    else CountOnes(ids[..|ids| - 1], val) + (if Value(val, ids[|ids| - 1]) == 1 then 1 else 0)
  }

  predicate NonNegative(ids: seq<VarId>, val: seq<int>) {
    forall i :: 0 <= i < |ids| ==> Value(val, ids[i]) >= 0
  }

  /** No two positions of `ids` hold different variables with a non-zero value. */
  predicate AtMostOneNonZero(ids: seq<VarId>, val: seq<int>) {
    forall i, j :: 0 <= i < |ids| && 0 <= j < |ids| && Value(val, ids[i]) != 0 && Value(val, ids[j]) != 0 ==> ids[i] == ids[j]
  }

  predicate ZeroOne(ids: seq<VarId>, val: seq<int>) {
    forall i :: 0 <= i < |ids| ==> 0 <= Value(val, ids[i]) <= 1
  }

  // ---------------------------------------------------------------------
  // Variables an expression or a constraint may refer to.

  predicate ExprOver(e: LinExpr, n: nat) {
    forall i :: 0 <= i < |e.terms| ==> e.terms[i].id < n
  }

  predicate ConstraintOver(c: Constraint, n: nat) {
    ExprOver(c.lhs, n) && ExprOver(c.rhs, n)
  }

  predicate AllOver(cs: seq<Constraint>, n: nat) {
    forall i :: 0 <= i < |cs| ==> ConstraintOver(cs[i], n)
  }

  /** `CpModel`: the variables created so far, the constraints posted so far,
      and the expression to maximise once one is set. */
  class CpModel {
    var vars: seq<VarDecl>
    var constraints: seq<Constraint>
    var objective: Option<LinExpr>

    /** Every constraint and the objective refer only to variables of this model. */
    ghost predicate Valid()
      reads this
    {
      AllOver(constraints, |vars|) && (objective.Some? ==> ExprOver(objective.value, |vars|))
    }

    constructor ()
      ensures Valid()
      ensures vars == [] && constraints == [] && objective == None
    {
      vars, constraints, objective := [], [], None;
    }

    /** `NewIntVar(lo, hi, name)`: a fresh variable, numbered after all others. */
    method NewIntVar(lo: int, hi: int, name: string) returns (id: VarId)
      requires Valid()
      modifies this
      ensures Valid()
      ensures id == |old(vars)| && vars == old(vars) + [VarDecl(lo, hi, name)]
      ensures constraints == old(constraints) && objective == old(objective)
    {
      id := |vars|;
      vars := vars + [VarDecl(lo, hi, name)];
    }

    /** `NewBoolVar(name)`. */
    method NewBoolVar(name: string) returns (id: VarId)
      requires Valid()
      modifies this
      ensures Valid()
      ensures id == |old(vars)| && vars == old(vars) + [BoolDecl(name)]
      ensures constraints == old(constraints) && objective == old(objective)
    {
      id := NewIntVar(0, 1, name);
    }

    /** `Add(constraint)`: appends one constraint and changes nothing else. */
    method Add(c: Constraint)
      requires Valid() && ConstraintOver(c, |vars|)
      modifies this
      ensures Valid()
      ensures constraints == old(constraints) + [c]
      ensures vars == old(vars) && objective == old(objective)
    {
      constraints := constraints + [c];
    }

    /** `Maximize(e)`. */
    method Maximize(e: LinExpr)
      requires Valid() && ExprOver(e, |vars|)
      modifies this
      ensures Valid()
      ensures objective == Some(e)
      ensures vars == old(vars) && constraints == old(constraints)
    {
      objective := Some(e);
    }
  }

  // ---------------------------------------------------------------------
  // Lemmas about sums of variables under a valuation.

  /** `LinearExpr.Sum(ids)` evaluates to the sum of the values of `ids`. */
  lemma {:induction false} EvalSum(ids: seq<VarId>, val: seq<int>)
    ensures Eval(Sum(ids), val) == SumVals(ids, val)
  {
    if ids != [] {
      var init := ids[..|ids| - 1];
      EvalSum(init, val);
      assert Ones(ids)[..|ids| - 1] == Ones(init);
    }
  }

  lemma AllHoldAppend(a: seq<Constraint>, b: seq<Constraint>, val: seq<int>)
    ensures AllHold(a + b, val) <==> AllHold(a, val) && AllHold(b, val)
  {
    if AllHold(a + b, val) {
      forall i | 0 <= i < |a| ensures Holds(a[i], val) {
        assert a[i] == (a + b)[i];
      }
      forall i | 0 <= i < |b| ensures Holds(b[i], val) {
        assert b[i] == (a + b)[|a| + i];
      }
    }
    if AllHold(a, val) && AllHold(b, val) {
      forall i | 0 <= i < |a + b| ensures Holds((a + b)[i], val) {
        if i >= |a| {
          assert (a + b)[i] == b[i - |a|];
        }
      }
    }
  }

  /** Each non-negative value is bounded by the sum. */
  lemma {:induction false} ValueAtMostSum(ids: seq<VarId>, val: seq<int>)
    requires NonNegative(ids, val)
    ensures SumVals(ids, val) >= 0
    ensures forall i :: 0 <= i < |ids| ==> Value(val, ids[i]) <= SumVals(ids, val)
  {
    if ids != [] {
      var init := ids[..|ids| - 1];
      assert forall i :: 0 <= i < |init| ==> init[i] == ids[i];
      ValueAtMostSum(init, val);
    }
  }

  /** A sum that is zero has only zero values. */
  lemma SumZeroAllZero(ids: seq<VarId>, val: seq<int>)
    requires NonNegative(ids, val) && SumVals(ids, val) == 0
    ensures forall i :: 0 <= i < |ids| ==> Value(val, ids[i]) == 0
  {
    ValueAtMostSum(ids, val);
  }

  /** A non-negative sum of at most 1 has at most one non-zero value. */
  lemma {:induction false} SumAtMostOne(ids: seq<VarId>, val: seq<int>)
    requires NonNegative(ids, val) && SumVals(ids, val) <= 1
    ensures forall i, j :: 0 <= i < j < |ids| ==> Value(val, ids[i]) == 0 || Value(val, ids[j]) == 0
  {
    if ids != [] {
      var init := ids[..|ids| - 1];
      var last := Value(val, ids[|ids| - 1]);
      assert forall i :: 0 <= i < |init| ==> init[i] == ids[i];
      ValueAtMostSum(init, val);
      assert last >= 0;
      if last > 0 {
        SumZeroAllZero(init, val);
      }
      SumAtMostOne(init, val);
      forall i, j | 0 <= i < j < |ids| ensures Value(val, ids[i]) == 0 || Value(val, ids[j]) == 0 {
        if j < |ids| - 1 {
          assert ids[i] == init[i] && ids[j] == init[j];
        }
      }
    }
  }

  /** A 0/1 sum counts the variables at 1. */
  lemma {:induction false} ZeroOneSumCounts(ids: seq<VarId>, val: seq<int>)
    requires ZeroOne(ids, val)
    ensures SumVals(ids, val) == CountOnes(ids, val)
  {
    if ids != [] {
      var init := ids[..|ids| - 1];
      assert forall i :: 0 <= i < |init| ==> init[i] == ids[i];
      ZeroOneSumCounts(init, val);
    }
  }

  /** No more variables are at 1 than are listed. */
  lemma {:induction false} CountOnesAtMost(ids: seq<VarId>, val: seq<int>)
    ensures CountOnes(ids, val) <= |ids|
  {
    if ids != [] {
      CountOnesAtMost(ids[..|ids| - 1], val);
    }
  }

  /** A 0/1 sum equal to 1 has exactly one variable at 1. */
  lemma ExactlyOneAtOne(ids: seq<VarId>, val: seq<int>)
    requires ZeroOne(ids, val) && SumVals(ids, val) == 1
    ensures exists i :: 0 <= i < |ids| && Value(val, ids[i]) == 1
    ensures forall i, j :: 0 <= i < j < |ids| ==> Value(val, ids[i]) == 0 || Value(val, ids[j]) == 0
  {
    SumAtMostOne(ids, val);
    ZeroOneSumCounts(ids, val);
    OneCounted(ids, val);
  }

  /** A positive count has a witness. */
  lemma {:induction false} OneCounted(ids: seq<VarId>, val: seq<int>)
    requires CountOnes(ids, val) > 0
    ensures exists i :: 0 <= i < |ids| && Value(val, ids[i]) == 1
  {
    var init := ids[..|ids| - 1];
    if Value(val, ids[|ids| - 1]) != 1 {
      OneCounted(init, val);
      var i :| 0 <= i < |init| && Value(val, init[i]) == 1;
      assert ids[i] == init[i];
    }
  }

  /** A sum over variables of the model refers only to variables of the model. */
  lemma SumOver(ids: seq<VarId>, n: nat)
    requires forall i :: 0 <= i < |ids| ==> ids[i] < n
    ensures ExprOver(Sum(ids), n)
  {
  }

  lemma EvalSimple(id: VarId, coef: int, k: int, val: seq<int>)
    ensures Eval(Var(id), val) == Value(val, id)
    ensures Eval(Scaled(coef, id), val) == coef * Value(val, id)
    ensures Eval(Const(k), val) == k
  {
    assert [Term(1, id)][..0] == [];
    assert TermsValue([Term(1, id)], val) == Value(val, id);
    assert [Term(coef, id)][..0] == [];
    assert TermsValue([Term(coef, id)], val) == coef * Value(val, id);
  }

  /** Under a non-negative sum of at most 1, two variables at a non-zero
      value are the same variable. */
  lemma AtMostOneOn(ids: seq<VarId>, val: seq<int>)
    requires NonNegative(ids, val) && SumVals(ids, val) <= 1
    ensures AtMostOneNonZero(ids, val)
  {
    SumAtMostOne(ids, val);
    forall i, j | 0 <= i < |ids| && 0 <= j < |ids| && Value(val, ids[i]) != 0 && Value(val, ids[j]) != 0
      ensures ids[i] == ids[j]
    {
      assert i == j;
    }
  }
}
