/** `Dictionary<string, IntVar>`: a map from key to variable that remembers
    the order in which keys were first inserted, which is the order a
    `foreach` over the dictionary (or over `.Keys`, `.Values`, a `Where`)
    visits them. */
module VarMaps {
  import opened Text
  import opened CpSat

  datatype VarMap = VarMap(order: seq<string>, ids: map<string, VarId>) {

    /** Each key once in `order`, and exactly the keys of `ids`. */
    ghost predicate Valid() {
      Distinct(order) && forall k :: k in ids <==> k in order
    }

    /** Every variable of the map is one of the first `n` of the model. */
    ghost predicate IdsBelow(n: nat) {
      forall k :: k in ids ==> ids[k] < n
    }

    /** Every variable of the map is at 0 or 1 under `val`. */
    ghost predicate BoolValued(val: seq<int>) {
      forall k :: k in ids ==> 0 <= Value(val, ids[k]) <= 1
    }

    /** `dictionary[key] = id`: overwrites in place, or appends a new key. */
    function Put(key: string, id: VarId): VarMap {
      if key in ids then VarMap(order, ids[key := id]) else VarMap(order + [key], ids[key := id])
    }

    /** `dictionary.Values`, in key order. */
    function Values(): (vs: seq<VarId>)
      requires Valid()
      ensures |vs| == |order|
      ensures forall i :: 0 <= i < |order| ==> vs[i] == ids[order[i]]
    {
      seq(|order|, i requires 0 <= i < |order| => ids[order[i]])
    }

    /** `dictionary.Where(kv => keep(kv.Key)).Select(kv => kv.Value)`. */
    function Select(keep: string -> bool): seq<VarId>
      requires Valid()
    {
      SelectFrom(order, ids, keep)
    }
  }

  const Empty: VarMap := VarMap([], map[])

  /** Storing under a key keeps the dictionary well formed, with the key now
      mapped to the new variable and every other entry as it was. */
  lemma PutValid(m: VarMap, key: string, id: VarId)
    requires m.Valid()
    ensures m.Put(key, id).Valid()
    ensures m.Put(key, id).ids == m.ids[key := id]
  {
  }

  function SelectFrom(ks: seq<string>, ids: map<string, VarId>, keep: string -> bool): seq<VarId>
    requires forall i :: 0 <= i < |ks| ==> ks[i] in ids
  {
    if ks == [] then []
    else
      var last := ks[|ks| - 1];
      SelectFrom(ks[..|ks| - 1], ids, keep) + (if keep(last) then [ids[last]] else [])
  }

  /** Two filters that agree on every key select the same variables. */
  lemma {:induction false} SelectExt(ks: seq<string>, ids: map<string, VarId>, f: string -> bool, g: string -> bool)
    requires forall i :: 0 <= i < |ks| ==> ks[i] in ids
    requires forall i :: 0 <= i < |ks| ==> f(ks[i]) == g(ks[i])
    ensures SelectFrom(ks, ids, f) == SelectFrom(ks, ids, g)
  {
    if ks != [] {
      SelectExt(ks[..|ks| - 1], ids, f, g);
    }
  }

  /** The selected variables are those of the kept keys. */
  lemma {:induction false} SelectMembers(ks: seq<string>, ids: map<string, VarId>, keep: string -> bool, x: VarId)
    requires forall i :: 0 <= i < |ks| ==> ks[i] in ids
    ensures x in SelectFrom(ks, ids, keep) <==> exists i :: 0 <= i < |ks| && keep(ks[i]) && ids[ks[i]] == x
  {
    if ks != [] {
      var init := ks[..|ks| - 1];
      SelectMembers(init, ids, keep, x);
      if exists i :: 0 <= i < |init| && keep(init[i]) && ids[init[i]] == x {
        var i :| 0 <= i < |init| && keep(init[i]) && ids[init[i]] == x;
        assert ks[i] == init[i];
      }
      if exists i :: 0 <= i < |ks| && keep(ks[i]) && ids[ks[i]] == x {
        var i :| 0 <= i < |ks| && keep(ks[i]) && ids[ks[i]] == x;
        if i < |init| {
          assert init[i] == ks[i];
        }
      }
    }
  }

  /** A filter that keeps no key selects nothing. */
  lemma {:induction false} SelectNothing(ks: seq<string>, ids: map<string, VarId>, keep: string -> bool)
    requires forall i :: 0 <= i < |ks| ==> ks[i] in ids
    requires forall i :: 0 <= i < |ks| ==> !keep(ks[i])
    ensures SelectFrom(ks, ids, keep) == []
  {
    if ks != [] {
      SelectNothing(ks[..|ks| - 1], ids, keep);
    }
  }

  /** Selected variables keep the 0/1 range of the map's variables. */
  lemma SelectZeroOne(m: VarMap, keep: string -> bool, val: seq<int>)
    requires m.Valid() && m.BoolValued(val)
    ensures ZeroOne(m.Select(keep), val)
  {
    var xs := m.Select(keep);
    forall i | 0 <= i < |xs| ensures 0 <= Value(val, xs[i]) <= 1 {
      SelectMembers(m.order, m.ids, keep, xs[i]);
    }
  }

  /** The variables of a map whose variables all belong to the model. */
  lemma SelectBelow(m: VarMap, keep: string -> bool, n: nat)
    requires m.Valid() && m.IdsBelow(n)
    ensures forall i :: 0 <= i < |m.Select(keep)| ==> m.Select(keep)[i] < n
  {
    var xs := m.Select(keep);
    forall i | 0 <= i < |xs| ensures xs[i] < n {
      SelectMembers(m.order, m.ids, keep, xs[i]);
    }
  }

  lemma ValuesBelow(m: VarMap, n: nat)
    requires m.Valid() && m.IdsBelow(n)
    ensures forall i :: 0 <= i < |m.Values()| ==> m.Values()[i] < n
  {
  }
}
