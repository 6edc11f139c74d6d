/** `Dictionary<string, List<T>>` as the two solvers fill it: a new key gets
    an empty list, then the item is appended to the key's list. Keys keep
    their first-insertion order, which is the order `.Keys` visits them. */
module Grouping {
  import opened Text

  datatype Groups<T> = Groups(order: seq<string>, lists: map<string, seq<T>>) {

    /** Each key once in `order`, and exactly the keys of `lists`. */
    ghost predicate Valid() {
      Distinct(order) && forall k :: k in lists <==> k in order
    }

    /** No key is left with an empty list. */
    ghost predicate NonEmpty() {
      forall k :: k in lists ==> lists[k] != []
    }

    /** `if (!d.ContainsKey(key)) d[key] = new List<T>(); d[key].Add(item);` */
    function AddTo(key: string, item: T): Groups<T> {
      if key in lists then Groups(order, lists[key := lists[key] + [item]])
      else Groups(order + [key], lists[key := [item]])
    }
  }

  /** A new, empty dictionary. */
  function NoGroups<T>(): (g: Groups<T>)
    ensures g.Valid() && g.NonEmpty() && g.lists == map[]
  {
    Groups([], map[])
  }

  /** Adding keeps the dictionary well formed and every list non-empty; the
      key's list grows by the item at its end and no other list changes. */
  lemma AddToKeeps<T>(g: Groups<T>, key: string, item: T)
    requires g.Valid() && g.NonEmpty()
    ensures g.AddTo(key, item).Valid() && g.AddTo(key, item).NonEmpty()
    ensures key in g.AddTo(key, item).lists
    ensures g.AddTo(key, item).lists[key] == (if key in g.lists then g.lists[key] else []) + [item]
    ensures forall k :: k != key ==> (k in g.AddTo(key, item).lists <==> k in g.lists)
    ensures forall k :: k != key && k in g.lists ==> g.AddTo(key, item).lists[k] == g.lists[k]
  {
    if key !in g.lists {
      var o := g.order + [key];
      forall i, j | 0 <= i < j < |o| ensures o[i] != o[j] {
        if j == |g.order| {
          assert o[i] == g.order[i];
        }
      }
    }
  }
}
