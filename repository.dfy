/** The Ressarcimento table as the controller sees it through its repository:
    a finite map from id to record. */
module Repository {
  import opened Domain

  type Store = map<Id, Ressarcimento>

  /** Every stored record carries the id it is stored under. */
  ghost predicate WellKeyed(store: Store)
  {
    forall k :: k in store ==> store[k].id == Some(k)
  }

  /** A set with no element is empty. */
  lemma SetHasElement(keys: set<Id>)
    ensures keys == {} || exists x :: x in keys
  {
    if forall x :: x !in keys {
      assert keys == {};
    }
  }

  /** A finite non-empty set of ids has a least element. */
  lemma {:induction false} MinKeyExists(keys: set<Id>)
    requires keys != {}
    ensures exists m :: m in keys && forall k :: k in keys ==> m <= k
    decreases |keys|
  {
    SetHasElement(keys);
    var x :| x in keys;
    var rest := keys - {x};
    assert keys == rest + {x};
    if rest == {} {
      assert keys == {x};
    } else {
      MinKeyExists(rest);
      var m :| m in rest && forall k :: k in rest ==> m <= k;
      var least := if x < m then x else m;
      forall k | k in keys ensures least <= k {
        if k != x { assert k in rest; }
      }
      assert least in keys;
    }
  }

  /** The least id of a non-empty set. */
  function MinKey(keys: set<Id>): (m: Id)
    requires keys != {}
    ensures m in keys && forall k :: k in keys ==> m <= k
  {
    MinKeyExists(keys);
    var m :| m in keys && forall k :: k in keys ==> m <= k;
    m
  }

  /** The ids of a set, each exactly once, in ascending order. */
  function SortedKeys(keys: set<Id>): (ks: seq<Id>)
    ensures |ks| == |keys|
    ensures forall k :: k in keys <==> k in ks
    ensures forall i, j :: 0 <= i < j < |ks| ==> ks[i] < ks[j]
    decreases |keys|
  {
    if keys == {} then []
    else
      var m := MinKey(keys);
      [m] + SortedKeys(keys - {m})
  }

  /** The records stored under the given ids, in the order of the ids. */
  function RecordsAt(store: Store, ks: seq<Id>): (rs: seq<Ressarcimento>)
    requires forall i :: 0 <= i < |ks| ==> ks[i] in store
    ensures |rs| == |ks|
    ensures forall i :: 0 <= i < |rs| ==> rs[i] == store[ks[i]]
  {
    if ks == [] then [] else [store[ks[0]]] + RecordsAt(store, ks[1..])
  }

  /** findAll(): the stored records, listed by the ids they are stored under. The repository
      does not fix an order; this model lists them by ascending id. */
  function FindAll(store: Store): (rs: seq<Ressarcimento>)
    ensures |rs| == |store|
    ensures forall i :: 0 <= i < |rs| ==>
      SortedKeys(store.Keys)[i] in store && rs[i] == store[SortedKeys(store.Keys)[i]]
    ensures forall k :: k in store ==> store[k] in rs
  {
    var ks := SortedKeys(store.Keys);
    var rs := RecordsAt(store, ks);
    forall k | k in store ensures store[k] in rs {
      var i :| 0 <= i < |ks| && ks[i] == k;
      assert rs[i] == store[k];
    }
    rs
  }

  /** In a well-keyed store, findAll lists the records by strictly ascending id. */
  lemma FindAllSortedById(store: Store)
    requires WellKeyed(store)
    ensures var rs := FindAll(store);
      forall i, j :: 0 <= i < j < |rs| ==> rs[i].id.Some? && rs[j].id.Some? && rs[i].id.value < rs[j].id.value
  {
    var rs, ks := FindAll(store), SortedKeys(store.Keys);
    forall i, j | 0 <= i < j < |rs|
      ensures rs[i].id.Some? && rs[j].id.Some? && rs[i].id.value < rs[j].id.value
    {
      assert rs[i] == store[ks[i]] && rs[j] == store[ks[j]];
      assert ks[i] < ks[j];
    }
  }
}
