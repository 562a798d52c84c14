/** Changes to the stored nodes of a Merkle tree, which are squashed into one before they are written. */
module StoreDeltas {

  /** `add` and `remove` have no key in common. */
  datatype Delta<K(==), N> = Delta(add: map<K, N>, remove: set<K>)

  predicate Valid<K, N>(d: Delta<K, N>) {
    d.add.Keys !! d.remove
  }

  /** Added nodes are written first, removed ones deleted afterwards. */
  function Apply<K, N>(store: map<K, N>, d: Delta<K, N>): map<K, N> {
    store + d.add - d.remove
  }

  /** Nodes that are added and then removed vanish. */
  function Squash<K, N>(a: Delta<K, N>, b: Delta<K, N>): Delta<K, N> {
    var add := a.add + b.add;
    Delta(add - b.remove, a.remove + (b.remove - add.Keys))
  }

  method SquashInto<K, N>(a: Delta<K, N>, b: Delta<K, N>) returns (r: Delta<K, N>)
    ensures r == Squash(a, b)
  {
    var add, remove := a.add + b.add, a.remove;
    var todo := b.remove;
    while todo != {}
      invariant todo <= b.remove
      invariant add == (a.add + b.add) - (b.remove - todo)
      invariant remove == a.remove + ((b.remove - todo) - (a.add + b.add).Keys)
    {
      var k :| k in todo;
      if k in add { add := add - {k}; } else { remove := remove + {k}; }
      todo := todo - {k};
    }
    return Delta(add, remove);
  }

  /** What is both to be added and to be removed is added. */
  function Build<K, N>(toAdd: map<K, N>, toRemove: set<K>): (d: Delta<K, N>)
    ensures Valid(d)
  {
    Delta(toAdd, toRemove - toAdd.Keys)
  }

  lemma BuildApplies<K, N>(store: map<K, N>, toAdd: map<K, N>, toRemove: set<K>)
    ensures Apply(store, Build(toAdd, toRemove)) == store - toRemove + toAdd
  {
    assert Apply(store, Build(toAdd, toRemove)) == store - toRemove + toAdd;
  }

  // ---- Two deltas ----

  ghost predicate SameAt<K, N>(m: map<K, N>, n: map<K, N>, k: K) {
    if k in m then k in n && m[k] == n[k] else k !in n
  }

  /** The key is added after it was removed, or removed after it was added although stored. */
  ghost predicate Clashes<K, N>(store: map<K, N>, a: Delta<K, N>, b: Delta<K, N>, k: K) {
    (k in b.add && k in a.remove) || (k in a.add && k in b.remove && k in store)
  }

  /** Squashing two deltas is the same as applying one after the other if and only if no key clashes. */
  lemma SquashExact<K(!new), N>(store: map<K, N>, a: Delta<K, N>, b: Delta<K, N>)
    requires Valid(a) && Valid(b)
    ensures Apply(store, Squash(a, b)) == Apply(Apply(store, a), b) <==> forall k :: !Clashes(store, a, b, k)
  {
    var once, twice := Apply(store, Squash(a, b)), Apply(Apply(store, a), b);
    forall k ensures SameAt(once, twice, k) <==> !Clashes(store, a, b, k) {}
    if forall k :: SameAt(once, twice, k) {
      forall k | k in once ensures k in twice && once[k] == twice[k] { assert SameAt(once, twice, k); }
      forall k | k in twice ensures k in once { assert SameAt(once, twice, k); }
      assert once.Keys == twice.Keys && once == twice;
    }
  }

  /** Squashing keeps added and removed keys apart if and only if the second adds nothing that the first removes. */
  lemma SquashValid<K(!new), N>(a: Delta<K, N>, b: Delta<K, N>)
    requires Valid(a) && Valid(b)
    ensures Valid(Squash(a, b)) <==> forall k :: !(k in b.add && k in a.remove)
  {
    var s := Squash(a, b);
    forall k ensures (k in s.add && k in s.remove) <==> (k in b.add && k in a.remove) {}
    if forall k :: !(k in s.add && k in s.remove) { assert Valid(s); }
  }

  // ---- Any number of deltas ----

  function ApplyAll<K, N>(store: map<K, N>, ds: seq<Delta<K, N>>): map<K, N> {
    if ds == [] then store else Apply(ApplyAll(store, ds[..|ds| - 1]), ds[|ds| - 1])
  }

  function SquashAll<K, N>(ds: seq<Delta<K, N>>): Delta<K, N> {
    if ds == [] then Delta(map[], {}) else Squash(SquashAll(ds[..|ds| - 1]), ds[|ds| - 1])
  }

  function RemovedBy<K, N>(ds: seq<Delta<K, N>>): set<K> {
    if ds == [] then {} else RemovedBy(ds[..|ds| - 1]) + ds[|ds| - 1].remove
  }

  /** Every delta adds only keys that are not stored by then and were not removed before. */
  ghost predicate AddsFresh<K, N>(store: map<K, N>, ds: seq<Delta<K, N>>) {
    forall i {:trigger ds[i]} :: 0 <= i < |ds| ==>
      Valid(ds[i]) && ds[i].add.Keys !! ApplyAll(store, ds[..i]).Keys && ds[i].add.Keys !! RemovedBy(ds[..i])
  }

  /** Squashing any number of deltas and applying the result is the same as
      applying them one after the other, and keeps added and removed keys apart. */
  lemma {:induction false} SquashAllIsSequence<K(!new), N>(store: map<K, N>, ds: seq<Delta<K, N>>)
    requires AddsFresh(store, ds)
    ensures Apply(store, SquashAll(ds)) == ApplyAll(store, ds) && Valid(SquashAll(ds))
    ensures SquashAll(ds).remove <= RemovedBy(ds)
    ensures SquashAll(ds).add.Keys !! store.Keys
  {
    if ds != [] {
      var n := |ds| - 1;
      var front, d := ds[..n], ds[n];
      forall i | 0 <= i < n ensures Valid(front[i]) && front[i].add.Keys !! ApplyAll(store, front[..i]).Keys && front[i].add.Keys !! RemovedBy(front[..i]) {
        assert front[..i] == ds[..i] && front[i] == ds[i];
      }
      SquashAllIsSequence(store, front);
      var s := SquashAll(front);
      SquashExact(store, s, d);
      SquashValid(s, d);
      forall k | k in d.add ensures k !in store {
        if k in store { NotRemoved(store, front, k); }
      }
    }
  }

  /** A stored key that no delta removes stays stored. */
  lemma {:induction false} NotRemoved<K, N>(store: map<K, N>, ds: seq<Delta<K, N>>, k: K)
    requires k in store && k !in RemovedBy(ds)
    ensures k in ApplyAll(store, ds)
  {
    if ds != [] { NotRemoved(store, ds[..|ds| - 1], k); }
  }

  // ---- What squashing any number of deltas does ----

  /** The delta is the difference between the two stores. */
  ghost predicate Leads<K, N>(a: map<K, N>, d: Delta<K, N>, b: map<K, N>) {
    && d.add.Keys == b.Keys - a.Keys && d.remove == a.Keys - b.Keys
    && (forall k <- d.add :: d.add[k] == b[k]) && (forall k <- a :: k in b ==> a[k] == b[k])
  }

  /** Each delta leads from one store to the next. */
  ghost predicate Leading<K, N>(stores: seq<map<K, N>>, ds: seq<Delta<K, N>>) {
    |stores| == |ds| + 1 && forall i {:trigger ds[i]} :: 0 <= i < |ds| ==> Leads(stores[i], ds[i], stores[i + 1])
  }

  ghost predicate Missing<K, N>(stores: seq<map<K, N>>, k: K) {
    exists i :: 0 <= i < |stores| && k !in stores[i]
  }

  lemma MissingLast<K, N>(stores: seq<map<K, N>>, k: K)
    requires stores != []
    ensures Missing(stores, k) <==> Missing(stores[..|stores| - 1], k) || k !in stores[|stores| - 1]
  {
    var n := |stores| - 1;
    if Missing(stores[..n], k) {
      var i :| 0 <= i < n && k !in stores[..n][i];
      assert k !in stores[i];
    }
    if Missing(stores, k) && k in stores[n] {
      var i :| 0 <= i < |stores| && k !in stores[i];
      assert k !in stores[..n][i];
    }
  }

  /** The squashed delta adds the keys that are there in the end and were missing at some time, and removes
      those that were there in the beginning and were missing at some time. */
  lemma {:induction false} SquashAllTracks<K, N>(stores: seq<map<K, N>>, ds: seq<Delta<K, N>>, k: K)
    requires Leading(stores, ds)
    ensures var s, first, last := SquashAll(ds), stores[0], stores[|ds|];
            && (k in s.add <==> k in last && Missing(stores, k)) && (k in s.add ==> s.add[k] == last[k])
            && (k in s.remove <==> k in first && Missing(stores, k))
            && (!Missing(stores, k) ==> k in first && k in last && first[k] == last[k])
    decreases |ds|
  {
    var n := |ds|;
    MissingLast(stores, k);
    if n > 0 {
      var front := stores[..n];
      assert Leading(front, ds[..n - 1]) by {
        forall i | 0 <= i < n - 1 ensures Leads(front[i], ds[..n - 1][i], front[i + 1]) { assert ds[..n - 1][i] == ds[i]; }
      }
      SquashAllTracks(front, ds[..n - 1], k);
      assert Leads(stores[n - 1], ds[n - 1], stores[n]);
    }
  }

  /** Applying the squashed delta leads to the last store if and only if no key that is there in the beginning
      and in the end was missing at some time. */
  lemma SquashAllExact<K(!new), N>(stores: seq<map<K, N>>, ds: seq<Delta<K, N>>)
    requires Leading(stores, ds)
    ensures Apply(stores[0], SquashAll(ds)) == stores[|ds|] <==>
            forall k :: k in stores[0] && k in stores[|ds|] ==> !Missing(stores, k)
  {
    var once, first, last := Apply(stores[0], SquashAll(ds)), stores[0], stores[|ds|];
    forall k ensures SameAt(once, last, k) <==> !(k in first && k in last && Missing(stores, k)) {
      SquashAllTracks(stores, ds, k);
    }
    if forall k :: SameAt(once, last, k) {
      forall k | k in once ensures k in last && once[k] == last[k] { assert SameAt(once, last, k); }
      forall k | k in last ensures k in once { assert SameAt(once, last, k); }
      assert once.Keys == last.Keys && once == last;
    }
  }
}
