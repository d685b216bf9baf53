/** Reading a collection of the store in its natural order. The store hands ids out in
    increasing order, so ascending id order is the order the documents were created in. */
module Collections {
  import opened Types

  predicate Ascending(ks: seq<Id>) {
    forall i, j :: 0 <= i < j < |ks| ==> ks[i] < ks[j]
  }

  /** Every id of the collection was handed out before `bound`. */
  predicate Below<T>(m: map<Id, T>, bound: nat) {
    forall k | k in m :: k < bound
  }

  /** A filter that keeps every document. */
  function Everything<T>(): T -> bool {
    (x: T) => true
  }

  /** The ids below `bound` whose documents satisfy `keep`, oldest first: what a `find`
      with that filter returns from a collection whose ids all lie below `bound`. */
  function Select<T>(m: map<Id, T>, keep: T -> bool, bound: nat): (ks: seq<Id>)
    ensures Ascending(ks)
    ensures forall i :: 0 <= i < |ks| ==> ks[i] < bound && ks[i] in m && keep(m[ks[i]])
    ensures forall k :: k < bound && k in m && keep(m[k]) ==> k in ks
    decreases bound
  {
    if bound == 0 then []
    else
      var k := bound - 1;
      Select(m, keep, k) + (if k in m && keep(m[k]) then [k] else [])
  }

  /** The selection below `bound` sees only the documents below `bound`. */
  lemma {:induction false} SelectFrame<T>(m: map<Id, T>, m': map<Id, T>, keep: T -> bool, bound: nat)
    requires forall k :: k < bound ==> (k in m <==> k in m')
    requires forall k :: k < bound && k in m ==> m[k] == m'[k]
    ensures Select(m', keep, bound) == Select(m, keep, bound)
    decreases bound
  {
    if bound > 0 {
      SelectFrame(m, m', keep, bound - 1);
    }
  }

  /** Storing a document under a fresh id `n` appends `n` to the selection when it is kept. */
  lemma SelectInsert<T>(m: map<Id, T>, keep: T -> bool, n: nat, x: T)
    requires n !in m
    ensures Select(m[n := x], keep, n + 1) == Select(m, keep, n) + (if keep(x) then [n] else [])
  {
    SelectFrame(m, m[n := x], keep, n);
  }

  /** When no document below `bound` is kept, the selection is empty. */
  lemma {:induction false} SelectNone<T>(m: map<Id, T>, keep: T -> bool, bound: nat)
    requires forall k | k in m :: !keep(m[k])
    ensures Select(m, keep, bound) == []
    decreases bound
  {
    if bound > 0 {
      SelectNone(m, keep, bound - 1);
    }
  }
}
