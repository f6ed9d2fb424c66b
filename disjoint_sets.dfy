/** The partition semantics of the union-find structure the grid relies on.
    The library's union by size and path compression only change tree shapes
    and running time; here the partition is kept as one label per element
    (the element's canonical representative), relabelled in place by Union. */
module DisjointSets {

  /** The log of unions with every pair that mentions `x` removed. */
  function Without(log: seq<(int, int)>, x: int): seq<(int, int)>
  {
    if log == [] then []
    else
      var rest := Without(log[..|log| - 1], x);
      var e := log[|log| - 1];
      if e.0 == x || e.1 == x then rest else rest + [e]
  }

  /** Appending a pair to a log extends its filtered view by that pair exactly
      when the pair does not mention `x`. */
  lemma WithoutAppend(log: seq<(int, int)>, e: (int, int), x: int)
    ensures Without(log + [e], x) == if e.0 == x || e.1 == x then Without(log, x) else Without(log, x) + [e]
  {
    assert (log + [e])[..|log|] == log;
  }

  /** The filtered log never mentions `x`, and every pair in it is a pair of
      the full log. */
  lemma {:induction false} WithoutOmits(log: seq<(int, int)>, x: int)
    ensures forall e :: e in Without(log, x) ==> e in log && e.0 != x && e.1 != x
  {
    if log != [] {
      var init := log[..|log| - 1];
      WithoutOmits(init, x);
      assert log == init + [log[|log| - 1]];
    }
  }

  class UnionFind {
    /** id[i] is the canonical representative of i's class. */
    const id: array<int>
    /** Every union performed so far, in order, as its two arguments. */
    ghost var Unions: seq<(int, int)>

    /** Every label names an element of the universe that is its own label. */
    ghost predicate Valid()
      reads id
    {
      forall i :: 0 <= i < id.Length ==> 0 <= id[i] < id.Length && id[id[i]] == id[i]
    }

    /** The size m of the universe 0..m-1, fixed at construction. */
    function Size(): nat
    {
      id.Length
    }

    /** Every element starts alone in its own class. */
    constructor (m: nat)
      ensures Valid() && Size() == m && Unions == [] && fresh(id)
      ensures forall i, j :: 0 <= i < m && 0 <= j < m ==> (Connected(i, j) <==> i == j)
    {
      var labels := new int[m];
      var i := 0;
      while i < m
        invariant 0 <= i <= m
        invariant forall k :: 0 <= k < i ==> labels[k] == k
      {
        labels[i] := i;
        i := i + 1;
      }
      id := labels;
      Unions := [];
    }

    /** The canonical representative of p's class. */
    function Find(p: int): (r: int)
      requires Valid() && 0 <= p < Size()
      reads id
      ensures 0 <= r < Size() && id[r] == r
    {
      id[p]
    }

    /** p and q are in the same class. */
    predicate Connected(p: int, q: int)
      requires Valid() && 0 <= p < Size() && 0 <= q < Size()
      reads id
    {
      Find(p) == Find(q)
    }

    /** Merges the class of p with the class of q, and no other classes. */
    method Union(p: int, q: int)
      requires Valid() && 0 <= p < Size() && 0 <= q < Size()
      modifies this, id
      ensures Valid()
      ensures Unions == old(Unions) + [(p, q)]
      ensures forall i, j :: 0 <= i < Size() && 0 <= j < Size() ==>
        (Connected(i, j) <==>
          old(Connected(i, j)) ||
          (old(Connected(i, p)) && old(Connected(q, j))) ||
          (old(Connected(i, q)) && old(Connected(p, j))))
    {
      Unions := Unions + [(p, q)];
      var pid := id[p];
      var qid := id[q];
      var i := 0;
      while i < id.Length
        invariant 0 <= i <= id.Length
        invariant forall k :: 0 <= k < i ==> id[k] == (if old(id[k]) == pid then qid else old(id[k]))
        invariant forall k :: i <= k < id.Length ==> id[k] == old(id[k])
        invariant Unions == old(Unions) + [(p, q)]
      {
        if id[i] == pid {
          id[i] := qid;
        }
        i := i + 1;
      }
    }
  }
}
