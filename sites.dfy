/** The grid as a graph. Its nodes are the n*n sites, a virtual TOP above row 1
    and a virtual BOTTOM below row n; an open site is linked to each open
    4-neighbour, an open row-1 site to TOP and, in the graph that has it, an
    open row-n site to BOTTOM. Connectivity in this graph is what each
    union-find of the grid is proved to track. */
module Sites {

  datatype Node = Top | Bottom | Site(row: int, col: int)

  /** (row, col) names a site of an n-by-n grid (both 1-based). */
  predicate InGrid(n: int, row: int, col: int)
  {
    1 <= row <= n && 1 <= col <= n
  }

  /** Number of elements of a union-find over TOP, the sites and, optionally, BOTTOM. */
  function UniverseSize(n: int, withBottom: bool): int
  {
    n * n + if withBottom then 2 else 1
  }

  /** The node exists in the graph (with or without BOTTOM). */
  predicate InUniverse(n: int, withBottom: bool, u: Node)
  {
    match u
    case Top => true
    case Bottom => withBottom
    case Site(r, c) => InGrid(n, r, c)
  }

  /** Row-major, 1-based linear index of a site; 0 is left for TOP. */
  function XyTo1D(n: int, row: int, col: int): (k: int)
    ensures InGrid(n, row, col) ==> 1 <= k <= n * n
  {
    RowStartBound(n, row);
    (row - 1) * n + col
  }

  /** Helper arithmetic: a row of a grid starts at most n*n - n. */
  lemma RowStartBound(n: int, row: int)
    ensures 1 <= row <= n ==> 0 <= (row - 1) * n <= n * n - n
  {
    if 1 <= row <= n {
      assert (n - 1) * n - (row - 1) * n == (n - row) * n;
    }
  }

  /** Helper arithmetic: multiplying by a non-negative number keeps order. */
  lemma MulMono(a: int, b: int, n: int)
    requires a <= b && 0 <= n
    ensures a * n <= b * n
  {
    assert b * n - a * n == (b - a) * n;
  }

  /** Two different sites never share a linear index. */
  lemma XyTo1DInjective(n: int, r1: int, c1: int, r2: int, c2: int)
    requires InGrid(n, r1, c1) && InGrid(n, r2, c2)
    requires XyTo1D(n, r1, c1) == XyTo1D(n, r2, c2)
    ensures r1 == r2 && c1 == c2
  {
    if r1 < r2 {
      assert (r1 - 1) * n + n == r1 * n;
      MulMono(r1, r2 - 1, n);
    } else if r2 < r1 {
      assert (r2 - 1) * n + n == r2 * n;
      MulMono(r2, r1 - 1, n);
    }
  }

  /** The element of the union-find universe that stands for a node:
      TOP is 0, the sites are 1..n*n and BOTTOM is n*n+1. */
  function Index(n: int, u: Node): (k: int)
    ensures InUniverse(n, true, u) ==> 0 <= k <= n * n + 1
    ensures InUniverse(n, true, u) ==> (k == 0 <==> u == Top) && (k == n * n + 1 <==> u == Bottom)
  {
    match u
    case Top => 0
    case Bottom => n * n + 1
    case Site(r, c) => XyTo1D(n, r, c)
  }

  /** Nodes of the universe are told apart by their indices. */
  lemma IndexInjective(n: int, a: Node, b: Node)
    requires InUniverse(n, true, a) && InUniverse(n, true, b)
    requires Index(n, a) == Index(n, b)
    ensures a == b
  {
    if a.Site? && b.Site? {
      XyTo1DInjective(n, a.row, a.col, b.row, b.col);
    }
  }

  /** Every element 1..n*n is the index of a site. */
  lemma XyTo1DOnto(n: int, k: int)
    requires 0 < n && 1 <= k <= n * n
    ensures InGrid(n, (k - 1) / n + 1, (k - 1) % n + 1)
    ensures XyTo1D(n, (k - 1) / n + 1, (k - 1) % n + 1) == k
  {
    var q, r := (k - 1) / n, (k - 1) % n;
    assert k - 1 == q * n + r && 0 <= r < n;
    if q < 0 {
      MulMono(q, -1, n);
    }
    if q >= n {
      MulMono(n, q, n);
    }
    assert (q + 1 - 1) * n == q * n;
  }

  /** The node that stands for element k of the universe: Index's inverse. */
  function NodeOf(n: int, k: int): (u: Node)
    requires 0 < n && 0 <= k <= n * n + 1
    ensures InUniverse(n, true, u) && Index(n, u) == k
    ensures k <= n * n ==> InUniverse(n, false, u)
  {
    if k == 0 then Top
    else if k == n * n + 1 then Bottom
    else
      XyTo1DOnto(n, k);
      Site((k - 1) / n + 1, (k - 1) % n + 1)
  }

  /** u and v are joined by an edge of the graph whose open sites are
      `openSet`; edges to BOTTOM exist only when `withBottom` holds. */
  predicate Linked(n: int, openSet: set<(int, int)>, withBottom: bool, u: Node, v: Node)
  {
    match (u, v)
    case (Top, Site(r, c)) => r == 1 && (r, c) in openSet
    case (Site(r, c), Top) => r == 1 && (r, c) in openSet
    case (Bottom, Site(r, c)) => withBottom && r == n && (r, c) in openSet
    case (Site(r, c), Bottom) => withBottom && r == n && (r, c) in openSet
    case (Site(r1, c1), Site(r2, c2)) =>
      (r1, c1) in openSet && (r2, c2) in openSet &&
      ((r1 == r2 && (c1 == c2 + 1 || c2 == c1 + 1)) || (c1 == c2 && (r1 == r2 + 1 || r2 == r1 + 1)))
    case _ => false
  }

  /** Open sites lie in the grid. */
  ghost predicate OpenInGrid(n: int, openSet: set<(int, int)>)
  {
    forall r, c :: (r, c) in openSet ==> InGrid(n, r, c)
  }

  lemma LinkedSymmetric(n: int, openSet: set<(int, int)>, withBottom: bool, u: Node, v: Node)
    requires Linked(n, openSet, withBottom, u, v)
    ensures Linked(n, openSet, withBottom, v, u)
  {
  }

  /** Both ends of an edge are nodes of the graph. */
  lemma LinkedInUniverse(n: int, openSet: set<(int, int)>, withBottom: bool, u: Node, v: Node)
    requires OpenInGrid(n, openSet) && Linked(n, openSet, withBottom, u, v)
    ensures InUniverse(n, withBottom, u) && InUniverse(n, withBottom, v)
  {
    if u.Site? {
      assert (u.row, u.col) in openSet;
    }
    if v.Site? {
      assert (v.row, v.col) in openSet;
    }
  }

  /** w is a walk: a non-empty sequence of nodes, each linked to the next. */
  ghost predicate IsWalk(n: int, openSet: set<(int, int)>, withBottom: bool, w: seq<Node>)
  {
    |w| > 0 && forall k :: 0 <= k < |w| - 1 ==> Linked(n, openSet, withBottom, w[k], w[k + 1])
  }

  /** Some walk leads from a to b. */
  ghost predicate Reach(n: int, openSet: set<(int, int)>, withBottom: bool, a: Node, b: Node)
  {
    exists w :: IsWalk(n, openSet, withBottom, w) && w[0] == a && w[|w| - 1] == b
  }

  lemma ReachRefl(n: int, openSet: set<(int, int)>, withBottom: bool, a: Node)
    ensures Reach(n, openSet, withBottom, a, a)
  {
    assert IsWalk(n, openSet, withBottom, [a]);
  }

  lemma ReachEdge(n: int, openSet: set<(int, int)>, withBottom: bool, a: Node, b: Node)
    requires Linked(n, openSet, withBottom, a, b)
    ensures Reach(n, openSet, withBottom, a, b)
  {
    assert IsWalk(n, openSet, withBottom, [a, b]);
  }

  /** Walks compose. */
  lemma ReachTrans(n: int, openSet: set<(int, int)>, withBottom: bool, a: Node, b: Node, c: Node)
    requires Reach(n, openSet, withBottom, a, b) && Reach(n, openSet, withBottom, b, c)
    ensures Reach(n, openSet, withBottom, a, c)
  {
    var w1 :| IsWalk(n, openSet, withBottom, w1) && w1[0] == a && w1[|w1| - 1] == b;
    var w2 :| IsWalk(n, openSet, withBottom, w2) && w2[0] == b && w2[|w2| - 1] == c;
    var w := w1 + w2[1..];
    forall k | 0 <= k < |w| - 1
      ensures Linked(n, openSet, withBottom, w[k], w[k + 1])
    {
      if k < |w1| - 1 {
        assert w[k] == w1[k] && w[k + 1] == w1[k + 1];
      } else {
        var j := k - (|w1| - 1);
        assert w[k] == w2[j] && w[k + 1] == w2[j + 1];
      }
    }
    assert IsWalk(n, openSet, withBottom, w);
    assert w[|w| - 1] == c;
  }

  /** Opening more sites, or adding BOTTOM's edges, keeps every walk a walk. */
  lemma ReachMono(n: int, small: set<(int, int)>, large: set<(int, int)>, wb: bool, wbLarge: bool, a: Node, b: Node)
    requires small <= large && (wb ==> wbLarge)
    requires Reach(n, small, wb, a, b)
    ensures Reach(n, large, wbLarge, a, b)
  {
    var w :| IsWalk(n, small, wb, w) && w[0] == a && w[|w| - 1] == b;
    forall k | 0 <= k < |w| - 1
      ensures Linked(n, large, wbLarge, w[k], w[k + 1])
    {
      assert Linked(n, small, wb, w[k], w[k + 1]);
    }
    assert IsWalk(n, large, wbLarge, w);
  }

  /** Only an open site can be reached from another node. */
  lemma ReachedSiteIsOpen(n: int, openSet: set<(int, int)>, withBottom: bool, a: Node, r: int, c: int)
    requires a != Site(r, c)
    ensures Reach(n, openSet, withBottom, a, Site(r, c)) ==> (r, c) in openSet
  {
    if Reach(n, openSet, withBottom, a, Site(r, c)) {
      var w :| IsWalk(n, openSet, withBottom, w) && w[0] == a && w[|w| - 1] == Site(r, c);
      var k := |w| - 2;
      assert Linked(n, openSet, withBottom, w[k], w[k + 1]);
    }
  }

  lemma NoEdgeWhenNothingOpen(n: int, withBottom: bool, u: Node, v: Node)
    ensures !Linked(n, {}, withBottom, u, v)
  {
  }

  /** With no site open, every node reaches only itself. */
  lemma NothingOpenNothingReached(n: int, withBottom: bool, a: Node, b: Node)
    requires Reach(n, {}, withBottom, a, b)
    ensures a == b
  {
    var w :| IsWalk(n, {}, withBottom, w) && w[0] == a && w[|w| - 1] == b;
    if |w| > 1 {
      NoEdgeWhenNothingOpen(n, withBottom, w[0], w[1]);
      assert false;
    }
  }

  /** A walk that ends at BOTTOM passes, before it first reaches BOTTOM, through
      a bottom-row site that its start reaches without BOTTOM's edges. */
  lemma {:induction false} WalkToBottom(n: int, openSet: set<(int, int)>, w: seq<Node>)
    requires OpenInGrid(n, openSet)
    requires IsWalk(n, openSet, true, w) && w[0] != Bottom && w[|w| - 1] == Bottom
    ensures exists c :: 1 <= c <= n && Reach(n, openSet, false, w[0], Site(n, c))
  {
    assert Linked(n, openSet, true, w[0], w[1]);
    if w[1] == Bottom {
      var c := w[0].col;
      assert (n, c) in openSet;
      ReachRefl(n, openSet, false, w[0]);
    } else {
      var rest := w[1..];
      assert IsWalk(n, openSet, true, rest) by {
        forall k | 0 <= k < |rest| - 1
          ensures Linked(n, openSet, true, rest[k], rest[k + 1])
        {
          assert rest[k] == w[k + 1] && rest[k + 1] == w[k + 2];
        }
      }
      WalkToBottom(n, openSet, rest);
      var c :| 1 <= c <= n && Reach(n, openSet, false, rest[0], Site(n, c));
      assert Linked(n, openSet, false, w[0], w[1]);
      ReachEdge(n, openSet, false, w[0], w[1]);
      ReachTrans(n, openSet, false, w[0], w[1], Site(n, c));
    }
  }

  /** TOP reaches BOTTOM in the graph with BOTTOM exactly when TOP reaches
      some bottom-row site in the graph without it. */
  lemma TopReachesBottomIff(n: int, openSet: set<(int, int)>)
    requires OpenInGrid(n, openSet)
    ensures Reach(n, openSet, true, Top, Bottom) <==>
      exists c :: 1 <= c <= n && Reach(n, openSet, false, Top, Site(n, c))
  {
    if Reach(n, openSet, true, Top, Bottom) {
      var w :| IsWalk(n, openSet, true, w) && w[0] == Top && w[|w| - 1] == Bottom;
      WalkToBottom(n, openSet, w);
    }
    if c :| 1 <= c <= n && Reach(n, openSet, false, Top, Site(n, c)) {
      ReachMono(n, openSet, openSet, false, true, Top, Site(n, c));
      ReachedSiteIsOpen(n, openSet, true, Top, n, c);
      ReachEdge(n, openSet, true, Site(n, c), Bottom);
      ReachTrans(n, openSet, true, Top, Site(n, c), Bottom);
    }
  }

  /** A set of nodes that holds `a` and that no edge leaves holds every node
      `a` reaches. */
  lemma {:induction false} ClosedSetBoundsReach(n: int, openSet: set<(int, int)>, withBottom: bool, s: set<Node>, w: seq<Node>)
    requires IsWalk(n, openSet, withBottom, w) && w[0] in s
    requires forall u, v :: u in s && Linked(n, openSet, withBottom, u, v) ==> v in s
    ensures w[|w| - 1] in s
  {
    if |w| > 1 {
      var rest := w[1..];
      assert Linked(n, openSet, withBottom, w[0], w[1]);
      assert IsWalk(n, openSet, withBottom, rest) by {
        forall k | 0 <= k < |rest| - 1
          ensures Linked(n, openSet, withBottom, rest[k], rest[k + 1])
        {
          assert rest[k] == w[k + 1] && rest[k + 1] == w[k + 2];
        }
      }
      ClosedSetBoundsReach(n, openSet, withBottom, s, rest);
    }
  }
}
