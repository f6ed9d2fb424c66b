/** Two small clients of the grid: a 1-by-1 grid, and a 3-by-3 grid that shows
    why the grid keeps a second union-find without BOTTOM. */
module Scenarios {
  import opened Errors
  import opened Sites
  import opened Grid

  /** A fresh grid never percolates, whatever its size. */
  method FreshGrid(n: int) returns (r: Result<bool>)
    ensures r.Err? <==> n <= 0
    ensures r.Ok? ==> !r.value
  {
    var g := Percolation.Create(n);
    match g
    case Err(e) =>
      return Err(e);
    case Ok(p) =>
      p.NothingOpenNoPercolation();
      return Ok(p.Percolates());
  }

  /** On a 1-by-1 grid, opening the only site makes it full and makes the
      grid percolate, with one open site. */
  method SingleSite() returns (full: Result<bool>, percolates: bool, count: int)
    ensures full == Ok(true) && percolates && count == 1
  {
    var p := new Percolation(1);
    var r := p.Open(1, 1);
    assert p.OpenSet == {(1, 1)};
    ReachEdge(1, p.OpenSet, false, Top, Site(1, 1));
    full := p.IsFull(1, 1);
    ReachEdge(1, p.OpenSet, true, Top, Site(1, 1));
    ReachEdge(1, p.OpenSet, true, Site(1, 1), Bottom);
    ReachTrans(1, p.OpenSet, true, Top, Site(1, 1), Bottom);
    percolates := p.Percolates();
    count := p.NumberOfOpenSites();
  }

  /** The open sites of the backwash example: column 1 and the corner (3, 3). */
  const BackwashSites: set<(int, int)> := {(1, 1), (2, 1), (3, 1), (3, 3)}

  /** In the example, TOP reaches the corner only through BOTTOM: with
      BOTTOM's edges there is a walk, without them there is none. */
  lemma CornerOnlyThroughBottom()
    ensures Reach(3, BackwashSites, true, Top, Bottom)
    ensures Reach(3, BackwashSites, true, Top, Site(3, 3))
    ensures !Reach(3, BackwashSites, false, Top, Site(3, 3))
  {
    var open := BackwashSites;
    ReachEdge(3, open, true, Top, Site(1, 1));
    ReachEdge(3, open, true, Site(1, 1), Site(2, 1));
    ReachEdge(3, open, true, Site(2, 1), Site(3, 1));
    ReachEdge(3, open, true, Site(3, 1), Bottom);
    ReachEdge(3, open, true, Bottom, Site(3, 3));
    ReachTrans(3, open, true, Top, Site(1, 1), Site(2, 1));
    ReachTrans(3, open, true, Top, Site(2, 1), Site(3, 1));
    ReachTrans(3, open, true, Top, Site(3, 1), Bottom);
    ReachTrans(3, open, true, Top, Bottom, Site(3, 3));
    // without BOTTOM's edges, no edge leaves TOP and column 1
    var column := {Top, Site(1, 1), Site(2, 1), Site(3, 1)};
    forall u, v | u in column && Linked(3, open, false, u, v)
      ensures v in column
    {
      if v.Site? {
        assert (v.row, v.col) in open;
      }
    }
    if w :| IsWalk(3, open, false, w) && w[0] == Top && w[|w| - 1] == Site(3, 3) {
      ClosedSetBoundsReach(3, open, false, column, w);
    }
  }

  /** Opens column 1 from top to bottom, then the corner (3, 3). */
  method OpenBackwashSites(p: Percolation)
    requires p.Valid() && p.n == 3 && p.OpenSet == {}
    modifies p, p.Repr
    ensures p.Valid() && p.n == 3 && p.OpenSet == BackwashSites
  {
    var r := p.Open(1, 1);
    r := p.Open(2, 1);
    r := p.Open(3, 1);
    r := p.Open(3, 3);
  }

  /** Backwash: on a 3-by-3 grid with column 1 open top to bottom and the site
      (3, 3) open on its own, the grid percolates and (3, 3) is connected to TOP
      through BOTTOM in `ufBackwash`, yet `isFull(3, 3)` is false, because it
      asks `uf`, which has no BOTTOM. */
  method Backwash() returns (percolates: bool, full: Result<bool>, throughBottom: bool)
    ensures percolates && full == Ok(false) && throughBottom
  {
    var p := new Percolation(3);
    OpenBackwashSites(p);
    CornerOnlyThroughBottom();
    percolates := p.Percolates();
    full := p.IsFull(3, 3);
    p.ConnectedIffReach(true, Top, Site(3, 3));
    throughBottom := p.ufBackwash.Find(Percolation.TOP) == p.ufBackwash.Find(XyTo1D(3, 3, 3));
  }
}
