/** The n-by-n percolation grid: which sites are open, and two union-finds
    that track which nodes are connected. `uf` (TOP and the sites) answers
    "is this site full?"; `ufBackwash` (TOP, the sites and BOTTOM) answers
    "does the grid percolate?". Keeping BOTTOM out of `uf` is what stops a
    bottom-row site from looking full only because BOTTOM is connected to TOP
    through some other column (backwash). */
module Grid {
  import opened Errors
  import opened Sites
  import opened DisjointSets

  class Percolation {
    static const TOP: int := 0
    const bottom: int
    const n: int
    /** The source's `opened` array (renamed: `opened` is a Dafny keyword). */
    const cells: array2<bool>
    var openSites: int
    const uf: UnionFind
    const ufBackwash: UnionFind

    /** The open sites, as 1-based (row, col) pairs. */
    ghost var OpenSet: set<(int, int)>
    /** The objects besides `this` that the grid owns. */
    ghost const Repr: set<object>

    /** The union-find for the graph without BOTTOM (false) or with it (true). */
    function Structure(withBottom: bool): UnionFind
    {
      if withBottom then ufBackwash else uf
    }

    /** The union-find is well formed and spans exactly its graph's nodes. */
    ghost predicate Fits(withBottom: bool)
      reads Structure(withBottom).id
    {
      n > 0 && Structure(withBottom).Valid() && Structure(withBottom).Size() == UniverseSize(n, withBottom)
    }

    /** The fixed shape of the grid, as the constructor sets it up. */
    ghost predicate Sized()
      reads uf.id, ufBackwash.id
    {
      && n > 0 && bottom == n * n + 1
      && cells.Length0 == n && cells.Length1 == n
      && uf != ufBackwash && uf.id != ufBackwash.id
      && Fits(false) && Fits(true)
      && Repr == {cells, uf, uf.id, ufBackwash, ufBackwash.id}
    }

    /** `cells` holds exactly the open sites and `openSites` counts them. */
    ghost predicate Mirrors()
      reads this, cells
    {
      && cells.Length0 == n && cells.Length1 == n
      && OpenInGrid(n, OpenSet)
      && (forall i, j :: 0 <= i < n && 0 <= j < n ==> (cells[i, j] <==> (i + 1, j + 1) in OpenSet))
      && openSites == |OpenSet|
    }

    /** Every union applied to `uf` was applied to `ufBackwash` too, in the
        same order, and the only other unions of `ufBackwash` involve BOTTOM. */
    ghost predicate Logged()
      reads uf, ufBackwash
    {
      uf.Unions == Without(ufBackwash.Unions, bottom)
    }

    /** Connected nodes are joined by a walk over open sites. */
    ghost predicate Sound(withBottom: bool, openSet: set<(int, int)>)
      requires Fits(withBottom)
      reads Structure(withBottom).id
    {
      forall a, b {:trigger Structure(withBottom).Connected(Index(n, a), Index(n, b))} {:trigger Reach(n, openSet, withBottom, a, b)} ::
        (InUniverse(n, withBottom, a) && InUniverse(n, withBottom, b) &&
         Structure(withBottom).Connected(Index(n, a), Index(n, b)))
        ==> Reach(n, openSet, withBottom, a, b)
    }

    /** The ends of every edge are connected. */
    ghost predicate Complete(withBottom: bool, openSet: set<(int, int)>)
      requires Fits(withBottom)
      reads Structure(withBottom).id
    {
      forall a, b {:trigger Linked(n, openSet, withBottom, a, b)} ::
        (InUniverse(n, withBottom, a) && InUniverse(n, withBottom, b) && Linked(n, openSet, withBottom, a, b))
        ==> Structure(withBottom).Connected(Index(n, a), Index(n, b))
    }

    /** Complete, except for the edges between `s` and the nodes in `later`. */
    ghost predicate CompleteBut(withBottom: bool, openSet: set<(int, int)>, s: Node, later: set<Node>)
      requires Fits(withBottom)
      reads Structure(withBottom).id
    {
      forall a, b {:trigger Linked(n, openSet, withBottom, a, b)} ::
        (InUniverse(n, withBottom, a) && InUniverse(n, withBottom, b) && Linked(n, openSet, withBottom, a, b) &&
         !(a == s && b in later) && !(b == s && a in later))
        ==> Structure(withBottom).Connected(Index(n, a), Index(n, b))
    }

    ghost predicate Valid()
      reads this, cells, uf, uf.id, ufBackwash, ufBackwash.id
    {
      && Sized() && Mirrors() && Logged()
      && Sound(false, OpenSet) && Complete(false, OpenSet)
      && Sound(true, OpenSet) && Complete(true, OpenSet)
    }

    /** The state while `open` is adding the edges of the new site `s`: still
        owed are the edges from `s` to `pendingUf` in `uf` and to `pendingBw`
        in `ufBackwash`. */
    ghost predicate Opening(s: Node, pendingUf: set<Node>, pendingBw: set<Node>)
      reads this, cells, uf, uf.id, ufBackwash, ufBackwash.id
    {
      && Sized() && Mirrors() && Logged()
      && Sound(false, OpenSet) && CompleteBut(false, OpenSet, s, pendingUf)
      && Sound(true, OpenSet) && CompleteBut(true, OpenSet, s, pendingBw)
    }

    /** A new grid of n*n blocked sites; the caller has rejected n <= 0. */
    constructor (n: int)
      requires n > 0
      ensures Valid() && fresh(Repr)
      ensures this.n == n && bottom == n * n + 1 && OpenSet == {} && openSites == 0
      ensures uf.Size() == n * n + 1 && ufBackwash.Size() == n * n + 2
      ensures forall i, j :: 0 <= i < n && 0 <= j < n ==> !cells[i, j]
    {
      var top := new UnionFind(n * n + 1);
      var backwash := new UnionFind(n * n + 2);
      var grid := new bool[n, n]((i, j) => false);
      this.n := n;
      uf := top;
      ufBackwash := backwash;
      cells := grid;
      bottom := n * n + 1;
      openSites := 0;
      OpenSet := {};
      Repr := {grid, top, top.id, backwash, backwash.id};
      new;
      forall wb: bool
        ensures Sound(wb, {})
      {
        forall a, b | InUniverse(n, wb, a) && InUniverse(n, wb, b) &&
          Structure(wb).Connected(Index(n, a), Index(n, b))
          ensures Reach(n, {}, wb, a, b)
        {
          IndexInjective(n, a, b);
          ReachRefl(n, {}, wb, a);
        }
      }
    }

    /** Rejects n <= 0; otherwise a new grid with every site blocked. */
    static method Create(n: int) returns (r: Result<Percolation>)
      ensures r.Err? <==> n <= 0
      ensures r.Err? ==> r.error == SizeNotPositive
      ensures r.Ok? ==> fresh(r.value) && fresh(r.value.Repr) && r.value.Valid()
      ensures r.Ok? ==> r.value.n == n && r.value.OpenSet == {} && r.value.openSites == 0
      ensures r.Ok? ==> r.value.bottom == n * n + 1
      ensures r.Ok? ==> r.value.uf.Size() == n * n + 1 && r.value.ufBackwash.Size() == n * n + 2
    {
      if n <= 0 {
        return Err(SizeNotPositive);
      }
      var p := new Percolation(n);
      return Ok(p);
    }

    /** Fails on a row outside [1, n] first, then on a column outside it. */
    function ValidateIndex(row: int, col: int): (r: Outcome)
      ensures r.Pass? <==> InGrid(n, row, col)
      ensures r == Fail(RowOutOfBounds) <==> row <= 0 || row > n
      ensures r == Fail(ColOutOfBounds) <==> 1 <= row <= n && (col <= 0 || col > n)
    {
      if row <= 0 || row > n then Fail(RowOutOfBounds)
      else if col <= 0 || col > n then Fail(ColOutOfBounds)
      else Pass
    }

    function IsOpen(row: int, col: int): (r: Result<bool>)
      requires Valid()
      reads this, cells, uf, uf.id, ufBackwash, ufBackwash.id
      ensures r.Err? <==> !InGrid(n, row, col)
      ensures r.Err? ==> ValidateIndex(row, col) == Fail(r.error)
      ensures r.Ok? ==> (r.value <==> (row, col) in OpenSet)
    {
      match ValidateIndex(row, col)
      case Fail(e) => Err(e)
      case Pass => Ok(cells[row - 1, col - 1])
    }

    /** Open and connected to TOP in `uf`, the union-find without BOTTOM. */
    function IsFull(row: int, col: int): (r: Result<bool>)
      requires Valid()
      reads this, cells, uf, uf.id, ufBackwash, ufBackwash.id
      ensures r.Err? <==> !InGrid(n, row, col)
      ensures r.Err? ==> ValidateIndex(row, col) == Fail(r.error)
      ensures r.Ok? ==> (r.value <==> Reach(n, OpenSet, false, Top, Site(row, col)))
      ensures r.Ok? && r.value ==> (row, col) in OpenSet
    {
      match IsOpen(row, col)
      case Err(e) => Err(e)
      case Ok(isOpen) =>
        ConnectedIffReach(false, Top, Site(row, col));
        ReachedSiteIsOpen(n, OpenSet, false, Top, row, col);
        Ok(isOpen && uf.Find(TOP) == uf.Find(XyTo1D(n, row, col)))
    }

    function NumberOfOpenSites(): (r: int)
      requires Valid()
      reads this, cells, uf, uf.id, ufBackwash, ufBackwash.id
      ensures r == |OpenSet|
    {
      openSites
    }

    /** TOP and BOTTOM are connected in `ufBackwash`. */
    function Percolates(): (r: bool)
      requires Valid()
      reads this, cells, uf, uf.id, ufBackwash, ufBackwash.id
      ensures r <==> Reach(n, OpenSet, true, Top, Bottom)
    {
      ConnectedIffReach(true, Top, Bottom);
      ufBackwash.Find(TOP) == ufBackwash.Find(bottom)
    }
  

    /** Opens the site if it is not open already, and connects it to TOP (row
        1), to BOTTOM (row n, `ufBackwash` only) and to its open neighbours. */
    method Open(row: int, col: int) returns (r: Outcome)
      requires Valid()
      modifies this, Repr
      ensures Valid()
      ensures r == ValidateIndex(row, col)
      ensures r.Fail? || old((row, col) in OpenSet) ==> unchanged(this, Repr)
      ensures r.Pass? ==> OpenSet == old(OpenSet) + {(row, col)} && cells[row - 1, col - 1]
      ensures r.Pass? && old((row, col) !in OpenSet) ==> openSites == old(openSites) + 1
      ensures forall i, j :: 0 <= i < n && 0 <= j < n && (i, j) != (row - 1, col - 1) ==> cells[i, j] == old(cells[i, j])
    {
      r := ValidateIndex(row, col);
      if r.Fail? {
        return;
      }
      if IsOpen(row, col) == Ok(true) {
        return;
      }
      ghost var before := OpenSet;
      cells[row - 1, col - 1] := true;
      openSites := openSites + 1;
      OpenSet := OpenSet + {(row, col)};
      var site := Site(row, col);
      ghost var around := {Top, Bottom, Site(row - 1, col), Site(row + 1, col), Site(row, col - 1), Site(row, col + 1)};
      StartOpening(false, before, site, around);
      StartOpening(true, before, site, around);
      Connect(row, col, around);
    }

    /** The unions of `open` for the site just marked open: with TOP (row 1),
        with BOTTOM (row n, `ufBackwash` only) and with each open neighbour.
        After each check, the neighbour it concerns is no longer owed. */
    method Connect(row: int, col: int, ghost around: set<Node>)
      requires InGrid(n, row, col) && (row, col) in OpenSet
      requires around == {Top, Bottom, Site(row - 1, col), Site(row + 1, col), Site(row, col - 1), Site(row, col + 1)}
      requires Opening(Site(row, col), around, around)
      modifies uf, uf.id, ufBackwash, ufBackwash.id
      ensures Valid()
    {
      var site := Site(row, col);
      ghost var pendingUf, pendingBw := around, around;
      // connect with source
      if row == 1 {
        JoinBoth(Top, site, site, pendingUf, pendingBw);
      } else {
        SkipBoth(site, Top, pendingUf, pendingBw);
      }
      pendingUf, pendingBw := pendingUf - {Top}, pendingBw - {Top};
      assert Opening(site, pendingUf, pendingBw);
      // connect with target
      if row == n {
        JoinBottom(site, pendingUf, pendingBw);
      } else {
        SkipBoth(site, Bottom, pendingUf, pendingBw);
      }
      assert pendingUf - {Bottom} == {Site(row - 1, col), Site(row + 1, col), Site(row, col - 1), Site(row, col + 1)};
      pendingUf, pendingBw := pendingUf - {Bottom}, pendingBw - {Bottom};
      ConnectNeighbours(row, col, pendingUf);
    }

    /** The unions of `open` with the open 4-neighbours of the new site. */
    method ConnectNeighbours(row: int, col: int, ghost pending: set<Node>)
      requires InGrid(n, row, col) && (row, col) in OpenSet
      requires pending == {Site(row - 1, col), Site(row + 1, col), Site(row, col - 1), Site(row, col + 1)}
      requires Opening(Site(row, col), pending, pending)
      modifies uf, uf.id, ufBackwash, ufBackwash.id
      ensures Valid()
    {
      var site := Site(row, col);
      ConnectNeighbour(row, col, row - 1, col, pending, pending);
      ghost var rest := pending - {Site(row - 1, col)};
      ConnectNeighbour(row, col, row + 1, col, rest, rest);
      rest := rest - {Site(row + 1, col)};
      ConnectNeighbour(row, col, row, col - 1, rest, rest);
      rest := rest - {Site(row, col - 1)};
      ConnectNeighbour(row, col, row, col + 1, rest, rest);
      assert rest - {Site(row, col + 1)} == {};
      FinishOpening(false, OpenSet, site, {});
      FinishOpening(true, OpenSet, site, {});
    }

    /** One neighbour check of `open`: when the site (r, c) next to (row, col)
        lies in the grid and is open, the two are united in both structures. */
    method ConnectNeighbour(row: int, col: int, r: int, c: int, ghost pendingUf: set<Node>, ghost pendingBw: set<Node>)
      requires InGrid(n, row, col) && (row, col) in OpenSet
      requires (r == row && (c == col - 1 || c == col + 1)) || (c == col && (r == row - 1 || r == row + 1))
      requires Opening(Site(row, col), pendingUf, pendingBw)
      modifies uf, uf.id, ufBackwash, ufBackwash.id
      ensures Opening(Site(row, col), pendingUf - {Site(r, c)}, pendingBw - {Site(r, c)})
    {
      if 1 <= r <= n && 1 <= c <= n && cells[r - 1, c - 1] {
        JoinBoth(Site(row, col), Site(r, c), Site(row, col), pendingUf, pendingBw);
      } else {
        SkipBoth(Site(row, col), Site(r, c), pendingUf, pendingBw);
      }
    }

    /** A node that is not linked to `s` needs no union. */
    lemma Skip(withBottom: bool, openSet: set<(int, int)>, s: Node, later: set<Node>, x: Node)
      requires Fits(withBottom) && CompleteBut(withBottom, openSet, s, later)
      requires !Linked(n, openSet, withBottom, s, x)
      ensures CompleteBut(withBottom, openSet, s, later - {x})
    {
      forall a, b |
        InUniverse(n, withBottom, a) && InUniverse(n, withBottom, b) && Linked(n, openSet, withBottom, a, b) &&
        !(a == s && b in later - {x}) && !(b == s && a in later - {x})
        ensures Structure(withBottom).Connected(Index(n, a), Index(n, b))
      {
        if b == s {
          LinkedSymmetric(n, openSet, withBottom, a, b);
        }
      }
    }

    /** Skip for both union-finds at once. */
    lemma SkipBoth(s: Node, x: Node, pendingUf: set<Node>, pendingBw: set<Node>)
      requires Opening(s, pendingUf, pendingBw)
      requires !Linked(n, OpenSet, true, s, x)
      ensures Opening(s, pendingUf - {x}, pendingBw - {x})
    {
      assert !Linked(n, OpenSet, false, s, x);
      Skip(false, OpenSet, s, pendingUf, x);
      Skip(true, OpenSet, s, pendingBw, x);
    }

    /** Right after a blocked site `s` is marked open: every old edge is still
        accounted for, and the new ones all run from `s` to a node of `around`. */
    lemma StartOpening(withBottom: bool, before: set<(int, int)>, s: Node, around: set<Node>)
      requires Fits(withBottom) && OpenInGrid(n, before)
      requires Sound(withBottom, before) && Complete(withBottom, before)
      requires s.Site? && InGrid(n, s.row, s.col) && (s.row, s.col) !in before
      requires around == {Top, Bottom, Site(s.row - 1, s.col), Site(s.row + 1, s.col), Site(s.row, s.col - 1), Site(s.row, s.col + 1)}
      ensures Sound(withBottom, before + {(s.row, s.col)})
      ensures CompleteBut(withBottom, before + {(s.row, s.col)}, s, around)
    {
      var after := before + {(s.row, s.col)};
      forall a, b |
        InUniverse(n, withBottom, a) && InUniverse(n, withBottom, b) &&
        Structure(withBottom).Connected(Index(n, a), Index(n, b))
        ensures Reach(n, after, withBottom, a, b)
      {
        ReachMono(n, before, after, withBottom, withBottom, a, b);
      }
      forall a, b |
        InUniverse(n, withBottom, a) && InUniverse(n, withBottom, b) && Linked(n, after, withBottom, a, b) &&
        !(a == s && b in around) && !(b == s && a in around)
        ensures Structure(withBottom).Connected(Index(n, a), Index(n, b))
      {
        assert Linked(n, before, withBottom, a, b);
      }
    }

    /** Once no node of `later` is linked to `s`, nothing is owed any more. */
    lemma FinishOpening(withBottom: bool, openSet: set<(int, int)>, s: Node, later: set<Node>)
      requires Fits(withBottom)
      requires CompleteBut(withBottom, openSet, s, later)
      requires forall x :: x in later ==> !Linked(n, openSet, withBottom, s, x)
      ensures Complete(withBottom, openSet)
    {
      forall a, b | InUniverse(n, withBottom, a) && InUniverse(n, withBottom, b) && Linked(n, openSet, withBottom, a, b)
        ensures Structure(withBottom).Connected(Index(n, a), Index(n, b))
      {
        if b == s {
          LinkedSymmetric(n, openSet, withBottom, a, b);
        }
      }
    }

    /** One union, on one of the two union-finds, across an edge at `s`. */
    method Join(withBottom: bool, a: Node, b: Node, ghost openSet: set<(int, int)>, ghost s: Node, ghost later: set<Node>)
      requires Fits(withBottom) && OpenInGrid(n, openSet)
      requires Sound(withBottom, openSet) && CompleteBut(withBottom, openSet, s, later)
      requires Linked(n, openSet, withBottom, a, b) && (a == s || b == s)
      modifies Structure(withBottom), Structure(withBottom).id
      ensures Fits(withBottom)
      ensures Sound(withBottom, openSet)
      ensures CompleteBut(withBottom, openSet, s, later - {if a == s then b else a})
      ensures Structure(withBottom).Unions == old(Structure(withBottom).Unions) + [(Index(n, a), Index(n, b))]
    {
      var u := Structure(withBottom);
      LinkedInUniverse(n, openSet, withBottom, a, b);
      var p, q := Index(n, a), Index(n, b);
      u.Union(p, q);
      forall x, y |
        InUniverse(n, withBottom, x) && InUniverse(n, withBottom, y) && u.Connected(Index(n, x), Index(n, y))
        ensures Reach(n, openSet, withBottom, x, y)
      {
        var i, j := Index(n, x), Index(n, y);
        if old(u.Connected(i, j)) {
        } else if old(u.Connected(i, p)) && old(u.Connected(q, j)) {
          ReachEdge(n, openSet, withBottom, a, b);
          ReachTrans(n, openSet, withBottom, x, a, b);
          ReachTrans(n, openSet, withBottom, x, b, y);
        } else {
          assert old(u.Connected(i, q)) && old(u.Connected(p, j));
          LinkedSymmetric(n, openSet, withBottom, a, b);
          ReachEdge(n, openSet, withBottom, b, a);
          ReachTrans(n, openSet, withBottom, x, b, a);
          ReachTrans(n, openSet, withBottom, x, a, y);
        }
      }
      ghost var other := if a == s then b else a;
      forall x, y |
        InUniverse(n, withBottom, x) && InUniverse(n, withBottom, y) && Linked(n, openSet, withBottom, x, y) &&
        !(x == s && y in later - {other}) && !(y == s && x in later - {other})
        ensures u.Connected(Index(n, x), Index(n, y))
      {
        var i, j := Index(n, x), Index(n, y);
        if (x == s && y in later) || (y == s && x in later) {
          assert u.Connected(p, q);
        } else {
          assert old(u.Connected(i, j));
        }
      }
    }

    /** The paired unions of `open`: the same edge added to both union-finds. */
    method JoinBoth(a: Node, b: Node, ghost s: Node, ghost pendingUf: set<Node>, ghost pendingBw: set<Node>)
      requires Opening(s, pendingUf, pendingBw)
      requires Linked(n, OpenSet, false, a, b) && (a == s || b == s)
      modifies uf, uf.id, ufBackwash, ufBackwash.id
      ensures Opening(s, pendingUf - {if a == s then b else a}, pendingBw - {if a == s then b else a})
      ensures uf.Unions == old(uf.Unions) + [(Index(n, a), Index(n, b))]
      ensures ufBackwash.Unions == old(ufBackwash.Unions) + [(Index(n, a), Index(n, b))]
    {
      LinkedInUniverse(n, OpenSet, false, a, b);
      ghost var log := ufBackwash.Unions;
      Join(false, a, b, OpenSet, s, pendingUf);
      Join(true, a, b, OpenSet, s, pendingBw);
      WithoutAppend(log, (Index(n, a), Index(n, b)), bottom);
    }

    /** The union of `open` that only `ufBackwash` receives: row n to BOTTOM. */
    method JoinBottom(s: Node, ghost pendingUf: set<Node>, ghost pendingBw: set<Node>)
      requires Opening(s, pendingUf, pendingBw)
      requires Linked(n, OpenSet, true, Bottom, s)
      modifies ufBackwash, ufBackwash.id
      ensures Opening(s, pendingUf - {Bottom}, pendingBw - {Bottom})
      ensures uf.Unions == old(uf.Unions)
      ensures ufBackwash.Unions == old(ufBackwash.Unions) + [(bottom, Index(n, s))]
    {
      ghost var log := ufBackwash.Unions;
      Join(true, Bottom, s, OpenSet, s, pendingBw);
      WithoutAppend(log, (bottom, Index(n, s)), bottom);
      Skip(false, OpenSet, s, pendingUf, Bottom);
    }

    /** The grid percolates exactly when some bottom-row site is full: the
        answer `ufBackwash` gives agrees with the one `uf` would give. */
    lemma PercolatesIffFullBottomSite()
      requires Valid()
      ensures Percolates() <==> exists c :: 1 <= c <= n && IsFull(n, c) == Ok(true)
    {
      TopReachesBottomIff(n, OpenSet);
      if Percolates() {
        var c :| 1 <= c <= n && Reach(n, OpenSet, false, Top, Site(n, c));
        assert IsFull(n, c) == Ok(true);
      }
    }

    /** Whatever `uf` connects, `ufBackwash` connects as well. */
    lemma UfWithinBackwash(p: int, q: int)
      requires Valid() && 0 <= p < uf.Size() && 0 <= q < uf.Size()
      ensures uf.Connected(p, q) ==> ufBackwash.Connected(p, q)
    {
      var a, b := NodeOf(n, p), NodeOf(n, q);
      if uf.Connected(p, q) {
        ConnectedIffReach(false, a, b);
        ReachMono(n, OpenSet, OpenSet, false, true, a, b);
        ConnectedIffReach(true, a, b);
      }
    }

    /** Every union applied to `uf` was applied to `ufBackwash`, none of them
        involves BOTTOM, and BOTTOM lies outside `uf`'s universe. */
    lemma BottomNeverInUf()
      requires Valid()
      ensures bottom == uf.Size() && bottom < ufBackwash.Size()
      ensures forall e :: e in uf.Unions ==> e in ufBackwash.Unions && e.0 != bottom && e.1 != bottom
    {
      WithoutOmits(ufBackwash.Unions, bottom);
    }

    /** With no site open, no site is full and the grid does not percolate. */
    lemma NothingOpenNoPercolation()
      requires Valid() && NumberOfOpenSites() == 0
      ensures !Percolates()
      ensures forall row, col :: InGrid(n, row, col) ==> IsFull(row, col) == Ok(false)
    {
      assert OpenSet == {};
      if Percolates() {
        NothingOpenNothingReached(n, true, Top, Bottom);
      }
      forall row, col | InGrid(n, row, col)
        ensures IsFull(row, col) == Ok(false)
      {
        if IsFull(row, col) == Ok(true) {
          NothingOpenNothingReached(n, false, Top, Site(row, col));
        }
      }
    }

    /** Every walk is mirrored by connectivity in the union-find. */
    lemma {:induction false} WalkConnected(withBottom: bool, w: seq<Node>)
      requires Fits(withBottom) && OpenInGrid(n, OpenSet) && Complete(withBottom, OpenSet)
      requires IsWalk(n, OpenSet, withBottom, w) && InUniverse(n, withBottom, w[0])
      ensures InUniverse(n, withBottom, w[|w| - 1])
      ensures Structure(withBottom).Connected(Index(n, w[0]), Index(n, w[|w| - 1]))
    {
      if |w| > 1 {
        var rest := w[1..];
        assert Linked(n, OpenSet, withBottom, w[0], w[1]);
        LinkedInUniverse(n, OpenSet, withBottom, w[0], w[1]);
        assert IsWalk(n, OpenSet, withBottom, rest) by {
          forall k | 0 <= k < |rest| - 1
            ensures Linked(n, OpenSet, withBottom, rest[k], rest[k + 1])
          {
            assert rest[k] == w[k + 1] && rest[k + 1] == w[k + 2];
          }
        }
        WalkConnected(withBottom, rest);
      }
    }

    /** Each union-find answers exactly the connectivity question of its graph. */
    lemma ConnectedIffReach(withBottom: bool, a: Node, b: Node)
      requires Valid() && InUniverse(n, withBottom, a) && InUniverse(n, withBottom, b)
      ensures Structure(withBottom).Connected(Index(n, a), Index(n, b)) <==> Reach(n, OpenSet, withBottom, a, b)
    {
      if Reach(n, OpenSet, withBottom, a, b) {
        var w :| IsWalk(n, OpenSet, withBottom, w) && w[0] == a && w[|w| - 1] == b;
        WalkConnected(withBottom, w);
      }
    }
  }
}
