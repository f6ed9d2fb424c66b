# Percolation grid, modelled in Dafny

This project models the `Percolation` class of a percolation-threshold
simulator. An n-by-n grid starts with every site blocked, and sites are
opened one at a time. The grid answers three questions:

- Is a site open?
- Is a site full, that is, joined to the top row by open sites?
- Does the grid percolate, that is, do open sites join the top row to the
  bottom row?

The class keeps two union-find structures over linear site indices:

- `uf` holds a virtual TOP (index 0) and the n² sites.
- `ufBackwash` holds the same nodes plus a virtual BOTTOM (index n²+1).

Bottom-row sites are united with BOTTOM only in `ufBackwash`. `isFull` asks
`uf`, so a bottom-row site never looks full merely because BOTTOM is
connected to TOP through another column. This false fullness is called
backwash.

The project has five modules:

- `Errors` holds the three `IllegalArgumentException` cases as values
  (`Error`) and the `Result` and `Outcome` wrappers.
- `DisjointSets` holds the union-find as a class (`UnionFind`). Its state
  is one label array (each element's canonical representative) and a ghost
  log of the unions performed. `Union` merges exactly the two classes of
  its arguments.
- `Sites` holds the pure semantics:
  - the nodes (`Top`, `Bottom`, `Site(row, col)`);
  - `XyTo1D` and its inverse;
  - the graph whose edges join open neighbours, open row-1 sites to TOP
    and, in the graph with BOTTOM, open row-n sites to BOTTOM;
  - walks over that graph, and reachability (`Reach`).
- `Grid` holds the class `Percolation`. It has the source's fields, a
  ghost set `OpenSet` of open sites and a ghost set `Repr` of the objects
  the grid owns. Its invariant `Valid()` is the conjunction of:
  - `Sized`: n > 0, `bottom == n*n+1`, the array's dimensions, the two
    union-finds' sizes and `Repr`.
  - `Mirrors`: `cells` and `openSites` mirror `OpenSet`.
  - `Logged`: the union log of `uf` is the log of `ufBackwash` with the
    BOTTOM unions removed.
  - `Sound` and `Complete`, for each union-find: it connects two nodes
    exactly when its graph joins them by a walk. `Sound` gives one
    direction and `Complete` the other.

  From `Sound` and `Complete` (through `ConnectedIffReach`) follow the
  contracts of `IsFull` (reachability from TOP without BOTTOM) and
  `Percolates` (reachability from TOP to BOTTOM with BOTTOM).
- `Scenarios` holds three client methods:
  - a fresh grid;
  - the 1-by-1 grid;
  - a 3-by-3 grid that exhibits backwash in `ufBackwash` while `isFull`
    stays correct. The isolated open site here is (3, 3), on the bottom
    row. An isolated open site on row 1 would be full at once, because
    `open` unites every row-1 site with TOP.

## Model

| member | source | states |
|---|---|---|
| Grid.Percolation.Create | Percolation.java:13-23 | fails with the size error exactly when n <= 0; otherwise a fresh, valid grid with no open site, `bottom == n*n+1`, union-finds of sizes n*n+1 and n*n+2 and a zero count |
| Grid.Percolation.constructor | Percolation.java:17-22 | for n > 0: sizes n*n+1 and n*n+2, `bottom == n*n+1`, every cell blocked, zero open sites, and the invariant (each union-find's connectivity equals reachability) already holds |
| DisjointSets.UnionFind.constructor | Percolation.java:18-19 | a union-find over m elements in which every element is alone in its class |
| DisjointSets.UnionFind.Union | Percolation.java:54-55 | after union(p, q), i and j are connected exactly when they were before, or one was with p and the other with q; the union is appended to the log |
| DisjointSets.UnionFind.Find | Percolation.java:97 | returns an element of the universe that is its own representative |
| Sites.XyTo1D | Percolation.java:26-28 | a grid site maps into 1..n*n, clear of TOP (0) and BOTTOM (n*n+1) |
| Sites.XyTo1DInjective | Percolation.java:26-28 | two sites with the same linear index are the same site |
| Sites.NodeOf | Percolation.java:26-28 | every index 0..n*n+1 is the index of exactly one node (TOP, a site or BOTTOM): the inverse of the conversion |
| Sites.IndexInjective | Percolation.java:18-21 | TOP, BOTTOM and the sites have pairwise different indices |
| Grid.Percolation.ValidateIndex | Percolation.java:30-37 | passes exactly for 1 <= row, col <= n; reports the row error exactly when the row is out of range, and the column error exactly when the row is in range and the column is not |
| Grid.Percolation.IsOpen | Percolation.java:90-93 | fails exactly outside the grid, with the validation's error; otherwise true exactly for an open site |
| Grid.Percolation.IsFull | Percolation.java:96-98 | fails exactly outside the grid; otherwise true exactly when a walk of open sites leads from TOP to the site without BOTTOM; full implies open |
| Grid.Percolation.NumberOfOpenSites | Percolation.java:101-103 | equals the number of open sites |
| Grid.Percolation.Percolates | Percolation.java:106-108 | true exactly when a walk leads from TOP to BOTTOM in the graph with BOTTOM |
| Grid.Percolation.Open | Percolation.java:40-87 | returns the validation outcome and changes nothing on failure or on an open site (idempotent); otherwise opens exactly that cell, adds it to the open set, adds 1 to the count, leaves every other cell alone and keeps the invariant |
| Grid.Percolation.Connect | Percolation.java:52-85 | after the unions with TOP, BOTTOM and the open neighbours, every edge of the new site is accounted for in both union-finds and the invariant holds again |
| Grid.Percolation.ConnectNeighbours | Percolation.java:63-85 | the four neighbour checks together restore the invariant |
| Grid.Percolation.ConnectNeighbour | Percolation.java:64-67 | one neighbour check: an open in-grid neighbour is united with the site in both union-finds, and its edge is no longer owed |
| Grid.Percolation.JoinBoth | Percolation.java:54-55 | the same union goes to both union-finds, both logs grow by it, and the edge is accounted for in each |
| Grid.Percolation.JoinBottom | Percolation.java:59-61 | the BOTTOM union goes to `ufBackwash` only: `uf`'s log is unchanged and `ufBackwash`'s grows by (bottom, site) |
| Grid.Percolation.Join | Percolation.java:65-66 | one union across an edge keeps the union-find sound (connected implies reachable) and accounts for that edge |
| Grid.Percolation.ConnectedIffReach | Percolation.java:9-10 | each union-find connects two nodes exactly when a walk of open sites joins them in its graph |
| Grid.Percolation.PercolatesIffFullBottomSite | Percolation.java:106-108 | the grid percolates exactly when some bottom-row site is full |
| Grid.Percolation.UfWithinBackwash | Percolation.java:9-10 | whatever `uf` connects, `ufBackwash` connects too |
| Grid.Percolation.BottomNeverInUf | Percolation.java:58-61 | BOTTOM lies outside `uf`'s universe; every union applied to `uf` was applied to `ufBackwash` and involves no BOTTOM |
| Grid.Percolation.NothingOpenNoPercolation | Percolation.java:12-23 | with zero open sites the grid does not percolate and no site is full |
| DisjointSets.WithoutOmits | Percolation.java:58-61 | the union log without BOTTOM holds only unions of the full log, none of which mention BOTTOM |
| Sites.TopReachesBottomIff | Percolation.java:106-108 | TOP reaches BOTTOM with BOTTOM's edges exactly when it reaches some open bottom-row site without them |
| Sites.ReachedSiteIsOpen | Percolation.java:97 | only open sites are reached from another node, so a full site is open |
| Sites.NothingOpenNothingReached | Percolation.java:12 | with no site open, every node reaches only itself |
| Scenarios.FreshGrid | Percolation.java:13-23 | a new grid fails exactly for n <= 0 and otherwise does not percolate |
| Scenarios.SingleSite | Percolation.java:40-87 | on a 1-by-1 grid, opening (1, 1) makes it full and the grid percolate, with one open site |
| Scenarios.CornerOnlyThroughBottom | Percolation.java:58-61 | with column 1 and (3, 3) open on a 3-by-3 grid, TOP reaches BOTTOM and (3, 3) with BOTTOM's edges, and does not reach (3, 3) without them |
| Scenarios.Backwash | Percolation.java:96-98 | in that grid it percolates and `ufBackwash` joins TOP to (3, 3), yet `isFull(3, 3)` is false |

## Left out

- `PercolationStats.java` is not part of this model. It contains the Monte
  Carlo trials (random numbers), the statistics (floating point) and the
  command-line entry point.
- The union-find library's internals (union by size, path compression) are
  not modelled. Only the partition they maintain is, as one label per
  element.
- DisjointSets.UnionFind.Union: the library throws on an index outside its
  universe. Here that is a precondition, because the grid only passes
  indices of nodes in the universe.
- DisjointSets.UnionFind.Find: the same precondition, for the same reason.
- Grid.Percolation.constructor: a Dafny constructor cannot fail, so it
  requires n > 0. The exception for n <= 0 is modelled by
  `Grid.Percolation.Create`.
- Grid.Percolation.Create: Java `int` arithmetic is unbounded here. For
  n > 46340, `n * n + 1` and `n * n + 2` overflow 32 bits, so the source
  fails or sizes its structures wrongly, while `Create` always succeeds.
- Grid.Percolation.constructor: the same unbounded `n * n`.
- Sites.XyTo1D: the same unbounded arithmetic in `(row - 1) * n + col`.
- Grid.Percolation.Open: the inline unions of lines 52-85 are split across
  `Connect`, `ConnectNeighbours`, `ConnectNeighbour`, `JoinBoth` and
  `JoinBottom`. The calls and their order are unchanged. `ConnectNeighbour`
  tests the neighbour's range and cell directly, which is what
  `row > 1 && isOpen(row - 1, col)` and its siblings amount to.
- The source's boolean array `opened` is the field `cells`, because
  `opened` is a reserved word in Dafny.
- Exceptions are values: `Outcome` for `validateIndex` and `open`, and
  `Result` for the queries.
