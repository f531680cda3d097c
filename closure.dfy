/** The distance table of the roadmap as a value: a dictionary from each
    inserted point to a dictionary from the points it reaches to the shortest
    distance known between them. */
module Closure {
  import opened Geometry

  type Graph = map<Vector, map<Vector, real>>

  /** The edge weight; in the program it is the Euclidean distance. */
  type Weight = (Vector, Vector) -> real

  /** What the table relies on: weights are never negative and a point is at
      distance zero from itself (both true of the Euclidean distance). */
  ghost predicate WeightOk(w: Weight) {
    && (forall p, q :: 0.0 <= w(p, q))
    && (forall p :: w(p, p) == 0.0)
  }

  /** Every point an entry mentions is itself a key of the table. */
  ghost predicate Closed(g: Graph) {
    forall p, q | p in g && q in g[p] :: q in g
  }

  /** Every entry is recorded in both directions with the same distance. */
  ghost predicate Symmetric(g: Graph) {
    forall p, q | p in g && q in g[p] :: q in g && p in g[q] && g[q][p] == g[p][q]
  }

  ghost predicate NonNegative(g: Graph) {
    forall p, q | p in g && q in g[p] :: 0.0 <= g[p][q]
  }

  /** Every key is at distance zero from itself. */
  ghost predicate SelfZero(g: Graph) {
    forall p | p in g :: p in g[p] && g[p][p] == 0.0
  }

  /** The invariant every complete insertion keeps. */
  ghost predicate GraphOk(g: Graph) {
    Closed(g) && Symmetric(g) && NonNegative(g) && SelfZero(g)
  }

  /** The table is a transitive closure: whatever a point reaches, every
      point it reaches also reaches. */
  ghost predicate Transitive(g: Graph) {
    forall p, q, r | p in g && q in g[p] && q in g && r in g[q] :: r in g[p]
  }

  /** The dictionary write g[a][b] = v. */
  function Put(g: Graph, a: Vector, b: Vector, v: real): Graph
    requires a in g
  {
    g[a := g[a][b := v]]
  }

  /** The two writes g[a][b] = v and g[b][a] = v keep the table closed,
      symmetric and non-negative, and change nothing else. */
  lemma PutBoth(g: Graph, a: Vector, b: Vector, v: real)
    requires a in g && b in g && 0.0 <= v
    requires Closed(g) && Symmetric(g) && NonNegative(g)
    ensures var h := Put(Put(g, a, b, v), b, a, v);
      && h.Keys == g.Keys
      && Closed(h) && Symmetric(h) && NonNegative(h)
      && b in h[a] && h[a][b] == v && a in h[b] && h[b][a] == v
      && (forall p, q | p in g && q in g[p] :: q in h[p])
      && (forall p, q | p in h && q in h[p] && !(p == a && q == b) && !(p == b && q == a) ::
            q in g[p] && h[p][q] == g[p][q])
  {
    var h := Put(Put(g, a, b, v), b, a, v);
    PutBothEntries(g, a, b, v);
    forall p, q | p in h && q in h[p]
      ensures q in h && p in h[q] && h[q][p] == h[p][q]
    {
      if !((p == a && q == b) || (p == b && q == a)) {
        assert q in g[p] && h[p][q] == g[p][q];
        assert p in g[q];
      }
    }
  }

  lemma PutBothEntries(g: Graph, a: Vector, b: Vector, v: real)
    requires a in g && b in g
    ensures var h := Put(Put(g, a, b, v), b, a, v);
      && h.Keys == g.Keys
      && b in h[a] && h[a][b] == v && a in h[b] && h[b][a] == v
      && (forall p, q | p in g && q in g[p] :: q in h[p])
      && (forall p, q | p in h && q in h[p] && !(p == a && q == b) && !(p == b && q == a) ::
            q in g[p] && h[p][q] == g[p][q])
  {
    var h := Put(Put(g, a, b, v), b, a, v);
    if a == b {
      assert h[a] == g[a][a := v];
    } else {
      assert h[a] == g[a][b := v] && h[b] == g[b][a := v];
    }
    assert forall p | p in h && p != a && p != b :: h[p] == g[p];
  }

  predicate NoDups(s: seq<Vector>) {
    forall i, j :: 0 <= i < j < |s| ==> s[i] != s[j]
  }

  /** The keys of row m listed in the order given by `order`, the outer
      table's key insertion order. A row's own insertion order may differ;
      every loop over a row here handles its entries independently. */
  function InOrder(order: seq<Vector>, m: map<Vector, real>): (ks: seq<Vector>)
    ensures forall q :: q in ks <==> q in order && q in m
    ensures NoDups(order) ==> NoDups(ks)
  {
    if order == [] then []
    else
      var rest := InOrder(order[1..], m);
      assert NoDups(order) ==> order[0] !in order[1..];
      if order[0] in m then [order[0]] + rest else rest
  }

  /** The table built before any sample is drawn: source and destination at
      distance zero from themselves, joined directly when they see each other. */
  function Seed(rects: seq<Rect>, w: Weight, src: Vector, dest: Vector): (g: Graph)
    requires WeightOk(w)
    ensures GraphOk(g)
    ensures g.Keys == {src, dest}
    ensures g[src].Keys == if Link(rects, src, dest) then {src, dest} else {src}
    ensures g[dest].Keys == if Link(rects, src, dest) then {src, dest} else {dest}
    ensures dest in g[src] ==> g[src][dest] == w(src, dest)
    ensures Transitive(g)
  {
    var g := map[src := map[src := 0.0]][dest := map[dest := 0.0]];
    if Link(rects, src, dest) then
      var dist := w(src, dest);
      SeedLinked(src, dest, dist);
      Put(Put(g, src, dest, dist), dest, src, dist)
    else
      SeedUnlinked(src, dest);
      g
  }

  lemma SeedUnlinked(src: Vector, dest: Vector)
    ensures var g := map[src := map[src := 0.0]][dest := map[dest := 0.0]];
      && GraphOk(g) && g.Keys == {src, dest} && g[src].Keys == {src} && g[dest].Keys == {dest}
  {
    var g := map[src := map[src := 0.0]][dest := map[dest := 0.0]];
    if src == dest {
      assert g == map[src := map[src := 0.0]];
    } else {
      assert g[src] == map[src := 0.0] && g[dest] == map[dest := 0.0];
    }
  }

  lemma SeedLinked(src: Vector, dest: Vector, dist: real)
    requires 0.0 <= dist && (src == dest ==> dist == 0.0)
    ensures var g := map[src := map[src := 0.0]][dest := map[dest := 0.0]];
      var r := Put(Put(g, src, dest, dist), dest, src, dist);
      && GraphOk(r) && r.Keys == {src, dest} && r[src].Keys == {src, dest} && r[dest].Keys == {src, dest}
      && r[src][dest] == dist
  {
    var g := map[src := map[src := 0.0]][dest := map[dest := 0.0]];
    var r := Put(Put(g, src, dest, dist), dest, src, dist);
    if src == dest {
      assert r.Keys == {src} && r[src] == map[src := dist];
    } else {
      assert r[src] == map[src := 0.0, dest := dist];
      assert r[dest] == map[dest := 0.0, src := dist];
    }
  }

  /** Row p after every point q reached from n has been offered the route
      p -> n -> q: the route's length where p had no entry for q or the route
      is shorter, the old entry otherwise. */
  function Row(g: Graph, n: Vector, p: Vector): (row: map<Vector, real>)
    requires n in g && p in g && n in g[p]
    ensures row.Keys == g[p].Keys + g[n].Keys
    ensures forall q | q in g[p] && q !in g[n] :: row[q] == g[p][q]
    ensures forall q | q in g[n] ::
      && row[q] <= g[p][n] + g[n][q]
      && (q in g[p] ==> row[q] <= g[p][q])
      && (row[q] == g[p][n] + g[n][q] || (q in g[p] && row[q] == g[p][q]))
  {
    map q | q in g[p].Keys + g[n].Keys ::
      if q !in g[n] then g[p][q]
      else
        var dist := g[p][n] + g[n][q];
        if q in g[p] && !(dist < g[p][q]) then g[p][q] else dist
  }

  /** The table after every pair of points reached from n has been offered
      the route through n. */
  function ThroughNew(g: Graph, n: Vector): Graph
    requires GraphOk(g) && n in g
  {
    map p | p in g :: if p in g[n] then Row(g, n, p) else g[p]
  }

  /** The entries that involve n itself do not move: n is at distance zero
      from itself and no distance is negative. */
  lemma ThroughNewKeepsN(g: Graph, n: Vector)
    requires GraphOk(g) && n in g
    ensures ThroughNew(g, n).Keys == g.Keys
    ensures ThroughNew(g, n)[n] == g[n]
    ensures forall p | p in g[n] :: ThroughNew(g, n)[p][n] == g[p][n]
  {
    assert n in g[n];
    assert ThroughNew(g, n)[n] == Row(g, n, n);
  }

  /** Row n, entry by entry, does not move. */
  lemma ThroughNewRowN(g: Graph, n: Vector)
    requires GraphOk(g) && n in g
    ensures n in ThroughNew(g, n)
    ensures forall q :: q in ThroughNew(g, n)[n] <==> q in g[n]
    ensures forall q | q in g[n] :: ThroughNew(g, n)[n][q] == g[n][q]
  {
    ThroughNewKeepsN(g, n);
  }

  /** Relaxing through n keeps the table's invariant. */
  lemma ThroughNewOk(g: Graph, n: Vector)
    requires GraphOk(g) && n in g
    ensures GraphOk(ThroughNew(g, n))
  {
    var r := ThroughNew(g, n);
    forall p, q | p in r && q in r[p]
      ensures q in r && p in r[q] && r[q][p] == r[p][q]
    {
      if p in g[n] && q in g[n] {
        assert g[q][n] + g[n][p] == g[p][n] + g[n][q];
      }
    }
  }

  /** No entry is removed or raised, and rows of points n does not reach stay. */
  lemma ThroughNewNoRaise(g: Graph, n: Vector)
    requires GraphOk(g) && n in g
    ensures forall p | p in g && p !in g[n] :: ThroughNew(g, n)[p] == g[p]
    ensures forall p, q | p in g && q in g[p] :: q in ThroughNew(g, n)[p] && ThroughNew(g, n)[p][q] <= g[p][q]
  {
  }

  /** A row n reaches gains every entry of row n; every other row stays. */
  lemma ThroughNewRows(g: Graph, n: Vector)
    requires GraphOk(g) && n in g
    ensures var r := ThroughNew(g, n);
      && r.Keys == g.Keys
      && (forall p | p in r && p in g[n] :: r[p].Keys == g[p].Keys + g[n].Keys)
      && (forall p | p in r && p !in g[n] :: r[p] == g[p])
  {
    var r := ThroughNew(g, n);
    forall p | p in r && p in g[n]
      ensures r[p].Keys == g[p].Keys + g[n].Keys
    {
      assert r[p] == Row(g, n, p);
    }
  }

  /** After relaxing, the route through n bounds every pair of points reached from n. */
  lemma ThroughNewRelayBound(g: Graph, n: Vector)
    requires GraphOk(g) && n in g
    ensures var r := ThroughNew(g, n);
      forall p, q | p in g[n] && q in g[n] :: q in r[p] && r[p][q] <= r[p][n] + r[n][q]
  {
    var r := ThroughNew(g, n);
    ThroughNewKeepsN(g, n);
    forall p, q | p in g[n] && q in g[n]
      ensures q in r[p] && r[p][q] <= r[p][n] + r[n][q]
    {
      assert r[p] == Row(g, n, p);
    }
  }

  /** Every entry is an old one or the length of a route through n. */
  lemma ThroughNewSound(g: Graph, n: Vector)
    requires GraphOk(g) && n in g
    ensures var r := ThroughNew(g, n);
      forall p, q | p in r && q in r[p] ::
        || (q in g[p] && r[p][q] == g[p][q])
        || (p in g[n] && q in g[n] && r[p][q] == g[p][n] + g[n][q])
  {
    var r := ThroughNew(g, n);
    forall p, q | p in r && q in r[p]
      ensures || (q in g[p] && r[p][q] == g[p][q])
              || (p in g[n] && q in g[n] && r[p][q] == g[p][n] + g[n][q])
    {
      if p in g[n] {
        assert r[p] == Row(g, n, p);
      }
    }
  }
}
