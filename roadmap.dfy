/** The roadmap builder: the distance table grown one accepted sample at a
    time, each insertion linking the new point to every point it sees and
    relaying distances through those neighbours and through the new point. */
module PRM {
  import opened Geometry
  import opened Closure
  import opened Insertion

  /** The graph-building state of one planning run. */
  class Roadmap {
    const rects: seq<Rect>
    const w: Weight
    const src: Vector
    const dest: Vector
    /** The distance table: point -> (point -> distance). */
    var graph: Graph
    /** The table's keys in insertion order, the order its iteration follows. */
    var order: seq<Vector>

    ghost predicate Valid()
      reads this
    {
      && WeightOk(w)
      && GraphOk(graph) && Transitive(graph)
      && NoDups(order) && (forall p :: p in order <==> p in graph)
      && src in graph && dest in graph
    }

    /** The seeding of the table with the source and the destination. */
    constructor (rects: seq<Rect>, w: Weight, src: Vector, dest: Vector)
      requires WeightOk(w)
      ensures Valid()
      ensures this.rects == rects && this.w == w && this.src == src && this.dest == dest
      ensures graph == Seed(rects, w, src, dest)
      ensures order == if src == dest then [src] else [src, dest]
    {
      this.rects, this.w, this.src, this.dest := rects, w, src, dest;
      graph := Seed(rects, w, src, dest);
      order := if src == dest then [src] else [src, dest];
    }

    /** Offer n every point pt knows, through pt at distance d: an entry of n
        is written (in both directions) when it is missing or the route
        through pt is shorter. Only entries of n change. */
    method RelayThrough(n: Vector, pt: Vector, d: real)
      requires n in graph && pt in graph && n in graph[pt] && graph[pt][n] == d && 0.0 <= d
      requires Closed(graph) && Symmetric(graph) && NonNegative(graph)
      requires pt in graph[pt] && graph[pt][pt] == 0.0
      modifies this
      ensures order == old(order)
      ensures RelayedThrough(old(graph), graph, n, pt, d, InOrder(old(order), old(graph)[pt]))
    {
      ghost var g1 := graph;
      RelayStart(graph, n, pt, d);
      var ks := InOrder(order, graph[pt]);
      var j := 0;
      while j < |ks|
        invariant 0 <= j <= |ks|
        invariant order == old(order)
        invariant RelayedThrough(g1, graph, n, pt, d, ks[..j])
      {
        RelayOne(n, pt, d, ks, j, g1);
        j := j + 1;
      }
      assert ks[..j] == ks;
    }

    /** One pass of the relay loop: the route n -> pt -> pt2 is written in
        both directions when n has no entry for pt2 or the route is shorter. */
    method RelayOne(n: Vector, pt: Vector, d: real, ks: seq<Vector>, j: nat, ghost g1: Graph)
      requires j < |ks| && RelayedThrough(g1, graph, n, pt, d, ks[..j])
      requires n in g1[pt] && g1[pt][n] == d && 0.0 <= d
      requires pt in g1[pt] && g1[pt][pt] == 0.0 && ks[j] in g1[pt]
      modifies this
      ensures order == old(order)
      ensures RelayedThrough(g1, graph, n, pt, d, ks[..j + 1])
    {
      var pt2 := ks[j];
      ghost var done := ks[..j];
      assert ks[..j + 1] == done + [pt2];
      ghost var before := graph;
      var relayed := d + graph[pt][pt2];
      if pt2 in graph[n] {
        if graph[n][pt2] > relayed {
          RelayWriteElsewhere(g1, before, n, pt, d, done, pt2);
          graph := Put(graph, n, pt2, relayed);
          graph := Put(graph, pt2, n, relayed);
          RelayWriteKeeps(g1, before, n, pt, d, done, pt2, relayed);
        } else {
          RelayKeepKeeps(g1, before, n, pt, d, done, pt2);
        }
      } else {
        RelayWriteElsewhere(g1, before, n, pt, d, done, pt2);
        graph := Put(graph, n, pt2, relayed);
        graph := Put(graph, pt2, n, relayed);
        RelayWriteKeeps(g1, before, n, pt, d, done, pt2, relayed);
      }
    }

    /** One drawn sample: a point that is not clear or is already in the
        table is skipped; any other joins the table through the two phases. */
    method Insert(p: Vector) returns (added: bool)
      requires Valid()
      modifies this
      ensures Valid()
      ensures added <==> Clear(rects, p) && p !in old(graph)
      ensures !added ==> graph == old(graph) && order == old(order)
      ensures added ==> order == old(order) + [p] && Inserted(old(graph), graph, Linked(old(graph), rects, p), w, p)
    {
      if !Clear(rects, p) || p in graph {
        return false;
      }
      InsertNew(p);
      return true;
    }

    /** The two phases for a clear point that is not yet in the table. */
    method InsertNew(p: Vector)
      requires Valid() && Clear(rects, p) && p !in graph
      modifies this
      ensures Valid()
      ensures order == old(order) + [p] && Inserted(old(graph), graph, Linked(old(graph), rects, p), w, p)
    {
      ghost var g0 := graph;
      Connect(p);
      Finish(p, g0, Linked(g0, rects, p));
    }

    /** The second phase and what the two phases achieve together. */
    method Finish(p: Vector, ghost g0: Graph, ghost linked: set<Vector>)
      requires GraphOk(g0) && Transitive(g0) && WeightOk(w) && src in g0 && dest in g0
      requires ConnectedSoFar(g0, graph, linked, w, p, Elements(order))
      requires NoDups(order) && forall q :: q in order <==> q in g0 || q == p
      modifies this
      ensures Valid()
      ensures order == old(order) && Inserted(g0, graph, linked, w, p)
    {
      ElementsKeys(order, g0, p);
      InsertionDone(g0, graph, linked, w, p, Elements(order));
      Relax(p);
    }

    /** The first phase of an insertion: n joins the table with an empty row
        and every point of the table, n last, is tried against it; a point
        that sees n gets the direct weight in both directions and is relayed
        through. */
    method Connect(n: Vector)
      requires Valid() && n !in graph && Clear(rects, n)
      modifies this
      ensures order == old(order) + [n]
      ensures NoDups(order) && forall q :: q in order <==> q in old(graph) || q == n
      ensures ConnectedSoFar(old(graph), graph, Linked(old(graph), rects, n), w, n, Elements(order))
    {
      ghost var g0 := graph;
      NoDupsSnoc(order, n);
      graph := graph[n := map[]];
      order := order + [n];
      ConnectStart(g0, Linked(g0, rects, n), w, n);
      ConnectAll(n, g0);
    }

    /** The loop of the first phase over a snapshot of the table's keys. */
    method ConnectAll(n: Vector, ghost g0: Graph)
      requires ConnectedSoFar(g0, graph, Linked(g0, rects, n), w, n, {})
      requires GraphOk(g0) && WeightOk(w) && Clear(rects, n)
      requires forall p :: p in order <==> p in g0 || p == n
      modifies this
      ensures order == old(order)
      ensures ConnectedSoFar(g0, graph, Linked(g0, rects, n), w, n, Elements(order))
    {
      ghost var linked := Linked(g0, rects, n);
      var pts := order;
      ghost var seen: set<Vector> := {};
      var i := 0;
      while i < |pts|
        invariant 0 <= i <= |pts|
        invariant order == pts
        invariant seen == Elements(pts[..i])
        invariant ConnectedSoFar(g0, graph, linked, w, n, seen)
      {
        ConnectOne(n, pts[i], g0, seen);
        ElementsSnoc(pts, i);
        seen := seen + {pts[i]};
        i := i + 1;
      }
      assert pts[..i] == pts;
    }

    /** One pass of the first phase, for the point pt. */
    method ConnectOne(n: Vector, pt: Vector, ghost g0: Graph, ghost seen: set<Vector>)
      requires ConnectedSoFar(g0, graph, Linked(g0, rects, n), w, n, seen)
      requires GraphOk(g0) && WeightOk(w) && Clear(rects, n)
      requires (pt in g0 || pt == n) && forall p :: p in order <==> p in g0 || p == n
      modifies this
      ensures order == old(order)
      ensures ConnectedSoFar(g0, graph, Linked(g0, rects, n), w, n, seen + {pt})
    {
      ghost var linked := Linked(g0, rects, n);
      ghost var g := graph;
      if Link(rects, pt, n) {
        var dist := w(pt, n);
        graph := Put(graph, pt, n, dist);
        graph := Put(graph, n, pt, dist);
        ConnectPutFacts(g0, g, linked, w, n, seen, pt);
        ghost var h := graph;
        RelayThrough(n, pt, dist);
        if pt == n {
          ConnectSelfKeeps(g0, g, linked, w, n, seen);
        } else {
          ConnectOtherKeeps(g0, g, graph, linked, w, n, seen, pt, InOrder(order, h[pt]));
        }
      } else {
        if pt == n {
          LinkSelf(rects, n);
          assert false;
        }
        ConnectSkipKeeps(g0, g, linked, w, n, seen, pt);
      }
    }

    /** The second phase of an insertion: every pair of points n reaches is
        offered the route through n, the entry written when it is missing or
        the route is shorter. The result is the order-free ThroughNew. */
    method Relax(n: Vector)
      requires GraphOk(graph) && n in graph && NoDups(order) && forall p :: p in order <==> p in graph
      modifies this
      ensures order == old(order)
      ensures graph == ThroughNew(old(graph), n)
    {
      ghost var g1 := graph;
      var ks := InOrder(order, graph[n]);
      RelaxRows(n, ks, g1);
      ElementsAll(ks, g1[n]);
      RowsEnd(g1, graph, n);
    }

    /** The outer loop of the second phase, over the points n knows. */
    method RelaxRows(n: Vector, ks: seq<Vector>, ghost g1: Graph)
      requires GraphOk(g1) && n in g1 && graph == g1
      requires NoDups(ks) && forall q :: q in ks <==> q in g1[n]
      modifies this
      ensures order == old(order)
      ensures RowsRelayed(g1, graph, n, Elements(ks[..|ks|]))
    {
      RowsStart(g1, n);
      var i := 0;
      while i < |ks|
        invariant 0 <= i <= |ks|
        invariant order == old(order)
        invariant RowsRelayed(g1, graph, n, Elements(ks[..i]))
      {
        RelaxRow(n, ks, i, g1);
        i := i + 1;
      }
    }

    /** The inner loop of the second phase, for row ks[i]. */
    method RelaxRow(n: Vector, ks: seq<Vector>, i: nat, ghost g1: Graph)
      requires GraphOk(g1) && n in g1 && i < |ks|
      requires NoDups(ks) && forall q :: q in ks <==> q in g1[n]
      requires RowsRelayed(g1, graph, n, Elements(ks[..i]))
      modifies this
      ensures order == old(order)
      ensures RowsRelayed(g1, graph, n, Elements(ks[..i + 1]))
    {
      var pt := ks[i];
      ghost var rowsDone := Elements(ks[..i]);
      ElementsSnoc(ks, i);
      RowBegin(g1, graph, n, pt, rowsDone);
      var j := 0;
      while j < |ks|
        invariant 0 <= j <= |ks|
        invariant order == old(order)
        invariant OtherRows(g1, graph, n, pt, rowsDone) && pt in graph
        invariant RowSoFar(g1, graph[pt], n, pt, Elements(ks[..j]))
      {
        RelaxEntry(n, pt, ks, j, g1, rowsDone);
        j := j + 1;
      }
      ElementsAll(ks, g1[n]);
      RowEnd(g1, graph, n, pt, rowsDone);
    }

    /** One pass of the inner loop: entry ks[j] of row pt is offered the
        route pt -> n -> ks[j]. */
    method RelaxEntry(n: Vector, pt: Vector, ks: seq<Vector>, j: nat, ghost g1: Graph, ghost rowsDone: set<Vector>)
      requires GraphOk(g1) && n in g1 && pt in g1[n] && j < |ks|
      requires NoDups(ks) && forall q :: q in ks <==> q in g1[n]
      requires OtherRows(g1, graph, n, pt, rowsDone) && pt in graph
      requires RowSoFar(g1, graph[pt], n, pt, Elements(ks[..j]))
      modifies this
      ensures order == old(order)
      ensures OtherRows(g1, graph, n, pt, rowsDone) && pt in graph
      ensures RowSoFar(g1, graph[pt], n, pt, Elements(ks[..j + 1]))
    {
      var pt2 := ks[j];
      ghost var done := Elements(ks[..j]);
      ElementsSnoc(ks, j);
      RelayReads(g1, graph, n, pt, rowsDone, done, pt2);
      var dist := graph[pt][n] + graph[n][pt2];
      ghost var row := graph[pt];
      if pt2 in graph[pt] {
        if dist < graph[pt][pt2] {
          OtherRowsPut(g1, graph, n, pt, rowsDone, pt2, dist);
          graph := Put(graph, pt, pt2, dist);
          RowStepWrite(g1, row, n, pt, done, pt2, dist);
        } else {
          RowStepKeep(g1, row, n, pt, done, pt2, dist);
        }
      } else {
        OtherRowsPut(g1, graph, n, pt, rowsDone, pt2, dist);
        graph := Put(graph, pt, pt2, dist);
        RowStepWrite(g1, row, n, pt, done, pt2, dist);
      }
    }

    /** The sampling loop over the samples drawn, in order: it stops as soon
        as the destination has an entry in the source's row. The ghost
        `tables` records the table before each sample and after the last. */
    method Build(samples: seq<Vector>) returns (used: nat, ghost tables: seq<Graph>)
      requires Valid()
      modifies this
      ensures Valid()
      ensures used <= |samples|
      ensures used < |samples| ==> dest in graph[src]
      ensures |tables| == used + 1 && tables[0] == old(graph) && tables[used] == graph
      ensures Drawn(rects, w, src, dest, samples, tables, used)
      ensures graph.Keys == old(graph).Keys + ClearSamples(rects, samples[..used])
      ensures NoRaise(old(graph), graph)
    {
      ghost var g0 := graph;
      used := 0;
      tables := [graph];
      while dest !in graph[src] && used < |samples|
        invariant Valid()
        invariant used <= |samples|
        invariant |tables| == used + 1 && tables[0] == g0 && tables[used] == graph
        invariant Drawn(rects, w, src, dest, samples, tables, used)
        invariant graph.Keys == g0.Keys + ClearSamples(rects, samples[..used])
        invariant NoRaise(g0, graph)
      {
        tables := BuildStep(samples, used, g0, tables);
        used := used + 1;
      }
    }

    /** One pass of the sampling loop, for samples[i]. */
    method BuildStep(samples: seq<Vector>, i: nat, ghost g0: Graph, ghost tables: seq<Graph>)
      returns (ghost tables': seq<Graph>)
      requires Valid() && i < |samples| && dest !in graph[src]
      requires |tables| == i + 1 && tables[0] == g0 && tables[i] == graph
      requires Drawn(rects, w, src, dest, samples, tables, i)
      requires graph.Keys == g0.Keys + ClearSamples(rects, samples[..i])
      requires NoRaise(g0, graph)
      modifies this
      ensures Valid()
      ensures |tables'| == i + 2 && tables'[0] == g0 && tables'[i + 1] == graph
      ensures Drawn(rects, w, src, dest, samples, tables', i + 1)
      ensures graph.Keys == g0.Keys + ClearSamples(rects, samples[..i + 1])
      ensures NoRaise(g0, graph)
    {
      ghost var before := graph;
      var added := Insert(samples[i]);
      if added {
        NoRaiseTrans(g0, before, graph);
      }
      assert Sampled(rects, w, before, graph, samples[i]);
      SampledKeys(rects, w, g0, before, graph, samples, i);
      tables' := tables + [graph];
      DrawnSnoc(rects, w, src, dest, samples, tables, graph, i);
    }
  }

  /** What one drawn sample does to the table: a clear point that is not yet
      in it is inserted; any other sample leaves the table as it was. */
  ghost predicate Sampled(rects: seq<Rect>, w: Weight, g: Graph, h: Graph, p: Vector) {
    if Clear(rects, p) && p !in g then Inserted(g, h, Linked(g, rects, p), w, p) else h == g
  }

  /** The first `used` samples were each drawn while the destination was not
      yet in the source's row, and each took tables[i] to tables[i + 1]. */
  ghost predicate Drawn(rects: seq<Rect>, w: Weight, src: Vector, dest: Vector, samples: seq<Vector>, tables: seq<Graph>, used: nat)
    requires used <= |samples| && |tables| == used + 1
  {
    forall i | 0 <= i < used :: Step(rects, w, src, dest, tables[i], tables[i + 1], samples[i])
  }

  /** Sample p was drawn while the destination was not in the source's row of
      g, and took g to h. */
  ghost predicate Step(rects: seq<Rect>, w: Weight, src: Vector, dest: Vector, g: Graph, h: Graph, p: Vector) {
    src in g && dest !in g[src] && Sampled(rects, w, g, h, p)
  }

  /** The clear points among the samples s. */
  ghost function ClearSamples(rects: seq<Rect>, s: seq<Vector>): set<Vector> {
    set p | p in s && Clear(rects, p)
  }

  /** A drawn sample adds itself to the keys exactly when it is clear. */
  lemma SampledKeys(rects: seq<Rect>, w: Weight, g0: Graph, g: Graph, h: Graph, samples: seq<Vector>, i: nat)
    requires i < |samples| && Sampled(rects, w, g, h, samples[i])
    requires g.Keys == g0.Keys + ClearSamples(rects, samples[..i])
    ensures h.Keys == g0.Keys + ClearSamples(rects, samples[..i + 1])
  {
    PrefixSnoc(samples, i);
    var p := samples[i];
    if Clear(rects, p) {
      assert h.Keys == g.Keys + {p};
    } else {
      assert h.Keys == g.Keys;
    }
  }

  lemma DrawnSnoc(rects: seq<Rect>, w: Weight, src: Vector, dest: Vector, samples: seq<Vector>, tables: seq<Graph>, h: Graph, i: nat)
    requires i < |samples| && |tables| == i + 1 && Drawn(rects, w, src, dest, samples, tables, i)
    requires Step(rects, w, src, dest, tables[i], h, samples[i])
    ensures Drawn(rects, w, src, dest, samples, tables + [h], i + 1)
  {
    var t := tables + [h];
    forall j | 0 <= j < i + 1
      ensures Step(rects, w, src, dest, t[j], t[j + 1], samples[j])
    {
      assert t[j] == tables[j];
      if j < i {
        assert t[j + 1] == tables[j + 1];
      }
    }
  }

  /** The whole construction: seed the table with the source and the
      destination, then insert the drawn samples until the destination is in
      the source's row or the samples run out; the table is the result. */
  method BuildPRM(rects: seq<Rect>, w: Weight, src: Vector, dest: Vector, samples: seq<Vector>)
    returns (graph: Graph, used: nat, ghost tables: seq<Graph>)
    requires WeightOk(w)
    ensures GraphOk(graph) && Transitive(graph) && src in graph && dest in graph
    ensures used <= |samples|
    ensures used < |samples| ==> dest in graph[src]
    ensures |tables| == used + 1 && tables[0] == Seed(rects, w, src, dest) && tables[used] == graph
    ensures Drawn(rects, w, src, dest, samples, tables, used)
    ensures graph.Keys == {src, dest} + ClearSamples(rects, samples[..used])
    ensures Link(rects, src, dest) ==> used == 0 && graph == Seed(rects, w, src, dest)
    ensures NoRaise(Seed(rects, w, src, dest), graph)
  {
    var r := new Roadmap(rects, w, src, dest);
    used, tables := r.Build(samples);
    graph := r.graph;
    if Link(rects, src, dest) {
      DrawnStops(rects, w, src, dest, samples, tables, used);
    }
  }

  /** When the source sees the destination, the seeded table already links
      them, so no sample is drawn. */
  lemma DrawnStops(rects: seq<Rect>, w: Weight, src: Vector, dest: Vector, samples: seq<Vector>, tables: seq<Graph>, used: nat)
    requires WeightOk(w) && Link(rects, src, dest)
    requires used <= |samples| && |tables| == used + 1 && tables[0] == Seed(rects, w, src, dest)
    requires Drawn(rects, w, src, dest, samples, tables, used)
    ensures used == 0
  {
    if used > 0 {
      assert dest in tables[0][src];
      DrawnFirst(rects, w, src, dest, samples, tables, used);
      assert false;
    }
  }

  /** A sample is drawn only while the destination is missing from the
      source's row, so drawing any means the seeded table lacked it. */
  lemma DrawnFirst(rects: seq<Rect>, w: Weight, src: Vector, dest: Vector, samples: seq<Vector>, tables: seq<Graph>, used: nat)
    requires 0 < used <= |samples| && |tables| == used + 1
    requires Drawn(rects, w, src, dest, samples, tables, used)
    ensures src in tables[0] && dest !in tables[0][src]
  {
    assert Step(rects, w, src, dest, tables[0], tables[1], samples[0]);
  }
}
