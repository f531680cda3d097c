/** The steps of one insertion stated on table values: what each pass of the
    two relaxation loops keeps, and the lemmas that carry it from pass to pass. */
module Insertion {
  import opened Geometry
  import opened Closure

  /** The old points that see the new point n, its linked neighbours. */
  ghost function Linked(g0: Graph, rects: seq<Rect>, n: Vector): set<Vector>
  {
    set pt | pt in g0 && Link(rects, pt, n)
  }

  /** Every point that one of the `linked` points among `visited` has an
      entry for in g0. */
  ghost function Reach(g0: Graph, linked: set<Vector>, visited: set<Vector>): set<Vector>
  {
    set pt, q | pt in visited && pt in linked && pt in g0 && q in g0[pt] :: q
  }

  lemma ReachAdd(g0: Graph, linked: set<Vector>, visited: set<Vector>, pt: Vector)
    ensures Reach(g0, linked, visited + {pt}) ==
      Reach(g0, linked, visited) + (if pt in linked && pt in g0 then g0[pt].Keys else {})
  {
    var before, after := Reach(g0, linked, visited), Reach(g0, linked, visited + {pt});
    forall q | q in after
      ensures q in before || (pt in linked && pt in g0 && q in g0[pt])
    {
      var pt' :| pt' in visited + {pt} && pt' in linked && pt' in g0 && q in g0[pt'];
    }
  }

  /** The set of a sequence's elements. */
  ghost function Elements(s: seq<Vector>): set<Vector> {
    set q | q in s
  }

  lemma ElementsSnoc(s: seq<Vector>, i: nat)
    requires i < |s|
    ensures Elements(s[..i + 1]) == Elements(s[..i]) + {s[i]}
    ensures NoDups(s) ==> s[i] !in Elements(s[..i])
  {
    assert s[..i + 1] == s[..i] + [s[i]];
  }

  lemma NoDupsSnoc(s: seq<Vector>, x: Vector)
    requires NoDups(s) && x !in s
    ensures NoDups(s + [x])
  {
  }

  lemma ElementsKeys(s: seq<Vector>, g0: Graph, n: Vector)
    requires forall q :: q in s <==> q in g0 || q == n
    ensures Elements(s) == g0.Keys + {n}
  {
  }

  lemma PrefixSnoc(s: seq<Vector>, i: nat)
    requires i < |s|
    ensures forall q :: q in s[..i + 1] <==> q in s[..i] || q == s[i]
  {
    assert s[..i + 1] == s[..i] + [s[i]];
  }

  lemma ElementsAll(s: seq<Vector>, m: map<Vector, real>)
    requires forall q :: q in s <==> q in m
    ensures Elements(s[..|s|]) == m.Keys
  {
    assert s[..|s|] == s;
  }

  /** What relaying through pt has achieved once the entries `done` of pt
      have been offered to n, starting from g1. */
  ghost predicate RelayedThrough(g1: Graph, g: Graph, n: Vector, pt: Vector, d: real, done: seq<Vector>)
  {
    && n in g1 && pt in g1 && (forall q | q in done :: q in g1[pt])
    && OnlyRowN(g1, g, n)
    && g[pt] == g1[pt]
    && RowNRelayed(g1, g, n, pt, d, done)
    && (pt == n ==> g == g1)
  }

  /** g has g1's keys, keeps the table's invariant, and differs from g1 only
      in the entries of n. */
  ghost predicate OnlyRowN(g1: Graph, g: Graph, n: Vector)
  {
    && g.Keys == g1.Keys
    && Closed(g) && Symmetric(g) && NonNegative(g)
    && (forall p, q | p in g && p != n && q != n ::
          && (q in g[p] <==> q in g1[p])
          && (q in g[p] ==> g[p][q] == g1[p][q]))
  }

  /** The entry for q that relaying through pt at distance d leaves in row
      n: the route n -> pt -> q, unless n already has an entry for q that is
      no longer than the route. */
  function RelayValue(g1: Graph, n: Vector, pt: Vector, d: real, q: Vector): (v: real)
    requires n in g1 && pt in g1 && q in g1[pt]
    ensures v <= d + g1[pt][q]
    ensures q in g1[n] ==> v <= g1[n][q]
    ensures v == d + g1[pt][q] || (q in g1[n] && v == g1[n][q])
  {
    var route := d + g1[pt][q];
    if q in g1[n] && !(g1[n][q] > route) then g1[n][q] else route
  }

  /** Row n has gained the entries `done` of pt, each holding the smaller of
      its old value and the route through pt; its other entries are as in g1. */
  ghost predicate RowNRelayed(g1: Graph, g: Graph, n: Vector, pt: Vector, d: real, done: seq<Vector>)
    requires n in g1 && pt in g1 && n in g && forall q | q in done :: q in g1[pt]
  {
    && (forall q :: q in g[n] <==> q in g1[n] || q in done)
    && (forall q | q in g[n] :: g[n][q] == if q in done then RelayValue(g1, n, pt, d, q) else g1[n][q])
  }

  lemma RelayStart(g: Graph, n: Vector, pt: Vector, d: real)
    requires n in g && pt in g && Closed(g) && Symmetric(g) && NonNegative(g)
    ensures RelayedThrough(g, g, n, pt, d, [])
  {
  }

  /** A pass that writes nothing keeps the relay invariant. */
  lemma RelayKeepKeeps(g1: Graph, g: Graph, n: Vector, pt: Vector, d: real, done: seq<Vector>, pt2: Vector)
    requires RelayedThrough(g1, g, n, pt, d, done)
    requires pt2 in g1[pt] && pt2 in g[n] && !(g[n][pt2] > d + g[pt][pt2])
    ensures RelayedThrough(g1, g, n, pt, d, done + [pt2])
  {
  }

  /** The relay loop never writes when pt is n (n is at distance zero from
      itself) nor for pt's own entry (the route n -> pt -> pt is the entry). */
  lemma RelayWriteElsewhere(g1: Graph, g: Graph, n: Vector, pt: Vector, d: real, done: seq<Vector>, pt2: Vector)
    requires RelayedThrough(g1, g, n, pt, d, done)
    requires n in g1[pt] && g1[pt][n] == d
    requires pt in g1[pt] && g1[pt][pt] == 0.0
    requires pt2 in g1[pt] && (pt2 in g[n] ==> g[n][pt2] > d + g[pt][pt2])
    ensures pt != n && pt2 != pt
  {
    if pt2 == pt || pt == n {
      assert false;
    }
  }

  /** A pass that writes the route n -> pt -> pt2 in both directions keeps
      the relay invariant. */
  lemma RelayWriteKeeps(g1: Graph, g: Graph, n: Vector, pt: Vector, d: real, done: seq<Vector>, pt2: Vector, dist: real)
    requires RelayedThrough(g1, g, n, pt, d, done)
    requires 0.0 <= d && pt != n && pt2 != pt && pt2 in g1[pt] && dist == d + g[pt][pt2]
    requires pt2 in g[n] ==> g[n][pt2] > dist
    ensures RelayedThrough(g1, Put(Put(g, n, pt2, dist), pt2, n, dist), n, pt, d, done + [pt2])
  {
    var h := Put(Put(g, n, pt2, dist), pt2, n, dist);
    assert pt2 in g[pt];
    OnlyRowNPut(g1, g, n, n, pt2, dist);
    PutRows(g, n, pt2, dist);
    RelayWriteRow(g1, g, h, n, pt, d, done, pt2, dist);
  }

  /** The two writes g[a][b] = v and g[b][a] = v, row by row. */
  lemma PutRows(g: Graph, a: Vector, b: Vector, v: real)
    requires a in g && b in g
    ensures var h := Put(Put(g, a, b, v), b, a, v);
      && h.Keys == g.Keys
      && h[a] == g[a][b := v]
      && (a != b ==> h[b] == g[b][a := v])
      && forall p | p in g && p != a && p != b :: h[p] == g[p]
  {
  }

  lemma RelayWriteRow(g1: Graph, g: Graph, h: Graph, n: Vector, pt: Vector, d: real, done: seq<Vector>, pt2: Vector, dist: real)
    requires n in g1 && pt in g1 && n in g && n in h && pt2 in g1[pt] && forall q | q in done :: q in g1[pt]
    requires RowNRelayed(g1, g, n, pt, d, done)
    requires h[n] == g[n][pt2 := dist] && dist == d + g1[pt][pt2]
    requires pt2 in g[n] ==> g[n][pt2] > dist
    ensures RowNRelayed(g1, h, n, pt, d, done + [pt2])
  {
    if pt2 in done {
      assert false;
    }
    forall q | q in h[n]
      ensures h[n][q] == if q in done + [pt2] then RelayValue(g1, n, pt, d, q) else g1[n][q]
    {
      if q != pt2 {
        assert q in g[n];
      }
    }
  }

  /** What the first phase has achieved once the points `visited` have been
      tried against the new point n, starting from g0 (the table before n was
      added): only row n and the entries pointing to n differ from g0; row n
      holds exactly what the linked visited points reach; a linked point is
      no further than its weight; a point reached through a linked point but
      not itself linked is no further than the route through that point. */
  ghost predicate ConnectedSoFar(g0: Graph, g: Graph, linked: set<Vector>, w: Weight, n: Vector, visited: set<Vector>)
  {
    && n !in g0 && n in g
    && g.Keys == g0.Keys + {n}
    && OnlyRowN(g0[n := map[]], g, n)
    && (forall q | q != n :: q in g[n] <==> q in Reach(g0, linked, visited))
    && (n in visited ==> n in g[n] && g[n][n] == 0.0)
    && (forall pt | pt in visited && pt in g0 && pt in linked :: pt in g[n] && g[n][pt] <= w(pt, n))
    && RelayBound(g0, g, linked, w, n, visited)
    && RowSound(g0, g[n], linked, w, n, visited)
  }

  /** Every entry of `row` other than n is a route through a visited linked
      point pt: the weight from pt to n plus pt's entry in g0. */
  ghost predicate RowSound(g0: Graph, row: map<Vector, real>, linked: set<Vector>, w: Weight, n: Vector, visited: set<Vector>)
  {
    forall q | q in row && q != n ::
      exists pt :: pt in visited && pt in linked && pt in g0 && q in g0[pt] && row[q] == w(pt, n) + g0[pt][q]
  }

  /** More points tried keep every witness of a sound row. */
  lemma RowSoundMore(g0: Graph, row: map<Vector, real>, linked: set<Vector>, w: Weight, n: Vector, visited: set<Vector>, more: set<Vector>)
    requires RowSound(g0, row, linked, w, n, visited) && visited <= more
    ensures RowSound(g0, row, linked, w, n, more)
  {
    forall q | q in row && q != n
      ensures exists pt :: pt in more && pt in linked && pt in g0 && q in g0[pt] && row[q] == w(pt, n) + g0[pt][q]
    {
      var pt :| pt in visited && pt in linked && pt in g0 && q in g0[pt] && row[q] == w(pt, n) + g0[pt][q];
      assert pt in more;
    }
  }

  /** A point reached through a visited linked point pt, and not linked
      itself, is no further from n than the route through pt. */
  ghost predicate RelayBound(g0: Graph, g: Graph, linked: set<Vector>, w: Weight, n: Vector, visited: set<Vector>)
    requires n in g
  {
    forall pt, q | pt in visited && pt in g0 && pt in linked && q in g0[pt] && q !in linked ::
      q in g[n] && g[n][q] <= w(pt, n) + g0[pt][q]
  }

  lemma ConnectStart(g0: Graph, linked: set<Vector>, w: Weight, n: Vector)
    requires GraphOk(g0) && n !in g0
    ensures ConnectedSoFar(g0, g0[n := map[]], linked, w, n, {})
  {
    var g := g0[n := map[]];
    assert forall p | p in g && p != n :: g[p] == g0[p];
  }

  /** Trying a point that does not see n changes nothing. */
  lemma ConnectSkipKeeps(g0: Graph, g: Graph, linked: set<Vector>, w: Weight, n: Vector, visited: set<Vector>, pt: Vector)
    requires ConnectedSoFar(g0, g, linked, w, n, visited)
    requires pt !in linked && pt != n
    ensures ConnectedSoFar(g0, g, linked, w, n, visited + {pt})
  {
    ConnectSkipReach(g0, g, linked, w, n, visited, pt);
    ConnectSkipBounds(g0, g, linked, w, n, visited, pt);
    RowSoundMore(g0, g[n], linked, w, n, visited, visited + {pt});
  }

  lemma ConnectSkipReach(g0: Graph, g: Graph, linked: set<Vector>, w: Weight, n: Vector, visited: set<Vector>, pt: Vector)
    requires ConnectedSoFar(g0, g, linked, w, n, visited)
    requires pt !in linked && pt != n
    ensures forall q | q != n :: q in g[n] <==> q in Reach(g0, linked, visited + {pt})
  {
    ReachAdd(g0, linked, visited, pt);
  }

  lemma ConnectSkipBounds(g0: Graph, g: Graph, linked: set<Vector>, w: Weight, n: Vector, visited: set<Vector>, pt: Vector)
    requires ConnectedSoFar(g0, g, linked, w, n, visited)
    requires pt !in linked && pt != n
    ensures n in visited + {pt} ==> n in g[n] && g[n][n] == 0.0
    ensures forall pt' | pt' in visited + {pt} && pt' in g0 && pt' in linked :: pt' in g[n] && g[n][pt'] <= w(pt', n)
    ensures RelayBound(g0, g, linked, w, n, visited + {pt})
  {
    SkipDirect(g0, g, linked, w, n, visited, pt);
    SkipRelay(g0, g, linked, w, n, visited, pt);
  }

  lemma SkipDirect(g0: Graph, g: Graph, linked: set<Vector>, w: Weight, n: Vector, visited: set<Vector>, pt: Vector)
    requires n in g && pt !in linked
    requires forall pt' | pt' in visited && pt' in g0 && pt' in linked :: pt' in g[n] && g[n][pt'] <= w(pt', n)
    ensures forall pt' | pt' in visited + {pt} && pt' in g0 && pt' in linked :: pt' in g[n] && g[n][pt'] <= w(pt', n)
  {
  }

  lemma SkipRelay(g0: Graph, g: Graph, linked: set<Vector>, w: Weight, n: Vector, visited: set<Vector>, pt: Vector)
    requires n in g && pt !in linked
    requires RelayBound(g0, g, linked, w, n, visited)
    ensures RelayBound(g0, g, linked, w, n, visited + {pt})
  {
  }

  /** The direct writes g[pt][n] = g[n][pt] = w(pt, n) set up what relaying
      through pt needs. */
  lemma ConnectPutFacts(g0: Graph, g: Graph, linked: set<Vector>, w: Weight, n: Vector, visited: set<Vector>, pt: Vector)
    requires ConnectedSoFar(g0, g, linked, w, n, visited) && GraphOk(g0) && WeightOk(w)
    requires pt in g
    ensures var h := Put(Put(g, pt, n, w(pt, n)), n, pt, w(pt, n));
      && n in h && pt in h && n in h[pt] && h[pt][n] == w(pt, n) && 0.0 <= w(pt, n)
      && Closed(h) && Symmetric(h) && NonNegative(h)
      && pt in h[pt] && h[pt][pt] == 0.0
      && h.Keys == g0.Keys + {n}
  {
    var dist := w(pt, n);
    PutBoth(g, pt, n, dist);
    if pt != n {
      assert pt in g0 && pt in g0[pt];
      assert pt in g[pt] && g[pt][pt] == 0.0;
    }
  }

  /** Trying n itself, which sees itself at distance zero. */
  lemma ConnectSelfKeeps(g0: Graph, g: Graph, linked: set<Vector>, w: Weight, n: Vector, visited: set<Vector>)
    requires ConnectedSoFar(g0, g, linked, w, n, visited) && WeightOk(w) && Closed(g0)
    ensures ConnectedSoFar(g0, Put(Put(g, n, n, w(n, n)), n, n, w(n, n)), linked, w, n, visited + {n})
  {
    assert w(n, n) == 0.0;
    var h := Put(Put(g, n, n, 0.0), n, n, 0.0);
    PutBoth(g, n, n, 0.0);
    PutSelfRows(g, n);
    ConnectSelfFrame(g0, g, h, n);
    ConnectSelfRow(g0, g, h, linked, n, visited);
    ConnectSelfBounds(g0, g, h, linked, w, n, visited);
    ConnectSelfSound(g0, g[n], linked, w, n, visited);
  }

  lemma ConnectSelfSound(g0: Graph, row: map<Vector, real>, linked: set<Vector>, w: Weight, n: Vector, visited: set<Vector>)
    requires RowSound(g0, row, linked, w, n, visited)
    ensures RowSound(g0, row[n := 0.0], linked, w, n, visited + {n})
  {
    RowSoundMore(g0, row, linked, w, n, visited, visited + {n});
    var h := row[n := 0.0];
    forall q | q in h && q != n
      ensures exists pt :: pt in visited + {n} && pt in linked && pt in g0 && q in g0[pt] && h[q] == w(pt, n) + g0[pt][q]
    {
      assert h[q] == row[q];
    }
  }

  /** Writing n's distance to itself twice touches row n only. */
  lemma PutSelfRows(g: Graph, n: Vector)
    requires n in g
    ensures var h := Put(Put(g, n, n, 0.0), n, n, 0.0);
      && h[n] == g[n][n := 0.0]
      && forall p | p in g && p != n :: h[p] == g[p]
  {
  }

  lemma ConnectSelfFrame(g0: Graph, g: Graph, h: Graph, n: Vector)
    requires n in g && OnlyRowN(g0[n := map[]], g, n)
    requires h.Keys == g.Keys && Closed(h) && Symmetric(h) && NonNegative(h)
    requires forall p | p in g && p != n :: h[p] == g[p]
    ensures OnlyRowN(g0[n := map[]], h, n)
  {
  }

  lemma ConnectSelfRow(g0: Graph, g: Graph, h: Graph, linked: set<Vector>, n: Vector, visited: set<Vector>)
    requires n !in g0 && n in g && n in h && h[n] == g[n][n := 0.0]
    requires forall q | q != n :: q in g[n] <==> q in Reach(g0, linked, visited)
    ensures forall q | q != n :: q in h[n] <==> q in Reach(g0, linked, visited + {n})
    ensures n in h[n] && h[n][n] == 0.0
  {
    ReachAdd(g0, linked, visited, n);
  }

  lemma ConnectSelfBounds(g0: Graph, g: Graph, h: Graph, linked: set<Vector>, w: Weight, n: Vector, visited: set<Vector>)
    requires n !in g0 && Closed(g0) && n in g && n in h && h[n] == g[n][n := 0.0]
    requires forall pt | pt in visited && pt in g0 && pt in linked :: pt in g[n] && g[n][pt] <= w(pt, n)
    requires RelayBound(g0, g, linked, w, n, visited)
    ensures forall pt | pt in visited + {n} && pt in g0 && pt in linked :: pt in h[n] && h[n][pt] <= w(pt, n)
    ensures RelayBound(g0, h, linked, w, n, visited + {n})
  {
    forall pt, q | pt in visited + {n} && pt in g0 && pt in linked && q in g0[pt] && q !in linked
      ensures q in h[n] && h[n][q] <= w(pt, n) + g0[pt][q]
    {
      assert pt in visited && q != n;
    }
  }

  /** Trying an old point that sees n, writing the direct weight and relaying
      through it, keeps what the first phase promises. */
  lemma ConnectOtherKeeps(g0: Graph, g: Graph, g2: Graph, linked: set<Vector>, w: Weight, n: Vector, visited: set<Vector>, pt: Vector, ks: seq<Vector>)
    requires ConnectedSoFar(g0, g, linked, w, n, visited) && GraphOk(g0) && WeightOk(w)
    requires pt in g0 && pt in linked
    requires var h := Put(Put(g, pt, n, w(pt, n)), n, pt, w(pt, n));
      && (forall q :: q in ks <==> q in h[pt])
      && RelayedThrough(h, g2, n, pt, w(pt, n), ks)
    ensures ConnectedSoFar(g0, g2, linked, w, n, visited + {pt})
  {
    ConnectOtherFrame(g0, g, g2, n, pt, w(pt, n));
    ConnectOtherRow(g0, g, g2, linked, w, n, visited, pt, ks);
    ConnectOtherDirect(g0, g, g2, linked, w, n, visited, pt, ks);
    ConnectOtherRelay(g0, g, g2, linked, w, n, visited, pt, ks);
    ConnectOtherSound(g0, g, g2, linked, w, n, visited, pt, ks);
  }

  /** Row n stays sound: a relayed entry is the route through pt, the direct
      entry is the route through pt to pt itself, any other is as before. */
  lemma ConnectOtherSound(g0: Graph, g: Graph, g2: Graph, linked: set<Vector>, w: Weight, n: Vector, visited: set<Vector>, pt: Vector, ks: seq<Vector>)
    requires n !in g0 && pt in g0 && pt in linked && n in g && pt in g
    requires pt in g0[pt] && g0[pt][pt] == 0.0
    requires OnlyRowN(g0[n := map[]], g, n)
    requires RowSound(g0, g[n], linked, w, n, visited)
    requires var h := Put(Put(g, pt, n, w(pt, n)), n, pt, w(pt, n));
      && (forall q :: q in ks <==> q in h[pt])
      && RelayedThrough(h, g2, n, pt, w(pt, n), ks)
    ensures RowSound(g0, g2[n], linked, w, n, visited + {pt})
  {
    var d := w(pt, n);
    var h := Put(Put(g, pt, n, d), n, pt, d);
    assert h[n] == g[n][pt := d] && h[pt] == g[pt][n := d];
    forall q | q in g2[n] && q != n
      ensures exists pt' :: pt' in visited + {pt} && pt' in linked && pt' in g0 && q in g0[pt'] && g2[n][q] == w(pt', n) + g0[pt'][q]
    {
      var v := g2[n][q];
      if q in ks && v == d + h[pt][q] {
        assert q in g[pt] && h[pt][q] == g[pt][q] == g0[pt][q];
      } else {
        assert q in h[n] && v == h[n][q] && q != pt;
        var pt' :| pt' in visited && pt' in linked && pt' in g0 && q in g0[pt'] && g[n][q] == w(pt', n) + g0[pt'][q];
      }
    }
  }

  lemma ConnectOtherFrame(g0: Graph, g: Graph, g2: Graph, n: Vector, pt: Vector, dist: real)
    requires n in g && pt in g && 0.0 <= dist
    requires g.Keys == g0.Keys + {n} && OnlyRowN(g0[n := map[]], g, n)
    requires OnlyRowN(Put(Put(g, pt, n, dist), n, pt, dist), g2, n)
    ensures g2.Keys == g0.Keys + {n}
    ensures OnlyRowN(g0[n := map[]], g2, n)
  {
    var h := Put(Put(g, pt, n, dist), n, pt, dist);
    OnlyRowNPut(g0[n := map[]], g, n, pt, n, dist);
    OnlyRowNTrans(g0[n := map[]], h, g2, n);
  }

  /** The two writes between pt and n change only entries of n. */
  lemma OnlyRowNPut(g0: Graph, g: Graph, n: Vector, a: Vector, b: Vector, dist: real)
    requires a in g && b in g && (a == n || b == n) && 0.0 <= dist
    requires OnlyRowN(g0, g, n)
    ensures OnlyRowN(g0, Put(Put(g, a, b, dist), b, a, dist), n)
  {
    var h := Put(Put(g, a, b, dist), b, a, dist);
    PutBoth(g, a, b, dist);
    forall p, q | p in h && p != n && q != n
      ensures (q in h[p] <==> q in g[p]) && (q in h[p] ==> h[p][q] == g[p][q])
    {
    }
  }

  lemma OnlyRowNTrans(g0: Graph, g1: Graph, g2: Graph, n: Vector)
    requires OnlyRowN(g0, g1, n) && OnlyRowN(g1, g2, n)
    ensures OnlyRowN(g0, g2, n)
  {
    forall p, q | p in g2 && p != n && q != n
      ensures (q in g2[p] <==> q in g0[p]) && (q in g2[p] ==> g2[p][q] == g0[p][q])
    {
      assert q in g2[p] <==> q in g1[p];
    }
  }

  lemma ConnectOtherRow(g0: Graph, g: Graph, g2: Graph, linked: set<Vector>, w: Weight, n: Vector, visited: set<Vector>, pt: Vector, ks: seq<Vector>)
    requires n !in g0 && n in g && pt in g0 && pt in linked && pt in g0[pt] && 0.0 <= w(pt, n)
    requires OnlyRowN(g0[n := map[]], g, n) && g.Keys == g0.Keys + {n}
    requires forall q | q != n :: q in g[n] <==> q in Reach(g0, linked, visited)
    requires n in visited ==> n in g[n] && g[n][n] == 0.0
    requires var h := Put(Put(g, pt, n, w(pt, n)), n, pt, w(pt, n));
      && (forall q :: q in ks <==> q in h[pt])
      && RelayedThrough(h, g2, n, pt, w(pt, n), ks)
    ensures forall q | q != n :: q in g2[n] <==> q in Reach(g0, linked, visited + {pt})
    ensures n in visited + {pt} ==> n in g2[n] && g2[n][n] == 0.0
  {
    var dist := w(pt, n);
    var h := Put(Put(g, pt, n, dist), n, pt, dist);
    PutBoth(g, pt, n, dist);
    ReachAdd(g0, linked, visited, pt);
    forall q | q != n
      ensures q in g2[n] <==> q in Reach(g0, linked, visited + {pt})
    {
      assert q in g2[n] <==> q in h[n] || q in h[pt];
      assert q in h[pt] <==> q in g[pt] || q == n;
      assert q in g[pt] <==> q in g0[pt];
      assert q in h[n] <==> q in g[n] || q == pt;
    }
    if n in visited + {pt} {
      assert n in visited;
      assert h[n][n] == g[n][n];
    }
  }

  lemma ConnectOtherDirect(g0: Graph, g: Graph, g2: Graph, linked: set<Vector>, w: Weight, n: Vector, visited: set<Vector>, pt: Vector, ks: seq<Vector>)
    requires n !in g0 && pt in g0 && pt in linked && n in g && pt in g
    requires forall pt' | pt' in visited && pt' in g0 && pt' in linked :: pt' in g[n] && g[n][pt'] <= w(pt', n)
    requires var h := Put(Put(g, pt, n, w(pt, n)), n, pt, w(pt, n));
      && (forall q :: q in ks <==> q in h[pt])
      && RelayedThrough(h, g2, n, pt, w(pt, n), ks)
    ensures forall pt' | pt' in visited + {pt} && pt' in g0 && pt' in linked :: pt' in g2[n] && g2[n][pt'] <= w(pt', n)
  {
    var dist := w(pt, n);
    var h := Put(Put(g, pt, n, dist), n, pt, dist);
    assert h[n] == g[n][pt := dist] && h[pt] == g[pt][n := dist];
    forall pt' | pt' in visited + {pt} && pt' in g0 && pt' in linked
      ensures pt' in g2[n] && g2[n][pt'] <= w(pt', n)
    {
      if pt' != pt {
        assert pt' in visited;
        assert h[n][pt'] == g[n][pt'];
      }
    }
  }

  lemma ConnectOtherRelay(g0: Graph, g: Graph, g2: Graph, linked: set<Vector>, w: Weight, n: Vector, visited: set<Vector>, pt: Vector, ks: seq<Vector>)
    requires n !in g0 && Closed(g0) && pt in g0 && pt in linked && n in g && pt in g
    requires forall q | q in g0[pt] :: q in g[pt] && g[pt][q] == g0[pt][q]
    requires RelayBound(g0, g, linked, w, n, visited)
    requires var h := Put(Put(g, pt, n, w(pt, n)), n, pt, w(pt, n));
      && (forall q :: q in ks <==> q in h[pt])
      && RelayedThrough(h, g2, n, pt, w(pt, n), ks)
    ensures RelayBound(g0, g2, linked, w, n, visited + {pt})
  {
    var dist := w(pt, n);
    var h := Put(Put(g, pt, n, dist), n, pt, dist);
    assert h[n] == g[n][pt := dist] && h[pt] == g[pt][n := dist];
    forall pt', q | pt' in visited + {pt} && pt' in g0 && pt' in linked && q in g0[pt'] && q !in linked
      ensures q in g2[n] && g2[n][q] <= w(pt', n) + g0[pt'][q]
    {
      assert q != pt && q != n;
      if pt' == pt {
        assert q in g[pt] && h[pt][q] == g[pt][q];
        assert q in ks;
      } else {
        assert pt' in visited;
        assert h[n][q] == g[n][q];
      }
    }
  }

  // ---------------------------------------------------------------------
  // Second phase: relaxing every pair of n's entries through n

  /** Row pt of the second phase after the entries `done` of n have been
      offered to it: those hold the relaxed value, the others the old one. */
  ghost predicate RowSoFar(g1: Graph, row: map<Vector, real>, n: Vector, pt: Vector, done: set<Vector>)
    requires GraphOk(g1) && n in g1 && pt in g1[n]
  {
    && (forall q | q in done :: q in g1[n])
    && (forall q :: q in row <==> q in g1[pt] || q in done)
    && (forall q | q in row :: row[q] == if q in done then Row(g1, n, pt)[q] else g1[pt][q])
  }

  /** The rows `rowsDone` are relaxed and every other row is the old one. */
  ghost predicate RowsRelayed(g1: Graph, g: Graph, n: Vector, rowsDone: set<Vector>)
    requires GraphOk(g1) && n in g1
  {
    && g.Keys == g1.Keys
    && forall p | p in g :: g[p] == if p in rowsDone then ThroughNew(g1, n)[p] else g1[p]
  }

  /** The rows other than pt are as RowsRelayed says. */
  ghost predicate OtherRows(g1: Graph, g: Graph, n: Vector, pt: Vector, rowsDone: set<Vector>)
    requires GraphOk(g1) && n in g1
  {
    && g.Keys == g1.Keys
    && forall p | p in g && p != pt :: g[p] == if p in rowsDone then ThroughNew(g1, n)[p] else g1[p]
  }

  lemma RowBegin(g1: Graph, g: Graph, n: Vector, pt: Vector, rowsDone: set<Vector>)
    requires GraphOk(g1) && n in g1 && pt in g1[n] && pt !in rowsDone
    requires RowsRelayed(g1, g, n, rowsDone)
    ensures OtherRows(g1, g, n, pt, rowsDone)
    ensures pt in g && RowSoFar(g1, g[pt], n, pt, {})
  {
  }

  /** The two entries the second phase reads, g[pt][n] and g[n][pt2], keep
      their old values throughout: relaxing through n leaves them alone. */
  lemma RelayReads(g1: Graph, g: Graph, n: Vector, pt: Vector, rowsDone: set<Vector>, done: set<Vector>, pt2: Vector)
    requires GraphOk(g1) && n in g1 && pt in g1[n] && pt2 in g1[n]
    requires OtherRows(g1, g, n, pt, rowsDone) && pt in g && RowSoFar(g1, g[pt], n, pt, done)
    ensures n in g[pt] && g[pt][n] == g1[pt][n]
    ensures pt2 in g[n] && g[n][pt2] == g1[n][pt2]
  {
    RowKeepsN(g1, g[pt], n, pt, done);
    if pt == n {
      RowNKeeps(g1, g[n], n, done, pt2);
    } else {
      ThroughNewKeepsN(g1, n);
      if n in rowsDone {
        assert g[n] == ThroughNew(g1, n)[n];
      } else {
        assert g[n] == g1[n];
      }
    }
  }

  /** Entry n of a row being relaxed does not move. */
  lemma RowKeepsN(g1: Graph, row: map<Vector, real>, n: Vector, pt: Vector, done: set<Vector>)
    requires GraphOk(g1) && n in g1 && pt in g1[n]
    requires RowSoFar(g1, row, n, pt, done)
    ensures n in row && row[n] == g1[pt][n]
  {
    assert n in g1[pt] && n in g1[n];
  }

  /** Row n itself does not move while it is relaxed through n. */
  lemma RowNKeeps(g1: Graph, row: map<Vector, real>, n: Vector, done: set<Vector>, q: Vector)
    requires GraphOk(g1) && n in g1 && n in g1[n] && q in g1[n]
    requires RowSoFar(g1, row, n, n, done)
    ensures q in row && row[q] == g1[n][q]
  {
  }

  /** A pass of the inner loop that writes the route pt -> n -> pt2. */
  lemma RowStepWrite(g1: Graph, row: map<Vector, real>, n: Vector, pt: Vector, done: set<Vector>, pt2: Vector, dist: real)
    requires GraphOk(g1) && n in g1 && pt in g1[n] && pt2 in g1[n] && pt2 !in done
    requires RowSoFar(g1, row, n, pt, done)
    requires dist == g1[pt][n] + g1[n][pt2] && (pt2 in row ==> dist < row[pt2])
    ensures RowSoFar(g1, row[pt2 := dist], n, pt, done + {pt2})
  {
  }

  /** A write into row pt leaves the other rows as they were. */
  lemma OtherRowsPut(g1: Graph, g: Graph, n: Vector, pt: Vector, rowsDone: set<Vector>, pt2: Vector, dist: real)
    requires GraphOk(g1) && n in g1 && pt in g
    requires OtherRows(g1, g, n, pt, rowsDone)
    ensures OtherRows(g1, Put(g, pt, pt2, dist), n, pt, rowsDone)
    ensures pt in Put(g, pt, pt2, dist) && Put(g, pt, pt2, dist)[pt] == g[pt][pt2 := dist]
  {
  }

  /** A pass of the inner loop that keeps the entry. */
  lemma RowStepKeep(g1: Graph, row: map<Vector, real>, n: Vector, pt: Vector, done: set<Vector>, pt2: Vector, dist: real)
    requires GraphOk(g1) && n in g1 && pt in g1[n] && pt2 in g1[n] && pt2 !in done
    requires RowSoFar(g1, row, n, pt, done)
    requires dist == g1[pt][n] + g1[n][pt2] && pt2 in row && !(dist < row[pt2])
    ensures RowSoFar(g1, row, n, pt, done + {pt2})
  {
  }

  lemma RowEnd(g1: Graph, g: Graph, n: Vector, pt: Vector, rowsDone: set<Vector>)
    requires GraphOk(g1) && n in g1 && pt in g1[n]
    requires OtherRows(g1, g, n, pt, rowsDone) && pt in g && RowSoFar(g1, g[pt], n, pt, g1[n].Keys)
    ensures RowsRelayed(g1, g, n, rowsDone + {pt})
  {
    RowComplete(g1, g[pt], n, pt);
    assert ThroughNew(g1, n)[pt] == Row(g1, n, pt);
    forall p | p in g
      ensures g[p] == if p in rowsDone + {pt} then ThroughNew(g1, n)[p] else g1[p]
    {
      if p != pt {
        assert g[p] == if p in rowsDone then ThroughNew(g1, n)[p] else g1[p];
      }
    }
  }

  /** A row that every entry of n has been offered is the relaxed row. */
  lemma RowComplete(g1: Graph, row: map<Vector, real>, n: Vector, pt: Vector)
    requires GraphOk(g1) && n in g1 && pt in g1[n]
    requires RowSoFar(g1, row, n, pt, g1[n].Keys)
    ensures row == Row(g1, n, pt)
  {
  }

  lemma RowsStart(g1: Graph, n: Vector)
    requires GraphOk(g1) && n in g1
    ensures RowsRelayed(g1, g1, n, {})
  {
  }

  lemma RowsEnd(g1: Graph, g: Graph, n: Vector)
    requires GraphOk(g1) && n in g1
    requires RowsRelayed(g1, g, n, g1[n].Keys)
    ensures g == ThroughNew(g1, n)
  {
    ThroughNewKeepsN(g1, n);
    RowsAgree(g1, g, n);
  }

  lemma RowsAgree(g1: Graph, g: Graph, n: Vector)
    requires GraphOk(g1) && n in g1
    requires RowsRelayed(g1, g, n, g1[n].Keys)
    ensures forall p | p in g :: g[p] == ThroughNew(g1, n)[p]
  {
    ThroughNewNoRaise(g1, n);
    forall p | p in g
      ensures g[p] == ThroughNew(g1, n)[p]
    {
      if p in g1[n] {
        assert g[p] == ThroughNew(g1, n)[p];
      } else {
        assert g[p] == g1[p];
      }
    }
  }

  // ---------------------------------------------------------------------
  // A whole insertion

  /** No entry of g0 has been removed from g or raised in it. */
  ghost predicate NoRaise(g0: Graph, g: Graph) {
    forall p, q | p in g0 && q in g0[p] :: p in g && q in g[p] && g[p][q] <= g0[p][q]
  }

  lemma NoRaiseTrans(g0: Graph, g1: Graph, g2: Graph)
    requires NoRaise(g0, g1) && NoRaise(g1, g2)
    ensures NoRaise(g0, g2)
  {
    forall p, q | p in g0 && q in g0[p]
      ensures p in g2 && q in g2[p] && g2[p][q] <= g0[p][q]
    {
      assert p in g1 && q in g1[p];
    }
  }

  /** What inserting n into g0 promises of the final table g: the table
      invariant, one new key, no old entry removed or raised; every other
      entry away from n an old entry at its old value or the route through
      n; row n holding exactly n and what the linked points reach, each entry
      the route through some linked point, each linked point no further than
      its weight and a point reached only through a linked point no further
      than the route through it; every pair of n's entries no further apart
      than the route through n; and the closure kept transitive. */
  ghost predicate Inserted(g0: Graph, g: Graph, linked: set<Vector>, w: Weight, n: Vector) {
    && n !in g0 && GraphOk(g) && g.Keys == g0.Keys + {n}
    && NoRaise(g0, g)
    && Kept(g0, g, n)
    && RowN(g0, g, linked, w, n)
    && (Transitive(g0) ==> Transitive(g))
  }

  /** Row n of the finished table: exactly n and what the linked points
      reach, each entry a route through some linked point, each linked point
      no further than its weight, a point reached only through a linked point
      no further than the route through it, and every pair of n's entries no
      further apart than the route through n. */
  ghost predicate RowN(g0: Graph, g: Graph, linked: set<Vector>, w: Weight, n: Vector)
    requires GraphOk(g) && n in g
  {
    && (forall q | q != n :: q in g[n] <==> q in Reach(g0, linked, g0.Keys))
    && RowSound(g0, g[n], linked, w, n, g0.Keys)
    && DirectBounds(g0, g[n], linked, w, n)
    && RelayBounds(g0, g[n], linked, w, n)
    && (forall p, q | p in g[n] && q in g[n] :: p in g && q in g[p] && g[p][q] <= g[p][n] + g[n][q])
  }

  /** Each linked point is in `row` no further than its weight. */
  ghost predicate DirectBounds(g0: Graph, row: map<Vector, real>, linked: set<Vector>, w: Weight, n: Vector) {
    forall pt | pt in linked && pt in g0 :: pt in row && row[pt] <= w(pt, n)
  }

  /** A point reached through a linked point pt, and not linked itself, is in
      `row` no further than the route through pt. */
  ghost predicate RelayBounds(g0: Graph, row: map<Vector, real>, linked: set<Vector>, w: Weight, n: Vector) {
    forall pt, q | pt in linked && pt in g0 && q in g0[pt] && q !in linked ::
      q in row && row[q] <= w(pt, n) + g0[pt][q]
  }

  /** Every entry of g between two points other than n is g0's entry at its
      old value or the route through n. */
  ghost predicate Kept(g0: Graph, g: Graph, n: Vector)
    requires n in g
  {
    forall p, q | p in g && q in g[p] && p != n && q != n ::
      || (p in g0 && q in g0[p] && g[p][q] == g0[p][q])
      || (n in g[p] && q in g[n] && g[p][q] == g[p][n] + g[n][q])
  }

  /** The first phase, once every point has been tried, leaves the table
      invariant intact: n is at distance zero from itself. */
  lemma ConnectedOk(g0: Graph, g1: Graph, linked: set<Vector>, w: Weight, n: Vector, visited: set<Vector>)
    requires GraphOk(g0) && ConnectedSoFar(g0, g1, linked, w, n, visited) && n in visited
    ensures GraphOk(g1)
  {
    forall p | p in g1
      ensures p in g1[p] && g1[p][p] == 0.0
    {
      if p != n {
        assert p in g0 && p in g0[p];
      }
    }
  }

  /** The two phases together: the first leaves g1, the second relaxes
      every pair of n's entries through n. */
  lemma InsertionDone(g0: Graph, g1: Graph, linked: set<Vector>, w: Weight, n: Vector, visited: set<Vector>)
    requires GraphOk(g0) && ConnectedSoFar(g0, g1, linked, w, n, visited) && visited == g0.Keys + {n}
    ensures GraphOk(g1) && Inserted(g0, ThroughNew(g1, n), linked, w, n)
  {
    ConnectedOk(g0, g1, linked, w, n, visited);
    ThroughNewOk(g1, n);
    ThroughNewKeepsN(g1, n);
    InsertionNoRaise(g0, g1, n);
    InsertionKept(g0, g1, n);
    InsertionRowN(g0, g1, linked, w, n, visited);
    if Transitive(g0) {
      TransitiveKept(g0, g1, linked, n, visited);
    }
  }

  lemma InsertionNoRaise(g0: Graph, g1: Graph, n: Vector)
    requires Closed(g0) && GraphOk(g1) && n in g1 && n !in g0 && g1.Keys == g0.Keys + {n}
    requires OnlyRowN(g0[n := map[]], g1, n)
    ensures NoRaise(g0, ThroughNew(g1, n))
  {
    assert NoRaise(g0, g1) by {
      forall p, q | p in g0 && q in g0[p]
        ensures p in g1 && q in g1[p] && g1[p][q] <= g0[p][q]
      {
        assert p != n && q != n;
      }
    }
    ThroughNewNoRaise(g1, n);
    NoRaiseTrans(g0, g1, ThroughNew(g1, n));
  }

  /** Row n after both phases: the first phase filled it and the second
      leaves it alone. */
  lemma InsertionRowN(g0: Graph, g1: Graph, linked: set<Vector>, w: Weight, n: Vector, visited: set<Vector>)
    requires GraphOk(g1) && n in g1 && n !in g0 && visited == g0.Keys + {n}
    requires GraphOk(ThroughNew(g1, n))
    requires forall q | q != n :: q in g1[n] <==> q in Reach(g0, linked, visited)
    requires RowSound(g0, g1[n], linked, w, n, visited)
    requires forall pt | pt in visited && pt in g0 && pt in linked :: pt in g1[n] && g1[n][pt] <= w(pt, n)
    requires RelayBound(g0, g1, linked, w, n, visited)
    ensures RowN(g0, ThroughNew(g1, n), linked, w, n)
  {
    var g := ThroughNew(g1, n);
    ThroughNewRowN(g1, n);
    ThroughNewRelayBound(g1, n);
    RowNReach(g0, g1[n], linked, n, visited);
    RowSoundOld(g0, g1[n], linked, w, n, visited);
    RowSoundSame(g0, g1[n], g[n], linked, w, n);
    RowNBounds(g0, g1, g[n], linked, w, n, visited);
  }

  lemma RowSoundSame(g0: Graph, row: map<Vector, real>, row': map<Vector, real>, linked: set<Vector>, w: Weight, n: Vector)
    requires RowSound(g0, row, linked, w, n, g0.Keys)
    requires (forall q :: q in row' <==> q in row) && forall q | q in row :: row'[q] == row[q]
    ensures RowSound(g0, row', linked, w, n, g0.Keys)
  {
    assert row' == row;
  }

  /** Trying n itself adds nothing to what n reaches. */
  lemma RowNReach(g0: Graph, row: map<Vector, real>, linked: set<Vector>, n: Vector, visited: set<Vector>)
    requires n !in g0 && visited == g0.Keys + {n}
    requires forall q | q != n :: q in row <==> q in Reach(g0, linked, visited)
    ensures forall q | q != n :: q in row <==> q in Reach(g0, linked, g0.Keys)
  {
    ReachAdd(g0, linked, g0.Keys, n);
  }

  /** The bounds on row n carry over to a row with the same entries. */
  lemma RowNBounds(g0: Graph, g1: Graph, row: map<Vector, real>, linked: set<Vector>, w: Weight, n: Vector, visited: set<Vector>)
    requires n in g1 && visited == g0.Keys + {n}
    requires forall q | q in g1[n] :: q in row && row[q] == g1[n][q]
    requires forall pt | pt in visited && pt in g0 && pt in linked :: pt in g1[n] && g1[n][pt] <= w(pt, n)
    requires RelayBound(g0, g1, linked, w, n, visited)
    ensures DirectBounds(g0, row, linked, w, n)
    ensures RelayBounds(g0, row, linked, w, n)
  {
    forall pt, q | pt in linked && pt in g0 && q in g0[pt] && q !in linked
      ensures q in row && row[q] <= w(pt, n) + g0[pt][q]
    {
      assert pt in visited;
    }
  }

  /** Entries away from n are old ones, kept by the first phase, or routes
      through n written by the second. */
  lemma InsertionKept(g0: Graph, g1: Graph, n: Vector)
    requires GraphOk(g1) && n in g1 && n !in g0 && g1.Keys == g0.Keys + {n}
    requires OnlyRowN(g0[n := map[]], g1, n)
    ensures Kept(g0, ThroughNew(g1, n), n)
  {
    var r := ThroughNew(g1, n);
    ThroughNewSound(g1, n);
    ThroughNewKeepsN(g1, n);
    ThroughNewNoRaise(g1, n);
    forall p, q | p in r && q in r[p] && p != n && q != n
      ensures || (p in g0 && q in g0[p] && r[p][q] == g0[p][q])
              || (n in r[p] && q in r[n] && r[p][q] == r[p][n] + r[n][q])
    {
      if q in g1[p] && r[p][q] == g1[p][q] {
        assert p in g0 && q in g0[p] && g1[p][q] == g0[p][q];
      } else {
        assert p in g1[n] && q in g1[n] && r[p][q] == g1[p][n] + g1[n][q];
        assert n in g1[p];
      }
    }
  }

  /** The witnesses of a sound row are old points. */
  lemma RowSoundOld(g0: Graph, row: map<Vector, real>, linked: set<Vector>, w: Weight, n: Vector, visited: set<Vector>)
    requires RowSound(g0, row, linked, w, n, visited)
    ensures RowSound(g0, row, linked, w, n, g0.Keys)
  {
    forall q | q in row && q != n
      ensures exists pt :: pt in g0.Keys && pt in linked && pt in g0 && q in g0[pt] && row[q] == w(pt, n) + g0[pt][q]
    {
      var pt :| pt in visited && pt in linked && pt in g0 && q in g0[pt] && row[q] == w(pt, n) + g0[pt][q];
      assert pt in g0.Keys;
    }
  }

  /** Relaxing through n after the first phase keeps the closure transitive:
      a point n reaches and a point it does not are never joined through an
      old entry, as an old entry of a reached point only leads to reached
      points. */
  lemma TransitiveKept(g0: Graph, g1: Graph, linked: set<Vector>, n: Vector, visited: set<Vector>)
    requires GraphOk(g0) && Transitive(g0) && GraphOk(g1)
    requires n !in g0 && n in g1 && g1.Keys == g0.Keys + {n}
    requires OnlyRowN(g0[n := map[]], g1, n)
    requires forall q | q != n :: q in g1[n] <==> q in Reach(g0, linked, visited)
    ensures Transitive(ThroughNew(g1, n))
  {
    ReachClosed(g0, g1, linked, n, visited);
    ThroughNewRows(g1, n);
    forall p, q | p in g1 && p != n && q != n
      ensures q in g1[p] <==> q in g0[p]
    {
    }
    TransitiveRows(g0, g1, ThroughNew(g1, n), n);
  }

  /** The shape of the relaxed table, as TransitiveKept uses it: a row n
      reaches gains all of row n, and the others stay as they were. */
  lemma TransitiveRows(g0: Graph, g1: Graph, r: Graph, n: Vector)
    requires Closed(g0) && Symmetric(g0) && Transitive(g0) && n !in g0
    requires r.Keys == g1.Keys && g1.Keys == g0.Keys + {n} && n in g1[n]
    requires forall p | p in g1 && n in g1[p] :: p in g1[n]
    requires forall p, q | p in g1 && p != n && q != n :: q in g1[p] <==> q in g0[p]
    requires forall q, x | q in g1[n] && q in g0 && x in g0[q] :: x in g1[n]
    requires forall p | p in r && p in g1[n] :: r[p].Keys == g1[p].Keys + g1[n].Keys
    requires forall p | p in r && p !in g1[n] :: r[p] == g1[p]
    ensures Transitive(r)
  {
    var reached := g1[n];
    UnreachedRows(g0, g1, r, n);
    forall p, q | p in r && q in r[p] && p in reached
      ensures q in reached
    {
      assert q in g1[p] || q in reached;
    }
    forall p, q | p in r && q in r[p] && p !in reached
      ensures q !in reached
    {
      assert q in g0[p] && p in g0[q];
    }
    forall p, q, x | p in r && q in r[p] && q in r && x in r[q] && p !in reached
      ensures x in r[p]
    {
      assert q in g0[p] && x in g0[q];
    }
  }

  /** A row n does not reach has the old row's keys. */
  lemma UnreachedRows(g0: Graph, g1: Graph, r: Graph, n: Vector)
    requires Closed(g0) && n !in g0
    requires r.Keys == g1.Keys && g1.Keys == g0.Keys + {n} && n in g1[n]
    requires forall p, q | p in g1 && p != n && q != n :: q in g1[p] <==> q in g0[p]
    requires forall p | p in g1 && n in g1[p] :: p in g1[n]
    requires forall p | p in r && p !in g1[n] :: r[p] == g1[p]
    ensures forall p | p in r && p !in g1[n] :: p in g0 && r[p].Keys == g0[p].Keys
  {
    forall p | p in r && p !in g1[n]
      ensures p in g0 && r[p].Keys == g0[p].Keys
    {
      forall q ensures q in r[p] <==> q in g0[p] {
        assert q in g0[p] ==> q != n;
      }
    }
  }

  /** Row n after the first phase is closed under the old entries: an old
      entry of a point n reaches leads to a point n reaches. */
  lemma ReachClosed(g0: Graph, g1: Graph, linked: set<Vector>, n: Vector, visited: set<Vector>)
    requires Closed(g0) && Transitive(g0) && n !in g0 && n in g1
    requires forall q | q != n :: q in g1[n] <==> q in Reach(g0, linked, visited)
    ensures forall q, x | q in g1[n] && q in g0 && x in g0[q] :: x in g1[n]
  {
    forall q, x | q in g1[n] && q in g0 && x in g0[q]
      ensures x in g1[n]
    {
      var pt :| pt in visited && pt in linked && pt in g0 && q in g0[pt];
      assert x != n;
    }
  }
}
