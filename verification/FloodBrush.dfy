/** plugins/liquids.cpp: the brush that collects a body of water from the cursor. */
module FloodBrush {
  import opened MapModel
  import opened Reachability

  ghost predicate IsWater(m: MapCache, c: Coord)
    reads m
  {
    m.DesignationAt(c).flowSize > 0 && m.DesignationAt(c).water
  }

  /** The six places the brush looks at from c, in its order. */
  function Candidates(m: MapCache, c: Coord): seq<Coord> {
    [c.Plus(-1, 0, 0), c.Plus(1, 0, 0), c.Plus(0, -1, 0), c.Plus(0, 1, 0)]
    + (if m.TiletypeAt(c).lowPassable then [c.Plus(0, 0, -1)] else [])
    + (if m.TiletypeAt(c).highPassable then [c.Plus(0, 0, 1)] else [])
  }

  ghost function WaterGraph(m: MapCache): Graph<Coord>
    reads m
  {
    var water := set c | c in m.tiles && IsWater(m, c);
    Graph(c => c in water, c => set n | n in Candidates(m, c) && n in m.tiles)
  }

  /** Pushes the candidates that pass testCoord. */
  method MaybeFlood(m: MapCache, candidates: seq<Coord>, toFlood: seq<Coord>) returns (pushed: seq<Coord>)
    ensures toFlood <= pushed
    ensures forall n :: n in pushed[|toFlood|..] <==> n in candidates && m.TestCoord(n)
  {
    pushed := toFlood;
    for i := 0 to |candidates|
      invariant toFlood <= pushed
      invariant forall n :: n in pushed[|toFlood|..] <==> n in candidates[..i] && m.TestCoord(n)
    {
      assert candidates[..i + 1] == candidates[..i] + [candidates[i]];
      if m.TestCoord(candidates[i]) {
        assert (pushed + [candidates[i]])[|toFlood|..] == pushed[|toFlood|..] + [candidates[i]];
        pushed := pushed + [candidates[i]];
      }
    }
    assert candidates[..|candidates|] == candidates;
  }

  /** The brush goes from d to n: straight beside it, or straight below or above where the tile lets it. */
  ghost predicate Touches(m: MapCache, d: Coord, n: Coord) {
    || FourNeighbours(d, n)
    || (n == Coord(d.x, d.y, d.z - 1) && m.TiletypeAt(d).lowPassable)
    || (n == Coord(d.x, d.y, d.z + 1) && m.TiletypeAt(d).highPassable)
  }

  lemma CandidatesTouch(m: MapCache, d: Coord, n: Coord)
    ensures n in Candidates(m, d) <==> Touches(m, d, n)
  {
  }

  /** A tile is collected just when it holds water and is the start or touches a collected one. */
  lemma BodyIs(m: MapCache, start: Coord, c: Coord)
    requires m.Valid()
    ensures var g := WaterGraph(m);
      Reachable(g, start, c) <==>
        && c in m.tiles && m.DesignationAt(c).flowSize > 0 && m.DesignationAt(c).water
        && (c == start || exists d :: Reachable(g, start, d) && Touches(m, d, c))
  {
    hide Candidates, Touches, Reachable;
    LastStep(WaterGraph(m), start, c);
    forall d ensures c in Candidates(m, d) <==> Touches(m, d, c) {
      CandidatesTouch(m, d, c);
    }
  }

  /** Every water tile reachable from the start, each exactly once, and nothing else. */
  method Points(m: MapCache, start: Coord) returns (v: seq<Coord>)
    requires m.Valid()
    ensures forall i, j | 0 <= i < j < |v| :: v[i] != v[j]
    ensures forall c :: c in v <==> Reachable(WaterGraph(m), start, c)
    ensures forall c :: c in v <==>
      && c in m.tiles && m.designations[c].flowSize > 0 && m.designations[c].water
      && (c == start || exists d :: d in v && Touches(m, d, c))
  {
    hide Candidates, Flooding, Touches;
    ghost var g := WaterGraph(m);
    v := [];
    var seen: set<Coord> := {};
    var toFlood := [start];
    FloodStart(g, start);
    while toFlood != []
      invariant seen <= m.tiles.Keys
      invariant forall c :: c in v <==> c in seen
      invariant forall i, j | 0 <= i < j < |v| :: v[i] != v[j]
      invariant Flooding(g, start, seen, toFlood)
      decreases m.tiles.Keys - seen, |toFlood|
    {
      var xy := toFlood[|toFlood| - 1];
      assert toFlood == toFlood[..|toFlood| - 1] + [xy];
      toFlood := toFlood[..|toFlood| - 1];
      var des := m.DesignationAt(xy);
      if xy !in seen && des.flowSize > 0 && des.water {
        v := v + [xy];
        ghost var rest := toFlood;
        toFlood := MaybeFlood(m, Candidates(m, xy), toFlood);
        assert toFlood == rest + toFlood[|rest|..];
        FloodMark(g, start, seen, rest, xy, toFlood[|rest|..]);
        seen := seen + {xy};
      } else {
        FloodSkip(g, start, seen, toFlood, xy);
      }
    }
    FloodDone(g, start, seen);
    forall c {
      BodyIs(m, start, c);
    }
  }
}
