/** plugins/filltraffic.cpp: the traffic flood fill. */
module FillTraffic {
  import opened MapModel
  import opened Reachability

  datatype Options = Options(target: nat, updown: bool, checkPit: bool, checkBuilding: bool)

  datatype Outcome = Filled | AlreadySet | IsWall | IsHole | HasBuilding

  /** The tiles the fill pushes from c, in its order. */
  function Neighbours(m: MapCache, o: Options, c: Coord): seq<Coord> {
    var tt := m.TiletypeAt(c);
    (if c.x > 0 then [c.Plus(-1, 0, 0)] else [])
    + (if c.x < 16 * m.xMax - 1 then [c.Plus(1, 0, 0)] else [])
    + (if c.y > 0 then [c.Plus(0, -1, 0)] else [])
    + (if c.y < 16 * m.yMax - 1 then [c.Plus(0, 1, 0)] else [])
    + (if o.updown && c.z > 0 && tt.lowPassable then [c.Plus(0, 0, -1)] else [])
    + (if o.updown && c.z < m.zMax && tt.highPassable then [c.Plus(0, 0, 1)] else [])
  }

  predicate Passable(m: MapCache, o: Options, c: Coord) {
    && !m.TiletypeAt(c).isWall
    && !(o.checkPit && m.TiletypeAt(c).isOpen)
    && !(o.checkBuilding && c in m.buildings)
  }

  /** The graph the fill explores: passable valid tiles whose traffic was the source's. */
  ghost function FillGraph(m: MapCache, o: Options, before: map<Coord, Designation>, source: nat): Graph<Coord> {
    Graph(c => c in m.tiles && c in before && before[c].traffic == source && Passable(m, o, c),
          c => set n | n in Neighbours(m, o, c))
  }

  /** The fill goes from d to n: straight beside it, or with X straight below or above where the tile lets it. */
  ghost predicate Borders(m: MapCache, o: Options, d: Coord, n: Coord) {
    || FourNeighbours(d, n)
    || (o.updown && n == Coord(d.x, d.y, d.z - 1) && m.TiletypeAt(d).lowPassable)
    || (o.updown && n == Coord(d.x, d.y, d.z + 1) && m.TiletypeAt(d).highPassable)
  }

  lemma NeighboursBorder(m: MapCache, o: Options, d: Coord, n: Coord)
    requires m.Valid() && d in m.tiles && n in m.tiles
    ensures n in Neighbours(m, o, d) <==> Borders(m, o, d, n)
  {
  }

  /** A tile is in the region just when it may be filled and is the cursor's or borders on one of the region. */
  lemma RegionIs(m: MapCache, o: Options, before: map<Coord, Designation>, source: nat, cursor: Coord, c: Coord)
    requires m.Valid() && before.Keys == m.tiles.Keys && c in m.tiles
    ensures var g := FillGraph(m, o, before, source);
      Reachable(g, cursor, c) <==>
        && before[c].traffic == source && !m.tiles[c].isWall
        && !(o.checkPit && m.tiles[c].isOpen) && !(o.checkBuilding && c in m.buildings)
        && (c == cursor || exists d :: d in m.tiles && Reachable(g, cursor, d) && Borders(m, o, d, c))
  {
    hide Neighbours, Borders, Reachable;
    var g := FillGraph(m, o, before, source);
    LastStep(g, cursor, c);
    forall d | d in m.tiles ensures c in Neighbours(m, o, d) <==> Borders(m, o, d, c) {
      NeighboursBorder(m, o, d, c);
    }
    forall d | Reachable(g, cursor, d) ensures d in m.tiles {
      LastStep(g, cursor, d);
    }
  }

  ghost predicate Retagged(before: map<Coord, Designation>, after: map<Coord, Designation>, marked: set<Coord>, target: nat) {
    && after.Keys == before.Keys
    && forall c | c in before :: after[c] == if c in marked then before[c].(traffic := target) else before[c]
  }

  lemma NothingRetagged(before: map<Coord, Designation>, target: nat)
    ensures Retagged(before, before, {}, target)
  {
  }

  lemma RetaggedIs(before: map<Coord, Designation>, now: map<Coord, Designation>, marked: set<Coord>, target: nat)
    requires Retagged(before, now, marked, target)
    ensures now.Keys == before.Keys
    ensures forall c | c in before :: now[c] == if c in marked then before[c].(traffic := target) else before[c]
  {
  }

  /** The three tests of the loop pass just for the permitted tiles that were not retagged yet. */
  lemma TestsMatchGraph(m: MapCache, o: Options, before: map<Coord, Designation>, source: nat, marked: set<Coord>, xy: Coord)
    requires m.Valid() && source != o.target && Retagged(before, m.designations, marked, o.target)
    ensures m.DesignationAt(xy).traffic == source && Passable(m, o, xy) && m.TestCoord(xy)
            <==> FillGraph(m, o, before, source).ok(xy) && xy !in marked
  {
    hide Passable;
  }

  lemma NeighboursAreSteps(m: MapCache, o: Options, before: map<Coord, Designation>, source: nat, xy: Coord)
    ensures forall n :: n in Neighbours(m, o, xy) <==> n in FillGraph(m, o, before, source).succ(xy)
  {
    hide Neighbours;
  }

  lemma RetagOne(before: map<Coord, Designation>, now: map<Coord, Designation>, marked: set<Coord>, target: nat, xy: Coord)
    requires Retagged(before, now, marked, target) && xy in now
    ensures Retagged(before, now[xy := now[xy].(traffic := target)], marked + {xy}, target)
  {
  }

  /** Exactly the tiles reachable from the cursor get the target traffic; nothing else changes. A tile is retagged
      just when it may be and is the cursor's or borders on a retagged one. */
  method Fill(m: MapCache, o: Options, cursor: Coord) returns (outcome: Outcome)
    requires m.Valid()
    modifies m`designations
    ensures m.Valid()
    ensures outcome == AlreadySet <==> old(m.DesignationAt(cursor).traffic) == o.target
    ensures outcome == IsWall <==> old(m.DesignationAt(cursor).traffic) != o.target && m.TiletypeAt(cursor).isWall
    ensures outcome == IsHole <==>
      old(m.DesignationAt(cursor).traffic) != o.target && !m.TiletypeAt(cursor).isWall && o.checkPit && m.TiletypeAt(cursor).isOpen
    ensures outcome == HasBuilding <==>
      && old(m.DesignationAt(cursor).traffic) != o.target && !m.TiletypeAt(cursor).isWall
      && !(o.checkPit && m.TiletypeAt(cursor).isOpen) && o.checkBuilding && cursor in m.buildings
    ensures outcome != Filled ==> m.designations == old(m.designations)
    ensures outcome == Filled ==>
      var g := FillGraph(m, o, old(m.designations), old(m.DesignationAt(cursor).traffic));
      forall c | c in m.tiles ::
        m.designations[c] == if Reachable(g, cursor, c) then old(m.designations)[c].(traffic := o.target)
                             else old(m.designations)[c]
    ensures outcome == Filled ==> forall c | c in m.tiles ::
      m.designations[c] != old(m.designations)[c] <==>
        && old(m.designations)[c].traffic == old(m.DesignationAt(cursor).traffic) && !m.tiles[c].isWall
        && !(o.checkPit && m.tiles[c].isOpen) && !(o.checkBuilding && c in m.buildings)
        && (c == cursor || exists d :: d in m.tiles && m.designations[d] != old(m.designations)[d] && Borders(m, o, d, c))
  {
    hide Neighbours, Passable, Flooding, Reachable, FillGraph, Retagged, Borders;
    var source := m.DesignationAt(cursor).traffic;
    if source == o.target {
      return AlreadySet;
    }
    if m.TiletypeAt(cursor).isWall {
      return IsWall;
    }
    if o.checkPit && m.TiletypeAt(cursor).isOpen {
      return IsHole;
    }
    if o.checkBuilding && cursor in m.buildings {
      return HasBuilding;
    }
    outcome := Filled;
    ghost var before := m.designations;
    ghost var g := FillGraph(m, o, before, source);
    ghost var marked: set<Coord> := {};
    NothingRetagged(before, o.target);
    var flood := [cursor];
    FloodStart(g, cursor);
    while flood != []
      invariant m.Valid() && marked <= m.tiles.Keys
      invariant Retagged(before, m.designations, marked, o.target)
      invariant Flooding(g, cursor, marked, flood)
      decreases m.tiles.Keys - marked, |flood|
    {
      var xy := flood[|flood| - 1];
      assert flood == flood[..|flood| - 1] + [xy];
      flood := flood[..|flood| - 1];
      var des := m.DesignationAt(xy);
      TestsMatchGraph(m, o, before, source, marked, xy);
      if des.traffic != source || !Passable(m, o, xy) || !m.TestCoord(xy) {
        FloodSkip(g, cursor, marked, flood, xy);
      } else {
        RetagOne(before, m.designations, marked, o.target, xy);
        NeighboursAreSteps(m, o, before, source, xy);
        var _ := m.SetDesignationAt(xy, des.(traffic := o.target));
        FloodMark(g, cursor, marked, flood, xy, Neighbours(m, o, xy));
        marked := marked + {xy};
        flood := flood + Neighbours(m, o, xy);
      }
    }
    FloodDone(g, cursor, marked);
    RetaggedIs(before, m.designations, marked, o.target);
    forall c | c in m.tiles {
      RegionIs(m, o, before, source, cursor, c);
    }
  }

  /** Without X a fill started from any tile of the region retags the same region. */
  lemma SameRegionFromEveryTile(m: MapCache, o: Options, before: map<Coord, Designation>, source: nat,
                                cursor: Coord, other: Coord, c: Coord)
    requires m.Valid() && !o.updown
    requires var g := FillGraph(m, o, before, source); Reachable(g, cursor, other)
    ensures var g := FillGraph(m, o, before, source); Reachable(g, cursor, c) <==> Reachable(g, other, c)
  {
    var g := FillGraph(m, o, before, source);
    forall u, v | g.ok(u) && g.ok(v) && v in g.succ(u) ensures u in g.succ(v) {
      FlatStepsReverse(m, o, u, v);
    }
    ReachableSymmetric(g, cursor, other);
    if Reachable(g, cursor, c) {
      ReachableTransitive(g, other, cursor, c);
    }
    if Reachable(g, other, c) {
      ReachableTransitive(g, cursor, other, c);
    }
  }

  lemma FlatStepsReverse(m: MapCache, o: Options, u: Coord, v: Coord)
    requires m.Valid() && !o.updown
    requires u in m.tiles && v in m.tiles && v in Neighbours(m, o, u)
    ensures u in Neighbours(m, o, v)
  {
  }
}
