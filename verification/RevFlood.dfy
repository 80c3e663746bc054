/** plugins/reveal.cpp: hide the whole map, then reveal what the cursor can see.
    The flood carries, with each tile, whether it was entered from below. A floored or wall tile
    entered from below stays hidden, so it is not marked and can be processed again and again. */
module RevFlood {
  import opened MapModel
  import opened Reachability

  datatype Entry = Entry(tile: Coord, fromBelow: bool)

  predicate Sideways(s: Shape) { s == Open || s == Floored }

  predicate Upward(s: Shape) { s == Open || s == Floored }

  predicate Downward(s: Shape) { s == Open }

  /** Whether a tile of this shape is unhidden by this kind of entry. */
  predicate Unhides(s: Shape, fromBelow: bool) {
    !(fromBelow && (s == Wall || s == Floored))
  }

  function SidePushes(c: Coord): seq<Entry> {
    [Entry(c.Plus(1, 0, 0), false), Entry(c.Plus(1, 1, 0), false), Entry(c.Plus(0, 1, 0), false),
     Entry(c.Plus(-1, 1, 0), false), Entry(c.Plus(-1, 0, 0), false), Entry(c.Plus(-1, -1, 0), false),
     Entry(c.Plus(0, -1, 0), false), Entry(c.Plus(1, -1, 0), false)]
  }

  /** Everything one visit pushes; it depends on the shape only, never on how the tile was entered. */
  function Pushes(c: Coord, s: Shape): seq<Entry> {
    (if Sideways(s) then SidePushes(c) else [])
    + (if Upward(s) then [Entry(c.Plus(0, 0, 1), true)] else [])
    + (if Downward(s) then [Entry(c.Plus(0, 0, -1), false)] else [])
  }

  /** The entries a shape-driven walk can make: into valid tiles, by the pushes of the tile before. */
  ghost function EntryGraph(m: MapCache): Graph<Entry> {
    Graph((e: Entry) => e.tile in m.tiles,
          (e: Entry) => set n | n in Pushes(e.tile, m.TiletypeAt(e.tile).shape))
  }

  lemma PushesAreSteps(m: MapCache, e: Entry)
    ensures forall n :: n in Pushes(e.tile, m.TiletypeAt(e.tile).shape) <==> n in EntryGraph(m).succ(e)
    ensures EntryGraph(m).ok(e) <==> m.TestCoord(e.tile)
  {
  }

  /** The specification: some walk from the cursor enters the tile in a way that unhides it. */
  ghost predicate Seen(m: MapCache, cursor: Coord, c: Coord) {
    exists fromBelow ::
      && Reachable(EntryGraph(m), Entry(cursor, false), Entry(c, fromBelow))
      && Unhides(m.TiletypeAt(c).shape, fromBelow)
  }

  // ---- the specification, tile by tile ----

  /** From the side or from above one enters n next to an open or floored tile, or straight below an open one;
      from below, straight above either. */
  lemma PushesAre(c: Coord, s: Shape, n: Coord)
    ensures Entry(n, false) in Pushes(c, s) <==>
      ((s == Open || s == Floored) && EightNeighbours(c, n)) || (s == Open && n == Coord(c.x, c.y, c.z - 1))
    ensures Entry(n, true) in Pushes(c, s) <==> (s == Open || s == Floored) && n == Coord(c.x, c.y, c.z + 1)
  {
  }

  /** Some walk from the cursor enters the tile, whether or not it unhides it. */
  ghost predicate Visited(m: MapCache, cursor: Coord, c: Coord) {
    exists fromBelow :: Reachable(EntryGraph(m), Entry(cursor, false), Entry(c, fromBelow))
  }

  /** d is entered, and lets one on to c from the side or from above. */
  ghost predicate LeadsTo(m: MapCache, cursor: Coord, d: Coord, c: Coord) {
    var s := m.TiletypeAt(d).shape;
    Visited(m, cursor, d)
    && (((s == Open || s == Floored) && EightNeighbours(d, c)) || (s == Open && d == Coord(c.x, c.y, c.z + 1)))
  }

  /** The tile straight below c is entered, and lets one on to c from below. */
  ghost predicate LeadsUpTo(m: MapCache, cursor: Coord, c: Coord) {
    var d := Coord(c.x, c.y, c.z - 1);
    Visited(m, cursor, d) && (m.TiletypeAt(d).shape == Open || m.TiletypeAt(d).shape == Floored)
  }

  lemma EnteredIs(m: MapCache, cursor: Coord, c: Coord)
    ensures Reachable(EntryGraph(m), Entry(cursor, false), Entry(c, false)) <==>
      c in m.tiles && (c == cursor || exists d :: LeadsTo(m, cursor, d, c))
    ensures Reachable(EntryGraph(m), Entry(cursor, false), Entry(c, true)) <==> c in m.tiles && LeadsUpTo(m, cursor, c)
  {
    hide Pushes, Reachable;
    var g, start := EntryGraph(m), Entry(cursor, false);
    LastStep(g, start, Entry(c, false));
    LastStep(g, start, Entry(c, true));
    forall e: Entry {
      PushesAre(e.tile, m.TiletypeAt(e.tile).shape, c);
    }
    if e :| Reachable(g, start, e) && Entry(c, false) in g.succ(e) {
      assert Visited(m, cursor, e.tile);
      assert LeadsTo(m, cursor, e.tile, c);
    }
    if d :| LeadsTo(m, cursor, d, c) {
      var b :| Reachable(g, start, Entry(d, b));
      assert Entry(c, false) in g.succ(Entry(d, b));
    }
  }

  /** A tile is seen just when it is the cursor's, or one gets to it from the side or from above, or from below and it
      is neither wall nor floored. */
  lemma SeenIs(m: MapCache, cursor: Coord, c: Coord)
    ensures Seen(m, cursor, c) <==>
      && c in m.tiles
      && (|| c == cursor || (exists d :: LeadsTo(m, cursor, d, c))
          || (LeadsUpTo(m, cursor, c) && m.tiles[c].shape != Wall && m.tiles[c].shape != Floored))
  {
    hide Reachable, LeadsTo, LeadsUpTo;
    EnteredIs(m, cursor, c);
    assert Seen(m, cursor, c) <==>
      || (Reachable(EntryGraph(m), Entry(cursor, false), Entry(c, false)) && Unhides(m.TiletypeAt(c).shape, false))
      || (Reachable(EntryGraph(m), Entry(cursor, false), Entry(c, true)) && Unhides(m.TiletypeAt(c).shape, true));
  }

  /** What a visible tile of this shape makes visible: all around an open or floored one, below an open one, and
      above either what is neither wall nor floored. */
  ghost predicate Reveals(m: MapCache, c: Coord, n: Coord)
    requires c in m.tiles && n in m.tiles
  {
    var s, t := m.tiles[c].shape, m.tiles[n].shape;
    || ((s == Open || s == Floored) && EightNeighbours(c, n))
    || (s == Open && n == Coord(c.x, c.y, c.z - 1))
    || ((s == Open || s == Floored) && n == Coord(c.x, c.y, c.z + 1) && t != Wall && t != Floored)
  }

  lemma SeenSpreads(m: MapCache, cursor: Coord, c: Coord, n: Coord)
    requires c in m.tiles && n in m.tiles && Seen(m, cursor, c) && Reveals(m, c, n)
    ensures Seen(m, cursor, n)
  {
    hide Reachable;
    SeenIs(m, cursor, n);
    assert Visited(m, cursor, c);
    assert LeadsTo(m, cursor, c, n) || LeadsUpTo(m, cursor, n);
  }

  // ---- the flood ----

  /** Weight of a waiting entry: an entry from below may be expanded without marking its tile, which
      costs eight sideways entries and one more from below on the next level up. */
  function Weight(m: MapCache, e: Entry): nat {
    if e.fromBelow && e.tile.z < m.zMax then 1 + 9 * (m.zMax - e.tile.z) else 1
  }

  function StackWeight(m: MapCache, s: seq<Entry>): (w: nat) {
    if s == [] then 0 else Weight(m, s[0]) + StackWeight(m, s[1..])
  }

  lemma {:induction false} StackWeightAppend(m: MapCache, s: seq<Entry>, t: seq<Entry>)
    ensures StackWeight(m, s + t) == StackWeight(m, s) + StackWeight(m, t)
  {
    if s == [] {
      assert s + t == t;
    } else {
      assert (s + t)[1..] == s[1..] + t;
      StackWeightAppend(m, s[1..], t);
    }
  }

  lemma StackWeightPositive(m: MapCache, e: Entry)
    ensures StackWeight(m, [e]) == Weight(m, e) > 0
  {
  }

  lemma SidePushesWeight(m: MapCache, c: Coord)
    ensures StackWeight(m, SidePushes(c)) == 8
  {
    var s := SidePushes(c);
    assert StackWeight(m, s[7..]) == 1;
    assert StackWeight(m, s[6..]) == 2 && StackWeight(m, s[5..]) == 3 && StackWeight(m, s[4..]) == 4;
    assert StackWeight(m, s[3..]) == 5 && StackWeight(m, s[2..]) == 6 && StackWeight(m, s[1..]) == 7;
  }

  /** Expanding a tile that stays hidden pushes less than the entry weighed: what makes the loop end. */
  lemma HiddenExpansionIsLighter(m: MapCache, e: Entry)
    requires m.Valid() && e.tile in m.tiles
    requires !Unhides(m.TiletypeAt(e.tile).shape, e.fromBelow)
    ensures StackWeight(m, Pushes(e.tile, m.TiletypeAt(e.tile).shape)) < Weight(m, e)
  {
    if m.TiletypeAt(e.tile).shape == Floored {
      var up := Entry(e.tile.Plus(0, 0, 1), true);
      assert Pushes(e.tile, Floored) == SidePushes(e.tile) + [up];
      StackWeightAppend(m, SidePushes(e.tile), [up]);
      SidePushesWeight(m, e.tile);
      assert StackWeight(m, [up]) == Weight(m, up);
    }
  }

  /** hidden bits while the flood runs: a tile is visible iff one of the entries made so far unhid it. */
  ghost predicate Shown(m: MapCache, before: map<Coord, Designation>, after: map<Coord, Designation>, made: set<Entry>) {
    && after.Keys == before.Keys == m.tiles.Keys
    && forall c | c in before :: after[c] == before[c].(hidden :=
         !exists fromBelow :: Entry(c, fromBelow) in made && Unhides(m.TiletypeAt(c).shape, fromBelow))
  }

  lemma ShownAtFirst(m: MapCache, before: map<Coord, Designation>)
    requires before.Keys == m.tiles.Keys && forall c | c in before :: before[c].hidden
    ensures Shown(m, before, before, {})
  {
  }

  /** Once the entries made are the reachable ones, the tiles shown are the ones the specification names. */
  lemma ShownAtLast(m: MapCache, before: map<Coord, Designation>, after: map<Coord, Designation>, made: set<Entry>, cursor: Coord)
    requires Shown(m, before, after, made)
    requires forall e :: e in made <==> Reachable(EntryGraph(m), Entry(cursor, false), e)
    ensures forall c | c in before :: after[c] == before[c].(hidden := !Seen(m, cursor, c))
  {
  }

  lemma ShownStep(m: MapCache, before: map<Coord, Designation>, now: map<Coord, Designation>, made: set<Entry>, e: Entry)
    requires Shown(m, before, now, made) && e.tile in m.tiles
    requires Unhides(m.TiletypeAt(e.tile).shape, e.fromBelow)
    ensures Shown(m, before, now[e.tile := now[e.tile].(hidden := false)], made + {e})
  {
  }

  /** An entry that unhides nothing, or finds its tile visible, leaves the picture as it is. */
  lemma ShownSkip(m: MapCache, before: map<Coord, Designation>, now: map<Coord, Designation>, made: set<Entry>, e: Entry)
    requires Shown(m, before, now, made) && e.tile in m.tiles
    requires !Unhides(m.TiletypeAt(e.tile).shape, e.fromBelow) || !now[e.tile].hidden
    ensures Shown(m, before, now, made + {e})
  {
  }

  ghost function HiddenTiles(d: map<Coord, Designation>): set<Coord> {
    set c | c in d && d[c].hidden
  }

  lemma HiddenTilesShrink(d: map<Coord, Designation>, c: Coord)
    requires c in d && d[c].hidden
    ensures HiddenTiles(d[c := d[c].(hidden := false)]) < HiddenTiles(d)
  {
    assert c in HiddenTiles(d);
  }

  /** A visible tile was entered before, and its pushes are all made or waiting whichever way that was. */
  lemma VisibleWasExpanded(m: MapCache, before: map<Coord, Designation>, made: set<Entry>, flood: seq<Entry>, start: Entry, e: Entry)
    requires m.Valid() && Shown(m, before, m.designations, made)
    requires Flooding(EntryGraph(m), start, made, flood + [e])
    requires e.tile in m.tiles && before[e.tile].hidden && !m.designations[e.tile].hidden
    ensures forall n | n in EntryGraph(m).succ(e) && EntryGraph(m).ok(n) :: n in made || n in flood || n == e
  {
    hide Pushes, Reachable, Unhides;
    var b :| Entry(e.tile, b) in made && Unhides(m.TiletypeAt(e.tile).shape, b);
    assert EntryGraph(m).succ(Entry(e.tile, b)) == EntryGraph(m).succ(e);
    assert forall n | n in flood + [e] :: n in flood || n == e;
  }

  method HideAll(m: MapCache)
    requires m.Valid()
    modifies m`designations
    ensures m.Valid()
    ensures m.designations == map c | c in old(m.designations) :: old(m.designations)[c].(hidden := true)
  {
    m.designations := map c | c in m.designations :: m.designations[c].(hidden := true);
  }

  method Revflood(m: MapCache, cursor: Coord) returns (ok: bool)
    requires m.Valid()
    modifies m`designations
    ensures m.Valid()
    ensures ok == !m.TiletypeAt(cursor).isWall
    ensures !ok ==> m.designations == old(m.designations)
    ensures ok ==> forall c | c in m.tiles ::
      m.designations[c] == old(m.designations)[c].(hidden := !Seen(m, cursor, c))
    ensures ok && cursor in m.tiles ==> !m.designations[cursor].hidden
    ensures ok ==> forall c, n | c in m.tiles && n in m.tiles && !m.designations[c].hidden && Reveals(m, c, n) ::
      !m.designations[n].hidden
  {
    hide Pushes, EntryGraph, Shown, Flooding, HiddenTiles, StackWeight, Weight, Unhides, Reveals, Seen;
    if m.TiletypeAt(cursor).isWall {
      return false;
    }
    ok := true;
    HideAll(m);
    ghost var before := m.designations;
    ghost var g := EntryGraph(m);
    var start := Entry(cursor, false);
    ghost var made: set<Entry> := {};
    var flood := [start];
    FloodStart(g, start);
    ShownAtFirst(m, before);
    while flood != []
      invariant m.Valid()
      invariant Shown(m, before, m.designations, made)
      invariant Flooding(g, start, made, flood)
      decreases HiddenTiles(m.designations), StackWeight(m, flood)
    {
      var e := flood[|flood| - 1];
      assert flood == flood[..|flood| - 1] + [e];
      StackWeightAppend(m, flood[..|flood| - 1], [e]);
      StackWeightPositive(m, e);
      PushesAreSteps(m, e);
      flood := flood[..|flood| - 1];
      var current := e.tile;
      if !m.TestCoord(current) {
        FloodSkip(g, start, made, flood, e);
        continue;
      }
      var shape := m.TiletypeAt(current).shape;
      var des := m.DesignationAt(current);
      if !des.hidden {
        VisibleWasExpanded(m, before, made, flood, start, e);
        ShownSkip(m, before, m.designations, made, e);
        FloodMark(g, start, made, flood, e, []);
        assert flood + [] == flood;
        made := made + {e};
        continue;
      }
      if Unhides(shape, e.fromBelow) {
        HiddenTilesShrink(m.designations, current);
        ShownStep(m, before, m.designations, made, e);
        var _ := m.SetDesignationAt(current, des.(hidden := false));
      } else {
        ShownSkip(m, before, m.designations, made, e);
        HiddenExpansionIsLighter(m, e);
      }
      StackWeightAppend(m, flood, Pushes(current, shape));
      FloodMark(g, start, made, flood, e, Pushes(current, shape));
      made := made + {e};
      flood := flood + Pushes(current, shape);
    }
    FloodDone(g, start, made);
    ShownAtLast(m, before, m.designations, made, cursor);
    SeenIs(m, cursor, cursor);
    forall c, n | c in m.tiles && n in m.tiles && Seen(m, cursor, c) && Reveals(m, c, n) {
      SeenSpreads(m, cursor, c, n);
    }
  }
}
