/** plugins/vdig.cpp: following a mineral vein from the cursor. */
module VeinDig {
  import opened MapModel
  import opened Reachability

  datatype Outcome = Dug | OnBorder | NotAVein

  /** Tiles the tool may dig: everything but the outer ring of the map. */
  predicate Interior(m: MapCache, c: Coord) {
    1 <= c.x <= 16 * m.xMax - 2 && 1 <= c.y <= 16 * m.yMax - 2
  }

  /** The same-level pushes, with the nesting of the source (vertical moves are pushed twice). */
  function LevelPushes(m: MapCache, c: Coord): seq<Coord> {
    var south := c.y < 16 * m.yMax - 2;
    var north := c.y > 1;
    (if c.x < 16 * m.xMax - 2 then
       [c.Plus(1, 0, 0)]
       + (if south then [c.Plus(1, 1, 0), c.Plus(0, 1, 0)] else [])
       + (if north then [c.Plus(1, -1, 0), c.Plus(0, -1, 0)] else [])
     else [])
    + (if c.x > 1 then
         [c.Plus(-1, 0, 0)]
         + (if south then [c.Plus(-1, 1, 0), c.Plus(0, 1, 0)] else [])
         + (if north then [c.Plus(-1, -1, 0), c.Plus(0, -1, 0)] else [])
       else [])
  }

  /** From an interior tile the nested guards push exactly the eight neighbours that are not on the
      border: straight moves are lost only if both x guards fail, and a map is at least a block wide. */
  lemma LevelPushesAreInterior(m: MapCache, c: Coord, n: Coord)
    requires Interior(m, c)
    ensures n in LevelPushes(m, c) <==> EightNeighbours(c, n) && Interior(m, n)
  {
  }

  /** The vein: wall tiles of the given material, linked to their interior neighbours and, with x,
      to the tiles straight below and above. */
  ghost function VeinGraph(m: MapCache, veins: map<Coord, int>, material: int, updown: bool): Graph<Coord> {
    Graph(c => c in m.tiles && m.tiles[c].isWall && c in veins && veins[c] == material && Interior(m, c),
          c => (set n | n in m.tiles && EightNeighbours(c, n) && Interior(m, n)) + (if updown then {c.Plus(0, 0, -1), c.Plus(0, 0, 1)} else {}))
  }

  /** The cache after some tiles of the vein have been dug. */
  ghost predicate Cleared(before: map<Coord, int>, after: map<Coord, int>, dug: set<Coord>) {
    && after.Keys == before.Keys
    && forall c | c in before :: after[c] == if c in dug then -1 else before[c]
  }

  lemma ClearedIs(before: map<Coord, int>, after: map<Coord, int>, dug: set<Coord>)
    requires Cleared(before, after, dug)
    ensures after.Keys == before.Keys
    ensures forall c | c in before && before[c] != -1 :: c in dug <==> after[c] != before[c]
    ensures forall c | c in before && before[c] == -1 :: after[c] == before[c]
  {
  }

  lemma ClearedStep(before: map<Coord, int>, now: map<Coord, int>, dug: set<Coord>, c: Coord)
    requires Cleared(before, now, dug) && c in before
    ensures Cleared(before, now[c := -1], dug + {c})
  {
  }

  /** A tile still shows the material in the cache iff it showed it at first and was not dug since. */
  lemma ShowsMaterial(m: MapCache, veins: map<Coord, int>, dug: set<Coord>, c: Coord, material: int)
    requires Cleared(veins, m.veins, dug) && c in m.veins && material != -1
    ensures m.VeinMaterialAt(c) == material <==> veins[c] == material && c !in dug
  {
  }

  /** One tile's designation before and after. Only the dig bits may differ, and a dug tile carries an
      order. Without x the order is Default where there was none, and nothing else changed. With x a
      changed tile that was not dug is of the vein's material and lies straight above or below a dug one. */
  ghost predicate DesignatedAt(c: Coord, before: Designation, after: Designation, dug: set<Coord>, vein: bool, updown: bool) {
    && after == before.(dig := after.dig)
    && (c in dug ==> after.dig != No)
    && (!updown ==> after.dig == if c in dug && before.dig == No then Default else before.dig)
    && (c !in dug && after != before ==> vein && (c.Plus(0, 0, 1) in dug || c.Plus(0, 0, -1) in dug))
  }

  ghost predicate Designated(before: map<Coord, Designation>, after: map<Coord, Designation>, dug: set<Coord>,
                             veins: map<Coord, int>, material: int, updown: bool) {
    && after.Keys == before.Keys == veins.Keys
    && forall c | c in before :: DesignatedAt(c, before[c], after[c], dug, veins[c] == material, updown)
  }

  /** The stair order for a tile met from the other side: two half stairs make a full one. */
  function Meet(existing: Dig, half: Dig, order: Dig): Dig {
    if existing == half then UpDownStair else order
  }

  /** The order the dug tile itself gets. */
  function OwnOrder(dig: Dig, below: bool, above: bool): Dig {
    var d := if below then DownStair else dig;
    var e := if above then Meet(d, DownStair, UpStair) else d;
    if e == No then Default else e
  }

  /** The stair orders on the tiles straight below and above c. */
  function StairOrders(d: map<Coord, Designation>, c: Coord, below: bool, above: bool): map<Coord, Designation>
    requires (below ==> c.Plus(0, 0, -1) in d) && (above ==> c.Plus(0, 0, 1) in d)
  {
    var lower, upper := c.Plus(0, 0, -1), c.Plus(0, 0, 1);
    var d1 := if below then d[lower := d[lower].(dig := Meet(d[lower].dig, DownStair, UpStair))] else d;
    if above then d1[upper := d[upper].(dig := Meet(d[upper].dig, UpStair, DownStair))] else d1
  }

  function VerticalPushes(c: Coord, below: bool, above: bool): seq<Coord> {
    (if below then [c.Plus(0, 0, -1)] else []) + (if above then [c.Plus(0, 0, 1)] else [])
  }

  /** The designations after one tile is dug, given whether the vein goes on below and above it. */
  function AfterDig(d: map<Coord, Designation>, c: Coord, below: bool, above: bool): map<Coord, Designation>
    requires c in d && (below ==> c.Plus(0, 0, -1) in d) && (above ==> c.Plus(0, 0, 1) in d)
  {
    StairOrders(d, c, below, above)[c := d[c].(dig := OwnOrder(d[c].dig, below, above))]
  }

  predicate Continues(m: MapCache, c: Coord, material: int)
    reads m
  {
    m.TestCoord(c) && m.VeinMaterialAt(c) == material
  }

  /** With x: order stairs on the tiles straight below and above the one being dug, push them, and
      return the order of the dug tile itself. */
  method OrderStairs(m: MapCache, current: Coord, dig: Dig, below: bool, above: bool) returns (own: Dig, pushed: seq<Coord>)
    requires m.Valid() && m.TestCoord(current)
    requires below ==> m.TestCoord(current.Plus(0, 0, -1))
    requires above ==> m.TestCoord(current.Plus(0, 0, 1))
    modifies m`designations
    ensures m.Valid()
    ensures OwnOrder(dig, below, above) == if own == No then Default else own
    ensures m.designations == StairOrders(old(m.designations), current, below, above)
    ensures pushed == VerticalPushes(current, below, above)
  {
    var lower, upper := current.Plus(0, 0, -1), current.Plus(0, 0, 1);
    var desMinus, desPlus := m.DesignationAt(lower), m.DesignationAt(upper);
    pushed, own := [], dig;
    if current.z > 0 && below {
      pushed := [lower];
      desMinus := desMinus.(dig := if desMinus.dig == DownStair then UpDownStair else UpStair);
      var _ := m.SetDesignationAt(lower, desMinus);
      own := DownStair;
    }
    if current.z < m.zMax - 1 && above {
      pushed := pushed + [upper];
      desPlus := desPlus.(dig := if desPlus.dig == UpStair then UpDownStair else DownStair);
      var _ := m.SetDesignationAt(upper, desPlus);
      own := if own == DownStair then UpDownStair else UpStair;
    }
  }

  /** One good tile: forget its material, give it an order, and with x order stairs on the two tiles
      straight below and above that still show the same material. Returns what it pushes. */
  method DigTile(m: MapCache, current: Coord, material: int, updown: bool) returns (pushed: seq<Coord>)
    requires m.Valid() && m.TestCoord(current) && m.veins[current] == material
    modifies m`designations, m`veins
    ensures m.Valid()
    ensures m.veins == old(m.veins)[current := -1]
    ensures var below := updown && old(Continues(m, current.Plus(0, 0, -1), material));
      var above := updown && old(Continues(m, current.Plus(0, 0, 1), material));
      && m.designations == AfterDig(old(m.designations), current, below, above)
      && pushed == LevelPushes(m, current) + VerticalPushes(current, below, above)
  {
    hide LevelPushes, StairOrders, VerticalPushes;
    var des := m.DesignationAt(current);
    var below := updown && Continues(m, current.Plus(0, 0, -1), material);
    var above := updown && Continues(m, current.Plus(0, 0, 1), material);
    m.ClearMaterialAt(current);
    var own, vertical := OrderStairs(m, current, des.dig, below, above);
    pushed := LevelPushes(m, current) + vertical;
    if own == No {
      own := Default;
    }
    var _ := m.SetDesignationAt(current, des.(dig := own));
  }

  /** What one dig leaves at a tile: the dug tile, the one below, the one above, or any other. */
  lemma AfterDigAt(d: map<Coord, Designation>, c: Coord, below: bool, above: bool, t: Coord)
    requires c in d && (below ==> c.Plus(0, 0, -1) in d) && (above ==> c.Plus(0, 0, 1) in d) && t in d
    ensures AfterDig(d, c, below, above).Keys == d.Keys
    ensures AfterDig(d, c, below, above)[t]
      == if t == c then d[t].(dig := OwnOrder(d[t].dig, below, above))
         else if below && t == c.Plus(0, 0, -1) then d[t].(dig := Meet(d[t].dig, DownStair, UpStair))
         else if above && t == c.Plus(0, 0, 1) then d[t].(dig := Meet(d[t].dig, UpStair, DownStair))
         else d[t]
  {
    hide OwnOrder, Meet;
  }

  predicate DigsDown(dig: Dig) { dig == DownStair || dig == UpDownStair }

  predicate DigsUp(dig: Dig) { dig == UpStair || dig == UpDownStair }

  /** The stairs ordered with one tile meet: down from it and up from the tile below, up from it and down from the
      tile above, and a half stair that is met from its other side becomes a full one. Without stairs the tile gets a
      plain order, or keeps the one it has. */
  lemma StairsMeet(d: map<Coord, Designation>, c: Coord, below: bool, above: bool)
    requires c in d && (below ==> Coord(c.x, c.y, c.z - 1) in d) && (above ==> Coord(c.x, c.y, c.z + 1) in d)
    ensures var now := AfterDig(d, c, below, above);
      && (below ==>
            var lower := Coord(c.x, c.y, c.z - 1);
            && DigsDown(now[c].dig) && DigsUp(now[lower].dig)
            && (DigsDown(now[lower].dig) <==> d[lower].dig == DownStair)
            && (DigsUp(now[c].dig) <==> above))
      && (above ==>
            var upper := Coord(c.x, c.y, c.z + 1);
            && DigsUp(now[c].dig) && DigsDown(now[upper].dig)
            && (DigsUp(now[upper].dig) <==> d[upper].dig == UpStair)
            && (DigsDown(now[c].dig) <==> below || d[c].dig == DownStair))
      && (!below && !above ==> now[c].dig == if d[c].dig == No then Default else d[c].dig)
  {
    AfterDigAt(d, c, below, above, c);
    if below {
      AfterDigAt(d, c, below, above, c.Plus(0, 0, -1));
    }
    if above {
      AfterDigAt(d, c, below, above, c.Plus(0, 0, 1));
    }
  }

  lemma OwnOrderIsOrder(dig: Dig, below: bool, above: bool)
    ensures OwnOrder(dig, below, above) != No
    ensures !below && !above ==> OwnOrder(dig, below, above) == if dig == No then Default else dig
  {
  }

  /** A dug tile is accounted for. */
  lemma DugTile(c: Coord, before: Designation, now: Designation, dug: set<Coord>, vein: bool, updown: bool, below: bool, above: bool)
    requires DesignatedAt(c, before, now, dug, vein, updown) && c !in dug
    requires !updown ==> !below && !above
    ensures DesignatedAt(c, before, now.(dig := OwnOrder(now.dig, below, above)), dug + {c}, vein, updown)
  {
    hide OwnOrder;
    OwnOrderIsOrder(now.dig, below, above);
  }

  /** A vein tile straight above or below a dug one is accounted for when it gets a stair. */
  lemma StairTile(t: Coord, c: Coord, before: Designation, now: Designation, order: Dig, dug: set<Coord>, updown: bool)
    requires DesignatedAt(t, before, now, dug, true, updown) && t != c && t !in dug && updown && order != No
    requires c == t.Plus(0, 0, 1) || c == t.Plus(0, 0, -1)
    ensures DesignatedAt(t, before, now.(dig := order), dug + {c}, true, updown)
  {
  }

  lemma OtherTile(t: Coord, c: Coord, before: Designation, now: Designation, dug: set<Coord>, vein: bool, updown: bool)
    requires DesignatedAt(t, before, now, dug, vein, updown) && t != c
    ensures DesignatedAt(t, before, now, dug + {c}, vein, updown)
  {
  }

  /** Digging one more tile keeps the account of one tile. */
  lemma DesignatedTile(m: MapCache, before: map<Coord, Designation>, dug: set<Coord>, veins: map<Coord, int>,
                       material: int, updown: bool, c: Coord, below: bool, above: bool, t: Coord)
    requires m.Valid() && Designated(before, m.designations, dug, veins, material, updown)
    requires material != -1 && Cleared(veins, m.veins, dug)
    requires c in m.tiles && c !in dug && t in m.tiles
    requires below == (updown && Continues(m, c.Plus(0, 0, -1), material))
    requires above == (updown && Continues(m, c.Plus(0, 0, 1), material))
    ensures DesignatedAt(t, before[t], AfterDig(m.designations, c, below, above)[t], dug + {c}, veins[t] == material, updown)
  {
    hide AfterDig, OwnOrder, DesignatedAt;
    var now := m.designations;
    assert DesignatedAt(t, before[t], now[t], dug, veins[t] == material, updown);
    AfterDigAt(now, c, below, above, t);
    if t == c {
      DugTile(c, before[c], now[c], dug, veins[c] == material, updown, below, above);
    } else if below && t == c.Plus(0, 0, -1) {
      ShowsMaterial(m, veins, dug, t, material);
      StairTile(t, c, before[t], now[t], Meet(now[t].dig, DownStair, UpStair), dug, updown);
    } else if above && t == c.Plus(0, 0, 1) {
      ShowsMaterial(m, veins, dug, t, material);
      StairTile(t, c, before[t], now[t], Meet(now[t].dig, UpStair, DownStair), dug, updown);
    } else {
      OtherTile(t, c, before[t], now[t], dug, veins[t] == material, updown);
    }
  }

  /** And so the account of all. */
  lemma DesignatedStep(m: MapCache, before: map<Coord, Designation>, dug: set<Coord>, veins: map<Coord, int>,
                       material: int, updown: bool, c: Coord, below: bool, above: bool)
    requires m.Valid() && Designated(before, m.designations, dug, veins, material, updown)
    requires material != -1 && Cleared(veins, m.veins, dug)
    requires c in m.tiles && c !in dug
    requires below == (updown && Continues(m, c.Plus(0, 0, -1), material))
    requires above == (updown && Continues(m, c.Plus(0, 0, 1), material))
    ensures Designated(before, AfterDig(m.designations, c, below, above), dug + {c}, veins, material, updown)
  {
    hide AfterDig, DesignatedAt, Cleared;
    AfterDigAt(m.designations, c, below, above, c);
    forall t | t in before
      ensures DesignatedAt(t, before[t], AfterDig(m.designations, c, below, above)[t], dug + {c}, veins[t] == material, updown)
    {
      DesignatedTile(m, before, dug, veins, material, updown, c, below, above, t);
    }
  }

  lemma NothingDug(m: MapCache, material: int, updown: bool)
    requires m.Valid()
    ensures Designated(m.designations, m.designations, {}, m.veins, material, updown)
    ensures Cleared(m.veins, m.veins, {})
  {
  }

  ghost predicate AllInterior(m: MapCache, s: seq<Coord>) {
    forall c | c in s :: Interior(m, c)
  }

  lemma PopInterior(m: MapCache, rest: seq<Coord>, top: Coord)
    requires AllInterior(m, rest + [top])
    ensures AllInterior(m, rest) && Interior(m, top)
  {
  }

  lemma AppendInterior(m: MapCache, s: seq<Coord>, t: seq<Coord>)
    requires AllInterior(m, s) && AllInterior(m, t)
    ensures AllInterior(m, s + t)
  {
  }

  lemma AllInteriorSingleton(m: MapCache, c: Coord)
    requires Interior(m, c)
    ensures AllInterior(m, [c])
  {
  }

  /** What a dug tile pushes covers its steps in the vein's graph, and never leaves the interior. */
  lemma PushesMatchGraph(m: MapCache, veins: map<Coord, int>, material: int, updown: bool, current: Coord,
                         dug: set<Coord>, below: bool, above: bool)
    requires Interior(m, current) && veins.Keys == m.tiles.Keys == m.veins.Keys
    requires material != -1 && Cleared(veins, m.veins, dug)
    requires below == (updown && Continues(m, current.Plus(0, 0, -1), material))
    requires above == (updown && Continues(m, current.Plus(0, 0, 1), material))
    ensures var g := VeinGraph(m, veins, material, updown);
      var pushed := LevelPushes(m, current) + VerticalPushes(current, below, above);
      && (forall n | n in g.succ(current) && g.ok(n) :: n in pushed || n in dug || n == current)
      && AllInterior(m, pushed)
      && (forall n | n in pushed && g.ok(n) :: n in g.succ(current))
  {
    forall n {
      LevelPushesAreInterior(m, current, n);
    }
  }

  /** The three tests of the loop pass just for the tiles of the vein that were not dug yet. */
  lemma TestsMatchGraph(m: MapCache, veins: map<Coord, int>, dug: set<Coord>, material: int, updown: bool, c: Coord)
    requires m.Valid() && veins.Keys == m.tiles.Keys && Cleared(veins, m.veins, dug) && material != -1 && Interior(m, c)
    ensures m.TestCoord(c) && m.TiletypeAt(c).isWall && m.VeinMaterialAt(c) == material
            <==> VeinGraph(m, veins, material, updown).ok(c) && c !in dug
  {
    hide Interior;
    if c in m.tiles {
      ShowsMaterial(m, veins, dug, c, material);
    }
  }

  predicate NextTo(d: Coord, c: Coord, updown: bool) {
    EightNeighbours(d, c) || (updown && (c == Coord(d.x, d.y, d.z - 1) || c == Coord(d.x, d.y, d.z + 1)))
  }

  /** A tile is of the vein just when it is an interior wall of that material and is the cursor's or next to one of
      the vein: beside it, across a corner, or with x straight below or above. */
  lemma VeinIs(m: MapCache, veins: map<Coord, int>, material: int, updown: bool, cursor: Coord, c: Coord)
    requires veins.Keys == m.tiles.Keys
    ensures var g := VeinGraph(m, veins, material, updown);
      Reachable(g, cursor, c) <==>
        && c in m.tiles && m.tiles[c].isWall && veins[c] == material
        && 0 < c.x < 16 * m.xMax - 1 && 0 < c.y < 16 * m.yMax - 1
        && (c == cursor || exists d :: Reachable(g, cursor, d) && NextTo(d, c, updown))
  {
    hide Reachable, EightNeighbours;
    var g := VeinGraph(m, veins, material, updown);
    LastStep(g, cursor, c);
    assert forall d | g.ok(c) :: c in g.succ(d) <==> NextTo(d, c, updown);
  }

  ghost function Vein(m: MapCache, g: Graph<Coord>, cursor: Coord): set<Coord> {
    set c | c in m.tiles && Reachable(g, cursor, c)
  }

  /** The tool digs exactly the tiles of the vein reachable from the cursor, and never the border. */
  method Vdig(m: MapCache, cursor: Coord, updown: bool) returns (outcome: Outcome)
    requires m.Valid()
    requires 0 <= cursor.x < 16 * m.xMax && 0 <= cursor.y < 16 * m.yMax
    modifies m`designations, m`veins
    ensures m.Valid()
    ensures outcome == if !Interior(m, cursor) then OnBorder
                       else if old(m.VeinMaterialAt(cursor)) == -1 then NotAVein else Dug
    ensures outcome != Dug ==> m.designations == old(m.designations) && m.veins == old(m.veins)
    ensures outcome == Dug ==>
      var material := old(m.VeinMaterialAt(cursor));
      var dug := Vein(m, VeinGraph(m, old(m.veins), material, updown), cursor);
      && (forall c | c in dug :: Interior(m, c))
      && Cleared(old(m.veins), m.veins, dug)
      && Designated(old(m.designations), m.designations, dug, old(m.veins), material, updown)
    ensures outcome == Dug ==> forall c | c in m.tiles ::
      m.veins[c] != old(m.veins)[c] <==>
        && m.tiles[c].isWall && old(m.veins)[c] == old(m.VeinMaterialAt(cursor))
        && 0 < c.x < 16 * m.xMax - 1 && 0 < c.y < 16 * m.yMax - 1
        && (c == cursor || exists d :: d in m.tiles && m.veins[d] != old(m.veins)[d] && NextTo(d, c, updown))
  {
    hide LevelPushes, VerticalPushes, AfterDig, Cleared, Flooding, Designated, AllInterior, VeinGraph, Reachable, Continues, NextTo;
    if cursor.x == 0 || cursor.x == 16 * m.xMax - 1 || cursor.y == 0 || cursor.y == 16 * m.yMax - 1 {
      return OnBorder;
    }
    var material := m.VeinMaterialAt(cursor);
    if material == -1 {
      return NotAVein;
    }
    ghost var before, veins := m.designations, m.veins;
    ghost var g := VeinGraph(m, veins, material, updown);
    ghost var dug: set<Coord> := {};
    var flood := [cursor];
    AllInteriorSingleton(m, cursor);
    NothingDug(m, material, updown);
    FloodStart(g, cursor);
    while flood != []
      invariant m.Valid() && dug <= m.tiles.Keys && veins.Keys == m.tiles.Keys
      invariant AllInterior(m, flood) && forall c | c in dug :: Interior(m, c)
      invariant Cleared(veins, m.veins, dug)
      invariant Designated(before, m.designations, dug, veins, material, updown)
      invariant Flooding(g, cursor, dug, flood)
      decreases m.tiles.Keys - dug, |flood|
    {
      var current := flood[|flood| - 1];
      assert flood == flood[..|flood| - 1] + [current];
      flood := flood[..|flood| - 1];
      PopInterior(m, flood, current);
      TestsMatchGraph(m, veins, dug, material, updown, current);
      if !m.TiletypeAt(current).isWall || m.VeinMaterialAt(current) != material || !m.TestCoord(current) {
        FloodSkip(g, cursor, dug, flood, current);
      } else {
        ghost var below := updown && Continues(m, current.Plus(0, 0, -1), material);
        ghost var above := updown && Continues(m, current.Plus(0, 0, 1), material);
        ClearedStep(veins, m.veins, dug, current);
        DesignatedStep(m, before, dug, veins, material, updown, current, below, above);
        PushesMatchGraph(m, veins, material, updown, current, dug, below, above);
        var pushed := DigTile(m, current, material, updown);
        FloodMark(g, cursor, dug, flood, current, pushed);
        dug := dug + {current};
        AppendInterior(m, flood, pushed);
        flood := flood + pushed;
      }
    }
    FloodDone(g, cursor, dug);
    assert dug == Vein(m, g, cursor);
    ClearedIs(veins, m.veins, dug);
    forall c | c in m.tiles {
      VeinIs(m, veins, material, updown, cursor, c);
    }
    outcome := Dug;
  }
}
