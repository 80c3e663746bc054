/** The map as the flood fills see it: a finite set of valid tiles whose designations
    are read and written through MapCache. */
module MapModel {

  datatype Coord = Coord(x: int, y: int, z: int) {
    function Plus(dx: int, dy: int, dz: int): Coord {
      Coord(x + dx, y + dy, z + dz)
    }
  }

  /** On one level: straight beside each other, or also across a corner. */
  predicate FourNeighbours(c: Coord, n: Coord) {
    n.z == c.z && ((n.x == c.x && (n.y == c.y - 1 || n.y == c.y + 1)) || (n.y == c.y && (n.x == c.x - 1 || n.x == c.x + 1)))
  }

  predicate EightNeighbours(c: Coord, n: Coord) {
    n.z == c.z && n != c && -1 <= n.x - c.x <= 1 && -1 <= n.y - c.y <= 1
  }

  /** How a shape behaves when the reveal flood enters it (the three groups of its switch, and the
      shapes the switch does not list). */
  datatype Shape = Wall | Open | Floored | Unlisted

  /** The tile attributes the plugins ask for. */
  datatype TileType = TileType(shape: Shape, isWall: bool, isOpen: bool, lowPassable: bool, highPassable: bool)

  datatype Dig = No | Default | UpDownStair | DownStair | UpStair

  /** The designation bits the plugins touch. Traffic 0 is Normal. */
  datatype Designation = Designation(hidden: bool, traffic: nat, flowSize: nat, water: bool, dig: Dig)

  /** What the cache answers for a tile outside every block: all bits zero. */
  const ZERO_DESIGNATION := Designation(false, 0, 0, true, No)

  class MapCache {
    const xMax: nat  // map size in blocks
    const yMax: nat
    const zMax: nat
    const tiles: map<Coord, TileType>
    const voidType: TileType
    const buildings: set<Coord>
    var designations: map<Coord, Designation>
    var veins: map<Coord, int>

    ghost predicate Valid()
      reads this
    {
      && designations.Keys == tiles.Keys
      && veins.Keys == tiles.Keys
      && buildings <= tiles.Keys
      && forall c | c in tiles :: 0 <= c.x < 16 * xMax && 0 <= c.y < 16 * yMax && 0 <= c.z < zMax
    }

    predicate TestCoord(c: Coord) {
      c in tiles
    }

    function TiletypeAt(c: Coord): TileType {
      if c in tiles then tiles[c] else voidType
    }

    function DesignationAt(c: Coord): Designation
      reads this
    {
      if c in designations then designations[c] else ZERO_DESIGNATION
    }

    function VeinMaterialAt(c: Coord): int
      reads this
    {
      if c in veins then veins[c] else 0
    }

    method SetDesignationAt(c: Coord, d: Designation) returns (written: bool)
      requires Valid()
      modifies this`designations
      ensures Valid()
      ensures written == TestCoord(c)
      ensures designations == if TestCoord(c) then old(designations)[c := d] else old(designations)
    {
      written := TestCoord(c);
      if written {
        designations := designations[c := d];
      }
    }

    method ClearMaterialAt(c: Coord)
      requires Valid()
      modifies this`veins
      ensures Valid()
      ensures veins == if TestCoord(c) then old(veins)[c := -1] else old(veins)
    {
      if TestCoord(c) {
        veins := veins[c := -1];
      }
    }
  }
}
