/** plugins/vdig.cpp: the sixteen by sixteen masks of expdig. A mask is a list of rows, top first, and
    the same few rows occur again and again; Bits spells each of them out. */
module DigMasks {

  datatype Row = D0 | D1 | D2 | D3 | D4 | Empty | Left0 | Rail0 | Right0 | Left1 | Rail1 | Right1 | Left2 | Rail2 | Right2 | Post1 | Post2 | Post3 | Full

  function Bits(r: Row): (s: string)
    ensures |s| == 16
  {
    match r
    case D0 => "1000010000100001"
    case D1 => "0100001000010000"
    case D2 => "0010000100001000"
    case D3 => "0001000010000100"
    case D4 => "0000100001000010"
    case Empty => "0000000000000000"
    case Left0 => "0000100000100000"
    case Rail0 => "1011011011011011"
    case Right0 => "0100000100000100"
    case Left1 => "1000001000001000"
    case Rail1 => "0110110110110110"
    case Right1 => "0001000001000001"
    case Left2 => "0010000010000010"
    case Rail2 => "1101101101101101"
    case Right2 => "0000010000010000"
    case Post1 => "0100010001000100"
    case Post2 => "0010001000100010"
    case Post3 => "0001000100010001"
    case Full => "1111111111111111"
  }

  type Mask = seq<Row>

  /** dm[y][x] */
  predicate Bit(m: Mask, y: nat, x: nat)
    requires y < |m| && x < 16
  {
    Bits(m[y])[x] == '1'
  }

  function Diag5(which: nat): (m: Mask)
    ensures |m| == 16
  {
    match which
    case 0 => [D0, D4, D3, D2, D1, D0, D4, D3, D2, D1, D0, D4, D3, D2, D1, D0]
    case 1 => [D1, D0, D4, D3, D2, D1, D0, D4, D3, D2, D1, D0, D4, D3, D2, D1]
    case 2 => [D2, D1, D0, D4, D3, D2, D1, D0, D4, D3, D2, D1, D0, D4, D3, D2]
    case 3 => [D3, D2, D1, D0, D4, D3, D2, D1, D0, D4, D3, D2, D1, D0, D4, D3]
    case _ => [D4, D3, D2, D1, D0, D4, D3, D2, D1, D0, D4, D3, D2, D1, D0, D4]
  }

  function Diag5r(which: nat): (m: Mask)
    ensures |m| == 16
  {
    match which
    case 0 => [D1, D2, D3, D4, D0, D1, D2, D3, D4, D0, D1, D2, D3, D4, D0, D1]
    case 1 => [D2, D3, D4, D0, D1, D2, D3, D4, D0, D1, D2, D3, D4, D0, D1, D2]
    case 2 => [D3, D4, D0, D1, D2, D3, D4, D0, D1, D2, D3, D4, D0, D1, D2, D3]
    case 3 => [D4, D0, D1, D2, D3, D4, D0, D1, D2, D3, D4, D0, D1, D2, D3, D4]
    case _ => [D0, D1, D2, D3, D4, D0, D1, D2, D3, D4, D0, D1, D2, D3, D4, D0]
  }

  function Ladder(which: nat): (m: Mask)
    ensures |m| == 16
  {
    match which
    case 0 => [Empty, Left0, Rail0, Right0, Empty, Left0, Rail0, Right0, Empty, Left0, Rail0, Right0, Empty, Left0, Rail0, Right0]
    case 1 => [Empty, Left1, Rail1, Right1, Empty, Left1, Rail1, Right1, Empty, Left1, Rail1, Right1, Empty, Left1, Rail1, Right1]
    case _ => [Empty, Left2, Rail2, Right2, Empty, Left2, Rail2, Right2, Empty, Left2, Rail2, Right2, Empty, Left2, Rail2, Right2]
  }

  function Ladderr(which: nat): (m: Mask)
    ensures |m| == 16
  {
    match which
    case 0 => [Post2, Post2, Post3, Post2, Post2, Post1, Post2, Post2, Post3, Post2, Post2, Post1, Post2, Post2, Post3, Post2]
    case 1 => [Post2, Post1, Post2, Post2, Post3, Post2, Post2, Post1, Post2, Post2, Post3, Post2, Post2, Post1, Post2, Post2]
    case _ => [Post3, Post2, Post2, Post1, Post2, Post2, Post3, Post2, Post2, Post1, Post2, Post2, Post3, Post2, Post2, Post1]
  }

  const ALL_TILES: Mask := [Full, Full, Full, Full, Full, Full, Full, Full, Full, Full, Full, Full, Full, Full, Full, Full]

  // ---- what the rows and the tables come to ----
  // Coordinates are split as 5 * q + r (4, 6) to keep the arithmetic linear.

  /** A mask that repeats its first five rows. */
  lemma RepeatsFive(m: Mask, a: Row, b: Row, c: Row, d: Row, e: Row, q: nat, r: nat)
    requires m == [a, b, c, d, e, a, b, c, d, e, a, b, c, d, e, a]
    requires r < 5 && 5 * q + r < 16
    ensures m[5 * q + r] == if r == 0 then a else if r == 1 then b else if r == 2 then c else if r == 3 then d else e
  {
    match q
    case 0 =>
    case 1 =>
    case 2 =>
    case _ =>
  }

  /** A mask that repeats its first four rows. */
  lemma RepeatsFour(m: Mask, a: Row, b: Row, c: Row, d: Row, q: nat, r: nat)
    requires m == [a, b, c, d, a, b, c, d, a, b, c, d, a, b, c, d]
    requires r < 4 && 4 * q + r < 16
    ensures m[4 * q + r] == if r == 0 then a else if r == 1 then b else if r == 2 then c else d
  {
  }

  /** A mask that repeats its first six rows. */
  lemma RepeatsSix(m: Mask, a: Row, b: Row, c: Row, d: Row, e: Row, f: Row, q: nat, r: nat)
    requires m == [a, b, c, d, e, f, a, b, c, d, e, f, a, b, c, d]
    requires r < 6 && 6 * q + r < 16
    ensures m[6 * q + r] == if r == 0 then a else if r == 1 then b else if r == 2 then c else if r == 3 then d else if r == 4 then e else f
  {
    match q
    case 0 =>
    case 1 =>
    case _ =>
  }

  function Diagonal(k: int): Row {
    if k == 0 then D0 else if k == 1 then D1 else if k == 2 then D2 else if k == 3 then D3 else D4
  }

  lemma DiagonalBits(k: nat, q: nat, r: nat)
    requires k < 5 && r < 5 && 5 * q + r < 16
    ensures Bits(Diagonal(k))[5 * q + r] == '1' <==> r == k
  {
    match k
    case 0 =>
    case 1 =>
    case 2 =>
    case 3 =>
    case _ =>
  }

  /** The distance down a diagonal, in 0..4. */
  function Wrap(k: int): int {
    if k < 0 then k + 5 else if k >= 5 then k - 5 else k
  }

  lemma Diag5Row(which: nat, q: nat, r: nat)
    requires which < 5 && r < 5 && 5 * q + r < 16
    ensures Diag5(which)[5 * q + r] == Diagonal(Wrap(which - r))
  {
    match which
    case 0 => RepeatsFive(Diag5(0), D0, D4, D3, D2, D1, q, r);
    case 1 => RepeatsFive(Diag5(1), D1, D0, D4, D3, D2, q, r);
    case 2 => RepeatsFive(Diag5(2), D2, D1, D0, D4, D3, q, r);
    case 3 => RepeatsFive(Diag5(3), D3, D2, D1, D0, D4, q, r);
    case _ => RepeatsFive(Diag5(4), D4, D3, D2, D1, D0, q, r);
  }

  lemma Diag5rRow(which: nat, q: nat, r: nat)
    requires which < 5 && r < 5 && 5 * q + r < 16
    ensures Diag5r(which)[5 * q + r] == Diagonal(Wrap(Wrap(which + 1) + r))
  {
    match which
    case 0 => RepeatsFive(Diag5r(0), D1, D2, D3, D4, D0, q, r);
    case 1 => RepeatsFive(Diag5r(1), D2, D3, D4, D0, D1, q, r);
    case 2 => RepeatsFive(Diag5r(2), D3, D4, D0, D1, D2, q, r);
    case 3 => RepeatsFive(Diag5r(3), D4, D0, D1, D2, D3, q, r);
    case _ => RepeatsFive(Diag5r(4), D0, D1, D2, D3, D4, q, r);
  }

  /** Adding a multiple of five does not change which side of a congruence holds. */
  lemma SameResidue(a: int, b: int, d: int, k: int)
    requires a - b == d + 5 * k
    ensures a % 5 == b % 5 <==> d % 5 == 0
  {
  }

  /** Which diag5 mask a block gets, and the line the masks draw together: X + Y is y_max - 1 modulo 5. */
  lemma Diag5Seamless(bc: nat, br: nat, yMax: nat, x: nat, y: nat)
    requires br < yMax && x < 16 && y < 16
    ensures Bit(Diag5((4 * bc + (yMax - 1 - br)) % 5), y, x) <==> (16 * bc + x + 16 * br + y) % 5 == (yMax - 1) % 5
  {
    hide Bits, Diag5;
    var n := 4 * bc + (yMax - 1 - br);
    Diag5Row(n % 5, y / 5, y % 5);
    DiagonalBits(Wrap(n % 5 - y % 5), x / 5, x % 5);
    var d := x % 5 + y % 5 - n % 5;
    SameResidue(16 * bc + x + 16 * br + y, yMax - 1, d, 4 * bc + 3 * br + x / 5 + y / 5 - n / 5);
  }

  /** The block arithmetic of diag5r is unsigned: with fewer than 1002 rows of blocks it does not wrap. */
  function Diag5rWhich(bc: nat, y: nat): nat {
    ((4 * bc + 1000 - y) % 0x1_0000_0000) % 5
  }

  lemma Diag5rWhichUnwrapped(bc: nat, y: nat)
    requires bc < 4096 && y <= 4 * bc + 1000
    ensures Diag5rWhich(bc, y) == (4 * bc + 1000 - y) % 5
  {
  }

  lemma WrapResidue(w: int, r: int, x: int)
    requires 0 <= w < 5 && 0 <= r < 5 && 0 <= x < 5
    ensures Wrap(Wrap(w + 1) + r) == x <==> (x - r - w - 1) % 5 == 0
  {
  }

  /** The line the diag5r masks draw together: X - Y is 2 - y_max modulo 5. */
  lemma Diag5rSeamless(bc: nat, br: nat, yMax: nat, x: nat, y: nat)
    requires bc < 4096 && br < yMax && x < 16 && y < 16
    requires yMax - 1 - br <= 4 * bc + 1000
    ensures Bit(Diag5r(Diag5rWhich(bc, yMax - 1 - br)), y, x) <==> (16 * bc + x - (16 * br + y)) % 5 == (2 - yMax) % 5
  {
    hide Bits, Diag5r, Diag5rWhich, Wrap;
    var n := 4 * bc + 1000 - (yMax - 1 - br);
    Diag5rWhichUnwrapped(bc, yMax - 1 - br);
    Diag5rLocal(n % 5, x, y);
    var d := x % 5 - y % 5 - n % 5 - 1;
    SameResidue(16 * bc + x - (16 * br + y), 2 - yMax, d, 4 * bc - 3 * br + x / 5 - y / 5 - n / 5 + 200);
  }

  lemma Diag5rLocal(which: nat, x: nat, y: nat)
    requires which < 5 && x < 16 && y < 16
    ensures Bit(Diag5r(which), y, x) <==> (x % 5 - y % 5 - which - 1) % 5 == 0
  {
    hide Bits, Diag5r, Diagonal;
    Diag5rRow(which, y / 5, y % 5);
    DiagonalBits(Wrap(Wrap(which + 1) + y % 5), x / 5, x % 5);
    WrapResidue(which, y % 5, x % 5);
  }

  /** The diag5r loops draw their line at tile (x, y) of block (bc, br). */
  predicate Diag5rDraws(bc: nat, br: nat, yMax: nat, x: nat, y: nat)
    requires br < yMax && x < 16 && y < 16
  {
    Bit(Diag5r(Diag5rWhich(bc, yMax - 1 - br)), y, x) <==> (16 * bc + x - (16 * br + y)) % 5 == (2 - yMax) % 5
  }

  /** Past that the subtraction wraps, and since 2^32 is 1 modulo 5 the block gets the mask of another line:
      every tile of the map is drawn right if and only if it has at most 1001 rows of blocks. */
  lemma Diag5rExactlyUpTo1001(xMax: nat, yMax: nat)
    requires 0 < xMax <= 4096 && yMax <= 4096
    ensures (forall bc: nat, br: nat, x: nat, y: nat | bc < xMax && br < yMax && x < 16 && y < 16 ::
               Diag5rDraws(bc, br, yMax, x, y)) <==> yMax <= 1001
  {
    hide Diag5rDraws;
    if yMax <= 1001 {
      forall bc: nat, br: nat, x: nat, y: nat | bc < xMax && br < yMax && x < 16 && y < 16
        ensures Diag5rDraws(bc, br, yMax, x, y)
      {
        Diag5rDrawsUnwrapped(bc, br, yMax, x, y);
      }
    } else {
      Diag5rMissesTile(yMax);
      assert !Diag5rDraws(0, yMax - 1002, yMax, 2, 1) by { Diag5rDrawsIs(0, yMax - 1002, yMax, 2, 1); }
    }
  }

  lemma Diag5rDrawsIs(bc: nat, br: nat, yMax: nat, x: nat, y: nat)
    requires br < yMax && x < 16 && y < 16
    ensures Diag5rDraws(bc, br, yMax, x, y) <==>
      (Bit(Diag5r(Diag5rWhich(bc, yMax - 1 - br)), y, x) <==> (16 * bc + x - (16 * br + y)) % 5 == (2 - yMax) % 5)
  {
  }

  lemma Diag5rDrawsUnwrapped(bc: nat, br: nat, yMax: nat, x: nat, y: nat)
    requires bc < 4096 && br < yMax <= 1001 && x < 16 && y < 16
    ensures Diag5rDraws(bc, br, yMax, x, y)
  {
    hide Bit, Diag5r, Diag5rWhich;
    Diag5rSeamless(bc, br, yMax, x, y);
  }

  /** A tile of the block in the first column, 1001 rows up from the bottom, is drawn though it is not on the
      line. It is not on the border of the map. */
  lemma Diag5rMissesTile(yMax: nat)
    requires 1001 < yMax <= 4096
    ensures Bit(Diag5r(Diag5rWhich(0, 1001)), 1, 2) && (2 - (16 * (yMax - 1002) + 1)) % 5 != (2 - yMax) % 5
  {
    hide Bit, Diag5r;
    assert Diag5rWhich(0, 1001) == 0;
    Diag5rLocal(0, 2, 1);
    SameResidue(2 - (16 * (yMax - 1002) + 1), 2 - yMax, 1, 3206 - 3 * yMax);
  }

  /** The ladder in global coordinates: period six across and four down. */
  predicate LadderAt(x: int, y: int) {
    if y % 4 == 0 then false
    else if y % 4 == 1 then x % 6 == 4
    else if y % 4 == 2 then x % 6 != 1 && x % 6 != 4
    else x % 6 == 1
  }

  /** The rotated ladder: period four across and six down. */
  predicate LadderrAt(x: int, y: int) {
    x % 4 == if y % 6 == 2 then 3 else if y % 6 == 5 then 1 else 2
  }

  function LadderRow(which: int, r: int): Row {
    if r == 0 then Empty
    else if r == 1 then (if which == 0 then Left0 else if which == 1 then Left1 else Left2)
    else if r == 2 then (if which == 0 then Rail0 else if which == 1 then Rail1 else Rail2)
    else (if which == 0 then Right0 else if which == 1 then Right1 else Right2)
  }

  lemma LadderRows(which: nat, q: nat, r: nat)
    requires which < 3 && r < 4 && 4 * q + r < 16
    ensures Ladder(which)[4 * q + r] == LadderRow(which, r)
  {
    match which
    case 0 => RepeatsFour(Ladder(0), Empty, Left0, Rail0, Right0, q, r);
    case 1 => RepeatsFour(Ladder(1), Empty, Left1, Rail1, Right1, q, r);
    case _ => RepeatsFour(Ladder(2), Empty, Left2, Rail2, Right2, q, r);
  }

  /** The rungs and rails of one row, with x = 6 * q + r and 16 * which congruent to 4 * which modulo 6. */
  lemma LadderBits(which: nat, row: nat, q: nat, r: nat)
    requires which < 3 && row < 4 && r < 6 && 6 * q + r < 16
    ensures Bits(LadderRow(which, row))[6 * q + r] == '1' <==> LadderAt(4 * which + r, row)
  {
    hide Bits, LadderRow, LadderAt;
    if row == 0 {
      GapBits(which, q, r);
    } else if row == 1 {
      LeftBits(which, q, r);
    } else if row == 2 {
      RailBits(which, q, r);
    } else {
      RightBits(which, q, r);
    }
  }

  lemma GapBits(which: nat, q: nat, r: nat)
    requires which < 3 && r < 6 && 6 * q + r < 16
    ensures Bits(LadderRow(which, 0))[6 * q + r] == '1' <==> LadderAt(4 * which + r, 0)
  {
  }

  lemma LeftBits(which: nat, q: nat, r: nat)
    requires which < 3 && r < 6 && 6 * q + r < 16
    ensures Bits(LadderRow(which, 1))[6 * q + r] == '1' <==> LadderAt(4 * which + r, 1)
  {
    match which
    case 0 =>
    case 1 =>
    case _ =>
  }

  lemma RailBits(which: nat, q: nat, r: nat)
    requires which < 3 && r < 6 && 6 * q + r < 16
    ensures Bits(LadderRow(which, 2))[6 * q + r] == '1' <==> LadderAt(4 * which + r, 2)
  {
    match which
    case 0 =>
    case 1 =>
    case _ =>
  }

  lemma RightBits(which: nat, q: nat, r: nat)
    requires which < 3 && r < 6 && 6 * q + r < 16
    ensures Bits(LadderRow(which, 3))[6 * q + r] == '1' <==> LadderAt(4 * which + r, 3)
  {
    match which
    case 0 =>
    case 1 =>
    case _ =>
  }

  lemma LadderAtPeriodic(x: int, y: int, i: int, j: int)
    ensures LadderAt(x + 6 * i, y + 4 * j) <==> LadderAt(x, y)
  {
  }

  /** The ladder masks draw one ladder over the whole map. */
  lemma LadderSeamless(bc: nat, br: nat, x: nat, y: nat)
    requires x < 16 && y < 16
    ensures Bit(Ladder(bc % 3), y, x) <==> LadderAt(16 * bc + x, 16 * br + y)
  {
    hide Bits, Ladder, LadderAt, LadderRow;
    LadderRows(bc % 3, y / 4, y % 4);
    LadderBits(bc % 3, y % 4, x / 6, x % 6);
    LadderAtPeriodic(4 * (bc % 3) + x % 6, y % 4, 2 * (bc % 3) + 8 * (bc / 3) + x / 6, 4 * br + y / 4);
    assert 4 * (bc % 3) + x % 6 + 6 * (2 * (bc % 3) + 8 * (bc / 3) + x / 6) == 16 * bc + x;
    assert y % 4 + 4 * (4 * br + y / 4) == 16 * br + y;
  }

  function Post(r: int): Row {
    if r == 2 then Post3 else if r == 5 then Post1 else Post2
  }

  lemma LadderrRows(which: nat, q: nat, r: nat)
    requires which < 3 && r < 6 && 6 * q + r < 16
    ensures Ladderr(which)[6 * q + r] == Post((4 * which + r) % 6)
  {
    match which
    case 0 => RepeatsSix(Ladderr(0), Post2, Post2, Post3, Post2, Post2, Post1, q, r);
    case 1 => RepeatsSix(Ladderr(1), Post2, Post1, Post2, Post2, Post3, Post2, q, r);
    case _ => RepeatsSix(Ladderr(2), Post3, Post2, Post2, Post1, Post2, Post2, q, r);
  }

  lemma PostBits(row: nat, q: nat, r: nat)
    requires row < 6 && r < 4 && 4 * q + r < 16
    ensures Bits(Post(row))[4 * q + r] == '1' <==> LadderrAt(r, row)
  {
  }

  lemma LadderrAtPeriodic(x: int, y: int, i: int, j: int)
    ensures LadderrAt(x + 4 * i, y + 6 * j) <==> LadderrAt(x, y)
  {
  }

  /** And the rotated masks one rotated ladder. */
  lemma LadderrSeamless(bc: nat, br: nat, x: nat, y: nat)
    requires x < 16 && y < 16
    ensures Bit(Ladderr(br % 3), y, x) <==> LadderrAt(16 * bc + x, 16 * br + y)
  {
    hide Bits, Ladderr, LadderrAt, Post;
    var n := 4 * (br % 3) + y % 6;
    LadderrRows(br % 3, y / 6, y % 6);
    PostBits(n % 6, x / 4, x % 4);
    LadderrAtPeriodic(x % 4, n % 6, 4 * bc + x / 4, n / 6 + 2 * (br % 3) + 8 * (br / 3) + y / 6);
    assert x % 4 + 4 * (4 * bc + x / 4) == 16 * bc + x;
    assert n % 6 + 6 * (n / 6 + 2 * (br % 3) + 8 * (br / 3) + y / 6) == 16 * br + y;
  }
}
