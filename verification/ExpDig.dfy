/** plugins/vdig.cpp: expdig stamps one mask per block over a whole z-level. */
module ExpDig {
  import opened MapModel
  import D = DigMasks

  datatype How = Diag5 | Diag5r | Ladder | Ladderr | Clear

  datatype What = All | Hidden | Designated

  datatype Tile = Tile(construction: bool, isWall: bool, hidden: bool)

  /** What the filter makes of one tile the pattern covers, or does not. Visible constructions and
      visible tiles that are no wall are never touched. */
  function StampTile(t: Tile, dig: Dig, bit: bool, how: How, what: What): Dig {
    if !t.hidden && (t.construction || !t.isWall) then dig
    else if how == Clear then No
    else if bit then
      if what == All || (what == Designated && dig == Default) || (what == Hidden && t.hidden) then Default else dig
    else if what == Designated then No
    else dig
  }

  /** The filter lets the pattern through at a tile that is hidden, or a natural wall. */
  predicate Stampable(t: Tile) {
    t.hidden || (t.isWall && !t.construction)
  }

  /** What each option comes to: clearing takes every order away; All orders the pattern, Hidden the hidden part of
      it, and Designated takes the orders outside the pattern away and adds none. */
  lemma FilterIs(t: Tile, dig: Dig, bit: bool, how: How, what: What)
    ensures var after := StampTile(t, dig, bit, how, what);
      && (!Stampable(t) ==> after == dig)
      && (Stampable(t) && how == Clear ==> after == No)
      && (Stampable(t) && how != Clear && what == All ==> after == if bit then Default else dig)
      && (Stampable(t) && how != Clear && what == Hidden ==> after == if bit && t.hidden then Default else dig)
      && (Stampable(t) && how != Clear && what == Designated ==> after == if bit then dig else No)
  {
  }

  /** The patterns in global tile coordinates. */
  predicate Pattern(how: How, yMax: nat, x: int, y: int) {
    match how
    case Diag5 => (x + y) % 5 == (yMax - 1) % 5
    case Diag5r => (x - y) % 5 == (2 - yMax) % 5
    case Ladder => D.LadderAt(x, y)
    case Ladderr => D.LadderrAt(x, y)
    case Clear => true
  }

  class Level {
    const xMax: nat                    // in blocks
    const yMax: nat
    const blocks: set<(nat, nat)>      // the blocks Maps::getBlock finds
    const tiles: (nat, nat) -> Tile    // by global coordinates
    const dig: array2<Dig>
    var flagged: set<(nat, nat)>       // blocks whose designated flag is set

    /** Tile coordinates are sixteen bits wide. */
    ghost predicate Valid() {
      && xMax <= 4096 && yMax <= 4096
      && dig.Length0 == 16 * xMax && dig.Length1 == 16 * yMax
    }

    predicate OnBorder(x: nat, y: nat) {
      x == 0 || x == 16 * xMax - 1 || y == 0 || y == 16 * yMax - 1
    }

    /** The mask the loops of expdig choose for a block. */
    function MaskFor(how: How, bx: nat, bY: nat): (m: D.Mask)
      requires bY < yMax
      ensures |m| == 16
    {
      match how
      case Diag5 => D.Diag5((4 * bx + (yMax - 1 - bY)) % 5)
      case Diag5r => D.Diag5r(D.Diag5rWhich(bx, yMax - 1 - bY))
      case Ladder => D.Ladder(bx % 3)
      case Ladderr => D.Ladderr(bY % 3)
      case Clear => D.ALL_TILES
    }

    /** What one stamp leaves at tile (x, y) of block (bx, bY). */
    ghost function Stamped(was: Dig, m: D.Mask, how: How, what: What, bx: nat, bY: nat, x: nat, y: nat): Dig
      requires |m| == 16 && x < 16 && y < 16
    {
      if (bx, bY) !in blocks || OnBorder(16 * bx + x, 16 * bY + y) then was
      else StampTile(tiles(16 * bx + x, 16 * bY + y), was, D.Bit(m, y, x), how, what)
    }

    predicate InBlock(gx: int, gy: int, bx: nat, bY: nat) {
      16 * bx <= gx < 16 * bx + 16 && 16 * bY <= gy < 16 * bY + 16
    }

    /** The inner loop body of stamp_pattern. */
    method StampAt(gx: nat, gy: nat, bit: bool, how: How, what: What)
      requires Valid() && gx < 16 * xMax && gy < 16 * yMax
      modifies dig
      ensures forall i, j | 0 <= i < 16 * xMax && 0 <= j < 16 * yMax ::
        dig[i, j] == if i == gx && j == gy then StampTile(tiles(gx, gy), old(dig[gx, gy]), bit, how, what) else old(dig[i, j])
    {
      var t := tiles(gx, gy);
      if t.construction && !t.hidden {
        return;
      }
      if !t.isWall && !t.hidden {
        return;
      }
      if how == Clear {
        dig[gx, gy] := No;
        return;
      }
      if bit {
        if what == All || (dig[gx, gy] == Default && what == Designated) || (t.hidden && what == Hidden) {
          dig[gx, gy] := Default;
        }
      } else if what == Designated {
        dig[gx, gy] := No;
      }
    }

    /** One column of a block. */
    method StampColumn(bx: nat, bY: nat, x: nat, m: D.Mask, how: How, what: What)
      requires Valid() && bx < xMax && bY < yMax && |m| == 16 && (bx, bY) in blocks
      requires x < 16 && 0 < 16 * bx + x < 16 * xMax - 1
      modifies dig
      ensures forall i, j | 0 <= i < 16 * xMax && 0 <= j < 16 * yMax ::
        dig[i, j] == if i == 16 * bx + x && InBlock(i, j, bx, bY) then Stamped(old(dig[i, j]), m, how, what, bx, bY, x, j - 16 * bY)
                     else old(dig[i, j])
    {
      hide StampTile, D.Bit;
      var y, my := if bY == 0 then 1 else 0, if bY == yMax - 1 then 15 else 16;
      while y < my
        invariant y <= my
        invariant forall i, j | 0 <= i < 16 * xMax && 0 <= j < 16 * yMax ::
          dig[i, j] == if i == 16 * bx + x && 16 * bY <= j < 16 * bY + y then Stamped(old(dig[i, j]), m, how, what, bx, bY, x, j - 16 * bY)
                       else old(dig[i, j])
      {
        StampAt(16 * bx + x, 16 * bY + y, D.Bit(m, y, x), how, what);
        y := y + 1;
      }
    }

    /** stamp_pattern: every tile of the block but those on the map's border. */
    method StampPattern(bx: nat, bY: nat, m: D.Mask, how: How, what: What) returns (found: bool)
      requires Valid() && bx < xMax && bY < yMax && |m| == 16
      modifies dig, `flagged
      ensures found <==> (bx, bY) in blocks
      ensures flagged == if found then old(flagged) + {(bx, bY)} else old(flagged)
      ensures forall i, j | 0 <= i < 16 * xMax && 0 <= j < 16 * yMax ::
        dig[i, j] == if InBlock(i, j, bx, bY) then Stamped(old(dig[i, j]), m, how, what, bx, bY, i - 16 * bx, j - 16 * bY)
                     else old(dig[i, j])
    {
      hide StampTile, D.Bit;
      if (bx, bY) !in blocks {
        return false;
      }
      var x, mx := if bx == 0 then 1 else 0, if bx == xMax - 1 then 15 else 16;
      while x < mx
        invariant x <= mx && flagged == old(flagged)
        invariant forall i, j | 0 <= i < 16 * xMax && 0 <= j < 16 * yMax ::
          dig[i, j] == if InBlock(i, j, bx, bY) && i < 16 * bx + x then Stamped(old(dig[i, j]), m, how, what, bx, bY, i - 16 * bx, j - 16 * bY)
                       else old(dig[i, j])
      {
        StampColumn(bx, bY, x, m, how, what);
        x := x + 1;
      }
      flagged := flagged + {(bx, bY)};
      found := true;
    }

    /** What expdig leaves at a tile: the filter applied to the global pattern, except on the border and
        where there is no block. */
    ghost function Painted(was: Dig, how: How, what: What, bx: nat, bY: nat, gx: nat, gy: nat): Dig {
      if (bx, bY) !in blocks || OnBorder(gx, gy) then was
      else StampTile(tiles(gx, gy), was, Pattern(how, yMax, gx, gy), how, what)
    }

    /** The masks join into the pattern: stamping a block paints its part of it. */
    lemma StampPaints(was: Dig, how: How, what: What, bx: nat, bY: nat, x: nat, y: nat)
      requires Valid() && bx < xMax && bY < yMax && x < 16 && y < 16
      requires how == Diag5r ==> yMax <= 1001
      ensures Stamped(was, MaskFor(how, bx, bY), how, what, bx, bY, x, y)
        == Painted(was, how, what, bx, bY, 16 * bx + x, 16 * bY + y)
    {
      hide D.Bit, D.Diag5, D.Diag5r, D.Diag5rWhich, D.Ladder, D.Ladderr, D.LadderAt, D.LadderrAt;
      match how
      case Diag5 => D.Diag5Seamless(bx, bY, yMax, x, y);
      case Diag5r => D.Diag5rSeamless(bx, bY, yMax, x, y);
      case Ladder => D.LadderSeamless(bx, bY, x, y);
      case Ladderr => D.LadderrSeamless(bx, bY, x, y);
      case Clear =>
    }

    /** On a taller map diag5r designates a tile that is not on its line and not on the border. */
    lemma Diag5rPaintsWrong()
      requires Valid() && 0 < xMax && 1001 < yMax
      requires (0, yMax - 1002) in blocks && Stampable(tiles(2, 16 * (yMax - 1002) + 1))
      ensures Stamped(No, MaskFor(Diag5r, 0, yMax - 1002), Diag5r, All, 0, yMax - 1002, 2, 1) == Default
      ensures Painted(No, Diag5r, All, 0, yMax - 1002, 2, 16 * (yMax - 1002) + 1) == No
    {
      hide D.Bit, D.Diag5r, D.Diag5rWhich;
      D.Diag5rMissesTile(yMax);
    }

    /** So what diag5r leaves at every tile is the pattern if and only if the map has at most 1001 rows of
        blocks, provided that the one tile in question can be stamped at all. */
    lemma Diag5rPaintsIff()
      requires Valid() && 0 < xMax
      requires 1001 < yMax ==> (0, yMax - 1002) in blocks && Stampable(tiles(2, 16 * (yMax - 1002) + 1))
      ensures (forall was: Dig, what: What, bx: nat, bY: nat, x: nat, y: nat
                 | bx < xMax && bY < yMax && x < 16 && y < 16 ::
                 Stamped(was, MaskFor(Diag5r, bx, bY), Diag5r, what, bx, bY, x, y)
                 == Painted(was, Diag5r, what, bx, bY, 16 * bx + x, 16 * bY + y)) <==> yMax <= 1001
    {
      hide Stamped, Painted;
      if yMax <= 1001 {
        forall was: Dig, what: What, bx: nat, bY: nat, x: nat, y: nat | bx < xMax && bY < yMax && x < 16 && y < 16
          ensures Stamped(was, MaskFor(Diag5r, bx, bY), Diag5r, what, bx, bY, x, y)
            == Painted(was, Diag5r, what, bx, bY, 16 * bx + x, 16 * bY + y)
        {
          StampPaints(was, Diag5r, what, bx, bY, x, y);
        }
      } else {
        Diag5rPaintsWrong();
      }
    }

    /** The part of expdig after its options: every block is stamped once with the mask its loops choose.
        Together that is one seamless pattern, on every map for all patterns but diag5r, and for diag5r on
        every map of up to 1001 rows of blocks; the border stays as it was. */
    method ExpDig(how: How, what: What)
      requires Valid()
      modifies dig, `flagged
      ensures forall bx, bY, i, j | 0 <= bx < xMax && 0 <= bY < yMax && InBlock(i, j, bx, bY) ::
        dig[i, j] == Stamped(old(dig[i, j]), MaskFor(how, bx, bY), how, what, bx, bY, i - 16 * bx, j - 16 * bY)
      ensures how != Diag5r || yMax <= 1001 ==>
        forall bx, bY, i, j | 0 <= bx < xMax && 0 <= bY < yMax && InBlock(i, j, bx, bY) ::
          dig[i, j] == Painted(old(dig[i, j]), how, what, bx, bY, i, j)
      ensures forall b :: b in flagged <==> b in old(flagged) || (b in blocks && b.0 < xMax && b.1 < yMax)
    {
      hide Stamped, Painted, StampTile;
      for x := 0 to xMax
        invariant forall bx, bY, i, j | 0 <= bx < xMax && 0 <= bY < yMax && InBlock(i, j, bx, bY) ::
          dig[i, j] == if bx < x then Stamped(old(dig[i, j]), MaskFor(how, bx, bY), how, what, bx, bY, i - 16 * bx, j - 16 * bY)
                       else old(dig[i, j])
        invariant forall b :: b in flagged <==> b in old(flagged) || (b in blocks && b.0 < x && b.1 < yMax)
      {
        ExpDigColumn(x, how, what);
      }
      if how != Diag5r || yMax <= 1001 {
        forall bx, bY, i, j | 0 <= bx < xMax && 0 <= bY < yMax && InBlock(i, j, bx, bY)
          ensures dig[i, j] == Painted(old(dig[i, j]), how, what, bx, bY, i, j)
        {
          StampPaints(old(dig[i, j]), how, what, bx, bY, i - 16 * bx, j - 16 * bY);
        }
      }
    }

    /** One column of blocks: the diagonal patterns go through it from the bottom, the others from the top. */
    method ExpDigColumn(x: nat, how: How, what: What)
      requires Valid() && x < xMax
      modifies dig, `flagged
      ensures forall bx, bY, i, j | 0 <= bx < xMax && 0 <= bY < yMax && InBlock(i, j, bx, bY) ::
        dig[i, j] == if bx == x then Stamped(old(dig[i, j]), MaskFor(how, bx, bY), how, what, bx, bY, i - 16 * bx, j - 16 * bY)
                     else old(dig[i, j])
      ensures forall b :: b in flagged <==> b in old(flagged) || (b in blocks && b.0 == x && b.1 < yMax)
    {
      hide Stamped, MaskFor;
      var upward := how == Diag5 || how == Diag5r;
      for y := 0 to yMax
        invariant forall bx, bY, i, j | 0 <= bx < xMax && 0 <= bY < yMax && InBlock(i, j, bx, bY) ::
          dig[i, j] == if bx == x && (if upward then yMax - 1 - bY else bY) < y
                       then Stamped(old(dig[i, j]), MaskFor(how, bx, bY), how, what, bx, bY, i - 16 * bx, j - 16 * bY)
                       else old(dig[i, j])
        invariant forall b :: b in flagged <==>
          b in old(flagged) || (b in blocks && b.0 == x && b.1 < yMax && (if upward then yMax - 1 - b.1 else b.1) < y)
      {
        var bY := if upward then yMax - 1 - y else y;
        var _ := StampPattern(x, bY, MaskFor(how, x, bY), how, what);
      }
    }
  }
}
