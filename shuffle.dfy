/**
 * The key-independent shuffle of the proposed cipher: an image whose height
 * and width are multiples of 64 is cut into meta-blocks of 64 x 64, each made
 * of 16 x 16 blocks of 4 x 4. The block at (blockRow, blockCol) of a
 * meta-block moves to the block named by the nibbles of the S-box entry at
 * (blockRow, blockCol) when shuffling, of the inverse S-box entry when
 * unshuffling; the meta-block and the place inside the block are kept.
 */
module Shuffle {
  import opened GF
  import opened Tables
  import opened StateOps

  /** Side of a meta-block. */
  const MetaSide := 64

  /** Side of a block. */
  const BlockSide := 4

  /** The index with meta-block `meta`, block `block` inside it and offset `offset` inside the block. */
  function Place(meta: int, block: int, offset: int): int
  {
    meta * MetaSide + block * BlockSide + offset
  }

  /** Division by 64 with remainder, read back from a quotient and a remainder. */
  lemma DivMod64(i: int, q: int, r: int)
    requires i == 64 * q + r && 0 <= r < 64
    ensures i / 64 == q && i % 64 == r
  {
  }

  /** Division by 4 with remainder, read back from a quotient and a remainder. */
  lemma DivMod4(i: int, q: int, r: int)
    requires i == 4 * q + r && 0 <= r < 4
    ensures i / 4 == q && i % 4 == r
  {
  }

  /** An index is the place of its meta-block, its block and its offset. */
  lemma PlaceParts(i: nat)
    ensures Place(i / MetaSide, (i % MetaSide) / BlockSide, i % BlockSide) == i
  {
    var q, r := i / 64, i % 64;
    var b, o := r / 4, r % 4;
    DivMod4(i, 16 * q + b, o);
  }

  /** The meta-block, block and offset of a place can be read back from it. */
  lemma PartsOfPlace(meta: nat, block: int, offset: int)
    requires 0 <= block < 16 && 0 <= offset < BlockSide
    ensures Place(meta, block, offset) / MetaSide == meta
    ensures (Place(meta, block, offset) % MetaSide) / BlockSide == block
    ensures Place(meta, block, offset) % BlockSide == offset
  {
    var p, r := Place(meta, block, offset), 4 * block + offset;
    DivMod64(p, meta, r);
    DivMod4(r, block, offset);
    DivMod4(p, 16 * meta + block, offset);
  }

  /**
   * Where shuffleMatrix moves the element at (row, col) when it looks blocks
   * up in `table`: the S-box (LookupTable(true)) to shuffle, the inverse
   * S-box to unshuffle. The destination lies in the same meta-block, at the
   * same offset inside its block, so it stays in range in an image whose
   * sides are multiples of 64.
   */
  function Destination(row: nat, col: nat, table: Grid): (d: (nat, nat))
    requires IsGrid(table, 16, 16)
    ensures d.0 / MetaSide == row / MetaSide && d.1 / MetaSide == col / MetaSide
    ensures d.0 % BlockSide == row % BlockSide && d.1 % BlockSide == col % BlockSide
  {
    var blockRow := (row % MetaSide) / BlockSide;
    var blockCol := (col % MetaSide) / BlockSide;
    var entry := table[blockRow][blockCol];
    PartsOfPlace(row / MetaSide, Hi(entry), row % BlockSide);
    PartsOfPlace(col / MetaSide, Lo(entry), col % BlockSide);
    (Place(row / MetaSide, Hi(entry), row % BlockSide), Place(col / MetaSide, Lo(entry), col % BlockSide))
  }

  /** A destination inside an image whose sides are multiples of 64 is inside the image. */
  lemma DestinationInRange(row: nat, col: nat, table: Grid, h: nat, w: nat)
    requires IsGrid(table, 16, 16) && h % MetaSide == 0 && w % MetaSide == 0 && row < h && col < w
    ensures Destination(row, col, table).0 < h && Destination(row, col, table).1 < w
  {
    var d := Destination(row, col, table);
    SameMetaBlockInRange(row, d.0, h);
    SameMetaBlockInRange(col, d.1, w);
  }

  /** An index in the same meta-block as an index below a multiple of 64 is below it too. */
  lemma SameMetaBlockInRange(i: nat, j: nat, n: nat)
    requires n % MetaSide == 0 && i < n && j / MetaSide == i / MetaSide
    ensures j < n
  {
    var q, k := i / MetaSide, n / MetaSide;
    assert n == k * MetaSide;
    assert q * MetaSide <= i;
    assert q < k;
    assert j < q * MetaSide + MetaSide;
  }

  /** Unshuffling the destination of a shuffle, or shuffling that of an unshuffle, gives the place back. */
  lemma DestinationInverse(row: nat, col: nat, shuffle: bool)
    ensures var d := Destination(row, col, LookupTable(shuffle)); Destination(d.0, d.1, LookupTable(!shuffle)) == (row, col)
  {
    var blockRow := (row % MetaSide) / BlockSide;
    var blockCol := (col % MetaSide) / BlockSide;
    var entry := LookupTable(shuffle)[blockRow][blockCol];
    var d := Destination(row, col, LookupTable(shuffle));
    PartsOfPlace(row / MetaSide, Hi(entry), row % BlockSide);
    PartsOfPlace(col / MetaSide, Lo(entry), col % BlockSide);
    assert (d.0 % MetaSide) / BlockSide == Hi(entry) && (d.1 % MetaSide) / BlockSide == Lo(entry);
    var back := LookupTable(!shuffle)[Hi(entry)][Lo(entry)];
    if shuffle {
      InverseEntryNibbles(blockRow, blockCol);
    } else {
      ForwardEntryNibbles(blockRow, blockCol);
    }
    assert Hi(back) == blockRow && Lo(back) == blockCol;
    PlaceParts(row);
    PlaceParts(col);
  }

  /** Two places with the same destination are the same place. */
  lemma DestinationInjective(r1: nat, c1: nat, r2: nat, c2: nat, shuffle: bool)
    ensures Destination(r1, c1, LookupTable(shuffle)) == Destination(r2, c2, LookupTable(shuffle)) ==> r1 == r2 && c1 == c2
  {
    DestinationInverse(r1, c1, shuffle);
    DestinationInverse(r2, c2, shuffle);
  }

  /** No other place has the destination of (row, col). */
  lemma DestinationUnique(row: nat, col: nat, table: Grid, shuffle: bool)
    requires table == LookupTable(shuffle)
    ensures forall r: nat, c: nat :: Destination(r, c, table) == Destination(row, col, table) ==> r == row && c == col
  {
    forall r: nat, c: nat ensures Destination(r, c, table) == Destination(row, col, table) ==> r == row && c == col {
      DestinationInjective(r, c, row, col, shuffle);
    }
  }

  /** Whether the grid is an image the shuffle accepts: h x w with both sides multiples of 64. */
  predicate ShuffleShape(g: Grid, h: nat, w: nat)
  {
    IsGrid(g, h, w) && h % MetaSide == 0 && w % MetaSide == 0
  }

  /**
   * The image shuffleMatrix returns, read cell by cell: the element at
   * (row, col) comes from the destination of (row, col) under the opposite
   * table, since the two tables invert each other's destinations
   * (ShuffledMoves).
   */
  function Shuffled(g: Grid, h: nat, w: nat, shuffle: bool): (r: Grid)
    requires ShuffleShape(g, h, w)
    ensures ShuffleShape(r, h, w)
  {
    seq(h, row requires 0 <= row < h => seq(w, col requires 0 <= col < w =>
      DestinationInRange(row, col, LookupTable(!shuffle), h, w);
      g[Destination(row, col, LookupTable(!shuffle)).0][Destination(row, col, LookupTable(!shuffle)).1]))
  }

  /** Shuffling moves every element of the image to its destination. */
  lemma ShuffledMoves(g: Grid, h: nat, w: nat, shuffle: bool, row: nat, col: nat)
    requires ShuffleShape(g, h, w) && row < h && col < w
    ensures var d := Destination(row, col, LookupTable(shuffle)); d.0 < h && d.1 < w && Shuffled(g, h, w, shuffle)[d.0][d.1] == g[row][col]
  {
    DestinationInRange(row, col, LookupTable(shuffle), h, w);
    DestinationInverse(row, col, shuffle);
  }

  /** Unshuffling a shuffled image gives it back. */
  lemma ShuffleRoundTrip(g: Grid, h: nat, w: nat)
    requires ShuffleShape(g, h, w)
    ensures Shuffled(Shuffled(g, h, w, true), h, w, false) == g
  {
    var s := Shuffled(g, h, w, true);
    var u := Shuffled(s, h, w, false);
    forall row, col | 0 <= row < h && 0 <= col < w ensures u[row][col] == g[row][col] {
      var d := Destination(row, col, LookupTable(true));
      ShuffledMoves(g, h, w, true, row, col);
      DestinationInverse(row, col, true);
      assert u[row][col] == s[d.0][d.1];
    }
    assert forall row | 0 <= row < h :: u[row] == g[row];
  }
}
