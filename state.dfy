/**
 * The round functions of the cipher as they act on a 4 x 4 state of bytes,
 * indexed [row][column] as in FIPS-197 section 3.4. A flag selects the
 * encryption direction (true) or the decryption direction (false), as the
 * `encrypt` argument of the source's round functions does.
 */
module StateOps {
  import opened GF
  import opened Tables
  import MixProof

  /** Number of columns of the state (Nb of FIPS-197). */
  const Nb := 4

  type Grid = seq<seq<byte>>

  /** A grid of `rows` rows of `cols` bytes each. */
  predicate IsGrid(g: Grid, rows: nat, cols: nat)
  {
    |g| == rows && forall r | 0 <= r < rows :: |g[r]| == cols
  }

  /** The state and also one round key: four rows of Nb bytes. */
  type State = g: Grid | IsGrid(g, 4, Nb) witness [[0, 0, 0, 0], [0, 0, 0, 0], [0, 0, 0, 0], [0, 0, 0, 0]]

  /** Column index c moved k places to the right, cyclically: (c + k) mod Nb. */
  function Rotated(c: int, k: int): (r: int)
    requires 0 <= c < Nb && 0 <= k <= Nb
    ensures 0 <= r < Nb && (r - c - k) % Nb == 0
  {
    if c + k < Nb then c + k else c + k - Nb
  }

  /** Rotation of a row by `k` places to the left: the entry at Rotated(i, k) moves to i. */
  function RotateLeft(row: seq<byte>, k: int): (r: seq<byte>)
    requires |row| == Nb && 0 <= k <= Nb
    ensures |r| == Nb
    ensures forall i | 0 <= i < Nb :: r[i] == row[Rotated(i, k)]
  {
    row[k..] + row[..k]
  }

  /** The amount by which ShiftRow rotates left: shiftBy when encrypting, Nb - shiftBy when decrypting. */
  function ShiftAmount(shiftBy: int, encrypt: bool): int
  {
    if encrypt then shiftBy else Nb - shiftBy
  }

  /**
   * Row `rowIndex` rotated left by `shiftBy` when encrypting and by Nb - shiftBy,
   * that is right by `shiftBy`, when decrypting; every other row is unchanged.
   */
  function ShiftRow(s: State, rowIndex: int, shiftBy: int, encrypt: bool): (r: State)
    requires 0 <= rowIndex < 4 && 0 <= shiftBy <= Nb
    ensures forall i | 0 <= i < 4 && i != rowIndex :: r[i] == s[i]
    ensures forall c | 0 <= c < Nb :: r[rowIndex][c] == s[rowIndex][Rotated(c, ShiftAmount(shiftBy, encrypt))]
  {
    s[rowIndex := RotateLeft(s[rowIndex], ShiftAmount(shiftBy, encrypt))]
  }

  /** ShiftRows of FIPS-197 section 5.1.2 (encrypt) and InvShiftRows of section 5.3.1. */
  function OriginalShiftRows(s: State, encrypt: bool): (r: State)
    ensures forall i, c | 0 <= i < 4 && 0 <= c < Nb :: r[i][c] == s[i][Rotated(c, ShiftAmount(i, encrypt))]
  {
    ShiftRow(ShiftRow(ShiftRow(s, 1, 1, encrypt), 2, 2, encrypt), 3, 3, encrypt)
  }

  /** Whether the modified row shift takes its first case: s[0][0] is odd. */
  predicate OddLead(s: State)
  {
    s[0][0] % 2 != 0
  }

  /**
   * The row shift of the modified cipher. When s[0][0] is odd, rows 1 and 3
   * are shifted by 1 and 3; otherwise rows 1 and 2 are shifted by Nb - 3 and
   * Nb - 2. Row 0, and hence the choice between the two cases, never changes.
   */
  function ModifiedShiftRows(s: State, encrypt: bool): (r: State)
    ensures r[0] == s[0]
    ensures OddLead(s) ==> r[2] == s[2] && forall c | 0 <= c < Nb ::
      r[1][c] == s[1][Rotated(c, ShiftAmount(1, encrypt))] && r[3][c] == s[3][Rotated(c, ShiftAmount(3, encrypt))]
    ensures !OddLead(s) ==> r[3] == s[3] && forall c | 0 <= c < Nb ::
      r[1][c] == s[1][Rotated(c, ShiftAmount(Nb - 3, encrypt))] && r[2][c] == s[2][Rotated(c, ShiftAmount(Nb - 2, encrypt))]
  {
    if OddLead(s) then ShiftRow(ShiftRow(s, 1, 1, encrypt), 3, 3, encrypt)
    else ShiftRow(ShiftRow(s, 1, Nb - 3, encrypt), 2, Nb - 2, encrypt)
  }

  /** The S-box (encrypt) or the inverse S-box as a grid of 16 rows of 16 bytes. */
  function LookupTable(encrypt: bool): (t: Grid)
    ensures IsGrid(t, 16, 16)
  {
    seq(16, r requires 0 <= r < 16 => seq(16, c requires 0 <= c < 16 => if encrypt then SBox(r, c) else InvSBox(r, c)))
  }

  /** Looking a byte up in the table by its nibbles substitutes it. */
  lemma LookupTableEntry(encrypt: bool, x: byte)
    ensures LookupTable(encrypt)[Hi(x)][Lo(x)] == if encrypt then Sub(x) else InvSub(x)
  {
  }

  /** SubBytes (FIPS-197 section 5.1.1) or InvSubBytes (section 5.3.2) on every byte. */
  function SubBytes(s: State, encrypt: bool): State
  {
    seq(4, i requires 0 <= i < 4 => seq(Nb, j requires 0 <= j < Nb => if encrypt then Sub(s[i][j]) else InvSub(s[i][j])))
  }

  /** Entry (row, col) of the forward matrix when encrypting, of the inverse matrix otherwise. */
  function Matrix(encrypt: bool, row: int, col: int): byte
    requires 0 <= row < 4 && 0 <= col < 4
  {
    if encrypt then ForwardMatrix(row, col) else InverseMatrix(row, col)
  }

  /** Entry `entry` of the product of the matrix and column `col` of s, accumulated row by row. */
  function MixEntry(s: State, col: int, entry: int, encrypt: bool): byte
    requires 0 <= col < Nb && 0 <= entry < 4
  {
    Accumulate4(Multiply(Matrix(encrypt, entry, 0), s[0][col]), Multiply(Matrix(encrypt, entry, 1), s[1][col]),
                Multiply(Matrix(encrypt, entry, 2), s[2][col]), Multiply(Matrix(encrypt, entry, 3), s[3][col]))
  }

  /** MixColumns (FIPS-197 section 5.1.3) or InvMixColumns (section 5.3.3). */
  function MixColumns(s: State, encrypt: bool): State
  {
    seq(4, r requires 0 <= r < 4 => seq(Nb, c requires 0 <= c < Nb => MixEntry(s, c, r, encrypt)))
  }

  /** AddRoundKey (FIPS-197 section 5.1.4): the exclusive or of state and key. */
  function AddRoundKey(s: State, key: State): State
  {
    seq(4, i requires 0 <= i < 4 => seq(Nb, j requires 0 <= j < Nb => Add(s[i][j], key[i][j])))
  }

  // ----- Properties of the round functions -----

  /** Rotating by Nb - k after rotating by k returns every index to its place. */
  lemma RotatedBack(c: int, k: int)
    requires 0 <= c < Nb && 0 <= k <= Nb
    ensures Rotated(Rotated(c, Nb - k), k) == c
  {}

  /** Shifting a row back in the decryption direction undoes the shift. */
  lemma ShiftRowInverse(s: State, rowIndex: int, shiftBy: int)
    requires 0 <= rowIndex < 4 && 0 <= shiftBy <= Nb
    ensures ShiftRow(ShiftRow(s, rowIndex, shiftBy, true), rowIndex, shiftBy, false) == s
  {
    var t := ShiftRow(ShiftRow(s, rowIndex, shiftBy, true), rowIndex, shiftBy, false);
    forall c | 0 <= c < Nb ensures t[rowIndex][c] == s[rowIndex][c] {
      RotatedBack(c, shiftBy);
    }
    assert t[rowIndex] == s[rowIndex];
    assert forall i | 0 <= i < 4 :: t[i] == s[i];
  }

  /** InvShiftRows undoes ShiftRows. */
  lemma OriginalShiftRowsInverse(s: State)
    ensures OriginalShiftRows(OriginalShiftRows(s, true), false) == s
  {
    var t := OriginalShiftRows(OriginalShiftRows(s, true), false);
    forall i | 0 <= i < 4 ensures t[i] == s[i] {
      forall c | 0 <= c < Nb ensures t[i][c] == s[i][c] {
        RotatedBack(c, i);
      }
    }
  }

  /**
   * The modified row shift in the decryption direction undoes it in the
   * encryption direction: row 0 is left alone, so both take the same case.
   */
  lemma ModifiedShiftRowsInverse(s: State)
    ensures ModifiedShiftRows(ModifiedShiftRows(s, true), false) == s
  {
    var t := ModifiedShiftRows(s, true);
    var u := ModifiedShiftRows(t, false);
    assert OddLead(t) == OddLead(s);
    forall i | 0 <= i < 4 ensures u[i] == s[i] {
      forall c | 0 <= c < Nb ensures u[i][c] == s[i][c] {
        RotatedBack(c, i);
        RotatedBack(c, 1);
      }
    }
  }

  /** InvSubBytes undoes SubBytes. */
  lemma SubBytesInverse(s: State)
    ensures SubBytes(SubBytes(s, true), false) == s
  {
    var t := SubBytes(SubBytes(s, true), false);
    forall i | 0 <= i < 4 ensures t[i] == s[i] {
      forall j | 0 <= j < Nb ensures t[i][j] == s[i][j] {
        InvSubSub(s[i][j]);
      }
    }
  }

  /** Substituting bytes commutes with moving them: InvSubBytes after ShiftRows is ShiftRows after InvSubBytes. */
  lemma SubBytesShiftRows(s: State)
    ensures SubBytes(OriginalShiftRows(s, true), false) == OriginalShiftRows(SubBytes(s, false), true)
  {
    var t := SubBytes(OriginalShiftRows(s, true), false);
    var u := OriginalShiftRows(SubBytes(s, false), true);
    forall i | 0 <= i < 4 ensures t[i] == u[i] {
      forall c | 0 <= c < Nb ensures t[i][c] == u[i][c] {
      }
    }
  }

  /** The entries of MixColumns with the constants of the forward matrix written out. */
  lemma ForwardEntries(s: State, col: int)
    requires 0 <= col < Nb
    ensures MixEntry(s, col, 0, true) == Accumulate4(Multiply(0x02, s[0][col]), Multiply(0x03, s[1][col]), Multiply(0x01, s[2][col]), Multiply(0x01, s[3][col]))
    ensures MixEntry(s, col, 1, true) == Accumulate4(Multiply(0x01, s[0][col]), Multiply(0x02, s[1][col]), Multiply(0x03, s[2][col]), Multiply(0x01, s[3][col]))
    ensures MixEntry(s, col, 2, true) == Accumulate4(Multiply(0x01, s[0][col]), Multiply(0x01, s[1][col]), Multiply(0x02, s[2][col]), Multiply(0x03, s[3][col]))
    ensures MixEntry(s, col, 3, true) == Accumulate4(Multiply(0x03, s[0][col]), Multiply(0x01, s[1][col]), Multiply(0x01, s[2][col]), Multiply(0x02, s[3][col]))
  {}

  /** The entries of InvMixColumns with the constants of the inverse matrix written out. */
  lemma InverseEntries(s: State, col: int)
    requires 0 <= col < Nb
    ensures MixEntry(s, col, 0, false) == Accumulate4(Multiply(0x0E, s[0][col]), Multiply(0x0B, s[1][col]), Multiply(0x0D, s[2][col]), Multiply(0x09, s[3][col]))
    ensures MixEntry(s, col, 1, false) == Accumulate4(Multiply(0x09, s[0][col]), Multiply(0x0E, s[1][col]), Multiply(0x0B, s[2][col]), Multiply(0x0D, s[3][col]))
    ensures MixEntry(s, col, 2, false) == Accumulate4(Multiply(0x0D, s[0][col]), Multiply(0x09, s[1][col]), Multiply(0x0E, s[2][col]), Multiply(0x0B, s[3][col]))
    ensures MixEntry(s, col, 3, false) == Accumulate4(Multiply(0x0B, s[0][col]), Multiply(0x0D, s[1][col]), Multiply(0x09, s[2][col]), Multiply(0x0E, s[3][col]))
  {}

  /** Row 0 of the inverse matrix applied to the forward matrix's products of a0..a3 gives a0. */
  lemma ColumnStep0(a0: byte, a1: byte, a2: byte, a3: byte, b0: byte, b1: byte, b2: byte, b3: byte)
    requires b0 == Accumulate4(Multiply(0x02, a0), Multiply(0x03, a1), Multiply(0x01, a2), Multiply(0x01, a3))
    requires b1 == Accumulate4(Multiply(0x01, a0), Multiply(0x02, a1), Multiply(0x03, a2), Multiply(0x01, a3))
    requires b2 == Accumulate4(Multiply(0x01, a0), Multiply(0x01, a1), Multiply(0x02, a2), Multiply(0x03, a3))
    requires b3 == Accumulate4(Multiply(0x03, a0), Multiply(0x01, a1), Multiply(0x01, a2), Multiply(0x02, a3))
    ensures Accumulate4(Multiply(0x0E, b0), Multiply(0x0B, b1), Multiply(0x0D, b2), Multiply(0x09, b3)) == a0
  {
    MixProof.Row0(a0, a1, a2, a3);
  }

  /** InvMixColumns after MixColumns gives back entry 0 of column `col`. */
  lemma MixColumnInverse0(s: State, col: int)
    requires 0 <= col < Nb
    ensures MixColumns(MixColumns(s, true), false)[0][col] == s[0][col]
  {
    var m := MixColumns(s, true);
    ForwardEntries(s, col);
    InverseEntries(m, col);
    assert MixColumns(m, false)[0][col] == MixEntry(m, col, 0, false);
    ColumnStep0(s[0][col], s[1][col], s[2][col], s[3][col], m[0][col], m[1][col], m[2][col], m[3][col]);
  }

  /** Row 1 of the inverse matrix applied to the forward matrix's products of a0..a3 gives a1. */
  lemma ColumnStep1(a0: byte, a1: byte, a2: byte, a3: byte, b0: byte, b1: byte, b2: byte, b3: byte)
    requires b0 == Accumulate4(Multiply(0x02, a0), Multiply(0x03, a1), Multiply(0x01, a2), Multiply(0x01, a3))
    requires b1 == Accumulate4(Multiply(0x01, a0), Multiply(0x02, a1), Multiply(0x03, a2), Multiply(0x01, a3))
    requires b2 == Accumulate4(Multiply(0x01, a0), Multiply(0x01, a1), Multiply(0x02, a2), Multiply(0x03, a3))
    requires b3 == Accumulate4(Multiply(0x03, a0), Multiply(0x01, a1), Multiply(0x01, a2), Multiply(0x02, a3))
    ensures Accumulate4(Multiply(0x09, b0), Multiply(0x0E, b1), Multiply(0x0B, b2), Multiply(0x0D, b3)) == a1
  {
    MixProof.Row1(a0, a1, a2, a3);
  }

  /** InvMixColumns after MixColumns gives back entry 1 of column `col`. */
  lemma MixColumnInverse1(s: State, col: int)
    requires 0 <= col < Nb
    ensures MixColumns(MixColumns(s, true), false)[1][col] == s[1][col]
  {
    var m := MixColumns(s, true);
    ForwardEntries(s, col);
    InverseEntries(m, col);
    assert MixColumns(m, false)[1][col] == MixEntry(m, col, 1, false);
    ColumnStep1(s[0][col], s[1][col], s[2][col], s[3][col], m[0][col], m[1][col], m[2][col], m[3][col]);
  }

  /** Row 2 of the inverse matrix applied to the forward matrix's products of a0..a3 gives a2. */
  lemma ColumnStep2(a0: byte, a1: byte, a2: byte, a3: byte, b0: byte, b1: byte, b2: byte, b3: byte)
    requires b0 == Accumulate4(Multiply(0x02, a0), Multiply(0x03, a1), Multiply(0x01, a2), Multiply(0x01, a3))
    requires b1 == Accumulate4(Multiply(0x01, a0), Multiply(0x02, a1), Multiply(0x03, a2), Multiply(0x01, a3))
    requires b2 == Accumulate4(Multiply(0x01, a0), Multiply(0x01, a1), Multiply(0x02, a2), Multiply(0x03, a3))
    requires b3 == Accumulate4(Multiply(0x03, a0), Multiply(0x01, a1), Multiply(0x01, a2), Multiply(0x02, a3))
    ensures Accumulate4(Multiply(0x0D, b0), Multiply(0x09, b1), Multiply(0x0E, b2), Multiply(0x0B, b3)) == a2
  {
    MixProof.Row2(a0, a1, a2, a3);
  }

  /** InvMixColumns after MixColumns gives back entry 2 of column `col`. */
  lemma MixColumnInverse2(s: State, col: int)
    requires 0 <= col < Nb
    ensures MixColumns(MixColumns(s, true), false)[2][col] == s[2][col]
  {
    var m := MixColumns(s, true);
    ForwardEntries(s, col);
    InverseEntries(m, col);
    assert MixColumns(m, false)[2][col] == MixEntry(m, col, 2, false);
    ColumnStep2(s[0][col], s[1][col], s[2][col], s[3][col], m[0][col], m[1][col], m[2][col], m[3][col]);
  }

  /** Row 3 of the inverse matrix applied to the forward matrix's products of a0..a3 gives a3. */
  lemma ColumnStep3(a0: byte, a1: byte, a2: byte, a3: byte, b0: byte, b1: byte, b2: byte, b3: byte)
    requires b0 == Accumulate4(Multiply(0x02, a0), Multiply(0x03, a1), Multiply(0x01, a2), Multiply(0x01, a3))
    requires b1 == Accumulate4(Multiply(0x01, a0), Multiply(0x02, a1), Multiply(0x03, a2), Multiply(0x01, a3))
    requires b2 == Accumulate4(Multiply(0x01, a0), Multiply(0x01, a1), Multiply(0x02, a2), Multiply(0x03, a3))
    requires b3 == Accumulate4(Multiply(0x03, a0), Multiply(0x01, a1), Multiply(0x01, a2), Multiply(0x02, a3))
    ensures Accumulate4(Multiply(0x0B, b0), Multiply(0x0D, b1), Multiply(0x09, b2), Multiply(0x0E, b3)) == a3
  {
    MixProof.Row3(a0, a1, a2, a3);
  }

  /** InvMixColumns after MixColumns gives back entry 3 of column `col`. */
  lemma MixColumnInverse3(s: State, col: int)
    requires 0 <= col < Nb
    ensures MixColumns(MixColumns(s, true), false)[3][col] == s[3][col]
  {
    var m := MixColumns(s, true);
    ForwardEntries(s, col);
    InverseEntries(m, col);
    assert MixColumns(m, false)[3][col] == MixEntry(m, col, 3, false);
    ColumnStep3(s[0][col], s[1][col], s[2][col], s[3][col], m[0][col], m[1][col], m[2][col], m[3][col]);
  }

  /** InvMixColumns undoes MixColumns. */
  lemma MixColumnsInverse(s: State)
    ensures MixColumns(MixColumns(s, true), false) == s
  {
    var t := MixColumns(MixColumns(s, true), false);
    forall c | 0 <= c < Nb ensures t[0][c] == s[0][c] && t[1][c] == s[1][c] && t[2][c] == s[2][c] && t[3][c] == s[3][c] {
      MixColumnInverse0(s, c);
      MixColumnInverse1(s, c);
      MixColumnInverse2(s, c);
      MixColumnInverse3(s, c);
    }
    assert forall i | 0 <= i < 4 :: t[i] == s[i];
  }

  /** InvMixColumns of a sum is the sum of the InvMixColumns. */
  lemma MixColumnsAdd(s: State, key: State)
    ensures MixColumns(AddRoundKey(s, key), false) == AddRoundKey(MixColumns(s, false), MixColumns(key, false))
  {
    var t := MixColumns(AddRoundKey(s, key), false);
    var u := AddRoundKey(MixColumns(s, false), MixColumns(key, false));
    forall i, c | 0 <= i < 4 && 0 <= c < Nb ensures t[i][c] == u[i][c] {
      MixEntryAdd(s, key, c, i);
    }
    assert forall i | 0 <= i < 4 :: t[i] == u[i];
  }

  /** One entry of InvMixColumns is linear in the column it reads. */
  lemma MixEntryAdd(s: State, key: State, col: int, entry: int)
    requires 0 <= col < Nb && 0 <= entry < 4
    ensures MixEntry(AddRoundKey(s, key), col, entry, false) == Add(MixEntry(s, col, entry, false), MixEntry(key, col, entry, false))
  {
    var sk := AddRoundKey(s, key);
    var m0, m1, m2, m3 := Matrix(false, entry, 0), Matrix(false, entry, 1), Matrix(false, entry, 2), Matrix(false, entry, 3);
    MultiplyAdd(m0, s[0][col], key[0][col]);
    MultiplyAdd(m1, s[1][col], key[1][col]);
    MultiplyAdd(m2, s[2][col], key[2][col]);
    MultiplyAdd(m3, s[3][col], key[3][col]);
    var x0, x1, x2, x3 := Multiply(m0, s[0][col]), Multiply(m1, s[1][col]), Multiply(m2, s[2][col]), Multiply(m3, s[3][col]);
    var y0, y1, y2, y3 := Multiply(m0, key[0][col]), Multiply(m1, key[1][col]), Multiply(m2, key[2][col]), Multiply(m3, key[3][col]);
    AccumulateSum4(Add(x0, y0), Add(x1, y1), Add(x2, y2), Add(x3, y3));
    AccumulateSum4(x0, x1, x2, x3);
    AccumulateSum4(y0, y1, y2, y3);
    Sum4Add(x0, x1, x2, x3, y0, y1, y2, y3);
  }

  /** Output column `col` of MixColumns depends on input column `col` alone. */
  lemma MixColumnsLocal(s: State, t: State, col: int, encrypt: bool)
    requires 0 <= col < Nb
    requires forall r | 0 <= r < 4 :: s[r][col] == t[r][col]
    ensures forall r | 0 <= r < 4 :: MixColumns(s, encrypt)[r][col] == MixColumns(t, encrypt)[r][col]
  {
  }

  /** Adding the same round key twice gives back the state. */
  lemma AddRoundKeyTwice(s: State, key: State)
    ensures AddRoundKey(AddRoundKey(s, key), key) == s
  {
    var t := AddRoundKey(AddRoundKey(s, key), key);
    forall i | 0 <= i < 4 ensures t[i] == s[i] {
      forall j | 0 <= j < Nb ensures t[i][j] == s[i][j] {
        CancelRight(s[i][j], key[i][j]);
      }
    }
  }
}
