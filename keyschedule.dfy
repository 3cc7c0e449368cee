/**
 * The key schedule: the table of round-key columns that keyExpansion builds
 * from the cipher key, and the FIPS-197 section 5.2 key expansion it is
 * measured against. A key is a grid of 4 rows and Nk columns; the table has
 * 4 rows and Nk * (Nr + 1) columns, column c holding word w[c]. Both
 * expansions take the substitution table as a parameter, a 16 x 16 grid
 * indexed by the nibbles of a byte; the cipher uses the S-box,
 * LookupTable(true). The loop of keyExpansion is followed by Columns, which
 * computes the columns one after another as the source does; KeyColumn
 * states the same recurrence column by column, and ColumnsAreKeyColumns
 * shows the two agree.
 */
module KeySchedule {
  import opened GF
  import opened Tables
  import opened StateOps

  /** A word: one column of four bytes. */
  type Word = w: seq<byte> | |w| == 4 witness [0, 0, 0, 0]

  /** Column `col` of a grid of four rows. */
  function ColumnOf(g: Grid, n: nat, col: int): (w: Word)
    requires IsGrid(g, 4, n) && 0 <= col < n
    ensures forall r | 0 <= r < 4 :: w[r] == g[r][col]
  {
    [g[0][col], g[1][col], g[2][col], g[3][col]]
  }

  /** The exclusive or of two words, byte by byte. */
  function XorWord(a: Word, b: Word): Word
  {
    seq(4, i requires 0 <= i < 4 => Add(a[i], b[i]))
  }

  /** RotWord: the cyclic rotation of a word by one byte to the left. */
  function RotWord(w: Word): Word
  {
    [w[1], w[2], w[3], w[0]]
  }

  /** The substitution table of a byte: its entry at the byte's high nibble (row) and low nibble (column). */
  function Lookup(sbox: Grid, x: byte): byte
    requires IsGrid(sbox, 16, 16)
  {
    sbox[Hi(x)][Lo(x)]
  }

  /** SubWord: every byte of a word looked up in the substitution table. */
  function SubWord(w: Word, sbox: Grid): Word
    requires IsGrid(sbox, 16, 16)
  {
    [Lookup(sbox, w[0]), Lookup(sbox, w[1]), Lookup(sbox, w[2]), Lookup(sbox, w[3])]
  }

  /** With the S-box as table, SubWord is the S-box of FIPS-197 applied to each byte. */
  lemma SubWordSBox(w: Word)
    ensures SubWord(w, LookupTable(true)) == [Sub(w[0]), Sub(w[1]), Sub(w[2]), Sub(w[3])]
  {
    LookupTableEntry(true, w[0]);
    LookupTableEntry(true, w[1]);
    LookupTableEntry(true, w[2]);
    LookupTableEntry(true, w[3]);
  }

  /** The round constant entry `i` added into the first byte of a word. */
  function AddRCon(w: Word, i: nat): Word
  {
    [Add(w[0], RCon(i)), w[1], w[2], w[3]]
  }

  /** Whether `nk` is one of the key sizes the cipher accepts, in words. */
  predicate KeyWords(nk: int)
  {
    nk == 4 || nk == 6 || nk == 8
  }

  /**
   * The word `temp` keyExpansion combines into column `col`: the previous
   * column `prev`, which at every multiple of Nk is first rotated,
   * substituted and given round constant number col / 4 - 1.
   */
  function KeyTemp(prev: Word, nk: int, col: int, sbox: Grid): Word
    requires KeyWords(nk) && nk <= col && IsGrid(sbox, 16, 16)
  {
    if col % nk == 0 then AddRCon(SubWord(RotWord(prev), sbox), col / 4 - 1) else prev
  }

  /**
   * Column `col` of the table keyExpansion fills: the key's own columns
   * first; after them the column four places back combined with KeyTemp of
   * the previous column.
   */
  function KeyColumn(key: Grid, nk: int, col: nat, sbox: Grid): Word
    requires KeyWords(nk) && IsGrid(key, 4, nk) && IsGrid(sbox, 16, 16)
  {
    if col < nk then ColumnOf(key, nk, col)
    else XorWord(KeyColumn(key, nk, col - 4, sbox), KeyTemp(KeyColumn(key, nk, col - 1, sbox), nk, col, sbox))
  }

  /** The expanded key: 4 rows and nk * (nr + 1) columns of KeyColumn. */
  function ExpandedKey(key: Grid, nk: int, nr: nat, sbox: Grid): (e: Grid)
    requires KeyWords(nk) && IsGrid(key, 4, nk) && IsGrid(sbox, 16, 16)
    ensures IsGrid(e, 4, nk * (nr + 1))
    ensures forall r, c | 0 <= r < 4 && 0 <= c < nk * (nr + 1) :: e[r][c] == KeyColumn(key, nk, c, sbox)[r]
  {
    seq(4, r requires 0 <= r < 4 => seq(nk * (nr + 1), c requires 0 <= c < nk * (nr + 1) => KeyColumn(key, nk, c, sbox)[r]))
  }

  /**
   * The column keyExpansion computes after the columns `cols`: the next key
   * column while there is one, then the column four places back plus KeyTemp
   * of the last column.
   */
  function NextColumn(cols: seq<Word>, key: Grid, nk: int, sbox: Grid): Word
    requires KeyWords(nk) && IsGrid(key, 4, nk) && IsGrid(sbox, 16, 16)
  {
    var col := |cols|;
    if col < nk then ColumnOf(key, nk, col) else XorWord(cols[col - 4], KeyTemp(cols[col - 1], nk, col, sbox))
  }

  /** The first n columns keyExpansion computes, each the NextColumn of the ones before it. */
  function Columns(key: Grid, nk: int, n: nat, sbox: Grid): (cols: seq<Word>)
    requires KeyWords(nk) && IsGrid(key, 4, nk) && IsGrid(sbox, 16, 16)
    ensures |cols| == n
  {
    if n == 0 then []
    else
      var front := Columns(key, nk, n - 1, sbox);
      front + [NextColumn(front, key, nk, sbox)]
  }

  /** Computing more columns keeps the ones computed before. */
  lemma {:induction false} ColumnsPrefix(key: Grid, nk: int, n: nat, m: nat, sbox: Grid)
    requires KeyWords(nk) && IsGrid(key, 4, nk) && IsGrid(sbox, 16, 16) && m <= n
    ensures Columns(key, nk, n, sbox)[..m] == Columns(key, nk, m, sbox)
    decreases n
  {
    if m < n {
      ColumnsPrefix(key, nk, n - 1, m, sbox);
      var front := Columns(key, nk, n - 1, sbox);
      assert Columns(key, nk, n, sbox)[..m] == front[..m];
    }
  }

  /** While the key lasts, Columns are the columns of the key. */
  lemma {:induction false} ColumnsOfKey(key: Grid, nk: int, n: nat, sbox: Grid)
    requires KeyWords(nk) && IsGrid(key, 4, nk) && IsGrid(sbox, 16, 16)
    ensures forall r, c | 0 <= r < 4 && 0 <= c < n && c < nk :: Columns(key, nk, n, sbox)[c][r] == key[r][c]
    decreases n
  {
    if n > 0 {
      ColumnsOfKey(key, nk, n - 1, sbox);
      var front := Columns(key, nk, n - 1, sbox);
      assert forall c | 0 <= c < n - 1 :: Columns(key, nk, n, sbox)[c] == front[c];
    }
  }

  /** Past the key, column `col` is the column four places back plus `t`, the KeyTemp of the column before. */
  lemma ColumnsStep(key: Grid, nk: int, n: nat, sbox: Grid, col: int, t: seq<byte>)
    requires KeyWords(nk) && IsGrid(key, 4, nk) && IsGrid(sbox, 16, 16) && nk <= col < n
    requires t == KeyTemp(Columns(key, nk, n, sbox)[col - 1], nk, col, sbox)
    ensures forall r | 0 <= r < 4 :: Columns(key, nk, n, sbox)[col][r] == Add(Columns(key, nk, n, sbox)[col - 4][r], t[r])
  {
    var all := Columns(key, nk, n, sbox);
    ColumnsPrefix(key, nk, n, col + 1, sbox);
    ColumnsPrefix(key, nk, n, col, sbox);
    var front := Columns(key, nk, col, sbox);
    assert all[..col + 1] == Columns(key, nk, col + 1, sbox);
    assert all[col] == Columns(key, nk, col + 1, sbox)[col] == NextColumn(front, key, nk, sbox);
    assert front[col - 4] == all[col - 4] && front[col - 1] == all[col - 1];
  }

  /** Columns computes exactly the columns of the table. */
  lemma {:induction false} ColumnsAreKeyColumns(key: Grid, nk: int, n: nat, sbox: Grid, c: nat)
    requires KeyWords(nk) && IsGrid(key, 4, nk) && IsGrid(sbox, 16, 16) && c < n
    ensures Columns(key, nk, n, sbox)[c] == KeyColumn(key, nk, c, sbox)
    decreases c
  {
    var all := Columns(key, nk, n, sbox);
    if c < nk {
      ColumnsOfKey(key, nk, n, sbox);
      assert all[c] == ColumnOf(key, nk, c);
    } else {
      ColumnsAreKeyColumns(key, nk, n, sbox, c - 4);
      ColumnsAreKeyColumns(key, nk, n, sbox, c - 1);
      var t := KeyTemp(all[c - 1], nk, c, sbox);
      ColumnsStep(key, nk, n, sbox, c, t);
      assert all[c] == XorWord(all[c - 4], t);
    }
  }

  /** The expanded key is the grid whose columns are all the Columns. */
  lemma ColumnsExpandedKey(key: Grid, nk: int, nr: nat, sbox: Grid, e: Grid)
    requires KeyWords(nk) && IsGrid(key, 4, nk) && IsGrid(sbox, 16, 16) && IsGrid(e, 4, nk * (nr + 1))
    requires forall r, c | 0 <= r < 4 && 0 <= c < nk * (nr + 1) :: e[r][c] == Columns(key, nk, nk * (nr + 1), sbox)[c][r]
    ensures e == ExpandedKey(key, nk, nr, sbox)
  {
    forall c | 0 <= c < nk * (nr + 1) ensures Columns(key, nk, nk * (nr + 1), sbox)[c] == KeyColumn(key, nk, c, sbox) {
      ColumnsAreKeyColumns(key, nk, nk * (nr + 1), sbox, c);
    }
    assert forall r | 0 <= r < 4 :: e[r] == ExpandedKey(key, nk, nr, sbox)[r];
  }

  /**
   * Word w[i] of the key expansion of FIPS-197 section 5.2 (Figure 11): the
   * word Nk places back combined with temp, which at multiples of Nk is
   * SubWord(RotWord(w[i-1])) plus Rcon[i / Nk], and for Nk > 6 at positions
   * 4 modulo Nk is SubWord(w[i-1]). Rcon[j] of the standard holds x^(j-1),
   * which is RCon(j - 1) here.
   */
  function StandardWord(key: Grid, nk: int, i: nat, sbox: Grid): Word
    requires KeyWords(nk) && IsGrid(key, 4, nk) && IsGrid(sbox, 16, 16)
  {
    if i < nk then ColumnOf(key, nk, i)
    else
      var prev := StandardWord(key, nk, i - 1, sbox);
      var temp :=
        if i % nk == 0 then AddRCon(SubWord(RotWord(prev), sbox), i / nk - 1)
        else if nk > 6 && i % nk == 4 then SubWord(prev, sbox)
        else prev;
      XorWord(StandardWord(key, nk, i - nk, sbox), temp)
  }

  /** For a 128-bit key the table agrees with FIPS-197 word for word. */
  lemma {:induction false} KeyColumnStandard(key: Grid, col: nat, sbox: Grid)
    requires IsGrid(key, 4, 4) && IsGrid(sbox, 16, 16)
    ensures KeyColumn(key, 4, col, sbox) == StandardWord(key, 4, col, sbox)
    decreases col
  {
    if col >= 4 {
      KeyColumnStandard(key, col - 1, sbox);
      KeyColumnStandard(key, col - 4, sbox);
      var prev := KeyColumn(key, 4, col - 1, sbox);
      var temp := if col % 4 == 0 then AddRCon(SubWord(RotWord(prev), sbox), col / 4 - 1) else prev;
      assert KeyTemp(prev, 4, col, sbox) == temp;
      assert KeyColumn(key, 4, col, sbox) == XorWord(KeyColumn(key, 4, col - 4, sbox), temp);
      assert StandardWord(key, 4, col, sbox) == XorWord(StandardWord(key, 4, col - 4, sbox), temp);
    }
  }

  /** Adding the same word on the right is injective. */
  lemma XorWordCancel(a: Word, b: Word, t: Word)
    ensures XorWord(a, t) == XorWord(b, t) <==> a == b
  {
    if XorWord(a, t) == XorWord(b, t) {
      forall r | 0 <= r < 4 ensures a[r] == b[r] {
        assert XorWord(a, t)[r] == XorWord(b, t)[r];
        CancelRight(a[r], t[r]);
        CancelRight(b[r], t[r]);
      }
    }
  }

  /**
   * For a 192-bit key the first computed column differs from FIPS-197 unless
   * key columns 0 and 2 coincide: the table combines with the column four
   * places back where the standard uses the one six places back.
   */
  lemma KeyColumnSixDiverges(key: Grid, sbox: Grid)
    requires IsGrid(key, 4, 6) && IsGrid(sbox, 16, 16)
    ensures KeyColumn(key, 6, 6, sbox) == StandardWord(key, 6, 6, sbox) <==> ColumnOf(key, 6, 2) == ColumnOf(key, 6, 0)
  {
    var temp := KeyTemp(ColumnOf(key, 6, 5), 6, 6, sbox);
    assert KeyColumn(key, 6, 6, sbox) == XorWord(ColumnOf(key, 6, 2), temp);
    assert StandardWord(key, 6, 6, sbox) == XorWord(ColumnOf(key, 6, 0), temp);
    XorWordCancel(ColumnOf(key, 6, 2), ColumnOf(key, 6, 0), temp);
  }

  /**
   * For a 192-bit key the round constant is also indexed differently: at
   * column 12 keyExpansion adds round constant number 12 / 4 - 1 = 2 (the
   * byte 04), where FIPS-197 adds number 12 / 6 - 1 = 1 (the byte 02).
   */
  lemma KeyTempTwelveRCon(prev: Word, sbox: Grid)
    requires IsGrid(sbox, 16, 16)
    ensures KeyTemp(prev, 6, 12, sbox) == AddRCon(SubWord(RotWord(prev), sbox), 2)
    ensures KeyTemp(prev, 6, 12, sbox) != AddRCon(SubWord(RotWord(prev), sbox), 12 / 6 - 1)
  {
    var w := SubWord(RotWord(prev), sbox);
    RConValues();
    assert Add(w[0], RCon(2)) != Add(w[0], RCon(1));
    assert AddRCon(w, 2)[0] != AddRCon(w, 1)[0];
  }

  /**
   * Round key `round` for a four-word key: columns 4 * round to 4 * round + 3
   * of the expanded key.
   */
  function RoundKey(expanded: Grid, n: nat, round: int): (k: State)
    requires IsGrid(expanded, 4, n) && 0 <= round && 4 * round + 4 <= n
    ensures forall r, c | 0 <= r < 4 && 0 <= c < Nb :: k[r][c] == expanded[r][4 * round + c]
  {
    seq(4, r requires 0 <= r < 4 => seq(Nb, c requires 0 <= c < Nb => expanded[r][4 * round + c]))
  }

  /**
   * The round key getCurrKey selects: round `round` when encrypting, round
   * nr - round when decrypting.
   */
  function CurrKey(expanded: Grid, nr: nat, round: int, encrypt: bool): State
    requires IsGrid(expanded, 4, 4 * (nr + 1)) && 0 <= round <= nr
  {
    RoundKey(expanded, 4 * (nr + 1), if encrypt then round else nr - round)
  }

  /** Decryption's round key at counter `round` is encryption's round key at counter nr - round. */
  lemma CurrKeyMirror(expanded: Grid, nr: nat, round: int)
    requires IsGrid(expanded, 4, 4 * (nr + 1)) && 0 <= round <= nr
    ensures CurrKey(expanded, nr, round, false) == CurrKey(expanded, nr, nr - round, true)
    ensures CurrKey(expanded, nr, round, true) == CurrKey(expanded, nr, nr - round, false)
  {
  }

  /** Every round key of a 128-bit key is made of the FIPS-197 words w[4 round] .. w[4 round + 3]. */
  lemma RoundKeyStandard(key: Grid, round: int, sbox: Grid)
    requires IsGrid(key, 4, 4) && IsGrid(sbox, 16, 16) && 0 <= round <= 10
    ensures forall r, c | 0 <= r < 4 && 0 <= c < Nb ::
      RoundKey(ExpandedKey(key, 4, 10, sbox), 44, round)[r][c] == StandardWord(key, 4, 4 * round + c, sbox)[r]
  {
    var e := ExpandedKey(key, 4, 10, sbox);
    forall r, c | 0 <= r < 4 && 0 <= c < Nb
      ensures RoundKey(e, 44, round)[r][c] == StandardWord(key, 4, 4 * round + c, sbox)[r]
    {
      KeyColumnStandard(key, 4 * round + c, sbox);
      assert RoundKey(e, 44, round)[r][c] == e[r][4 * round + c];
    }
  }
}
