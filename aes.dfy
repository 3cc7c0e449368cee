/**
 * The AES class: the key-size parameters set by its constructor, and the
 * round operations, key schedule, block transforms, shuffle and message
 * drivers as methods that work in place on 4 x 4 byte arrays (and on the
 * key table and image arrays), each proved to compute the matching function
 * of the specification modules.
 */
module Aes {
  import opened GF
  import opened Tables
  import opened StateOps
  import opened KeySchedule
  import opened Cipher
  import opened Shuffle
  import opened Messages

  datatype Option<T> = None | Some(value: T)

  /**
   * The (Nk, Nr) the constructor chooses for a key length in bits, or None
   * for the lengths it rejects: Nk is the length in 32-bit words and
   * Nr = Nk + 6, as in FIPS-197 Figure 4.
   */
  function KeyParameters(keyLength: int): (p: Option<(int, int)>)
    ensures p.Some? <==> keyLength == 128 || keyLength == 192 || keyLength == 256
    ensures p.Some? ==> KeyWords(p.value.0) && 32 * p.value.0 == keyLength && p.value.1 == p.value.0 + 6
  {
    if keyLength == 128 then Some((4, 10))
    else if keyLength == 192 then Some((6, 12))
    else if keyLength == 256 then Some((8, 14))
    else None
  }

  /** The contents of a 4 x 4 array as a state. */
  function StateOf(a: array2<byte>): State
    reads a
    requires a.Length0 == 4 && a.Length1 == Nb
  {
    seq(4, i requires 0 <= i < 4 reads a => seq(Nb, j requires 0 <= j < Nb reads a => a[i, j]))
  }

  /** The contents of a two-dimensional array as a grid. */
  function GridOf(a: array2<byte>): (g: Grid)
    reads a
    ensures IsGrid(g, a.Length0, a.Length1)
  {
    seq(a.Length0, i requires 0 <= i < a.Length0 reads a => seq(a.Length1, j requires 0 <= j < a.Length1 reads a => a[i, j]))
  }

  /** A fresh array holding the grid g of `rows` rows and `cols` columns. */
  method ToArray(g: Grid, rows: nat, cols: nat) returns (a: array2<byte>)
    requires IsGrid(g, rows, cols)
    ensures fresh(a) && a.Length0 == rows && a.Length1 == cols
    ensures GridOf(a) == g
  {
    a := new byte[rows, cols];
    for i := 0 to rows
      invariant forall r, c | 0 <= r < i && 0 <= c < cols :: a[r, c] == g[r][c]
    {
      for j := 0 to cols
        invariant forall r, c | 0 <= r < i && 0 <= c < cols :: a[r, c] == g[r][c]
        invariant forall c | 0 <= c < j :: a[i, c] == g[i][c]
      {
        a[i, j] := g[i][j];
      }
    }
    assert forall r | 0 <= r < rows :: GridOf(a)[r] == g[r];
  }

  /** A fresh 16 x 16 array holding the S-box (encrypt) or the inverse S-box. */
  method TableArray(encrypt: bool) returns (a: array2<byte>)
    ensures fresh(a) && a.Length0 == 16 && a.Length1 == 16
    ensures GridOf(a) == LookupTable(encrypt)
  {
    a := new byte[16, 16]((r, c) requires 0 <= r < 16 && 0 <= c < 16 => LookupTable(encrypt)[r][c]);
    assert forall r | 0 <= r < 16 :: GridOf(a)[r] == LookupTable(encrypt)[r];
  }

  class AES {
    /** Number of columns of the state. */
    const Nb: int
    /** Number of 32-bit words of the key. */
    const Nk: int
    /** Number of rounds the key schedule is sized for. */
    const Nr: int
    /** The direction of the last driver call: true for encryption, as the constructor leaves it. */
    var encrypt: bool
    /** The S-box, indexed by the high and the low nibble of a byte. */
    const sBox: array2<byte>
    /** The inverse S-box, indexed the same way. */
    const inverseSBox: array2<byte>

    /** The key-size parameters of a constructed object, and the shape of its tables. */
    predicate Params()
    {
      Nb == StateOps.Nb && KeyWords(Nk) && Nr == Nk + 6 &&
      sBox.Length0 == 16 && sBox.Length1 == 16 && inverseSBox.Length0 == 16 && inverseSBox.Length1 == 16 &&
      sBox != inverseSBox
    }

    /** The parameters, and tables holding the S-box and the inverse S-box of FIPS-197. */
    predicate Valid()
      reads sBox, inverseSBox
    {
      Params() && GridOf(sBox) == LookupTable(true) && GridOf(inverseSBox) == LookupTable(false)
    }

    /** An array the methods may write: not one of the tables. */
    predicate Apart(a: array2<byte>)
    {
      a != sBox && a != inverseSBox
    }

    /** The constructor for an accepted key length; Create models the rejection of the others. */
    constructor (keyLength: int)
      requires KeyParameters(keyLength).Some?
      ensures Valid() && (Nk, Nr) == KeyParameters(keyLength).value && encrypt
      ensures fresh(sBox) && fresh(inverseSBox)
    {
      var forward := TableArray(true);
      var inverse := TableArray(false);
      Nb := 4;
      encrypt := true;
      if keyLength == 128 {
        Nk, Nr := 4, 10;
      } else if keyLength == 192 {
        Nk, Nr := 6, 12;
      } else {
        Nk, Nr := 8, 14;
      }
      sBox, inverseSBox := forward, inverse;
    }

    /** Construction, with the exception for an unsupported key length as None. */
    static method Create(keyLength: int) returns (r: Option<AES>)
      ensures r.None? <==> KeyParameters(keyLength).None?
      ensures r.Some? ==> fresh(r.value) && r.value.Valid() && (r.value.Nk, r.value.Nr) == KeyParameters(keyLength).value
    {
      if keyLength == 128 || keyLength == 192 || keyLength == 256 {
        var aes := new AES(keyLength);
        r := Some(aes);
      } else {
        r := None;
      }
    }

    /** Rotation of row `rowIndex` of the state by `amount` places to the left, through a copy of the row. */
    method LeftCircularShift(state: array2<byte>, rowIndex: int, amount: int)
      requires state.Length0 == 4 && state.Length1 == Nb && Params()
      requires 0 <= rowIndex < 4 && 0 <= amount <= Nb
      modifies state
      ensures StateOf(state) == old(StateOf(state))[rowIndex := RotateLeft(old(StateOf(state))[rowIndex], amount)]
    {
      ghost var s := StateOf(state);
      ghost var t := s[rowIndex := RotateLeft(s[rowIndex], amount)];
      var row := new byte[4];
      for j := 0 to 4
        modifies row
        invariant forall k | 0 <= k < j :: row[k] == s[rowIndex][k]
      {
        row[j] := state[rowIndex, j];
      }
      for j := 0 to 4
        modifies state
        invariant forall i, k | 0 <= i < 4 && 0 <= k < 4 :: state[i, k] == (if i == rowIndex && k < j then s[i][Rotated(k, amount)] else s[i][k])
      {
        state[rowIndex, j] := row[Rotated(j, amount)];
      }
      HoldsState(state, t);
    }

    /** shiftRow: row `rowIndex` rotated left by shiftBy when encrypting, by Nb - shiftBy when decrypting. */
    method ShiftRow(state: array2<byte>, rowIndex: int, shiftBy: int, encrypt: bool)
      requires state.Length0 == 4 && state.Length1 == Nb && Params()
      requires 0 <= rowIndex < 4 && 0 <= shiftBy <= Nb
      modifies state
      ensures StateOf(state) == StateOps.ShiftRow(old(StateOf(state)), rowIndex, shiftBy, encrypt)
    {
      var amount := shiftBy;
      if !encrypt {
        amount := Nb - shiftBy;
      }
      LeftCircularShift(state, rowIndex, amount);
    }

    /**
     * keyExpansion: the key copied into the first Nk columns of the table,
     * then every later column computed from the one before it and the one
     * four places back, with the object's S-box table for SubWord.
     */
    method KeyExpansion(initialKey: array2<byte>, expandedKey: array2<byte>)
      requires Params() && initialKey.Length0 == 4 && initialKey.Length1 == Nk
      requires expandedKey.Length0 == 4 && expandedKey.Length1 == Nk * (Nr + 1) && expandedKey != initialKey && Apart(expandedKey)
      modifies expandedKey
      ensures GridOf(expandedKey) == ExpandedKey(GridOf(initialKey), Nk, Nr, GridOf(sBox))
    {
      ghost var key, sb := GridOf(initialKey), GridOf(sBox);
      ghost var all := Columns(key, Nk, Nk * (Nr + 1), sb);
      CopyKey(initialKey, expandedKey);
      KeyHeld(initialKey, expandedKey, Nk, Nk * (Nr + 1), sb);
      var temp := new byte[4];
      for col := Nk to Nk * (Nr + 1)
        invariant forall r, c | 0 <= r < 4 && 0 <= c < col :: expandedKey[r, c] == all[c][r]
      {
        ColumnTemp(expandedKey, col, temp, all[col - 1]);
        StoreColumn(expandedKey, col, temp);
        ColumnsStep(key, Nk, Nk * (Nr + 1), sb, col, temp[..]);
      }
      ScheduleHeld(expandedKey, key, Nk, Nr, sb);
    }

    /** The first Nk columns of the table become the cipher key; the other columns are kept. */
    method CopyKey(initialKey: array2<byte>, expandedKey: array2<byte>)
      requires initialKey.Length0 == 4 && initialKey.Length1 == Nk
      requires expandedKey.Length0 == 4 && Nk <= expandedKey.Length1 && expandedKey != initialKey
      modifies expandedKey
      ensures forall r, c | 0 <= r < 4 && 0 <= c < expandedKey.Length1 ::
        expandedKey[r, c] == (if c < Nk then initialKey[r, c] else old(expandedKey[r, c]))
    {
      for col := 0 to Nk
        invariant forall r, c | 0 <= r < 4 && 0 <= c < expandedKey.Length1 ::
          expandedKey[r, c] == (if c < col then initialKey[r, c] else old(expandedKey[r, c]))
      {
        for row := 0 to 4
          invariant forall r, c | 0 <= r < 4 && 0 <= c < expandedKey.Length1 ::
            expandedKey[r, c] == (if c < col || (c == col && r < row) then initialKey[r, c] else old(expandedKey[r, c]))
        {
          expandedKey[row, col] := initialKey[row, col];
        }
      }
    }

    /** Column `col` of `newState` becomes the product of the matrix with column `col` of the state. */
    static method MixColumn(state: array2<byte>, newState: array2<byte>, col: int, encrypt: bool, ghost s: State)
      requires state.Length0 == 4 && state.Length1 == StateOps.Nb && newState.Length0 == 4 && newState.Length1 == 4
      requires 0 <= col < StateOps.Nb && state != newState
      requires forall r | 0 <= r < 4 :: state[r, col] == s[r][col]
      modifies newState
      ensures forall r | 0 <= r < 4 :: newState[r, col] == MixEntry(s, col, r, encrypt)
      ensures forall r, c | 0 <= r < 4 && 0 <= c < 4 && c != col :: newState[r, c] == old(newState[r, c])
    {
      for colEntry := 0 to 4
        invariant forall r | 0 <= r < colEntry :: newState[r, col] == MixEntry(s, col, r, encrypt)
        invariant forall r, c | 0 <= r < 4 && 0 <= c < 4 && c != col :: newState[r, c] == old(newState[r, c])
      {
        var newValue := ColumnProduct(state, col, colEntry, encrypt, s);
        newState[colEntry, col] := newValue;
      }
    }

    /** Entry `colEntry` of the product of the matrix with column `col` of the state: the value mixColumns stores. */
    static method ColumnProduct(state: array2<byte>, col: int, colEntry: int, encrypt: bool, ghost s: State) returns (newValue: byte)
      requires state.Length0 == 4 && state.Length1 == StateOps.Nb && 0 <= col < StateOps.Nb && 0 <= colEntry < 4
      requires forall r | 0 <= r < 4 :: state[r, col] == s[r][col]
      ensures newValue == MixEntry(s, col, colEntry, encrypt)
    {
      newValue := 0;
      for row := 0 to 4
        invariant newValue == PartialMix(s, col, colEntry, encrypt, row)
      {
        newValue := Add(newValue, Multiply(Matrix(encrypt, colEntry, row), state[row, col]));
      }
      PartialMixComplete(s, col, colEntry, encrypt);
    }

    /** Every entry of `state` becomes the entry of `newState` at the same place. */
    static method CopyState(newState: array2<byte>, state: array2<byte>)
      requires newState.Length0 == 4 && newState.Length1 == 4 && state.Length0 == 4 && state.Length1 == 4 && newState != state
      modifies state
      ensures forall r, c | 0 <= r < 4 && 0 <= c < 4 :: state[r, c] == newState[r, c]
    {
      for i := 0 to 4
        invariant forall r, c | 0 <= r < 4 && 0 <= c < 4 :: state[r, c] == (if r < i then newState[r, c] else old(state[r, c]))
      {
        for j := 0 to 4
          invariant forall r, c | 0 <= r < 4 && 0 <= c < 4 :: state[r, c] == (if r < i || (r == i && c < j) then newState[r, c] else old(state[r, c]))
        {
          state[i, j] := newState[i, j];
        }
      }
    }

    /**
     * The word `temp` of keyExpansion for column `col`: the previous column
     * of the table, rotated, substituted and given its round constant when
     * col is a multiple of Nk.
     */
    method ColumnTemp(expandedKey: array2<byte>, col: int, temp: array<byte>, ghost prev: Word)
      requires Params() && expandedKey.Length0 == 4 && Nk <= col < expandedKey.Length1 && temp.Length == 4
      requires forall r | 0 <= r < 4 :: expandedKey[r, col - 1] == prev[r]
      modifies temp
      ensures temp[..] == KeyTemp(prev, Nk, col, GridOf(sBox))
    {
      for row := 0 to 4
        invariant forall r | 0 <= r < row :: temp[r] == prev[r]
      {
        temp[row] := expandedKey[row, col - 1];
      }
      if col % Nk == 0 {
        RotateAndSubstitute(temp, prev);
        temp[0] := Add(temp[0], RCon(col / 4 - 1));
        TempHolds(temp, sBox, prev, Nk, col);
      } else {
        assert temp[..] == prev;
      }
    }

    /** The word in temp rotated left by one byte, then every byte looked up in the S-box. */
    method RotateAndSubstitute(temp: array<byte>, ghost prev: Word)
      requires Params() && temp.Length == 4 && temp[..] == prev
      modifies temp
      ensures forall k | 0 <= k < 4 :: temp[k] == sBox[Hi(RotWord(prev)[k]), Lo(RotWord(prev)[k])]
    {
      temp[0], temp[1], temp[2], temp[3] := temp[1], temp[2], temp[3], temp[0];
      assert temp[..] == RotWord(prev);
      Substitute(temp);
    }

    /** Every byte of temp replaced by its S-box entry, at the row of its high nibble and the column of its low one. */
    method Substitute(temp: array<byte>)
      requires Params() && temp.Length == 4
      modifies temp
      ensures forall k | 0 <= k < 4 :: temp[k] == sBox[Hi(old(temp[k])), Lo(old(temp[k]))]
    {
      for i := 0 to 4
        invariant forall k | 0 <= k < 4 :: temp[k] == (if k < i then sBox[Hi(old(temp[k])), Lo(old(temp[k]))] else old(temp[k]))
      {
        var sRow := Hi(temp[i]);
        var sCol := Lo(temp[i]);
        temp[i] := sBox[sRow, sCol];
      }
    }

    /** Column `col` of the table becomes column col - 4 plus `temp`; the other columns are kept. */
    static method StoreColumn(expandedKey: array2<byte>, col: int, temp: array<byte>)
      requires expandedKey.Length0 == 4 && 4 <= col < expandedKey.Length1 && temp.Length == 4
      modifies expandedKey
      ensures forall r, c | 0 <= r < 4 && 0 <= c < expandedKey.Length1 ::
        expandedKey[r, c] == (if c == col then Add(old(expandedKey[r, col - 4]), temp[r]) else old(expandedKey[r, c]))
    {
      for row := 0 to 4
        invariant forall r, c | 0 <= r < 4 && 0 <= c < expandedKey.Length1 ::
          expandedKey[r, c] == (if c == col && r < row then Add(old(expandedKey[r, col - 4]), temp[r]) else old(expandedKey[r, c]))
      {
        expandedKey[row, col] := Add(expandedKey[row, col - 4], temp[row]);
      }
    }

    /**
     * getCurrKey: columns round' * Nk .. round' * Nk + Nk - 1 of the table into
     * the first Nk columns of currKey, where round' is round when encrypting
     * and Nr - round when decrypting. currKey needs room for Nk columns.
     */
    method GetCurrKey(round: int, currKey: array2<byte>, expandedKey: array2<byte>, encrypt: bool)
      requires Params() && 0 <= round <= Nr
      requires currKey.Length0 == 4 && Nk <= currKey.Length1 && Apart(currKey)
      requires expandedKey.Length0 == 4 && expandedKey.Length1 == Nk * (Nr + 1) && currKey != expandedKey
      modifies currKey
      ensures forall r, c | 0 <= r < 4 && 0 <= c < currKey.Length1 :: currKey[r, c] == (if c < Nk then expandedKey[r, (if encrypt then round else Nr - round) * Nk + c] else old(currKey[r, c]))
      ensures Nk == Nb && currKey.Length1 == Nb ==> StateOf(currKey) == CurrKey(GridOf(expandedKey), Nr, round, encrypt)
    {
      var rd := round;
      if !encrypt {
        rd := Nr - round;
      }
      ColumnInRange(rd, Nk, Nr);
      for row := 0 to 4
        invariant forall r, c | 0 <= r < 4 && 0 <= c < currKey.Length1 :: currKey[r, c] == (if r < row && c < Nk then expandedKey[r, rd * Nk + c] else old(currKey[r, c]))
      {
        for col := 0 to Nk
          invariant forall r, c | 0 <= r < 4 && 0 <= c < currKey.Length1 :: currKey[r, c] == (if (r < row || (r == row && c < col)) && c < Nk then expandedKey[r, rd * Nk + c] else old(currKey[r, c]))
        {
          currKey[row, col] := expandedKey[row, rd * Nk + col];
        }
      }
      if Nk == Nb && currKey.Length1 == Nb {
        HoldsState(currKey, CurrKey(GridOf(expandedKey), Nr, round, encrypt));
      }
    }

    /** The columns of round `rd` lie inside the table. */
    static lemma ColumnInRange(rd: int, nk: int, nr: int)
      requires 0 <= rd <= nr && 0 <= nk
      ensures 0 <= rd * nk && rd * nk + nk <= nk * (nr + 1)
    {
      assert rd * nk + nk == (rd + 1) * nk;
      assert (rd + 1) * nk <= (nr + 1) * nk;
    }

    /** subBytes: every byte replaced by its entry in the S-box (or inverse S-box) table, high nibble as row. */
    method SubBytes(state: array2<byte>, encrypt: bool)
      requires state.Length0 == 4 && state.Length1 == Nb && Valid() && Apart(state)
      modifies state
      ensures StateOf(state) == StateOps.SubBytes(old(StateOf(state)), encrypt)
    {
      ghost var s := StateOf(state);
      ghost var tbl := if encrypt then sBox else inverseSBox;
      for i := 0 to 4
        invariant forall r, c | 0 <= r < 4 && 0 <= c < 4 :: state[r, c] == (if r < i then tbl[Hi(s[r][c]), Lo(s[r][c])] else s[r][c])
      {
        for j := 0 to 4
          invariant forall r, c | 0 <= r < 4 && 0 <= c < 4 :: state[r, c] == (if r < i || (r == i && c < j) then tbl[Hi(s[r][c]), Lo(s[r][c])] else s[r][c])
        {
          var sRow := Hi(state[i, j]);
          var sCol := Lo(state[i, j]);
          if encrypt {
            state[i, j] := sBox[sRow, sCol];
          } else {
            state[i, j] := inverseSBox[sRow, sCol];
          }
        }
      }
      SubBytesHolds(state, tbl, s, encrypt);
    }

    /** originalShiftRows: rows 1, 2 and 3 shifted by 1, 2 and 3. */
    method OriginalShiftRows(state: array2<byte>, encrypt: bool)
      requires state.Length0 == 4 && state.Length1 == Nb && Params()
      modifies state
      ensures StateOf(state) == StateOps.OriginalShiftRows(old(StateOf(state)), encrypt)
    {
      ghost var s := StateOf(state);
      for i := 1 to 4
        invariant StateOf(state) == ShiftedRows(s, i, encrypt)
      {
        ShiftRow(state, i, i, encrypt);
      }
    }

    /** modifiedShiftRows: the two cases chosen by the parity of state[0][0]. */
    method ModifiedShiftRows(state: array2<byte>, encrypt: bool)
      requires state.Length0 == 4 && state.Length1 == Nb && Params()
      modifies state
      ensures StateOf(state) == StateOps.ModifiedShiftRows(old(StateOf(state)), encrypt)
    {
      if state[0, 0] % 2 != 0 {
        ShiftRow(state, 1, 1, encrypt);
        ShiftRow(state, 3, 3, encrypt);
      } else {
        ShiftRow(state, 1, Nb - 3, encrypt);
        ShiftRow(state, 2, Nb - 2, encrypt);
      }
    }

    /**
     * mixColumns: every column multiplied by the forward (or inverse) matrix
     * into a new state, which is then copied back.
     */
    method MixColumns(state: array2<byte>, encrypt: bool)
      requires state.Length0 == 4 && state.Length1 == Nb && Params()
      modifies state
      ensures StateOf(state) == StateOps.MixColumns(old(StateOf(state)), encrypt)
    {
      ghost var s := StateOf(state);
      var newState := new byte[4, 4];
      for col := 0 to Nb
        modifies newState
        invariant forall r, c | 0 <= r < 4 && 0 <= c < col :: newState[r, c] == MixEntry(s, c, r, encrypt)
      {
        MixColumn(state, newState, col, encrypt, s);
      }
      CopyState(newState, state);
      MixHolds(state, s, encrypt);
    }

    /** addRoundKey: the round key added into the state byte by byte. */
    method AddRoundKey(state: array2<byte>, roundKey: array2<byte>)
      requires state.Length0 == 4 && state.Length1 == Nb && Params()
      requires roundKey.Length0 == 4 && roundKey.Length1 == Nb
      modifies state
      ensures StateOf(state) == StateOps.AddRoundKey(old(StateOf(state)), old(StateOf(roundKey)))
    {
      ghost var s, k := StateOf(state), StateOf(roundKey);
      for i := 0 to 4
        invariant forall r, c | 0 <= r < 4 && 0 <= c < 4 :: state[r, c] == (if r < i then Add(s[r][c], k[r][c]) else s[r][c])
        invariant forall r, c | 0 <= r < 4 && 0 <= c < 4 && i <= r :: roundKey[r, c] == k[r][c]
      {
        for j := 0 to Nb
          invariant forall r, c | 0 <= r < 4 && 0 <= c < 4 :: state[r, c] == (if r < i || (r == i && c < j) then Add(s[r][c], k[r][c]) else s[r][c])
          invariant forall r, c | 0 <= r < 4 && 0 <= c < 4 && (i < r || (r == i && j <= c)) :: roundKey[r, c] == k[r][c]
        {
          state[i, j] := Add(state[i, j], roundKey[i, j]);
        }
      }
      HoldsState(state, StateOps.AddRoundKey(s, k));
    }

    /**
     * transform: the key expanded into a fresh table, round key 0 added, the
     * round loop while the counter is below 10, then the last round without
     * MixColumns. When decrypting, every round key of the loop first goes
     * through InvMixColumns. The key must have Nk = 4 columns: getCurrKey
     * writes Nk columns into a round key of four.
     */
    method Transform(state: array2<byte>, initialKey: array2<byte>, encrypt: bool)
      requires Valid() && Nk == 4 && state.Length0 == 4 && state.Length1 == Nb && initialKey.Length0 == 4 && initialKey.Length1 == Nk
      requires Apart(state) && state != initialKey
      modifies state
      ensures StateOf(state) == BlockTransform(old(StateOf(state)), StateOf(initialKey), encrypt, false)
    {
      ghost var s, key := StateOf(state), StateOf(initialKey);
      var expandedKey := new byte[4, Nk * (Nr + 1)];
      var currKey := new byte[4, 4];
      KeyExpansion(initialKey, expandedKey);
      ghost var e := GridOf(expandedKey);
      ExpandedWithSBox(initialKey, e, this);
      FirstPass(state, currKey, expandedKey, encrypt);
      var round := 1;
      while round < 10
        invariant Valid() && 1 <= round <= 10 && GridOf(expandedKey) == e && StateOf(initialKey) == key
        invariant StateOf(state) == LoopState(s, e, 10, encrypt, false, round)
      {
        LoopPass(state, currKey, expandedKey, round, encrypt, false, s, e);
        round := round + 1;
      }
      FinalPass(state, currKey, expandedKey, round, encrypt, false, s, e);
      TransformIsBlock(s, key, e, encrypt, false, StateOf(state));
    }

    /** modifiedTransform: transform with the row shift of ModifiedShiftRows, which decryption applies before InvSubBytes. */
    method ModifiedTransform(state: array2<byte>, initialKey: array2<byte>, encrypt: bool)
      requires Valid() && Nk == 4 && state.Length0 == 4 && state.Length1 == Nb && initialKey.Length0 == 4 && initialKey.Length1 == Nk
      requires Apart(state) && state != initialKey
      modifies state
      ensures StateOf(state) == BlockTransform(old(StateOf(state)), StateOf(initialKey), encrypt, true)
    {
      ghost var s, key := StateOf(state), StateOf(initialKey);
      var expandedKey := new byte[4, Nk * (Nr + 1)];
      var currKey := new byte[4, 4];
      KeyExpansion(initialKey, expandedKey);
      ghost var e := GridOf(expandedKey);
      ExpandedWithSBox(initialKey, e, this);
      FirstPass(state, currKey, expandedKey, encrypt);
      var round := 1;
      while round < 10
        invariant Valid() && 1 <= round <= 10 && GridOf(expandedKey) == e && StateOf(initialKey) == key
        invariant StateOf(state) == LoopState(s, e, 10, encrypt, true, round)
      {
        LoopPass(state, currKey, expandedKey, round, encrypt, true, s, e);
        round := round + 1;
      }
      FinalPass(state, currKey, expandedKey, round, encrypt, true, s, e);
      TransformIsBlock(s, key, e, encrypt, true, StateOf(state));
    }

    /** The start of both transforms: round key 0 (Nr when decrypting) fetched and added. */
    method FirstPass(state: array2<byte>, currKey: array2<byte>, expandedKey: array2<byte>, encrypt: bool)
      requires Valid() && Nk == 4 && state.Length0 == 4 && state.Length1 == Nb && Apart(state) && Apart(currKey)
      requires currKey.Length0 == 4 && currKey.Length1 == 4 && expandedKey.Length0 == 4 && expandedKey.Length1 == Nk * (Nr + 1)
      requires state != currKey && state != expandedKey && currKey != expandedKey
      modifies state, currKey
      ensures StateOf(state) == StateOps.AddRoundKey(old(StateOf(state)), CurrKey(GridOf(expandedKey), Nr, 0, encrypt))
    {
      GetCurrKey(0, currKey, expandedKey, encrypt);
      AddRoundKey(state, currKey);
    }

    /**
     * One pass of the round loop of both transforms: from the state the loop
     * holds at counter `round` to the one it holds at round + 1.
     */
    method LoopPass(state: array2<byte>, currKey: array2<byte>, expandedKey: array2<byte>, round: int, encrypt: bool, modified: bool,
                    ghost s: State, ghost e: Grid)
      requires Valid() && Nk == 4 && state.Length0 == 4 && state.Length1 == Nb && Apart(state) && Apart(currKey)
      requires currKey.Length0 == 4 && currKey.Length1 == 4 && expandedKey.Length0 == 4 && expandedKey.Length1 == Nk * (Nr + 1)
      requires state != currKey && state != expandedKey && currKey != expandedKey && 1 <= round < 10
      requires GridOf(expandedKey) == e && StateOf(state) == LoopState(s, e, 10, encrypt, modified, round)
      modifies state, currKey
      ensures StateOf(state) == LoopState(s, e, 10, encrypt, modified, round + 1)
    {
      GetCurrKey(round, currKey, expandedKey, encrypt);
      SubShiftPass(state, encrypt, modified);
      MixColumns(state, encrypt);
      if !encrypt {
        MixColumns(currKey, encrypt);
      }
      AddRoundKey(state, currKey);
    }

    /** The last round of both transforms, without MixColumns: from the state the loop leaves to the transform's result. */
    method FinalPass(state: array2<byte>, currKey: array2<byte>, expandedKey: array2<byte>, round: int, encrypt: bool, modified: bool,
                     ghost s: State, ghost e: Grid)
      requires Valid() && Nk == 4 && state.Length0 == 4 && state.Length1 == Nb && Apart(state) && Apart(currKey)
      requires currKey.Length0 == 4 && currKey.Length1 == 4 && expandedKey.Length0 == 4 && expandedKey.Length1 == Nk * (Nr + 1)
      requires state != currKey && state != expandedKey && currKey != expandedKey
      requires GridOf(expandedKey) == e && round == 10 && StateOf(state) == LoopState(s, e, 10, encrypt, modified, round)
      modifies state, currKey
      ensures StateOf(state) == Cipher.Transform(s, e, 10, encrypt, modified)
    {
      GetCurrKey(round, currKey, expandedKey, encrypt);
      SubShiftPass(state, encrypt, modified);
      AddRoundKey(state, currKey);
    }

    /**
     * The substitution and row shift of a round: subBytes then the row shift,
     * except that the modified cipher shifts first when decrypting.
     */
    method SubShiftPass(state: array2<byte>, encrypt: bool, modified: bool)
      requires Valid() && state.Length0 == 4 && state.Length1 == Nb && Apart(state)
      modifies state
      ensures StateOf(state) == SubShift(old(StateOf(state)), encrypt, modified)
    {
      if !modified {
        SubBytes(state, encrypt);
        OriginalShiftRows(state, encrypt);
      } else if encrypt {
        SubBytes(state, encrypt);
        ModifiedShiftRows(state, encrypt);
      } else {
        ModifiedShiftRows(state, encrypt);
        SubBytes(state, encrypt);
      }
    }

    /**
     * shuffleMatrix on the image (height x width, both multiples of 64) the
     * message converts to: every element moved to its Destination under the
     * S-box table when shuffling, the inverse S-box table otherwise, in a
     * fresh image that starts as zeros.
     */
    method ShuffleMatrix(matrix: array2<byte>, shuffle: bool) returns (shuffledMatrix: array2<byte>)
      requires Valid() && matrix.Length0 % MetaSide == 0 && matrix.Length1 % MetaSide == 0
      ensures fresh(shuffledMatrix) && shuffledMatrix.Length0 == matrix.Length0 && shuffledMatrix.Length1 == matrix.Length1
      ensures GridOf(shuffledMatrix) == Shuffled(GridOf(matrix), matrix.Length0, matrix.Length1, shuffle)
    {
      var height, width := matrix.Length0, matrix.Length1;
      shuffledMatrix := new byte[height, width]((r, c) => 0);
      ghost var table := GridOf(if shuffle then sBox else inverseSBox);
      ghost var m := GridOf(matrix);
      for row := 0 to height
        invariant ScatteredBefore(GridOf(shuffledMatrix), m, height, width, row, 0, table)
      {
        for col := 0 to width
          invariant ScatteredBefore(GridOf(shuffledMatrix), m, height, width, row, col, table)
        {
          var metaBlockRow, metaBlockCol := row / 64, col / 64;
          var blockRow, blockCol := (row % 64) / 4, (col % 64) / 4;
          var entry := if shuffle then sBox[blockRow, blockCol] else inverseSBox[blockRow, blockCol];
          assert entry == table[blockRow][blockCol];
          var shuffledBlockRow, shuffledBlockCol := Hi(entry), Lo(entry);
          var newRow := metaBlockRow * 64 + shuffledBlockRow * 4 + row % 4;
          var newCol := metaBlockCol * 64 + shuffledBlockCol * 4 + col % 4;
          assert newRow == Destination(row, col, table).0;
          assert newCol == Destination(row, col, table).1;
          DestinationInRange(row, col, table, height, width);
          ghost var before := GridOf(shuffledMatrix);
          StoreElement(shuffledMatrix, newRow, newCol, matrix[row, col], before);
          ScatterStep(before, GridOf(shuffledMatrix), m, height, width, row, col, table, shuffle);
        }
        RowScattered(GridOf(shuffledMatrix), m, height, width, row, table);
      }
      ScatterShuffled(GridOf(shuffledMatrix), m, height, width, shuffle, table);
    }

    /** Writes v at (i, j) of the image a, whose contents were g. */
    static method StoreElement(a: array2<byte>, i: nat, j: nat, v: byte, ghost g: Grid)
      requires i < a.Length0 && j < a.Length1 && GridOf(a) == g
      modifies a
      ensures GridOf(a) == g[i := g[i][j := v]]
    {
      a[i, j] := v;
      assert forall r | 0 <= r < a.Length0 :: GridOf(a)[r] == g[i := g[i][j := v]][r];
    }

    /**
     * One pass of the drivers' block loop: the block read into a fresh
     * state and transformed in the direction `encrypt`, by
     * modifiedTransform when modifiedAES is set and by transform otherwise.
     */
    method TransformBlock(block: State, initialKey: array2<byte>, encrypt: bool, modifiedAES: bool, ghost key: State) returns (r: State)
      requires Valid() && Nk == 4 && initialKey.Length0 == 4 && initialKey.Length1 == Nk && StateOf(initialKey) == key
      ensures r == BlockTransform(block, key, encrypt, modifiedAES)
    {
      var state := ToArray(block, 4, Nb);
      StateIsGrid(state);
      if modifiedAES {
        ModifiedTransform(state, initialKey, encrypt);
      } else {
        Transform(state, initialKey, encrypt);
      }
      r := StateOf(state);
    }

    /** encryptMessage: every block encrypted under the key, in order; the direction is left on encryption. */
    method EncryptMessage(plaintext: seq<State>, key: State, modifiedAES: bool) returns (encrypted: seq<State>)
      requires Valid() && Nk == 4
      modifies this
      ensures Valid() && encrypt
      ensures encrypted == ProcessBlocks(plaintext, key, true, modifiedAES)
    {
      encrypt := true;
      var initialKey := ToArray(key, 4, Nk);
      StateIsGrid(initialKey);
      encrypted := [];
      for i := 0 to |plaintext|
        invariant Valid() && encrypt && StateOf(initialKey) == key
        invariant encrypted == ProcessBlocks(plaintext[..i], key, true, modifiedAES)
      {
        var state := TransformBlock(plaintext[i], initialKey, encrypt, modifiedAES, key);
        ProcessBlocksStep(plaintext, i, key, true, modifiedAES);
        encrypted := encrypted + [state];
      }
      assert plaintext[..|plaintext|] == plaintext;
    }

    /** decryptCipher: every block decrypted under the key, in order; the direction is left on decryption. */
    method DecryptCipher(ciphertext: seq<State>, key: State, modifiedAES: bool) returns (decrypted: seq<State>)
      requires Valid() && Nk == 4
      modifies this
      ensures Valid() && !encrypt
      ensures decrypted == ProcessBlocks(ciphertext, key, false, modifiedAES)
    {
      encrypt := false;
      var initialKey := ToArray(key, 4, Nk);
      StateIsGrid(initialKey);
      decrypted := [];
      for i := 0 to |ciphertext|
        invariant Valid() && !encrypt && StateOf(initialKey) == key
        invariant decrypted == ProcessBlocks(ciphertext[..i], key, false, modifiedAES)
      {
        var state := TransformBlock(ciphertext[i], initialKey, encrypt, modifiedAES, key);
        ProcessBlocksStep(ciphertext, i, key, false, modifiedAES);
        decrypted := decrypted + [state];
      }
      assert ciphertext[..|ciphertext|] == ciphertext;
    }

    /**
     * proposedEncryptMessage: block number n (from 1) encrypted under the key
     * when n is odd and under derive(key) when n is even, then the whole
     * output shuffled as an h x w image when both sides are nonzero multiples
     * of 64.
     */
    method ProposedEncryptMessage(plaintext: seq<State>, key: State, derive: State -> State, imageHeight: nat, imageWidth: nat,
                                  modifiedAES: bool, toImage: seq<State> -> Grid, fromImage: Grid -> seq<State>)
      returns (encrypted: seq<State>)
      requires Valid() && Nk == 4
      requires ShuffleApplies(imageHeight, imageWidth) ==> forall x :: IsGrid(toImage(x), imageHeight, imageWidth)
      modifies this
      ensures Valid() && encrypt
      ensures encrypted == ProposedEncrypt(plaintext, key, derive, imageHeight, imageWidth, modifiedAES, toImage, fromImage)
    {
      encrypt := true;
      var inverseKey := derive(key);
      var inverseInitialKey := ToArray(inverseKey, 4, Nk);
      var initialKey := ToArray(key, 4, Nk);
      StateIsGrid(inverseInitialKey);
      StateIsGrid(initialKey);
      encrypted := [];
      var block := 1;
      for i := 0 to |plaintext|
        invariant Valid() && encrypt && StateOf(initialKey) == key && StateOf(inverseInitialKey) == inverseKey
        invariant block == i + 1 && encrypted == ProposedBlocks(plaintext[..i], key, inverseKey, true, modifiedAES)
      {
        encrypted := ProposedPass(plaintext, i, block, encrypted, initialKey, inverseInitialKey, encrypt, modifiedAES, key, inverseKey);
        block := block + 1;
      }
      assert plaintext[..|plaintext|] == plaintext;
      if (imageHeight != 0 && imageWidth != 0) && (imageHeight % 64 == 0 && imageWidth % 64 == 0) {
        encrypted := ShuffleBlocks(encrypted, imageHeight, imageWidth, true, toImage, fromImage);
      }
    }

    /**
     * proposedDecryptCipher: the message first unshuffled as an h x w image
     * when both sides are nonzero multiples of 64, then block number n (from
     * 1) decrypted under the key when n is odd and under derive(key) when n
     * is even.
     */
    method ProposedDecryptCipher(ciphertext: seq<State>, key: State, derive: State -> State, imageHeight: nat, imageWidth: nat,
                                 modifiedAES: bool, toImage: seq<State> -> Grid, fromImage: Grid -> seq<State>)
      returns (decrypted: seq<State>)
      requires Valid() && Nk == 4
      requires ShuffleApplies(imageHeight, imageWidth) ==> forall x :: IsGrid(toImage(x), imageHeight, imageWidth)
      modifies this
      ensures Valid() && !encrypt
      ensures decrypted == ProposedDecrypt(ciphertext, key, derive, imageHeight, imageWidth, modifiedAES, toImage, fromImage)
    {
      encrypt := false;
      var message := ciphertext;
      if (imageHeight != 0 && imageWidth != 0) && (imageHeight % 64 == 0 && imageWidth % 64 == 0) {
        message := ShuffleBlocks(message, imageHeight, imageWidth, false, toImage, fromImage);
      }
      var inverseKey := derive(key);
      var inverseInitialKey := ToArray(inverseKey, 4, Nk);
      var initialKey := ToArray(key, 4, Nk);
      StateIsGrid(inverseInitialKey);
      StateIsGrid(initialKey);
      decrypted := [];
      var block := 1;
      for i := 0 to |message|
        invariant Valid() && !encrypt && StateOf(initialKey) == key && StateOf(inverseInitialKey) == inverseKey
        invariant block == i + 1 && decrypted == ProposedBlocks(message[..i], key, inverseKey, false, modifiedAES)
      {
        decrypted := ProposedPass(message, i, block, decrypted, initialKey, inverseInitialKey, encrypt, modifiedAES, key, inverseKey);
        block := block + 1;
      }
      assert message[..|message|] == message;
    }

    /**
     * One pass of the proposed drivers' block loop: block number `block`
     * transformed under the key when the number is odd and under the inverse
     * key when it is even, and appended to the output.
     */
    method ProposedPass(message: seq<State>, i: nat, block: int, out: seq<State>, initialKey: array2<byte>, inverseInitialKey: array2<byte>,
                        encrypt: bool, modifiedAES: bool, ghost key: State, ghost inverseKey: State) returns (out': seq<State>)
      requires Valid() && Nk == 4 && i < |message| && block == i + 1
      requires initialKey.Length0 == 4 && initialKey.Length1 == Nk && StateOf(initialKey) == key
      requires inverseInitialKey.Length0 == 4 && inverseInitialKey.Length1 == Nk && StateOf(inverseInitialKey) == inverseKey
      requires out == ProposedBlocks(message[..i], key, inverseKey, encrypt, modifiedAES)
      ensures out' == ProposedBlocks(message[..i + 1], key, inverseKey, encrypt, modifiedAES)
    {
      var state;
      if block % 2 != 0 {
        state := TransformBlock(message[i], initialKey, encrypt, modifiedAES, key);
      } else {
        state := TransformBlock(message[i], inverseInitialKey, encrypt, modifiedAES, inverseKey);
      }
      ProposedBlocksStep(message, i, key, inverseKey, encrypt, modifiedAES, out, state);
      out' := out + [state];
    }

    /**
     * The shuffle step of the proposed drivers: the message laid out as an
     * h x w image, shuffleMatrix applied, and the image read back.
     */
    method ShuffleBlocks(message: seq<State>, imageHeight: nat, imageWidth: nat, shuffle: bool,
                         toImage: seq<State> -> Grid, fromImage: Grid -> seq<State>) returns (out: seq<State>)
      requires Valid() && imageHeight % MetaSide == 0 && imageWidth % MetaSide == 0
      requires IsGrid(toImage(message), imageHeight, imageWidth)
      ensures out == ShuffleMessage(message, imageHeight, imageWidth, shuffle, toImage, fromImage)
    {
      var matrix := ToArray(toImage(message), imageHeight, imageWidth);
      var shuffled := ShuffleMatrix(matrix, shuffle);
      out := fromImage(GridOf(shuffled));
    }
  }

  /** The table keyExpansion fills for a 128-bit key is the one BlockTransform expands. */
  lemma ExpandedWithSBox(initialKey: array2<byte>, e: Grid, aes: AES)
    requires aes.Valid() && aes.Nk == 4 && initialKey.Length0 == 4 && initialKey.Length1 == 4
    requires e == ExpandedKey(GridOf(initialKey), aes.Nk, aes.Nr, GridOf(aes.sBox))
    ensures e == ExpandedKey(StateOf(initialKey), 4, 10, LookupTable(true))
  {
    assert StateOf(initialKey) == GridOf(initialKey);
  }

  /** The transform under the table expanded with the S-box is BlockTransform. */
  lemma TransformIsBlock(s: State, key: State, e: Grid, encrypt: bool, modified: bool, r: State)
    requires e == ExpandedKey(key, 4, 10, LookupTable(true)) && r == Cipher.Transform(s, e, 10, encrypt, modified)
    ensures r == BlockTransform(s, key, encrypt, modified)
  {
  }

  /** Whether the element at (r, c) of the image m sits at its destination in the image g. */
  predicate ScatteredAt(g: Grid, m: Grid, r: nat, c: nat, table: Grid)
    requires IsGrid(table, 16, 16) && r < |m| && c < |m[r]|
  {
    var d := Destination(r, c, table);
    d.0 < |g| && d.1 < |g[d.0]| && g[d.0][d.1] == m[r][c]
  }

  /** Whether every element of the h x w image m before (row, col), row by row, sits at its destination in g. */
  predicate ScatteredBefore(g: Grid, m: Grid, h: nat, w: nat, row: nat, col: nat, table: Grid)
    requires IsGrid(table, 16, 16) && IsGrid(m, h, w)
  {
    forall r, c | 0 <= r < h && 0 <= c < w && (r < row || (r == row && c < col)) :: ScatteredAt(g, m, r, c, table)
  }

  /** Writing the element at (row, col) at its destination keeps the elements written before it in place. */
  lemma ScatterStep(g: Grid, g': Grid, m: Grid, h: nat, w: nat, row: nat, col: nat, table: Grid, shuffle: bool)
    requires table == LookupTable(shuffle) && IsGrid(m, h, w) && IsGrid(g, h, w) && row < h && col < w
    requires ScatteredBefore(g, m, h, w, row, col, table)
    requires var d := Destination(row, col, table); d.0 < h && d.1 < w && g' == g[d.0 := g[d.0][d.1 := m[row][col]]]
    ensures ScatteredBefore(g', m, h, w, row, col + 1, table)
  {
    forall r, c | 0 <= r < h && 0 <= c < w && (r < row || (r == row && c < col + 1)) ensures ScatteredAt(g', m, r, c, table) {
      if r != row || c != col {
        ScatterKeeps(g, g', m, r, c, row, col, table, shuffle);
      }
    }
  }

  /** Writing the element at (row, col) leaves an element written at another destination in place. */
  lemma ScatterKeeps(g: Grid, g': Grid, m: Grid, r: nat, c: nat, row: nat, col: nat, table: Grid, shuffle: bool)
    requires table == LookupTable(shuffle) && r < |m| && c < |m[r]| && row < |m| && col < |m[row]|
    requires ScatteredAt(g, m, r, c, table) && (r != row || c != col)
    requires var d := Destination(row, col, table); d.0 < |g| && d.1 < |g[d.0]| && g' == g[d.0 := g[d.0][d.1 := m[row][col]]]
    ensures ScatteredAt(g', m, r, c, table)
  {
    DestinationInjective(r, c, row, col, shuffle);
  }

  /** Having written a whole row is having written everything before the next one. */
  lemma RowScattered(g: Grid, m: Grid, h: nat, w: nat, row: nat, table: Grid)
    requires IsGrid(table, 16, 16) && IsGrid(m, h, w) && ScatteredBefore(g, m, h, w, row, w, table)
    ensures ScatteredBefore(g, m, h, w, row + 1, 0, table)
  {
  }

  /** An image with every element of m at its destination is the Shuffled image. */
  lemma ScatterShuffled(g: Grid, m: Grid, h: nat, w: nat, shuffle: bool, table: Grid)
    requires table == LookupTable(shuffle) && ShuffleShape(m, h, w) && IsGrid(g, h, w)
    requires ScatteredBefore(g, m, h, w, h, 0, table)
    ensures g == Shuffled(m, h, w, shuffle)
  {
    var s := Shuffled(m, h, w, shuffle);
    forall i, j | 0 <= i < h && 0 <= j < w ensures g[i][j] == s[i][j] {
      var d := Destination(i, j, LookupTable(!shuffle));
      DestinationInRange(i, j, LookupTable(!shuffle), h, w);
      DestinationInverse(i, j, !shuffle);
      assert ScatteredAt(g, m, d.0, d.1, table);
    }
    assert forall i | 0 <= i < h :: g[i] == s[i];
  }

  /** An array whose first nk columns hold the key's holds the first nk of the n Columns. */
  lemma KeyHeld(initialKey: array2<byte>, expandedKey: array2<byte>, nk: int, n: nat, sbox: Grid)
    requires KeyWords(nk) && IsGrid(sbox, 16, 16) && initialKey.Length0 == 4 && initialKey.Length1 == nk
    requires expandedKey.Length0 == 4 && nk <= expandedKey.Length1 && nk <= n
    requires forall r, c | 0 <= r < 4 && 0 <= c < nk :: expandedKey[r, c] == initialKey[r, c]
    ensures forall r, c | 0 <= r < 4 && 0 <= c < nk :: expandedKey[r, c] == Columns(GridOf(initialKey), nk, n, sbox)[c][r]
  {
    ColumnsOfKey(GridOf(initialKey), nk, n, sbox);
  }

  /** An array holding all the Columns holds the expanded key. */
  lemma ScheduleHeld(expandedKey: array2<byte>, key: Grid, nk: int, nr: nat, sbox: Grid)
    requires KeyWords(nk) && IsGrid(key, 4, nk) && IsGrid(sbox, 16, 16)
    requires expandedKey.Length0 == 4 && expandedKey.Length1 == nk * (nr + 1)
    requires forall r, c | 0 <= r < 4 && 0 <= c < nk * (nr + 1) :: expandedKey[r, c] == Columns(key, nk, nk * (nr + 1), sbox)[c][r]
    ensures GridOf(expandedKey) == ExpandedKey(key, nk, nr, sbox)
  {
    ColumnsExpandedKey(key, nk, nr, sbox, GridOf(expandedKey));
  }

  /**
   * The word keyExpansion leaves in `temp` at a multiple of Nk: the previous
   * column rotated, each byte looked up in the table array, round constant
   * added to the first, is KeyTemp with the table's contents.
   */
  lemma TempHolds(temp: array<byte>, sBox: array2<byte>, prev: Word, nk: int, col: int)
    requires sBox.Length0 == 16 && sBox.Length1 == 16 && temp.Length == 4 && KeyWords(nk) && nk <= col && col % nk == 0
    requires temp[0] == Add(sBox[Hi(prev[1]), Lo(prev[1])], RCon(col / 4 - 1))
    requires temp[1] == sBox[Hi(prev[2]), Lo(prev[2])] && temp[2] == sBox[Hi(prev[3]), Lo(prev[3])]
    requires temp[3] == sBox[Hi(prev[0]), Lo(prev[0])]
    ensures temp[..] == KeyTemp(prev, nk, col, GridOf(sBox))
  {
  }

  /** A 4 x 4 array read as a state is the same as read as a grid. */
  lemma StateIsGrid(a: array2<byte>)
    requires a.Length0 == 4 && a.Length1 == Nb
    ensures StateOf(a) == GridOf(a)
  {
    assert forall i | 0 <= i < 4 :: StateOf(a)[i] == GridOf(a)[i];
  }

  /** An array that holds t entry by entry holds t. */
  lemma HoldsState(a: array2<byte>, t: State)
    requires a.Length0 == 4 && a.Length1 == Nb
    requires forall i, j | 0 <= i < 4 && 0 <= j < Nb :: a[i, j] == t[i][j]
    ensures StateOf(a) == t
  {
    assert forall i | 0 <= i < 4 :: StateOf(a)[i] == t[i];
  }

  /**
   * An array that holds, for every byte of s, the entry of the table array
   * `tbl` at the byte's nibbles holds SubBytes(s), when `tbl` holds the
   * S-box (encrypt) or the inverse S-box.
   */
  lemma SubBytesHolds(a: array2<byte>, tbl: array2<byte>, s: State, encrypt: bool)
    requires a.Length0 == 4 && a.Length1 == Nb && tbl.Length0 == 16 && tbl.Length1 == 16
    requires GridOf(tbl) == LookupTable(encrypt)
    requires forall i, j | 0 <= i < 4 && 0 <= j < Nb :: a[i, j] == tbl[Hi(s[i][j]), Lo(s[i][j])]
    ensures StateOf(a) == StateOps.SubBytes(s, encrypt)
  {
    forall i, j | 0 <= i < 4 && 0 <= j < Nb ensures StateOf(a)[i][j] == StateOps.SubBytes(s, encrypt)[i][j] {
      assert GridOf(tbl)[Hi(s[i][j])][Lo(s[i][j])] == tbl[Hi(s[i][j]), Lo(s[i][j])];
      LookupTableEntry(encrypt, s[i][j]);
    }
    assert forall i | 0 <= i < 4 :: StateOf(a)[i] == StateOps.SubBytes(s, encrypt)[i];
  }

  /** The state after shiftRow has been applied to rows 1 .. n - 1, each by its own index. */
  function ShiftedRows(s: State, n: int, encrypt: bool): State
    requires 1 <= n <= 4
    decreases n
  {
    if n == 1 then s else StateOps.ShiftRow(ShiftedRows(s, n - 1, encrypt), n - 1, n - 1, encrypt)
  }

  /** The value mixColumns has accumulated for one entry after `n` products. */
  function PartialMix(s: State, col: int, entry: int, encrypt: bool, n: int): byte
    requires 0 <= col < Nb && 0 <= entry < 4 && 0 <= n <= 4
    decreases n
  {
    if n == 0 then 0 else Add(PartialMix(s, col, entry, encrypt, n - 1), Multiply(Matrix(encrypt, entry, n - 1), s[n - 1][col]))
  }

  /** After all four products the accumulated value is the entry of the product. */
  lemma PartialMixComplete(s: State, col: int, entry: int, encrypt: bool)
    requires 0 <= col < Nb && 0 <= entry < 4
    ensures PartialMix(s, col, entry, encrypt, 4) == MixEntry(s, col, entry, encrypt)
  {
  }

  /** An array that holds the entries of MixColumns(s) holds MixColumns(s). */
  lemma MixHolds(a: array2<byte>, s: State, encrypt: bool)
    requires a.Length0 == 4 && a.Length1 == Nb
    requires forall i, j | 0 <= i < 4 && 0 <= j < Nb :: a[i, j] == MixEntry(s, j, i, encrypt)
    ensures StateOf(a) == StateOps.MixColumns(s, encrypt)
  {
    HoldsState(a, StateOps.MixColumns(s, encrypt));
  }
}
