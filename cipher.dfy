/**
 * The block transforms: `transform`, the cipher of FIPS-197 section 5.1 run
 * forwards or, through the equivalent inverse cipher of section 5.3.5,
 * backwards; and `modifiedTransform`, which replaces ShiftRows by the
 * data-dependent row shift. Both run the round loop while the round counter
 * is below the literal 10, whatever Nr is.
 */
module Cipher {
  import opened GF
  import opened StateOps
  import opened KeySchedule

  /** The bound of the round loop, fixed at 10 in both transforms. */
  const RoundLoopBound := 10

  /**
   * The substitution and row-shift step of one round. The standard cipher
   * substitutes and then shifts in both directions. The modified cipher
   * substitutes and then shifts when encrypting, and shifts and then
   * substitutes when decrypting.
   */
  function SubShift(s: State, encrypt: bool, modified: bool): State
  {
    if !modified then OriginalShiftRows(SubBytes(s, encrypt), encrypt)
    else if encrypt then ModifiedShiftRows(SubBytes(s, true), true)
    else SubBytes(ModifiedShiftRows(s, false), false)
  }

  /**
   * One pass of the round loop with round key `key`. When decrypting, the
   * key also goes through InvMixColumns before it is added.
   */
  function Round(s: State, key: State, encrypt: bool, modified: bool): State
  {
    AddRoundKey(MixColumns(SubShift(s, encrypt, modified), encrypt), if encrypt then key else MixColumns(key, false))
  }

  /**
   * The state at the head of the round loop when the counter is `round`:
   * the initial AddRoundKey, then the rounds 1 .. round - 1.
   */
  function LoopState(s: State, expanded: Grid, nr: nat, encrypt: bool, modified: bool, round: int): State
    requires IsGrid(expanded, 4, 4 * (nr + 1)) && RoundLoopBound <= nr && 1 <= round <= RoundLoopBound
    decreases round
  {
    if round == 1 then AddRoundKey(s, CurrKey(expanded, nr, 0, encrypt))
    else Round(LoopState(s, expanded, nr, encrypt, modified, round - 1), CurrKey(expanded, nr, round - 1, encrypt), encrypt, modified)
  }

  /**
   * The whole transform of one block under an expanded key: the round loop,
   * then the final round without MixColumns.
   */
  function Transform(s: State, expanded: Grid, nr: nat, encrypt: bool, modified: bool): State
    requires IsGrid(expanded, 4, 4 * (nr + 1)) && RoundLoopBound <= nr
  {
    var last := LoopState(s, expanded, nr, encrypt, modified, RoundLoopBound);
    AddRoundKey(SubShift(last, encrypt, modified), CurrKey(expanded, nr, RoundLoopBound, encrypt))
  }

  /** The transform of one block under a 128-bit cipher key, whose schedule is expanded first with the S-box. */
  function BlockTransform(s: State, key: State, encrypt: bool, modified: bool): State
  {
    Transform(s, ExpandedKey(key, 4, 10, LookupTable(true)), 10, encrypt, modified)
  }

  // ----- The round trip -----

  /** The decryption step of a round undoes its encryption step, in both ciphers. */
  lemma SubShiftInverse(s: State, modified: bool)
    ensures SubShift(SubShift(s, true, modified), false, modified) == s
  {
    if !modified {
      var t := SubBytes(s, true);
      SubBytesShiftRows(t);
      SubBytesInverse(s);
      OriginalShiftRowsInverse(s);
    } else {
      ModifiedShiftRowsInverse(SubBytes(s, true));
      SubBytesInverse(s);
    }
  }

  /**
   * Undoing one round: InvMixColumns of (MixColumns(x) + key) plus
   * InvMixColumns(key) gives x back.
   */
  lemma MixKeyInverse(x: State, key: State)
    ensures AddRoundKey(MixColumns(AddRoundKey(MixColumns(x, true), key), false), MixColumns(key, false)) == x
  {
    var y := MixColumns(x, true);
    MixColumnsAdd(y, key);
    AddRoundKeyTwice(MixColumns(y, false), MixColumns(key, false));
    MixColumnsInverse(x);
  }

  /**
   * A decryption round with the same key undoes an encryption round, up to
   * the step SubShift that both leave to the next round.
   */
  lemma RoundInverse(x: State, key: State, modified: bool)
    ensures Round(SubShift(Round(x, key, true, modified), true, modified), key, false, modified) == SubShift(x, true, modified)
  {
    var prev := Round(x, key, true, modified);
    SubShiftInverse(prev, modified);
    MixKeyInverse(SubShift(x, true, modified), key);
  }

  /**
   * With Nr = 10 the decryption loop retraces the encryption loop: at counter
   * `round` it holds the step SubShift of the state the encryption loop held
   * at counter 11 - round.
   */
  lemma {:induction false} LoopInverse(p: State, expanded: Grid, modified: bool, round: int)
    requires IsGrid(expanded, 4, 44) && 1 <= round <= RoundLoopBound
    ensures LoopState(Transform(p, expanded, 10, true, modified), expanded, 10, false, modified, round)
         == SubShift(LoopState(p, expanded, 10, true, modified, 11 - round), true, modified)
    decreases round
  {
    if round == 1 {
      AddRoundKeyTwice(SubShift(LoopState(p, expanded, 10, true, modified, 10), true, modified), CurrKey(expanded, 10, 10, true));
    } else {
      LoopInverse(p, expanded, modified, round - 1);
      var key := CurrKey(expanded, 10, round - 1, false);
      assert key == CurrKey(expanded, 10, 11 - round, true);
      RoundInverse(LoopState(p, expanded, 10, true, modified, 11 - round), key, modified);
    }
  }

  /** LoopInverse at the last counter: decryption leaves its loop on the step SubShift of encryption's first state. */
  lemma LoopExit(p: State, expanded: Grid, modified: bool)
    requires IsGrid(expanded, 4, 44)
    ensures LoopState(Transform(p, expanded, 10, true, modified), expanded, 10, false, modified, 10)
         == SubShift(LoopState(p, expanded, 10, true, modified, 1), true, modified)
  {
    LoopInverse(p, expanded, modified, RoundLoopBound);
  }

  /** The loop's first state is the block plus round key 0. */
  lemma LoopEntry(p: State, expanded: Grid, modified: bool)
    requires IsGrid(expanded, 4, 44)
    ensures LoopState(p, expanded, 10, true, modified, 1) == AddRoundKey(p, CurrKey(expanded, 10, 0, true))
  {
  }

  /**
   * When the decryption loop ends on the step SubShift of the encryption's
   * first state, the last step of decryption gives the block back.
   */
  lemma DecryptTail(c: State, p: State, expanded: Grid, modified: bool)
    requires IsGrid(expanded, 4, 44)
    requires LoopState(c, expanded, 10, false, modified, RoundLoopBound) == SubShift(AddRoundKey(p, CurrKey(expanded, 10, 0, true)), true, modified)
    ensures Transform(c, expanded, 10, false, modified) == p
  {
    var key := CurrKey(expanded, 10, 0, true);
    assert CurrKey(expanded, 10, RoundLoopBound, false) == key;
    SubShiftInverse(AddRoundKey(p, key), modified);
    AddRoundKeyTwice(p, key);
  }

  /**
   * With Nr = 10 (a 128-bit key) decryption undoes encryption for every
   * block and every expanded key, in the standard and in the modified cipher.
   */
  lemma TransformRoundTrip(p: State, expanded: Grid, modified: bool)
    requires IsGrid(expanded, 4, 44)
    ensures Transform(Transform(p, expanded, 10, true, modified), expanded, 10, false, modified) == p
  {
    LoopExit(p, expanded, modified);
    LoopEntry(p, expanded, modified);
    DecryptTail(Transform(p, expanded, 10, true, modified), p, expanded, modified);
  }

  /** The same for a 128-bit cipher key. */
  lemma BlockRoundTrip(p: State, key: State, modified: bool)
    ensures BlockTransform(BlockTransform(p, key, true, modified), key, false, modified) == p
  {
    TransformRoundTrip(p, ExpandedKey(key, 4, 10, LookupTable(true)), modified);
  }
}
