/**
 * The message drivers, on a message already cut into blocks of 16 bytes
 * (one 32-digit hexadecimal chunk each, read column by column into a state).
 * encryptMessage and decryptCipher transform every block under the same key;
 * the proposed drivers alternate between the key (odd blocks, counted from 1)
 * and a key derived from it (even blocks), and shuffle the whole output when
 * the image sides allow. The hexadecimal conversions, including the
 * block-wise one between the message and the image, are parameters.
 */
module Messages {
  import opened GF
  import opened StateOps
  import opened Cipher
  import opened Shuffle

  /**
   * The message-processing loop of the drivers: block number n (counted
   * from 1) is transformed by transform(n, block) and appended to the output.
   */
  function TransformEach(blocks: seq<State>, transform: (nat, State) -> State): (r: seq<State>)
    ensures |r| == |blocks|
  {
    if |blocks| == 0 then []
    else TransformEach(blocks[..|blocks| - 1], transform) + [transform(|blocks|, blocks[|blocks| - 1])]
  }

  /** Output block i is input block i transformed as block number i + 1. */
  lemma {:induction false} TransformEachAt(blocks: seq<State>, transform: (nat, State) -> State, i: nat)
    requires i < |blocks|
    ensures TransformEach(blocks, transform)[i] == transform(i + 1, blocks[i])
    decreases |blocks|
  {
    var front := blocks[..|blocks| - 1];
    if i < |front| {
      TransformEachAt(front, transform, i);
      assert front[i] == blocks[i];
    }
  }

  /**
   * The output of encryptMessage (encrypt) or decryptCipher (not encrypt):
   * every block transformed under `key`.
   */
  function ProcessBlocks(blocks: seq<State>, key: State, encrypt: bool, modified: bool): seq<State>
  {
    TransformEach(blocks, (n: nat, b: State) => BlockTransform(b, key, encrypt, modified))
  }

  /** Transforming one more block appends its transform to the output. */
  lemma TransformEachStep(blocks: seq<State>, i: nat, transform: (nat, State) -> State)
    requires i < |blocks|
    ensures TransformEach(blocks[..i + 1], transform) == TransformEach(blocks[..i], transform) + [transform(i + 1, blocks[i])]
  {
    assert blocks[..i + 1][..i] == blocks[..i];
  }

  /** ProcessBlocks on one more block appends the block's transform. */
  lemma ProcessBlocksStep(blocks: seq<State>, i: nat, key: State, encrypt: bool, modified: bool)
    requires i < |blocks|
    ensures ProcessBlocks(blocks[..i + 1], key, encrypt, modified) == ProcessBlocks(blocks[..i], key, encrypt, modified) + [BlockTransform(blocks[i], key, encrypt, modified)]
  {
    TransformEachStep(blocks, i, (n: nat, b: State) => BlockTransform(b, key, encrypt, modified));
  }

  /** The key the proposed drivers use for block number `block`, counted from 1. */
  function BlockKey(block: int, key: State, derived: State): State
  {
    if block % 2 != 0 then key else derived
  }

  /**
   * The blocks the proposed drivers produce before any shuffling: block
   * number n is transformed under the key when n is odd and under the
   * derived key when n is even.
   */
  function ProposedBlocks(blocks: seq<State>, key: State, derived: State, encrypt: bool, modified: bool): seq<State>
  {
    TransformEach(blocks, (n: nat, b: State) => BlockTransform(b, BlockKey(n, key, derived), encrypt, modified))
  }

  /** ProposedBlocks on one more block appends the block's transform under the key its number selects. */
  lemma ProposedBlocksStep(blocks: seq<State>, i: nat, key: State, derived: State, encrypt: bool, modified: bool, front: seq<State>, last: State)
    requires i < |blocks| && front == ProposedBlocks(blocks[..i], key, derived, encrypt, modified)
    requires last == BlockTransform(blocks[i], BlockKey(i + 1, key, derived), encrypt, modified)
    ensures front + [last] == ProposedBlocks(blocks[..i + 1], key, derived, encrypt, modified)
  {
    TransformEachStep(blocks, i, (n: nat, b: State) => BlockTransform(b, BlockKey(n, key, derived), encrypt, modified));
  }

  /** The proposed drivers use the key on the blocks at even indices (odd block numbers) and the derived key on the others. */
  lemma ProposedBlocksKeys(blocks: seq<State>, key: State, derived: State, encrypt: bool, modified: bool, i: int)
    requires 0 <= i < |blocks|
    ensures |ProposedBlocks(blocks, key, derived, encrypt, modified)| == |blocks|
    ensures ProposedBlocks(blocks, key, derived, encrypt, modified)[i]
         == BlockTransform(blocks[i], if i % 2 == 0 then key else derived, encrypt, modified)
  {
    var k := if i % 2 == 0 then key else derived;
    assert BlockKey(i + 1, key, derived) == k;
    TransformEachAt(blocks, (n: nat, b: State) => BlockTransform(b, BlockKey(n, key, derived), encrypt, modified), i);
  }

  /** Whether the proposed drivers shuffle: both image sides nonzero multiples of 64. */
  predicate ShuffleApplies(h: nat, w: nat)
  {
    (h != 0 && w != 0) && (h % MetaSide == 0 && w % MetaSide == 0)
  }

  /** ShuffleApplies holds exactly for positive multiples of 64. */
  lemma ShuffleAppliesMeaning(h: nat, w: nat)
    ensures ShuffleApplies(h, w) <==> (exists a: nat, b: nat :: 1 <= a && 1 <= b && h == 64 * a && w == 64 * b)
  {
    if ShuffleApplies(h, w) {
      assert h == 64 * (h / 64) && w == 64 * (w / 64);
    }
  }

  /**
   * shuffleMatrix on a message: the blocks laid out as an h x w image, the
   * image shuffled (or unshuffled), and the result read back into blocks.
   */
  function ShuffleMessage(blocks: seq<State>, h: nat, w: nat, shuffle: bool,
                          toImage: seq<State> -> Grid, fromImage: Grid -> seq<State>): seq<State>
    requires h % MetaSide == 0 && w % MetaSide == 0 && IsGrid(toImage(blocks), h, w)
  {
    fromImage(Shuffled(toImage(blocks), h, w, shuffle))
  }

  /** The output of proposedEncryptMessage. */
  function ProposedEncrypt(blocks: seq<State>, key: State, derive: State -> State, h: nat, w: nat, modified: bool,
                           toImage: seq<State> -> Grid, fromImage: Grid -> seq<State>): seq<State>
    requires ShuffleApplies(h, w) ==> forall x :: IsGrid(toImage(x), h, w)
  {
    var c := ProposedBlocks(blocks, key, derive(key), true, modified);
    if ShuffleApplies(h, w) then ShuffleMessage(c, h, w, true, toImage, fromImage) else c
  }

  /** The output of proposedDecryptCipher: unshuffle first when the sides allow, then decrypt. */
  function ProposedDecrypt(blocks: seq<State>, key: State, derive: State -> State, h: nat, w: nat, modified: bool,
                           toImage: seq<State> -> Grid, fromImage: Grid -> seq<State>): seq<State>
    requires ShuffleApplies(h, w) ==> forall x :: IsGrid(toImage(x), h, w)
  {
    var c := if ShuffleApplies(h, w) then ShuffleMessage(blocks, h, w, false, toImage, fromImage) else blocks;
    ProposedBlocks(c, key, derive(key), false, modified)
  }

  // ----- Round trips -----

  /** decryptCipher undoes encryptMessage under the same 128-bit key. */
  lemma MessageRoundTrip(blocks: seq<State>, key: State, modified: bool)
    ensures ProcessBlocks(ProcessBlocks(blocks, key, true, modified), key, false, modified) == blocks
  {
    var c := ProcessBlocks(blocks, key, true, modified);
    var d := ProcessBlocks(c, key, false, modified);
    forall i | 0 <= i < |blocks| ensures d[i] == blocks[i] {
      TransformEachAt(blocks, (n: nat, b: State) => BlockTransform(b, key, true, modified), i);
      TransformEachAt(c, (n: nat, b: State) => BlockTransform(b, key, false, modified), i);
      BlockRoundTrip(blocks[i], key, modified);
    }
  }

  /** The proposed block transform is undone block by block with the same key and derived key. */
  lemma ProposedBlocksRoundTrip(blocks: seq<State>, key: State, derived: State, modified: bool)
    ensures ProposedBlocks(ProposedBlocks(blocks, key, derived, true, modified), key, derived, false, modified) == blocks
  {
    var c := ProposedBlocks(blocks, key, derived, true, modified);
    var d := ProposedBlocks(c, key, derived, false, modified);
    forall i | 0 <= i < |blocks| ensures d[i] == blocks[i] {
      ProposedBlocksKeys(blocks, key, derived, true, modified, i);
      ProposedBlocksKeys(c, key, derived, false, modified, i);
      BlockRoundTrip(blocks[i], if i % 2 == 0 then key else derived, modified);
    }
  }

  /**
   * proposedDecryptCipher undoes proposedEncryptMessage, provided the
   * block-wise conversions between a message of |blocks| blocks and an
   * h x w image invert each other.
   */
  lemma ProposedRoundTrip(blocks: seq<State>, key: State, derive: State -> State, h: nat, w: nat, modified: bool,
                          toImage: seq<State> -> Grid, fromImage: Grid -> seq<State>)
    requires ShuffleApplies(h, w) ==> forall x :: IsGrid(toImage(x), h, w)
    requires ShuffleApplies(h, w) ==> forall g | IsGrid(g, h, w) :: toImage(fromImage(g)) == g
    requires ShuffleApplies(h, w) ==> forall x: seq<State> | |x| == |blocks| :: fromImage(toImage(x)) == x
    ensures ProposedDecrypt(ProposedEncrypt(blocks, key, derive, h, w, modified, toImage, fromImage),
                            key, derive, h, w, modified, toImage, fromImage) == blocks
  {
    var c := ProposedBlocks(blocks, key, derive(key), true, modified);
    if ShuffleApplies(h, w) {
      var image := toImage(c);
      var e := ShuffleMessage(c, h, w, true, toImage, fromImage);
      assert toImage(e) == Shuffled(image, h, w, true);
      ShuffleRoundTrip(image, h, w);
      assert ShuffleMessage(e, h, w, false, toImage, fromImage) == c;
    }
    ProposedBlocksRoundTrip(blocks, key, derive(key), modified);
  }
}
