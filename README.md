# AES with a modified row shift and a block shuffle

This project models the `AES` class of `src/aes.cpp` in Dafny and proves it
correct. The class implements the AES block cipher of FIPS-197 on 4 x 4
states of bytes. Its constructor sets the key-size parameters Nk and Nr.
Beside the standard cipher it offers a variant with three changes:

- `modifiedShiftRows` picks which rows to rotate from the parity of the
  first state byte (the "modified" cipher);
- the "proposed" message drivers alternate between the key and a derived key
  from block to block;
- those drivers also shuffle the whole output as an image. The image is cut
  into 64 x 64 meta-blocks of 4 x 4 blocks. Each block moves to the place
  named by the two nibbles of the S-box entry at its position.

The model is imperative where the source is. `Aes.AES` is a class with the
fields `Nb`, `Nk`, `Nr` and `encrypt`. It keeps its S-box and inverse S-box
in 16 x 16 arrays. Every round operation is a method that works in place on
an `array2<byte>` state, with the same loops and branches as the source.
Each method is proved to compute a pure function of the specification
modules:

| module | contents |
|---|---|
| `GF` | byte addition (XOR) and multiplication in GF(2^8), with their algebra |
| `Tables` | the S-box, the inverse S-box, the nibble split, the MixColumns matrices and the round constants |
| `MixProof` | the column algebra behind InvMixColumns |
| `StateOps` | the round functions on a state |
| `KeySchedule` | the key schedule, and FIPS-197's reference definition for it |
| `Cipher` | `transform` and `modifiedTransform` as functions |
| `Shuffle` | the block shuffle |
| `Messages` | the message drivers on sequences of blocks |

The lemmas prove the following:

- each step of a round has an inverse;
- both transforms decrypt what they encrypt under a 128-bit key;
- the key schedule agrees with FIPS-197 for a 128-bit key and departs from it
  for 192-bit keys;
- the shuffle keeps each element in its meta-block and at its offset, and the
  unshuffle undoes it;
- all four drivers round-trip.

Some behaviour only holds for 128-bit keys:

- The transforms always run the round loop while the counter is below 10,
  and they allocate a 4-column round key. For Nk = 6 or 8, `getCurrKey`
  writes Nk columns into that round key, past its end. So the transforms and
  the drivers are modelled (and required) for Nk = 4 only.
- `keyExpansion` has no FIPS-197 case for Nk > 6. It combines each new column
  with column col - 4 instead of col - Nk, and it indexes the round constant
  by col / 4 - 1 instead of col / Nk - 1. It is still modelled for every Nk as
  written. `KeySchedule.KeyColumnStandard` proves that it matches FIPS-197 for
  Nk = 4. For Nk = 6, `KeySchedule.KeyColumnSixDiverges` shows that the first
  derived column departs from the standard (through col - 4) unless key
  columns 0 and 2 are equal, and
  `KeySchedule.KeyTempTwelveRCon` shows the wrong round constant at column 12.

## Model

| member | source | states |
|---|---|---|
| Aes.KeyParameters | src/aes.cpp:6-31 | Only the key lengths 128, 192 and 256 are accepted; Nk is the length in 32-bit words and Nr = Nk + 6 |
| Aes.AES.constructor | src/aes.cpp:6-31 | A new object has Nb = 4, the (Nk, Nr) of its key length, the two lookup tables, and encryption as its direction |
| Aes.AES.Create | src/aes.cpp:6-31 | Construction fails (None, for the exception) exactly on an unsupported key length; otherwise it gives a valid object with the chosen parameters |
| Aes.AES.LeftCircularShift | src/aes.cpp:34-40 | Row rowIndex of the state is rotated left by the amount; every other row is unchanged |
| Aes.AES.ShiftRow | src/aes.cpp:34-40 | The state becomes StateOps.ShiftRow of the old state: a left rotation by shiftBy when encrypting, by Nb - shiftBy when decrypting |
| StateOps.ShiftRow | src/aes.cpp:34-40 | Only row rowIndex changes, and column c of it takes the byte from column Rotated(c, amount) |
| StateOps.ShiftRowInverse | src/aes.cpp:34-40 | Shifting a row back by the same shiftBy restores the state |
| Aes.AES.KeyExpansion | src/aes.cpp:43-82 | The table is filled with ExpandedKey of the key, Nk, Nr and the object's S-box |
| KeySchedule.KeyTemp | src/aes.cpp:58-75 | Defines the word temp of keyExpansion: the previous column, rotated, substituted and given round constant col / 4 - 1 when col is a multiple of Nk |
| KeySchedule.KeyColumn | src/aes.cpp:48-81 | Defines column col of the table: the key's column below Nk, otherwise column col - 4 plus KeyTemp of column col - 1 |
| KeySchedule.ExpandedKey | src/aes.cpp:43-82 | The table has 4 rows and Nk * (Nr + 1) columns, and entry (r, c) is byte r of KeyColumn c |
| Aes.AES.CopyKey | src/aes.cpp:48-54 | The first Nk columns of the table hold the key; the other columns are unchanged |
| Aes.AES.ColumnTemp | src/aes.cpp:58-75 | temp holds KeyTemp of the previous column: RotWord, SubWord and the round constant when col is a multiple of Nk, the column itself otherwise |
| Aes.AES.RotateAndSubstitute | src/aes.cpp:65-72 | temp holds the S-box entries of the previous column rotated left by one byte |
| Aes.AES.Substitute | src/aes.cpp:67-72 | Each byte of temp is replaced by the S-box entry at its high nibble (row) and low nibble (column) |
| Aes.AES.StoreColumn | src/aes.cpp:77-80 | Column col of the table becomes column col - 4 plus temp; every other column is unchanged |
| KeySchedule.ColumnsExpandedKey | src/aes.cpp:56-81 | A table whose columns are those of the column-by-column recurrence is ExpandedKey |
| KeySchedule.ColumnsAreKeyColumns | src/aes.cpp:56-81 | The recurrence and the closed definition KeyColumn agree on every column |
| KeySchedule.KeyColumnStandard | src/aes.cpp:43-82 | For a 128-bit key every column of the schedule is the word w[i] of the FIPS-197 key expansion |
| KeySchedule.KeyColumnSixDiverges | src/aes.cpp:79 | For Nk = 6, column 6 equals the FIPS-197 word iff key columns 0 and 2 are equal, because each column is combined with column col - 4 instead of col - Nk |
| KeySchedule.KeyTempTwelveRCon | src/aes.cpp:74 | For Nk = 6, the temp word at column 12 carries round constant number 12 / 4 - 1 = 2 (04), not FIPS-197's 12 / 6 - 1 = 1 (02) |
| KeySchedule.RoundKeyStandard | src/aes.cpp:43-97 | Round key r of a 128-bit key is the FIPS-197 words 4r .. 4r + 3 |
| Tables.RConValues | src/aes.cpp:74 | The round constants are 01 02 04 08 10 20 40 80 1b 36 |
| Tables.RCon | src/aes.cpp:74 | Defines round constant i of `c_rCon` as x^i in GF(2^8), by repeated doubling |
| Aes.AES.GetCurrKey | src/aes.cpp:85-97 | The first Nk columns of currKey are the columns of round `round` (Nr - round when decrypting); the remaining columns are kept; for Nk = 4 the result is CurrKey |
| KeySchedule.RoundKey | src/aes.cpp:90-96 | Round key `round` holds columns 4 * round .. 4 * round + 3 of the table |
| KeySchedule.CurrKey | src/aes.cpp:85-97 | Defines the round key getCurrKey selects for Nk = 4: RoundKey of round `round` when encrypting, of Nr - round when decrypting |
| KeySchedule.CurrKeyMirror | src/aes.cpp:87-88 | Decryption's round key at counter r is encryption's round key at counter Nr - r, and the reverse |
| Aes.AES.SubBytes | src/aes.cpp:100-118 | The state becomes StateOps.SubBytes: every byte replaced via the S-box, or the inverse S-box when decrypting |
| StateOps.SubBytes | src/aes.cpp:100-118 | Defines subBytes on a state: the FIPS-197 S-box (inverse S-box when decrypting) applied to every byte |
| Tables.SBox | src/aes.cpp:112 | Defines the S-box `c_sBox` as in FIPS-197 Figure 7, indexed by row and column nibble |
| Tables.InvSBox | src/aes.cpp:115 | Defines the inverse S-box `c_inverseSBox` as in FIPS-197 Figure 14 |
| StateOps.LookupTableEntry | src/aes.cpp:100-118 | The table entry at the nibbles of x is the FIPS-197 S-box (or inverse) value of x |
| StateOps.SubBytesInverse | src/aes.cpp:100-118 | Inverse substitution undoes substitution |
| Tables.InvSubSub | src/aes.cpp:100-118 | The inverse S-box undoes the S-box on every byte |
| Tables.SubInvSub | src/aes.cpp:100-118 | The S-box undoes the inverse S-box on every byte |
| Aes.AES.OriginalShiftRows | src/aes.cpp:121-130 | The state becomes OriginalShiftRows: row i rotated by i |
| StateOps.OriginalShiftRows | src/aes.cpp:121-130 | Byte (i, c) of the result is byte (i, Rotated(c, shift of row i)) of the input |
| StateOps.OriginalShiftRowsInverse | src/aes.cpp:121-130 | Shifting the rows back undoes ShiftRows |
| StateOps.SubBytesShiftRows | src/aes.cpp:100-130 | Inverse substitution commutes with the row shift |
| Aes.AES.ModifiedShiftRows | src/aes.cpp:133-153 | The state becomes StateOps.ModifiedShiftRows, branching on the parity of state[0][0] |
| StateOps.ModifiedShiftRows | src/aes.cpp:133-153 | Row 0 is unchanged. If state[0][0] is odd, rows 1 and 3 shift by 1 and 3 and row 2 stays; otherwise rows 1 and 2 shift by Nb - 3 and Nb - 2 and row 3 stays |
| StateOps.ModifiedShiftRowsInverse | src/aes.cpp:133-153 | The decrypting call undoes the encrypting one, because row 0 and hence the chosen branch are unchanged |
| Aes.AES.MixColumns | src/aes.cpp:156-189 | The state becomes StateOps.MixColumns: every column multiplied by the forward (or inverse) matrix |
| StateOps.MixColumns | src/aes.cpp:156-189 | Defines mixColumns on a state: entry (r, c) is row r of the forward (inverse) matrix times column c |
| Tables.ForwardMatrix | src/aes.cpp:171 | Defines `c_forwardMatrix`, the MixColumns matrix of FIPS-197 section 5.1.3 (rows 02 03 01 01, rotated) |
| Tables.InverseMatrix | src/aes.cpp:174 | Defines `c_inverseMatrix`, the InvMixColumns matrix of FIPS-197 section 5.3.3 (rows 0e 0b 0d 09, rotated) |
| GF.Multiply | src/aes.cpp:171-174 | Defines `multiply`, the product in GF(2^8) modulo x^8 + x^4 + x^3 + x + 1 (FIPS-197 section 4.2), as a sum of XTime powers |
| Aes.AES.MixColumn | src/aes.cpp:163-180 | Column col of the new state is the matrix product of column col of the state; the columns already written are kept |
| Aes.AES.ColumnProduct | src/aes.cpp:165-175 | The sum accumulates the products of one matrix row with one state column |
| Aes.AES.CopyState | src/aes.cpp:182-188 | The state receives the new state's contents |
| StateOps.MixColumnsLocal | src/aes.cpp:156-189 | A column of the result depends only on the same column of the input |
| StateOps.MixColumnsInverse | src/aes.cpp:156-189 | InvMixColumns undoes MixColumns |
| StateOps.MixColumnsAdd | src/aes.cpp:156-189 | InvMixColumns distributes over AddRoundKey |
| StateOps.ForwardEntries | src/aes.cpp:156-189 | The forward product entries use the FIPS-197 coefficients 02 03 01 01 |
| StateOps.InverseEntries | src/aes.cpp:156-189 | The inverse product entries use the coefficients 0e 0b 0d 09 |
| Aes.AES.AddRoundKey | src/aes.cpp:192-201 | The state becomes the byte-wise sum of the old state and the round key |
| StateOps.AddRoundKey | src/aes.cpp:192-201 | Defines addRoundKey on a state: the byte-wise sum with the round key |
| StateOps.AddRoundKeyTwice | src/aes.cpp:192-201 | Adding the same round key twice restores the state |
| Aes.AES.Transform | src/aes.cpp:204-236 | The state becomes BlockTransform of the old state under the key, in the standard cipher |
| Aes.AES.FirstPass | src/aes.cpp:209-211 | The state becomes the old state plus round key 0 (round key Nr when decrypting) |
| Aes.AES.LoopPass | src/aes.cpp:215-230 | The state moves from the loop state at counter `round` to the one at round + 1 |
| Aes.AES.FinalPass | src/aes.cpp:232-235 | The state becomes the transform's result: the last SubShift and round key, without MixColumns |
| Aes.AES.ModifiedTransform | src/aes.cpp:238-291 | The state becomes BlockTransform of the old state under the key, in the modified cipher |
| Aes.AES.SubShiftPass | src/aes.cpp:255-264 | The state becomes SubShift: subBytes then the row shift, except that modified decryption shifts first |
| Cipher.SubShift | src/aes.cpp:219-220 | Defines the substitution and row shift of a round: subBytes then the row shift, except that modified decryption shifts first (src/aes.cpp:255-264) |
| Cipher.Round | src/aes.cpp:218-227 | Defines one pass of the round loop: SubShift, mixColumns, then the round key added, itself through InvMixColumns when decrypting |
| Cipher.LoopState | src/aes.cpp:209-230 | Defines the state at the head of the round loop at counter round: round key 0 added, then rounds 1 .. round - 1 |
| Cipher.Transform | src/aes.cpp:204-291 | Defines the transform under an expanded key: the loop while the counter is below 10, then the last round without mixColumns |
| Cipher.BlockTransform | src/aes.cpp:204-291 | Defines the transform of one block under a 128-bit cipher key, expanded with the S-box |
| Cipher.SubShiftInverse | src/aes.cpp:238-291 | The decrypting SubShift undoes the encrypting one, in both ciphers |
| Cipher.RoundInverse | src/aes.cpp:215-230 | A decryption round with the same key undoes an encryption round |
| Cipher.LoopInverse | src/aes.cpp:215-230 | With Nr = 10, at counter r the decryption loop holds the SubShift of the encryption loop's state at 11 - r |
| Cipher.TransformRoundTrip | src/aes.cpp:204-291 | Decrypting an encrypted block with the same expanded 128-bit key gives it back, in both ciphers |
| Cipher.BlockRoundTrip | src/aes.cpp:204-291 | The same, starting from the cipher key |
| Aes.AES.ShuffleMatrix | src/aes.cpp:306-336 | The result is a fresh image of the same size, equal to Shuffled of the input |
| Shuffle.Shuffled | src/aes.cpp:306-336 | Defines the shuffled image cell by cell; the result is an image of the same shape, and ShuffledMoves shows it holds every element at its destination |
| Aes.AES.StoreElement | src/aes.cpp:334 | One element of the image is written and the rest is unchanged |
| Aes.ScatterShuffled | src/aes.cpp:306-336 | An image in which every element sits at its destination is Shuffled of the input |
| Shuffle.Destination | src/aes.cpp:311-332 | The new place is in the same meta-block as (row, col), at the same offset inside its 4 x 4 block |
| Shuffle.DestinationInRange | src/aes.cpp:331-334 | In an image with sides that are multiples of 64, the destination is inside the image |
| Shuffle.DestinationInverse | src/aes.cpp:319-332 | The destination under the inverse S-box of the destination under the S-box is the original place, and the reverse |
| Shuffle.DestinationInjective | src/aes.cpp:306-336 | Two places with the same destination are the same place, so no element is overwritten |
| Shuffle.ShuffledMoves | src/aes.cpp:306-336 | Every element of the image ends up at its destination in the shuffled image |
| Shuffle.ShuffleRoundTrip | src/aes.cpp:294-341 | Unshuffling a shuffled image gives it back |
| Aes.AES.ShuffleBlocks | src/aes.cpp:294-341 | The message is laid out as an image, shuffled and read back: ShuffleMessage |
| Messages.ShuffleMessage | src/aes.cpp:294-341 | Defines shuffleMatrix on a message: laid out as an image, Shuffled, read back |
| Aes.AES.TransformBlock | src/aes.cpp:353-361 | One block through modifiedTransform or transform, as modifiedAES selects, gives BlockTransform |
| Aes.AES.EncryptMessage | src/aes.cpp:343-367 | The direction is set to encryption and the output is every block encrypted under the key, in order |
| Aes.AES.DecryptCipher | src/aes.cpp:370-394 | The direction is set to decryption and the output is every block decrypted under the key, in order |
| Messages.TransformEach | src/aes.cpp:351-364 | Defines the block loop: block number n transformed and appended in order; the output has as many blocks as the input |
| Messages.ProcessBlocks | src/aes.cpp:343-394 | Defines the output of encryptMessage and decryptCipher: every block transformed under the key |
| Messages.TransformEachAt | src/aes.cpp:351-364 | Output block i is input block i transformed as block number i + 1 |
| Messages.MessageRoundTrip | src/aes.cpp:343-394 | decryptCipher undoes encryptMessage under the same key |
| Aes.AES.ProposedEncryptMessage | src/aes.cpp:397-439 | The output is ProposedEncrypt: blocks encrypted under alternating keys, then shuffled when the image sides allow |
| Aes.AES.ProposedDecryptCipher | src/aes.cpp:442-484 | The output is ProposedDecrypt: unshuffled first when the sides allow, then decrypted with the same key alternation |
| Aes.AES.ProposedPass | src/aes.cpp:414-431 | Block number `block` is transformed under the key when the number is odd and under the derived key when it is even, and appended |
| Messages.BlockKey | src/aes.cpp:419-428 | Defines the key of block number n: the key when n is odd, the derived key when n is even |
| Messages.ProposedBlocks | src/aes.cpp:410-432 | Defines the output of the proposed block loop: block number n transformed under BlockKey(n) |
| Messages.ProposedBlocksKeys | src/aes.cpp:410-432 | Output block i is input block i transformed under the key when i is even (odd block number) and under the derived key when i is odd |
| Messages.ShuffleAppliesMeaning | src/aes.cpp:435-436 | The drivers shuffle exactly when height and width are positive multiples of 64 |
| Messages.ShuffleApplies | src/aes.cpp:435 | Defines the shuffle guard: both sides nonzero and multiples of 64 |
| Messages.ProposedEncrypt | src/aes.cpp:397-439 | Defines the output of proposedEncryptMessage: ProposedBlocks under the key and derive(key), then ShuffleMessage when ShuffleApplies |
| Messages.ProposedDecrypt | src/aes.cpp:442-484 | Defines the output of proposedDecryptCipher: ShuffleMessage in reverse when ShuffleApplies, then ProposedBlocks in the decrypting direction |
| Messages.ProposedBlocksRoundTrip | src/aes.cpp:397-484 | The alternating-key block pass in the decrypting direction undoes the one in the encrypting direction |
| Messages.ProposedRoundTrip | src/aes.cpp:397-484 | proposedDecryptCipher undoes proposedEncryptMessage, given block-wise image conversions that invert each other |

## Left out

- The hexadecimal conversions (`hexStringToMatrixColumnwise`, `matrixToHexStringColumnwise` and their block-wise counterparts) are left out, because they belong to the utilities. Messages are sequences of states, one per 32-digit chunk. The image conversions of the shuffle are the function parameters `toImage` and `fromImage`.
- `xorHexString` (the key derivation of the proposed drivers) is the function parameter `derive`, because its definition belongs to the utilities.
- The lookup tables `c_sBox`, `c_inverseSBox`, `c_rCon`, the MixColumns matrices `c_forwardMatrix` and `c_inverseMatrix`, and the field multiplication `multiply` come from headers that are not part of this model. They are written out from FIPS-197: Figure 7, Figure 14, sections 5.1.3 and 5.3.3, section 4.2 and section 5.2. The round trips rest on the two matrices being inverse in GF(2^8), as the standard's are.
- The source keeps state, key and expanded-key cells as `int`. The model uses bytes (`bv8`), which loses nothing: the cells start as hexadecimal pairs, and XOR, table lookups and a reducing `multiply` keep every value in 0 .. 255.
- `leftCircularShift` is not part of this model. `Aes.AES.LeftCircularShift` models its effect, a left rotation of the row through a copy.
- `keyExpansion` and `shuffleMatrix` read the global `c_sBox` and `c_inverseSBox`. The model reads the object's `sBox` and `inverseSBox` arrays, which `Valid()` ties to the same tables.
- A message whose length is not a multiple of 32 hexadecimal digits has a short last block (`substr`); this is not modelled, since messages are whole blocks.
- Aes.AES.Transform: requires Nk = 4, because for 192- and 256-bit keys `getCurrKey` writes past the 4-column round key.
- Aes.AES.ModifiedTransform: requires Nk = 4, for the same reason.
- Aes.AES.EncryptMessage: requires Nk = 4, because it calls the transforms.
- Aes.AES.DecryptCipher: requires Nk = 4, because it calls the transforms.
- Aes.AES.ProposedEncryptMessage: requires Nk = 4, because it calls the transforms.
- Aes.AES.ProposedDecryptCipher: requires Nk = 4, because it calls the transforms.
- Aes.AES.KeyExpansion: the round constant is `RCon(col / 4 - 1)`, computed by repeated doubling. For Nk = 6 or 8 that index reaches 10 and beyond, which passes the end of `c_rCon` if that table has ten entries; the table is not part of this model, so what the source then reads is not modelled.
- Aes.AES.ShuffleMatrix: requires both image sides to be multiples of 64, as the drivers ensure before calling it. For other sides the source writes outside the image.
- Image sides are `nat`, a modelling choice. Negative sides such as -64 pass the source's guard (C++ `%` truncates, so -64 % 64 == 0) and lead to a `shuffleMatrix` call with a negative side; that path is not modelled.
- `addRoundKey` takes an `encrypt` argument that it does not use; the model has no such parameter.
- Several source loops are split over helper methods (for example `CopyKey`, `ColumnTemp`, `StoreColumn`, `FirstPass`, `LoopPass`, `FinalPass`, `ProposedPass`). Each does what the enclosed source lines do.
