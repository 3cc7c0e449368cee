/**
 * The constant tables the cipher looks up: the S-box and its inverse, the
 * MixColumns matrices and the round constants, all as FIPS-197 gives them.
 */
module Tables {
  import opened GF

  /** The S-box of FIPS-197 Figure 7, indexed by the high and the low nibble of the input byte. */
  function SBox(row: int, col: int): byte
    requires 0 <= row < 16 && 0 <= col < 16
  {
    match row
    case 0 => (match col case 0 => 0x63 case 1 => 0x7c case 2 => 0x77 case 3 => 0x7b case 4 => 0xf2 case 5 => 0x6b case 6 => 0x6f case 7 => 0xc5 case 8 => 0x30 case 9 => 0x01 case 10 => 0x67 case 11 => 0x2b case 12 => 0xfe case 13 => 0xd7 case 14 => 0xab case _ => 0x76)
    case 1 => (match col case 0 => 0xca case 1 => 0x82 case 2 => 0xc9 case 3 => 0x7d case 4 => 0xfa case 5 => 0x59 case 6 => 0x47 case 7 => 0xf0 case 8 => 0xad case 9 => 0xd4 case 10 => 0xa2 case 11 => 0xaf case 12 => 0x9c case 13 => 0xa4 case 14 => 0x72 case _ => 0xc0)
    case 2 => (match col case 0 => 0xb7 case 1 => 0xfd case 2 => 0x93 case 3 => 0x26 case 4 => 0x36 case 5 => 0x3f case 6 => 0xf7 case 7 => 0xcc case 8 => 0x34 case 9 => 0xa5 case 10 => 0xe5 case 11 => 0xf1 case 12 => 0x71 case 13 => 0xd8 case 14 => 0x31 case _ => 0x15)
    case 3 => (match col case 0 => 0x04 case 1 => 0xc7 case 2 => 0x23 case 3 => 0xc3 case 4 => 0x18 case 5 => 0x96 case 6 => 0x05 case 7 => 0x9a case 8 => 0x07 case 9 => 0x12 case 10 => 0x80 case 11 => 0xe2 case 12 => 0xeb case 13 => 0x27 case 14 => 0xb2 case _ => 0x75)
    case 4 => (match col case 0 => 0x09 case 1 => 0x83 case 2 => 0x2c case 3 => 0x1a case 4 => 0x1b case 5 => 0x6e case 6 => 0x5a case 7 => 0xa0 case 8 => 0x52 case 9 => 0x3b case 10 => 0xd6 case 11 => 0xb3 case 12 => 0x29 case 13 => 0xe3 case 14 => 0x2f case _ => 0x84)
    case 5 => (match col case 0 => 0x53 case 1 => 0xd1 case 2 => 0x00 case 3 => 0xed case 4 => 0x20 case 5 => 0xfc case 6 => 0xb1 case 7 => 0x5b case 8 => 0x6a case 9 => 0xcb case 10 => 0xbe case 11 => 0x39 case 12 => 0x4a case 13 => 0x4c case 14 => 0x58 case _ => 0xcf)
    case 6 => (match col case 0 => 0xd0 case 1 => 0xef case 2 => 0xaa case 3 => 0xfb case 4 => 0x43 case 5 => 0x4d case 6 => 0x33 case 7 => 0x85 case 8 => 0x45 case 9 => 0xf9 case 10 => 0x02 case 11 => 0x7f case 12 => 0x50 case 13 => 0x3c case 14 => 0x9f case _ => 0xa8)
    case 7 => (match col case 0 => 0x51 case 1 => 0xa3 case 2 => 0x40 case 3 => 0x8f case 4 => 0x92 case 5 => 0x9d case 6 => 0x38 case 7 => 0xf5 case 8 => 0xbc case 9 => 0xb6 case 10 => 0xda case 11 => 0x21 case 12 => 0x10 case 13 => 0xff case 14 => 0xf3 case _ => 0xd2)
    case 8 => (match col case 0 => 0xcd case 1 => 0x0c case 2 => 0x13 case 3 => 0xec case 4 => 0x5f case 5 => 0x97 case 6 => 0x44 case 7 => 0x17 case 8 => 0xc4 case 9 => 0xa7 case 10 => 0x7e case 11 => 0x3d case 12 => 0x64 case 13 => 0x5d case 14 => 0x19 case _ => 0x73)
    case 9 => (match col case 0 => 0x60 case 1 => 0x81 case 2 => 0x4f case 3 => 0xdc case 4 => 0x22 case 5 => 0x2a case 6 => 0x90 case 7 => 0x88 case 8 => 0x46 case 9 => 0xee case 10 => 0xb8 case 11 => 0x14 case 12 => 0xde case 13 => 0x5e case 14 => 0x0b case _ => 0xdb)
    case 10 => (match col case 0 => 0xe0 case 1 => 0x32 case 2 => 0x3a case 3 => 0x0a case 4 => 0x49 case 5 => 0x06 case 6 => 0x24 case 7 => 0x5c case 8 => 0xc2 case 9 => 0xd3 case 10 => 0xac case 11 => 0x62 case 12 => 0x91 case 13 => 0x95 case 14 => 0xe4 case _ => 0x79)
    case 11 => (match col case 0 => 0xe7 case 1 => 0xc8 case 2 => 0x37 case 3 => 0x6d case 4 => 0x8d case 5 => 0xd5 case 6 => 0x4e case 7 => 0xa9 case 8 => 0x6c case 9 => 0x56 case 10 => 0xf4 case 11 => 0xea case 12 => 0x65 case 13 => 0x7a case 14 => 0xae case _ => 0x08)
    case 12 => (match col case 0 => 0xba case 1 => 0x78 case 2 => 0x25 case 3 => 0x2e case 4 => 0x1c case 5 => 0xa6 case 6 => 0xb4 case 7 => 0xc6 case 8 => 0xe8 case 9 => 0xdd case 10 => 0x74 case 11 => 0x1f case 12 => 0x4b case 13 => 0xbd case 14 => 0x8b case _ => 0x8a)
    case 13 => (match col case 0 => 0x70 case 1 => 0x3e case 2 => 0xb5 case 3 => 0x66 case 4 => 0x48 case 5 => 0x03 case 6 => 0xf6 case 7 => 0x0e case 8 => 0x61 case 9 => 0x35 case 10 => 0x57 case 11 => 0xb9 case 12 => 0x86 case 13 => 0xc1 case 14 => 0x1d case _ => 0x9e)
    case 14 => (match col case 0 => 0xe1 case 1 => 0xf8 case 2 => 0x98 case 3 => 0x11 case 4 => 0x69 case 5 => 0xd9 case 6 => 0x8e case 7 => 0x94 case 8 => 0x9b case 9 => 0x1e case 10 => 0x87 case 11 => 0xe9 case 12 => 0xce case 13 => 0x55 case 14 => 0x28 case _ => 0xdf)
    case _ => (match col case 0 => 0x8c case 1 => 0xa1 case 2 => 0x89 case 3 => 0x0d case 4 => 0xbf case 5 => 0xe6 case 6 => 0x42 case 7 => 0x68 case 8 => 0x41 case 9 => 0x99 case 10 => 0x2d case 11 => 0x0f case 12 => 0xb0 case 13 => 0x54 case 14 => 0xbb case _ => 0x16)
  }

  /** The inverse S-box of FIPS-197 Figure 14, indexed like SBox. */
  function InvSBox(row: int, col: int): byte
    requires 0 <= row < 16 && 0 <= col < 16
  {
    match row
    case 0 => (match col case 0 => 0x52 case 1 => 0x09 case 2 => 0x6a case 3 => 0xd5 case 4 => 0x30 case 5 => 0x36 case 6 => 0xa5 case 7 => 0x38 case 8 => 0xbf case 9 => 0x40 case 10 => 0xa3 case 11 => 0x9e case 12 => 0x81 case 13 => 0xf3 case 14 => 0xd7 case _ => 0xfb)
    case 1 => (match col case 0 => 0x7c case 1 => 0xe3 case 2 => 0x39 case 3 => 0x82 case 4 => 0x9b case 5 => 0x2f case 6 => 0xff case 7 => 0x87 case 8 => 0x34 case 9 => 0x8e case 10 => 0x43 case 11 => 0x44 case 12 => 0xc4 case 13 => 0xde case 14 => 0xe9 case _ => 0xcb)
    case 2 => (match col case 0 => 0x54 case 1 => 0x7b case 2 => 0x94 case 3 => 0x32 case 4 => 0xa6 case 5 => 0xc2 case 6 => 0x23 case 7 => 0x3d case 8 => 0xee case 9 => 0x4c case 10 => 0x95 case 11 => 0x0b case 12 => 0x42 case 13 => 0xfa case 14 => 0xc3 case _ => 0x4e)
    case 3 => (match col case 0 => 0x08 case 1 => 0x2e case 2 => 0xa1 case 3 => 0x66 case 4 => 0x28 case 5 => 0xd9 case 6 => 0x24 case 7 => 0xb2 case 8 => 0x76 case 9 => 0x5b case 10 => 0xa2 case 11 => 0x49 case 12 => 0x6d case 13 => 0x8b case 14 => 0xd1 case _ => 0x25)
    case 4 => (match col case 0 => 0x72 case 1 => 0xf8 case 2 => 0xf6 case 3 => 0x64 case 4 => 0x86 case 5 => 0x68 case 6 => 0x98 case 7 => 0x16 case 8 => 0xd4 case 9 => 0xa4 case 10 => 0x5c case 11 => 0xcc case 12 => 0x5d case 13 => 0x65 case 14 => 0xb6 case _ => 0x92)
    case 5 => (match col case 0 => 0x6c case 1 => 0x70 case 2 => 0x48 case 3 => 0x50 case 4 => 0xfd case 5 => 0xed case 6 => 0xb9 case 7 => 0xda case 8 => 0x5e case 9 => 0x15 case 10 => 0x46 case 11 => 0x57 case 12 => 0xa7 case 13 => 0x8d case 14 => 0x9d case _ => 0x84)
    case 6 => (match col case 0 => 0x90 case 1 => 0xd8 case 2 => 0xab case 3 => 0x00 case 4 => 0x8c case 5 => 0xbc case 6 => 0xd3 case 7 => 0x0a case 8 => 0xf7 case 9 => 0xe4 case 10 => 0x58 case 11 => 0x05 case 12 => 0xb8 case 13 => 0xb3 case 14 => 0x45 case _ => 0x06)
    case 7 => (match col case 0 => 0xd0 case 1 => 0x2c case 2 => 0x1e case 3 => 0x8f case 4 => 0xca case 5 => 0x3f case 6 => 0x0f case 7 => 0x02 case 8 => 0xc1 case 9 => 0xaf case 10 => 0xbd case 11 => 0x03 case 12 => 0x01 case 13 => 0x13 case 14 => 0x8a case _ => 0x6b)
    case 8 => (match col case 0 => 0x3a case 1 => 0x91 case 2 => 0x11 case 3 => 0x41 case 4 => 0x4f case 5 => 0x67 case 6 => 0xdc case 7 => 0xea case 8 => 0x97 case 9 => 0xf2 case 10 => 0xcf case 11 => 0xce case 12 => 0xf0 case 13 => 0xb4 case 14 => 0xe6 case _ => 0x73)
    case 9 => (match col case 0 => 0x96 case 1 => 0xac case 2 => 0x74 case 3 => 0x22 case 4 => 0xe7 case 5 => 0xad case 6 => 0x35 case 7 => 0x85 case 8 => 0xe2 case 9 => 0xf9 case 10 => 0x37 case 11 => 0xe8 case 12 => 0x1c case 13 => 0x75 case 14 => 0xdf case _ => 0x6e)
    case 10 => (match col case 0 => 0x47 case 1 => 0xf1 case 2 => 0x1a case 3 => 0x71 case 4 => 0x1d case 5 => 0x29 case 6 => 0xc5 case 7 => 0x89 case 8 => 0x6f case 9 => 0xb7 case 10 => 0x62 case 11 => 0x0e case 12 => 0xaa case 13 => 0x18 case 14 => 0xbe case _ => 0x1b)
    case 11 => (match col case 0 => 0xfc case 1 => 0x56 case 2 => 0x3e case 3 => 0x4b case 4 => 0xc6 case 5 => 0xd2 case 6 => 0x79 case 7 => 0x20 case 8 => 0x9a case 9 => 0xdb case 10 => 0xc0 case 11 => 0xfe case 12 => 0x78 case 13 => 0xcd case 14 => 0x5a case _ => 0xf4)
    case 12 => (match col case 0 => 0x1f case 1 => 0xdd case 2 => 0xa8 case 3 => 0x33 case 4 => 0x88 case 5 => 0x07 case 6 => 0xc7 case 7 => 0x31 case 8 => 0xb1 case 9 => 0x12 case 10 => 0x10 case 11 => 0x59 case 12 => 0x27 case 13 => 0x80 case 14 => 0xec case _ => 0x5f)
    case 13 => (match col case 0 => 0x60 case 1 => 0x51 case 2 => 0x7f case 3 => 0xa9 case 4 => 0x19 case 5 => 0xb5 case 6 => 0x4a case 7 => 0x0d case 8 => 0x2d case 9 => 0xe5 case 10 => 0x7a case 11 => 0x9f case 12 => 0x93 case 13 => 0xc9 case 14 => 0x9c case _ => 0xef)
    case 14 => (match col case 0 => 0xa0 case 1 => 0xe0 case 2 => 0x3b case 3 => 0x4d case 4 => 0xae case 5 => 0x2a case 6 => 0xf5 case 7 => 0xb0 case 8 => 0xc8 case 9 => 0xeb case 10 => 0xbb case 11 => 0x3c case 12 => 0x83 case 13 => 0x53 case 14 => 0x99 case _ => 0x61)
    case _ => (match col case 0 => 0x17 case 1 => 0x2b case 2 => 0x04 case 3 => 0x7e case 4 => 0xba case 5 => 0x77 case 6 => 0xd6 case 7 => 0x26 case 8 => 0xe1 case 9 => 0x69 case 10 => 0x14 case 11 => 0x63 case 12 => 0x55 case 13 => 0x21 case 14 => 0x0c case _ => 0x7d)
  }

  /** The high nibble of b, the S-box row the source looks up. */
  function Hi(b: byte): (r: int)
    ensures 0 <= r < 16
  { (b >> 4) as int }

  /** The low nibble of b, the S-box column the source looks up. */
  function Lo(b: byte): (r: int)
    ensures 0 <= r < 16
  { (b & 0x0F) as int }

  /** SubBytes on one byte (FIPS-197 section 5.1.1). */
  function Sub(b: byte): byte { SBox(Hi(b), Lo(b)) }

  /** InvSubBytes on one byte (FIPS-197 section 5.3.2). */
  function InvSub(b: byte): byte { InvSBox(Hi(b), Lo(b)) }

  /** The inverse S-box undoes the S-box on the bytes whose high nibble is 0. */
  lemma InvSubSub0(x: byte)
    requires x >> 4 == 0
    ensures InvSub(Sub(x)) == x
  {}

  /** The inverse S-box undoes the S-box on the bytes whose high nibble is 1. */
  lemma InvSubSub1(x: byte)
    requires x >> 4 == 1
    ensures InvSub(Sub(x)) == x
  {}

  /** The inverse S-box undoes the S-box on the bytes whose high nibble is 2. */
  lemma InvSubSub2(x: byte)
    requires x >> 4 == 2
    ensures InvSub(Sub(x)) == x
  {}

  /** The inverse S-box undoes the S-box on the bytes whose high nibble is 3. */
  lemma InvSubSub3(x: byte)
    requires x >> 4 == 3
    ensures InvSub(Sub(x)) == x
  {}

  /** The inverse S-box undoes the S-box on the bytes whose high nibble is 4. */
  lemma InvSubSub4(x: byte)
    requires x >> 4 == 4
    ensures InvSub(Sub(x)) == x
  {}

  /** The inverse S-box undoes the S-box on the bytes whose high nibble is 5. */
  lemma InvSubSub5(x: byte)
    requires x >> 4 == 5
    ensures InvSub(Sub(x)) == x
  {}

  /** The inverse S-box undoes the S-box on the bytes whose high nibble is 6. */
  lemma InvSubSub6(x: byte)
    requires x >> 4 == 6
    ensures InvSub(Sub(x)) == x
  {}

  /** The inverse S-box undoes the S-box on the bytes whose high nibble is 7. */
  lemma InvSubSub7(x: byte)
    requires x >> 4 == 7
    ensures InvSub(Sub(x)) == x
  {}

  /** The inverse S-box undoes the S-box on the bytes whose high nibble is 8. */
  lemma InvSubSub8(x: byte)
    requires x >> 4 == 8
    ensures InvSub(Sub(x)) == x
  {}

  /** The inverse S-box undoes the S-box on the bytes whose high nibble is 9. */
  lemma InvSubSub9(x: byte)
    requires x >> 4 == 9
    ensures InvSub(Sub(x)) == x
  {}

  /** The inverse S-box undoes the S-box on the bytes whose high nibble is 10. */
  lemma InvSubSub10(x: byte)
    requires x >> 4 == 10
    ensures InvSub(Sub(x)) == x
  {}

  /** The inverse S-box undoes the S-box on the bytes whose high nibble is 11. */
  lemma InvSubSub11(x: byte)
    requires x >> 4 == 11
    ensures InvSub(Sub(x)) == x
  {}

  /** The inverse S-box undoes the S-box on the bytes whose high nibble is 12. */
  lemma InvSubSub12(x: byte)
    requires x >> 4 == 12
    ensures InvSub(Sub(x)) == x
  {}

  /** The inverse S-box undoes the S-box on the bytes whose high nibble is 13. */
  lemma InvSubSub13(x: byte)
    requires x >> 4 == 13
    ensures InvSub(Sub(x)) == x
  {}

  /** The inverse S-box undoes the S-box on the bytes whose high nibble is 14. */
  lemma InvSubSub14(x: byte)
    requires x >> 4 == 14
    ensures InvSub(Sub(x)) == x
  {}

  /** The inverse S-box undoes the S-box on the bytes whose high nibble is 15. */
  lemma InvSubSub15(x: byte)
    requires x >> 4 == 15
    ensures InvSub(Sub(x)) == x
  {}

  /** The inverse S-box undoes the S-box. */
  lemma InvSubSub(x: byte)
    ensures InvSub(Sub(x)) == x
  {
    match Hi(x)
      case 0 => InvSubSub0(x);
      case 1 => InvSubSub1(x);
      case 2 => InvSubSub2(x);
      case 3 => InvSubSub3(x);
      case 4 => InvSubSub4(x);
      case 5 => InvSubSub5(x);
      case 6 => InvSubSub6(x);
      case 7 => InvSubSub7(x);
      case 8 => InvSubSub8(x);
      case 9 => InvSubSub9(x);
      case 10 => InvSubSub10(x);
      case 11 => InvSubSub11(x);
      case 12 => InvSubSub12(x);
      case 13 => InvSubSub13(x);
      case 14 => InvSubSub14(x);
      case _ => InvSubSub15(x);
  }

  /** The S-box undoes the inverse S-box on the bytes whose high nibble is 0. */
  lemma SubInvSub0(x: byte)
    requires x >> 4 == 0
    ensures Sub(InvSub(x)) == x
  {}

  /** The S-box undoes the inverse S-box on the bytes whose high nibble is 1. */
  lemma SubInvSub1(x: byte)
    requires x >> 4 == 1
    ensures Sub(InvSub(x)) == x
  {}

  /** The S-box undoes the inverse S-box on the bytes whose high nibble is 2. */
  lemma SubInvSub2(x: byte)
    requires x >> 4 == 2
    ensures Sub(InvSub(x)) == x
  {}

  /** The S-box undoes the inverse S-box on the bytes whose high nibble is 3. */
  lemma SubInvSub3(x: byte)
    requires x >> 4 == 3
    ensures Sub(InvSub(x)) == x
  {}

  /** The S-box undoes the inverse S-box on the bytes whose high nibble is 4. */
  lemma SubInvSub4(x: byte)
    requires x >> 4 == 4
    ensures Sub(InvSub(x)) == x
  {}

  /** The S-box undoes the inverse S-box on the bytes whose high nibble is 5. */
  lemma SubInvSub5(x: byte)
    requires x >> 4 == 5
    ensures Sub(InvSub(x)) == x
  {}

  /** The S-box undoes the inverse S-box on the bytes whose high nibble is 6. */
  lemma SubInvSub6(x: byte)
    requires x >> 4 == 6
    ensures Sub(InvSub(x)) == x
  {}

  /** The S-box undoes the inverse S-box on the bytes whose high nibble is 7. */
  lemma SubInvSub7(x: byte)
    requires x >> 4 == 7
    ensures Sub(InvSub(x)) == x
  {}

  /** The S-box undoes the inverse S-box on the bytes whose high nibble is 8. */
  lemma SubInvSub8(x: byte)
    requires x >> 4 == 8
    ensures Sub(InvSub(x)) == x
  {}

  /** The S-box undoes the inverse S-box on the bytes whose high nibble is 9. */
  lemma SubInvSub9(x: byte)
    requires x >> 4 == 9
    ensures Sub(InvSub(x)) == x
  {}

  /** The S-box undoes the inverse S-box on the bytes whose high nibble is 10. */
  lemma SubInvSub10(x: byte)
    requires x >> 4 == 10
    ensures Sub(InvSub(x)) == x
  {}

  /** The S-box undoes the inverse S-box on the bytes whose high nibble is 11. */
  lemma SubInvSub11(x: byte)
    requires x >> 4 == 11
    ensures Sub(InvSub(x)) == x
  {}

  /** The S-box undoes the inverse S-box on the bytes whose high nibble is 12. */
  lemma SubInvSub12(x: byte)
    requires x >> 4 == 12
    ensures Sub(InvSub(x)) == x
  {}

  /** The S-box undoes the inverse S-box on the bytes whose high nibble is 13. */
  lemma SubInvSub13(x: byte)
    requires x >> 4 == 13
    ensures Sub(InvSub(x)) == x
  {}

  /** The S-box undoes the inverse S-box on the bytes whose high nibble is 14. */
  lemma SubInvSub14(x: byte)
    requires x >> 4 == 14
    ensures Sub(InvSub(x)) == x
  {}

  /** The S-box undoes the inverse S-box on the bytes whose high nibble is 15. */
  lemma SubInvSub15(x: byte)
    requires x >> 4 == 15
    ensures Sub(InvSub(x)) == x
  {}

  /** The S-box undoes the inverse S-box. */
  lemma SubInvSub(x: byte)
    ensures Sub(InvSub(x)) == x
  {
    match Hi(x)
      case 0 => SubInvSub0(x);
      case 1 => SubInvSub1(x);
      case 2 => SubInvSub2(x);
      case 3 => SubInvSub3(x);
      case 4 => SubInvSub4(x);
      case 5 => SubInvSub5(x);
      case 6 => SubInvSub6(x);
      case 7 => SubInvSub7(x);
      case 8 => SubInvSub8(x);
      case 9 => SubInvSub9(x);
      case 10 => SubInvSub10(x);
      case 11 => SubInvSub11(x);
      case 12 => SubInvSub12(x);
      case 13 => SubInvSub13(x);
      case 14 => SubInvSub14(x);
      case _ => SubInvSub15(x);
  }

  /** The byte whose high nibble is row and whose low nibble is col. */
  lemma JoinNibbles(row: int, col: int)
    requires 0 <= row < 16 && 0 <= col < 16
    ensures Hi(((row as byte) << 4) | (col as byte)) == row && Lo(((row as byte) << 4) | (col as byte)) == col
  {}

  /**
   * Reading the inverse S-box at the nibbles of the S-box entry at (row, col)
   * gives back a byte whose nibbles are row and col.
   */
  lemma InverseEntryNibbles(row: int, col: int)
    requires 0 <= row < 16 && 0 <= col < 16
    ensures Hi(InvSBox(Hi(SBox(row, col)), Lo(SBox(row, col)))) == row
    ensures Lo(InvSBox(Hi(SBox(row, col)), Lo(SBox(row, col)))) == col
  {
    JoinNibbles(row, col);
    InvSubSub(((row as byte) << 4) | (col as byte));
  }

  /** The same with the roles of the two tables exchanged. */
  lemma ForwardEntryNibbles(row: int, col: int)
    requires 0 <= row < 16 && 0 <= col < 16
    ensures Hi(SBox(Hi(InvSBox(row, col)), Lo(InvSBox(row, col)))) == row
    ensures Lo(SBox(Hi(InvSBox(row, col)), Lo(InvSBox(row, col)))) == col
  {
    JoinNibbles(row, col);
    SubInvSub(((row as byte) << 4) | (col as byte));
  }

  /** The MixColumns matrix of FIPS-197 section 5.1.3, entry (row, col). */
  function ForwardMatrix(row: int, col: int): byte
    requires 0 <= row < 4 && 0 <= col < 4
  {
    match row
    case 0 => (match col case 0 => 0x02 case 1 => 0x03 case 2 => 0x01 case _ => 0x01)
    case 1 => (match col case 0 => 0x01 case 1 => 0x02 case 2 => 0x03 case _ => 0x01)
    case 2 => (match col case 0 => 0x01 case 1 => 0x01 case 2 => 0x02 case _ => 0x03)
    case _ => (match col case 0 => 0x03 case 1 => 0x01 case 2 => 0x01 case _ => 0x02)
  }

  /** The InvMixColumns matrix of FIPS-197 section 5.3.3, entry (row, col). */
  function InverseMatrix(row: int, col: int): byte
    requires 0 <= row < 4 && 0 <= col < 4
  {
    match row
    case 0 => (match col case 0 => 0x0e case 1 => 0x0b case 2 => 0x0d case _ => 0x09)
    case 1 => (match col case 0 => 0x09 case 1 => 0x0e case 2 => 0x0b case _ => 0x0d)
    case 2 => (match col case 0 => 0x0d case 1 => 0x09 case 2 => 0x0e case _ => 0x0b)
    case _ => (match col case 0 => 0x0b case 1 => 0x0d case 2 => 0x09 case _ => 0x0e)
  }

  /**
   * Round constant number i, counted from zero: x to the power i in GF(2^8),
   * the leading byte of Rcon[i + 1] in FIPS-197 section 5.2.
   */
  function RCon(i: nat): byte
  {
    if i == 0 then 0x01 else XTime(RCon(i - 1))
  }

  /** The ten round constants AES-128 uses, as listed in FIPS-197 Appendix A.1. */
  lemma RConValues()
    ensures RCon(0) == 0x01 && RCon(1) == 0x02 && RCon(2) == 0x04 && RCon(3) == 0x08 && RCon(4) == 0x10
    ensures RCon(5) == 0x20 && RCon(6) == 0x40 && RCon(7) == 0x80 && RCon(8) == 0x1b && RCon(9) == 0x36
  {}
}
