/**
 * Arithmetic in the finite field GF(2^8) as FIPS-197 section 4 defines it:
 * bytes are polynomials over GF(2), addition is bitwise exclusive or, and
 * multiplication is polynomial multiplication modulo x^8 + x^4 + x^3 + x + 1.
 */
module GF {
  type byte = bv8

  /** Addition in GF(2^8) (FIPS-197 section 4.1). */
  function Add(a: byte, b: byte): byte { a ^ b }

  /** Multiplication by x, i.e. by {02} (FIPS-197 section 4.2.1). */
  function XTime(b: byte): byte
  {
    if b & 0x80 == 0 then b << 1 else Add(b << 1, 0x1b)
  }

  /** The summand b when bit is set, zero otherwise. */
  function Term(bit: bool, b: byte): byte { if bit then b else 0 }

  /**
   * Multiplication in GF(2^8) (FIPS-197 section 4.2): the sum of b * x^k over
   * the bits k that are set in a, where b * x^k is XTime applied k times.
   */
  function Multiply(a: byte, b: byte): byte
  {
    var b1 := XTime(b); var b2 := XTime(b1); var b3 := XTime(b2); var b4 := XTime(b3);
    var b5 := XTime(b4); var b6 := XTime(b5); var b7 := XTime(b6);
    Add(Add(Add(Add(Add(Add(Add(Term(a & 0x01 != 0, b), Term(a & 0x02 != 0, b1)), Term(a & 0x04 != 0, b2)),
      Term(a & 0x08 != 0, b3)), Term(a & 0x10 != 0, b4)), Term(a & 0x20 != 0, b5)), Term(a & 0x40 != 0, b6)),
      Term(a & 0x80 != 0, b7))
  }

  /** Sum of four field elements, grouped in pairs. */
  function Sum4(a: byte, b: byte, c: byte, d: byte): byte { Add(Add(a, b), Add(c, d)) }

  /** Sum of four field elements accumulated from zero, one summand at a time. */
  function Accumulate4(a: byte, b: byte, c: byte, d: byte): byte { Add(Add(Add(Add(0, a), b), c), d) }

  lemma AddZero(a: byte)
    ensures Add(a, 0) == a && Add(0, a) == a
  {}

  lemma AddSelf(a: byte)
    ensures Add(a, a) == 0
  {}

  lemma AddAssoc(a: byte, b: byte, c: byte)
    ensures Add(Add(a, b), c) == Add(a, Add(b, c))
  {}

  lemma AddComm(a: byte, b: byte)
    ensures Add(a, b) == Add(b, a)
  {}

  /** Regrouping a sum of four: (a + b) + (c + d) == (a + c) + (b + d). */
  lemma Swap(a: byte, b: byte, c: byte, d: byte)
    ensures Add(Add(a, b), Add(c, d)) == Add(Add(a, c), Add(b, d))
  {
    AddAssoc(a, b, Add(c, d));
    AddAssoc(b, c, d);
    AddComm(b, c);
    AddAssoc(c, b, d);
    AddAssoc(a, c, Add(b, d));
  }

  /** XTime is linear over addition. */
  lemma XTimeAdd(x: byte, y: byte)
    ensures XTime(Add(x, y)) == Add(XTime(x), XTime(y))
  {
    ShiftAdd(x, y);
    TopBitAdd(x, y);
    var p, q := x << 1, y << 1;
    if x & 0x80 == 0 && y & 0x80 != 0 {
      AddAssoc(p, q, 0x1b);
    } else if x & 0x80 != 0 && y & 0x80 == 0 {
      AddAssoc(p, q, 0x1b);
      AddAssoc(p, 0x1b, q);
      AddComm(0x1b, q);
    } else if x & 0x80 != 0 && y & 0x80 != 0 {
      Swap(p, 0x1b, q, 0x1b);
      AddSelf(0x1b);
      AddZero(Add(p, q));
    }
  }

  /** Shifting left distributes over addition. */
  lemma ShiftAdd(x: byte, y: byte)
    ensures Add(x, y) << 1 == Add(x << 1, y << 1)
  {}

  /** The top bit of a sum is set exactly when the top bits of the summands differ. */
  lemma TopBitAdd(x: byte, y: byte)
    ensures (Add(x, y) & 0x80 == 0) == ((x & 0x80 == 0) == (y & 0x80 == 0))
  {}

  lemma TermAdd(bit: bool, x: byte, y: byte)
    ensures Term(bit, Add(x, y)) == Add(Term(bit, x), Term(bit, y))
  {}

  /** Multiplication distributes over addition (FIPS-197 section 4.2). */
  lemma MultiplyAdd(a: byte, x: byte, y: byte)
    ensures Multiply(a, Add(x, y)) == Add(Multiply(a, x), Multiply(a, y))
  {
    var x1 := XTime(x); var x2 := XTime(x1); var x3 := XTime(x2); var x4 := XTime(x3);
    var x5 := XTime(x4); var x6 := XTime(x5); var x7 := XTime(x6);
    var y1 := XTime(y); var y2 := XTime(y1); var y3 := XTime(y2); var y4 := XTime(y3);
    var y5 := XTime(y4); var y6 := XTime(y5); var y7 := XTime(y6);
    XTimeAdd(x, y); XTimeAdd(x1, y1); XTimeAdd(x2, y2); XTimeAdd(x3, y3);
    XTimeAdd(x4, y4); XTimeAdd(x5, y5); XTimeAdd(x6, y6);
    TermAdd(a & 0x01 != 0, x, y); TermAdd(a & 0x02 != 0, x1, y1); TermAdd(a & 0x04 != 0, x2, y2); TermAdd(a & 0x08 != 0, x3, y3);
    TermAdd(a & 0x10 != 0, x4, y4); TermAdd(a & 0x20 != 0, x5, y5); TermAdd(a & 0x40 != 0, x6, y6); TermAdd(a & 0x80 != 0, x7, y7);
    var px1 := Add(Term(a & 0x01 != 0, x), Term(a & 0x02 != 0, x1));
    var py1 := Add(Term(a & 0x01 != 0, y), Term(a & 0x02 != 0, y1));
    Swap(Term(a & 0x01 != 0, x), Term(a & 0x01 != 0, y), Term(a & 0x02 != 0, x1), Term(a & 0x02 != 0, y1));
    var px2 := Add(px1, Term(a & 0x04 != 0, x2)); var py2 := Add(py1, Term(a & 0x04 != 0, y2));
    Swap(px1, py1, Term(a & 0x04 != 0, x2), Term(a & 0x04 != 0, y2));
    var px3 := Add(px2, Term(a & 0x08 != 0, x3)); var py3 := Add(py2, Term(a & 0x08 != 0, y3));
    Swap(px2, py2, Term(a & 0x08 != 0, x3), Term(a & 0x08 != 0, y3));
    var px4 := Add(px3, Term(a & 0x10 != 0, x4)); var py4 := Add(py3, Term(a & 0x10 != 0, y4));
    Swap(px3, py3, Term(a & 0x10 != 0, x4), Term(a & 0x10 != 0, y4));
    var px5 := Add(px4, Term(a & 0x20 != 0, x5)); var py5 := Add(py4, Term(a & 0x20 != 0, y5));
    Swap(px4, py4, Term(a & 0x20 != 0, x5), Term(a & 0x20 != 0, y5));
    var px6 := Add(px5, Term(a & 0x40 != 0, x6)); var py6 := Add(py5, Term(a & 0x40 != 0, y6));
    Swap(px5, py5, Term(a & 0x40 != 0, x6), Term(a & 0x40 != 0, y6));
    Swap(px6, py6, Term(a & 0x80 != 0, x7), Term(a & 0x80 != 0, y7));
  }

  /** Accumulating from zero gives the same sum as pairing. */
  lemma AccumulateSum4(a: byte, b: byte, c: byte, d: byte)
    ensures Accumulate4(a, b, c, d) == Sum4(a, b, c, d)
  {
    AddZero(a);
    AddAssoc(Add(a, b), c, d);
  }

  /** Multiplication distributes over a sum of four. */
  lemma MultiplySum4(k: byte, a: byte, b: byte, c: byte, d: byte)
    ensures Multiply(k, Sum4(a, b, c, d)) == Sum4(Multiply(k, a), Multiply(k, b), Multiply(k, c), Multiply(k, d))
  {
    MultiplyAdd(k, Add(a, b), Add(c, d));
    MultiplyAdd(k, a, b);
    MultiplyAdd(k, c, d);
  }

  /** A four-by-four double sum may be added up by columns instead of by rows. */
  lemma Transpose(x00: byte, x01: byte, x02: byte, x03: byte, x10: byte, x11: byte, x12: byte, x13: byte,
                  x20: byte, x21: byte, x22: byte, x23: byte, x30: byte, x31: byte, x32: byte, x33: byte)
    ensures Sum4(Sum4(x00, x01, x02, x03), Sum4(x10, x11, x12, x13), Sum4(x20, x21, x22, x23), Sum4(x30, x31, x32, x33))
         == Sum4(Sum4(x00, x10, x20, x30), Sum4(x01, x11, x21, x31), Sum4(x02, x12, x22, x32), Sum4(x03, x13, x23, x33))
  {
    // Each row is (P + Q) with P the first and Q the second half; regroup halves, then the pairs inside them.
    Swap(Add(x00, x01), Add(x02, x03), Add(x10, x11), Add(x12, x13));
    Swap(Add(x20, x21), Add(x22, x23), Add(x30, x31), Add(x32, x33));
    Swap(Add(Add(x00, x01), Add(x10, x11)), Add(Add(x02, x03), Add(x12, x13)),
         Add(Add(x20, x21), Add(x30, x31)), Add(Add(x22, x23), Add(x32, x33)));
    Swap(x00, x01, x10, x11); Swap(x02, x03, x12, x13);
    Swap(x20, x21, x30, x31); Swap(x22, x23, x32, x33);
    Swap(Add(x00, x10), Add(x01, x11), Add(x20, x30), Add(x21, x31));
    Swap(Add(x02, x12), Add(x03, x13), Add(x22, x32), Add(x23, x33));
  }

  /** A sum of four pairwise sums is the sum of the two sums of four. */
  lemma Sum4Add(a0: byte, a1: byte, a2: byte, a3: byte, b0: byte, b1: byte, b2: byte, b3: byte)
    ensures Sum4(Add(a0, b0), Add(a1, b1), Add(a2, b2), Add(a3, b3)) == Add(Sum4(a0, a1, a2, a3), Sum4(b0, b1, b2, b3))
  {
    Swap(a0, b0, a1, b1);
    Swap(a2, b2, a3, b3);
    Swap(Add(a0, a1), Add(b0, b1), Add(a2, a3), Add(b2, b3));
  }

  /** A sum of four in which only one summand may be nonzero. */
  lemma Sum4Unit(a: byte)
    ensures Sum4(a, 0, 0, 0) == a && Sum4(0, a, 0, 0) == a && Sum4(0, 0, a, 0) == a && Sum4(0, 0, 0, a) == a
  {}

  /** Cancelling a repeated summand on the right. */
  lemma CancelRight(p: byte, x: byte)
    ensures Add(Add(p, x), x) == p
  {}

  /** Cancelling a repeated summand on the left. */
  lemma CancelLeft(p: byte, x: byte)
    ensures Add(x, Add(p, x)) == p
  {}
}
