/**
 * The InvMixColumns matrix of FIPS-197 section 5.3.3 undoes the MixColumns
 * matrix of section 5.1.3 under the multiplication of section 4.2. Every
 * product of the two matrices' constants with a byte a is written as a
 * combination of a, x*a, ..., x^4*a (x*a being XTime(a)); such combinations add
 * coefficient by coefficient, so each entry of the matrix product reduces to
 * its coefficients, which are 1 on the diagonal and 0 elsewhere.
 */
module MixProof {
  import opened GF

  /**
   * The combination of p0..p4 whose coefficients are c0..c4 over GF(2): the sum
   * of the p_k with c_k set. With p_k the k-th power of x times one byte, every
   * product of that byte with a constant below {20} is such a combination.
   */
  function Lin(c0: bool, c1: bool, c2: bool, c3: bool, c4: bool, p0: byte, p1: byte, p2: byte, p3: byte, p4: byte): byte
  {
    Add(Add(Add(Add(Term(c0, p0), Term(c1, p1)), Term(c2, p2)), Term(c3, p3)), Term(c4, p4))
  }

  /** Two picks of the same summand add up to a pick by the exclusive or of the two flags. */
  lemma TermXor(c: bool, d: bool, v: byte)
    ensures Add(Term(c, v), Term(d, v)) == Term(c != d, v)
  {
    if c && d { AddSelf(v); } else if c { AddZero(v); } else { AddZero(Term(d, v)); }
  }

  /** Combinations add coefficient by coefficient. */
  lemma LinAdd(c0: bool, c1: bool, c2: bool, c3: bool, c4: bool, d0: bool, d1: bool, d2: bool, d3: bool, d4: bool,
               p0: byte, p1: byte, p2: byte, p3: byte, p4: byte)
    ensures Add(Lin(c0, c1, c2, c3, c4, p0, p1, p2, p3, p4), Lin(d0, d1, d2, d3, d4, p0, p1, p2, p3, p4))
         == Lin(c0 != d0, c1 != d1, c2 != d2, c3 != d3, c4 != d4, p0, p1, p2, p3, p4)
  {
    TermXor(c0, d0, p0); TermXor(c1, d1, p1); TermXor(c2, d2, p2); TermXor(c3, d3, p3); TermXor(c4, d4, p4);
    var x1 := Add(Term(c0, p0), Term(c1, p1));
    var y1 := Add(Term(d0, p0), Term(d1, p1));
    Swap(Term(c0, p0), Term(c1, p1), Term(d0, p0), Term(d1, p1));
    var x2 := Add(x1, Term(c2, p2));
    var y2 := Add(y1, Term(d2, p2));
    Swap(x1, Term(c2, p2), y1, Term(d2, p2));
    var x3 := Add(x2, Term(c3, p3));
    var y3 := Add(y2, Term(d3, p3));
    Swap(x2, Term(c3, p3), y2, Term(d3, p3));
    Swap(x3, Term(c4, p4), y3, Term(d4, p4));
  }

  /** The combinations with a single coefficient, and the empty one. */
  lemma LinUnits(p0: byte, p1: byte, p2: byte, p3: byte, p4: byte)
    ensures Lin(true, false, false, false, false, p0, p1, p2, p3, p4) == p0
    ensures Lin(false, true, false, false, false, p0, p1, p2, p3, p4) == p1
    ensures Lin(false, false, false, false, false, p0, p1, p2, p3, p4) == 0
  {
    AddZero(0); AddZero(p0); AddZero(p1);
  }

  /** A combination of p1..p5 without p5 is the same combination of p0..p4 moved up one place. */
  lemma LinShift(c0: bool, c1: bool, c2: bool, c3: bool, p0: byte, p1: byte, p2: byte, p3: byte, p4: byte, p5: byte)
    ensures Lin(c0, c1, c2, c3, false, p1, p2, p3, p4, p5) == Lin(false, c0, c1, c2, c3, p0, p1, p2, p3, p4)
  {
    AddZero(Term(c0, p1));
    AddZero(Add(Add(Add(Term(c0, p1), Term(c1, p2)), Term(c2, p3)), Term(c3, p4)));
  }

  /** Multiplication by {01} as a combination of powers of x times b. */
  lemma Times01(b: byte)
    ensures Multiply(0x01, b) == Lin(true, false, false, false, false, b, XTime(b), XTime(XTime(b)), XTime(XTime(XTime(b))), XTime(XTime(XTime(XTime(b)))))
  {
    var a: byte := 0x01;
    assert a & 0x01 != 0 && a & 0x02 == 0 && a & 0x04 == 0 && a & 0x08 == 0;
    assert a & 0x10 == 0 && a & 0x20 == 0 && a & 0x40 == 0 && a & 0x80 == 0;
    AddZero(Lin(true, false, false, false, false, b, XTime(b), XTime(XTime(b)), XTime(XTime(XTime(b))), XTime(XTime(XTime(XTime(b))))));
  }

  /** Multiplication by {02} as a combination of powers of x times b. */
  lemma Times02(b: byte)
    ensures Multiply(0x02, b) == Lin(false, true, false, false, false, b, XTime(b), XTime(XTime(b)), XTime(XTime(XTime(b))), XTime(XTime(XTime(XTime(b)))))
  {
    var a: byte := 0x02;
    assert a & 0x01 == 0 && a & 0x02 != 0 && a & 0x04 == 0 && a & 0x08 == 0;
    assert a & 0x10 == 0 && a & 0x20 == 0 && a & 0x40 == 0 && a & 0x80 == 0;
    AddZero(Lin(false, true, false, false, false, b, XTime(b), XTime(XTime(b)), XTime(XTime(XTime(b))), XTime(XTime(XTime(XTime(b))))));
  }

  /** Multiplication by {03} as a combination of powers of x times b. */
  lemma Times03(b: byte)
    ensures Multiply(0x03, b) == Lin(true, true, false, false, false, b, XTime(b), XTime(XTime(b)), XTime(XTime(XTime(b))), XTime(XTime(XTime(XTime(b)))))
  {
    var a: byte := 0x03;
    assert a & 0x01 != 0 && a & 0x02 != 0 && a & 0x04 == 0 && a & 0x08 == 0;
    assert a & 0x10 == 0 && a & 0x20 == 0 && a & 0x40 == 0 && a & 0x80 == 0;
    AddZero(Lin(true, true, false, false, false, b, XTime(b), XTime(XTime(b)), XTime(XTime(XTime(b))), XTime(XTime(XTime(XTime(b))))));
  }

  /** Multiplication by {09} as a combination of powers of x times b. */
  lemma Times09(b: byte)
    ensures Multiply(0x09, b) == Lin(true, false, false, true, false, b, XTime(b), XTime(XTime(b)), XTime(XTime(XTime(b))), XTime(XTime(XTime(XTime(b)))))
  {
    var a: byte := 0x09;
    assert a & 0x01 != 0 && a & 0x02 == 0 && a & 0x04 == 0 && a & 0x08 != 0;
    assert a & 0x10 == 0 && a & 0x20 == 0 && a & 0x40 == 0 && a & 0x80 == 0;
    AddZero(Lin(true, false, false, true, false, b, XTime(b), XTime(XTime(b)), XTime(XTime(XTime(b))), XTime(XTime(XTime(XTime(b))))));
  }

  /** Multiplication by {0b} as a combination of powers of x times b. */
  lemma Times0B(b: byte)
    ensures Multiply(0x0B, b) == Lin(true, true, false, true, false, b, XTime(b), XTime(XTime(b)), XTime(XTime(XTime(b))), XTime(XTime(XTime(XTime(b)))))
  {
    var a: byte := 0x0B;
    assert a & 0x01 != 0 && a & 0x02 != 0 && a & 0x04 == 0 && a & 0x08 != 0;
    assert a & 0x10 == 0 && a & 0x20 == 0 && a & 0x40 == 0 && a & 0x80 == 0;
    AddZero(Lin(true, true, false, true, false, b, XTime(b), XTime(XTime(b)), XTime(XTime(XTime(b))), XTime(XTime(XTime(XTime(b))))));
  }

  /** Multiplication by {0d} as a combination of powers of x times b. */
  lemma Times0D(b: byte)
    ensures Multiply(0x0D, b) == Lin(true, false, true, true, false, b, XTime(b), XTime(XTime(b)), XTime(XTime(XTime(b))), XTime(XTime(XTime(XTime(b)))))
  {
    var a: byte := 0x0D;
    assert a & 0x01 != 0 && a & 0x02 == 0 && a & 0x04 != 0 && a & 0x08 != 0;
    assert a & 0x10 == 0 && a & 0x20 == 0 && a & 0x40 == 0 && a & 0x80 == 0;
    AddZero(Lin(true, false, true, true, false, b, XTime(b), XTime(XTime(b)), XTime(XTime(XTime(b))), XTime(XTime(XTime(XTime(b))))));
  }

  /** Multiplication by {0e} as a combination of powers of x times b. */
  lemma Times0E(b: byte)
    ensures Multiply(0x0E, b) == Lin(false, true, true, true, false, b, XTime(b), XTime(XTime(b)), XTime(XTime(XTime(b))), XTime(XTime(XTime(XTime(b)))))
  {
    var a: byte := 0x0E;
    assert a & 0x01 == 0 && a & 0x02 != 0 && a & 0x04 != 0 && a & 0x08 != 0;
    assert a & 0x10 == 0 && a & 0x20 == 0 && a & 0x40 == 0 && a & 0x80 == 0;
    AddZero(Lin(false, true, true, true, false, b, XTime(b), XTime(XTime(b)), XTime(XTime(XTime(b))), XTime(XTime(XTime(XTime(b))))));
  }

  /** Entry (0, 0) of the inverse matrix times the forward matrix is {01}. */
  lemma Entry00(a: byte)
    ensures Sum4(Multiply(0x0E, Multiply(0x02, a)), Multiply(0x0B, Multiply(0x01, a)), Multiply(0x0D, Multiply(0x01, a)), Multiply(0x09, Multiply(0x03, a))) == a
  {
    Times02(a); Times0E(XTime(a)); LinShift(false, true, true, true, a, XTime(a), XTime(XTime(a)), XTime(XTime(XTime(a))), XTime(XTime(XTime(XTime(a)))), XTime(XTime(XTime(XTime(XTime(a))))));
    Times01(a); Times0B(a);
    Times01(a); Times0D(a);
    Times03(a); LinAdd(true, false, false, false, false, false, true, false, false, false, a, XTime(a), XTime(XTime(a)), XTime(XTime(XTime(a))), XTime(XTime(XTime(XTime(a))))); Times09(a); Times09(XTime(a));
    MultiplyAdd(0x09, a, XTime(a)); LinShift(true, false, false, true, a, XTime(a), XTime(XTime(a)), XTime(XTime(XTime(a))), XTime(XTime(XTime(XTime(a)))), XTime(XTime(XTime(XTime(XTime(a)))))); LinAdd(true, false, false, true, false, false, true, false, false, true, a, XTime(a), XTime(XTime(a)), XTime(XTime(XTime(a))), XTime(XTime(XTime(XTime(a)))));
    LinAdd(false, false, true, true, true, true, true, false, true, false, a, XTime(a), XTime(XTime(a)), XTime(XTime(XTime(a))), XTime(XTime(XTime(XTime(a))))); LinAdd(true, false, true, true, false, true, true, false, true, true, a, XTime(a), XTime(XTime(a)), XTime(XTime(XTime(a))), XTime(XTime(XTime(XTime(a))))); LinAdd(true, true, true, false, true, false, true, true, false, true, a, XTime(a), XTime(XTime(a)), XTime(XTime(XTime(a))), XTime(XTime(XTime(XTime(a)))));
    LinUnits(a, XTime(a), XTime(XTime(a)), XTime(XTime(XTime(a))), XTime(XTime(XTime(XTime(a)))));
  }

  /** Entry (0, 1) of the inverse matrix times the forward matrix is zero. */
  lemma Entry01(a: byte)
    ensures Sum4(Multiply(0x0E, Multiply(0x03, a)), Multiply(0x0B, Multiply(0x02, a)), Multiply(0x0D, Multiply(0x01, a)), Multiply(0x09, Multiply(0x01, a))) == 0
  {
    Times03(a); LinAdd(true, false, false, false, false, false, true, false, false, false, a, XTime(a), XTime(XTime(a)), XTime(XTime(XTime(a))), XTime(XTime(XTime(XTime(a))))); Times0E(a); Times0E(XTime(a));
    MultiplyAdd(0x0E, a, XTime(a)); LinShift(false, true, true, true, a, XTime(a), XTime(XTime(a)), XTime(XTime(XTime(a))), XTime(XTime(XTime(XTime(a)))), XTime(XTime(XTime(XTime(XTime(a)))))); LinAdd(false, true, true, true, false, false, false, true, true, true, a, XTime(a), XTime(XTime(a)), XTime(XTime(XTime(a))), XTime(XTime(XTime(XTime(a)))));
    Times02(a); Times0B(XTime(a)); LinShift(true, true, false, true, a, XTime(a), XTime(XTime(a)), XTime(XTime(XTime(a))), XTime(XTime(XTime(XTime(a)))), XTime(XTime(XTime(XTime(XTime(a))))));
    Times01(a); Times0D(a);
    Times01(a); Times09(a);
    LinAdd(false, true, false, false, true, false, true, true, false, true, a, XTime(a), XTime(XTime(a)), XTime(XTime(XTime(a))), XTime(XTime(XTime(XTime(a))))); LinAdd(true, false, true, true, false, true, false, false, true, false, a, XTime(a), XTime(XTime(a)), XTime(XTime(XTime(a))), XTime(XTime(XTime(XTime(a))))); LinAdd(false, false, true, false, false, false, false, true, false, false, a, XTime(a), XTime(XTime(a)), XTime(XTime(XTime(a))), XTime(XTime(XTime(XTime(a)))));
    LinUnits(a, XTime(a), XTime(XTime(a)), XTime(XTime(XTime(a))), XTime(XTime(XTime(XTime(a)))));
  }

  /** Entry (0, 2) of the inverse matrix times the forward matrix is zero. */
  lemma Entry02(a: byte)
    ensures Sum4(Multiply(0x0E, Multiply(0x01, a)), Multiply(0x0B, Multiply(0x03, a)), Multiply(0x0D, Multiply(0x02, a)), Multiply(0x09, Multiply(0x01, a))) == 0
  {
    Times01(a); Times0E(a);
    Times03(a); LinAdd(true, false, false, false, false, false, true, false, false, false, a, XTime(a), XTime(XTime(a)), XTime(XTime(XTime(a))), XTime(XTime(XTime(XTime(a))))); Times0B(a); Times0B(XTime(a));
    MultiplyAdd(0x0B, a, XTime(a)); LinShift(true, true, false, true, a, XTime(a), XTime(XTime(a)), XTime(XTime(XTime(a))), XTime(XTime(XTime(XTime(a)))), XTime(XTime(XTime(XTime(XTime(a)))))); LinAdd(true, true, false, true, false, false, true, true, false, true, a, XTime(a), XTime(XTime(a)), XTime(XTime(XTime(a))), XTime(XTime(XTime(XTime(a)))));
    Times02(a); Times0D(XTime(a)); LinShift(true, false, true, true, a, XTime(a), XTime(XTime(a)), XTime(XTime(XTime(a))), XTime(XTime(XTime(XTime(a)))), XTime(XTime(XTime(XTime(XTime(a))))));
    Times01(a); Times09(a);
    LinAdd(false, true, true, true, false, true, false, true, true, true, a, XTime(a), XTime(XTime(a)), XTime(XTime(XTime(a))), XTime(XTime(XTime(XTime(a))))); LinAdd(false, true, false, true, true, true, false, false, true, false, a, XTime(a), XTime(XTime(a)), XTime(XTime(XTime(a))), XTime(XTime(XTime(XTime(a))))); LinAdd(true, true, false, false, true, true, true, false, false, true, a, XTime(a), XTime(XTime(a)), XTime(XTime(XTime(a))), XTime(XTime(XTime(XTime(a)))));
    LinUnits(a, XTime(a), XTime(XTime(a)), XTime(XTime(XTime(a))), XTime(XTime(XTime(XTime(a)))));
  }

  /** Entry (0, 3) of the inverse matrix times the forward matrix is zero. */
  lemma Entry03(a: byte)
    ensures Sum4(Multiply(0x0E, Multiply(0x01, a)), Multiply(0x0B, Multiply(0x01, a)), Multiply(0x0D, Multiply(0x03, a)), Multiply(0x09, Multiply(0x02, a))) == 0
  {
    Times01(a); Times0E(a);
    Times01(a); Times0B(a);
    Times03(a); LinAdd(true, false, false, false, false, false, true, false, false, false, a, XTime(a), XTime(XTime(a)), XTime(XTime(XTime(a))), XTime(XTime(XTime(XTime(a))))); Times0D(a); Times0D(XTime(a));
    MultiplyAdd(0x0D, a, XTime(a)); LinShift(true, false, true, true, a, XTime(a), XTime(XTime(a)), XTime(XTime(XTime(a))), XTime(XTime(XTime(XTime(a)))), XTime(XTime(XTime(XTime(XTime(a)))))); LinAdd(true, false, true, true, false, false, true, false, true, true, a, XTime(a), XTime(XTime(a)), XTime(XTime(XTime(a))), XTime(XTime(XTime(XTime(a)))));
    Times02(a); Times09(XTime(a)); LinShift(true, false, false, true, a, XTime(a), XTime(XTime(a)), XTime(XTime(XTime(a))), XTime(XTime(XTime(XTime(a)))), XTime(XTime(XTime(XTime(XTime(a))))));
    LinAdd(false, true, true, true, false, true, true, false, true, false, a, XTime(a), XTime(XTime(a)), XTime(XTime(XTime(a))), XTime(XTime(XTime(XTime(a))))); LinAdd(true, true, true, false, true, false, true, false, false, true, a, XTime(a), XTime(XTime(a)), XTime(XTime(XTime(a))), XTime(XTime(XTime(XTime(a))))); LinAdd(true, false, true, false, false, true, false, true, false, false, a, XTime(a), XTime(XTime(a)), XTime(XTime(XTime(a))), XTime(XTime(XTime(XTime(a)))));
    LinUnits(a, XTime(a), XTime(XTime(a)), XTime(XTime(XTime(a))), XTime(XTime(XTime(XTime(a)))));
  }

  /** Entry (1, 0) of the inverse matrix times the forward matrix is zero. */
  lemma Entry10(a: byte)
    ensures Sum4(Multiply(0x09, Multiply(0x02, a)), Multiply(0x0E, Multiply(0x01, a)), Multiply(0x0B, Multiply(0x01, a)), Multiply(0x0D, Multiply(0x03, a))) == 0
  {
    Times02(a); Times09(XTime(a)); LinShift(true, false, false, true, a, XTime(a), XTime(XTime(a)), XTime(XTime(XTime(a))), XTime(XTime(XTime(XTime(a)))), XTime(XTime(XTime(XTime(XTime(a))))));
    Times01(a); Times0E(a);
    Times01(a); Times0B(a);
    Times03(a); LinAdd(true, false, false, false, false, false, true, false, false, false, a, XTime(a), XTime(XTime(a)), XTime(XTime(XTime(a))), XTime(XTime(XTime(XTime(a))))); Times0D(a); Times0D(XTime(a));
    MultiplyAdd(0x0D, a, XTime(a)); LinShift(true, false, true, true, a, XTime(a), XTime(XTime(a)), XTime(XTime(XTime(a))), XTime(XTime(XTime(XTime(a)))), XTime(XTime(XTime(XTime(XTime(a)))))); LinAdd(true, false, true, true, false, false, true, false, true, true, a, XTime(a), XTime(XTime(a)), XTime(XTime(XTime(a))), XTime(XTime(XTime(XTime(a)))));
    LinAdd(false, true, false, false, true, false, true, true, true, false, a, XTime(a), XTime(XTime(a)), XTime(XTime(XTime(a))), XTime(XTime(XTime(XTime(a))))); LinAdd(true, true, false, true, false, true, true, true, false, true, a, XTime(a), XTime(XTime(a)), XTime(XTime(XTime(a))), XTime(XTime(XTime(XTime(a))))); LinAdd(false, false, true, true, true, false, false, true, true, true, a, XTime(a), XTime(XTime(a)), XTime(XTime(XTime(a))), XTime(XTime(XTime(XTime(a)))));
    LinUnits(a, XTime(a), XTime(XTime(a)), XTime(XTime(XTime(a))), XTime(XTime(XTime(XTime(a)))));
  }

  /** Entry (1, 1) of the inverse matrix times the forward matrix is {01}. */
  lemma Entry11(a: byte)
    ensures Sum4(Multiply(0x09, Multiply(0x03, a)), Multiply(0x0E, Multiply(0x02, a)), Multiply(0x0B, Multiply(0x01, a)), Multiply(0x0D, Multiply(0x01, a))) == a
  {
    Times03(a); LinAdd(true, false, false, false, false, false, true, false, false, false, a, XTime(a), XTime(XTime(a)), XTime(XTime(XTime(a))), XTime(XTime(XTime(XTime(a))))); Times09(a); Times09(XTime(a));
    MultiplyAdd(0x09, a, XTime(a)); LinShift(true, false, false, true, a, XTime(a), XTime(XTime(a)), XTime(XTime(XTime(a))), XTime(XTime(XTime(XTime(a)))), XTime(XTime(XTime(XTime(XTime(a)))))); LinAdd(true, false, false, true, false, false, true, false, false, true, a, XTime(a), XTime(XTime(a)), XTime(XTime(XTime(a))), XTime(XTime(XTime(XTime(a)))));
    Times02(a); Times0E(XTime(a)); LinShift(false, true, true, true, a, XTime(a), XTime(XTime(a)), XTime(XTime(XTime(a))), XTime(XTime(XTime(XTime(a)))), XTime(XTime(XTime(XTime(XTime(a))))));
    Times01(a); Times0B(a);
    Times01(a); Times0D(a);
    LinAdd(true, true, false, true, true, false, false, true, true, true, a, XTime(a), XTime(XTime(a)), XTime(XTime(XTime(a))), XTime(XTime(XTime(XTime(a))))); LinAdd(true, true, false, true, false, true, false, true, true, false, a, XTime(a), XTime(XTime(a)), XTime(XTime(XTime(a))), XTime(XTime(XTime(XTime(a))))); LinAdd(true, true, true, false, false, false, true, true, false, false, a, XTime(a), XTime(XTime(a)), XTime(XTime(XTime(a))), XTime(XTime(XTime(XTime(a)))));
    LinUnits(a, XTime(a), XTime(XTime(a)), XTime(XTime(XTime(a))), XTime(XTime(XTime(XTime(a)))));
  }

  /** Entry (1, 2) of the inverse matrix times the forward matrix is zero. */
  lemma Entry12(a: byte)
    ensures Sum4(Multiply(0x09, Multiply(0x01, a)), Multiply(0x0E, Multiply(0x03, a)), Multiply(0x0B, Multiply(0x02, a)), Multiply(0x0D, Multiply(0x01, a))) == 0
  {
    Times01(a); Times09(a);
    Times03(a); LinAdd(true, false, false, false, false, false, true, false, false, false, a, XTime(a), XTime(XTime(a)), XTime(XTime(XTime(a))), XTime(XTime(XTime(XTime(a))))); Times0E(a); Times0E(XTime(a));
    MultiplyAdd(0x0E, a, XTime(a)); LinShift(false, true, true, true, a, XTime(a), XTime(XTime(a)), XTime(XTime(XTime(a))), XTime(XTime(XTime(XTime(a)))), XTime(XTime(XTime(XTime(XTime(a)))))); LinAdd(false, true, true, true, false, false, false, true, true, true, a, XTime(a), XTime(XTime(a)), XTime(XTime(XTime(a))), XTime(XTime(XTime(XTime(a)))));
    Times02(a); Times0B(XTime(a)); LinShift(true, true, false, true, a, XTime(a), XTime(XTime(a)), XTime(XTime(XTime(a))), XTime(XTime(XTime(XTime(a)))), XTime(XTime(XTime(XTime(XTime(a))))));
    Times01(a); Times0D(a);
    LinAdd(true, false, false, true, false, false, true, false, false, true, a, XTime(a), XTime(XTime(a)), XTime(XTime(XTime(a))), XTime(XTime(XTime(XTime(a))))); LinAdd(false, true, true, false, true, true, false, true, true, false, a, XTime(a), XTime(XTime(a)), XTime(XTime(XTime(a))), XTime(XTime(XTime(XTime(a))))); LinAdd(true, true, false, true, true, true, true, false, true, true, a, XTime(a), XTime(XTime(a)), XTime(XTime(XTime(a))), XTime(XTime(XTime(XTime(a)))));
    LinUnits(a, XTime(a), XTime(XTime(a)), XTime(XTime(XTime(a))), XTime(XTime(XTime(XTime(a)))));
  }

  /** Entry (1, 3) of the inverse matrix times the forward matrix is zero. */
  lemma Entry13(a: byte)
    ensures Sum4(Multiply(0x09, Multiply(0x01, a)), Multiply(0x0E, Multiply(0x01, a)), Multiply(0x0B, Multiply(0x03, a)), Multiply(0x0D, Multiply(0x02, a))) == 0
  {
    Times01(a); Times09(a);
    Times01(a); Times0E(a);
    Times03(a); LinAdd(true, false, false, false, false, false, true, false, false, false, a, XTime(a), XTime(XTime(a)), XTime(XTime(XTime(a))), XTime(XTime(XTime(XTime(a))))); Times0B(a); Times0B(XTime(a));
    MultiplyAdd(0x0B, a, XTime(a)); LinShift(true, true, false, true, a, XTime(a), XTime(XTime(a)), XTime(XTime(XTime(a))), XTime(XTime(XTime(XTime(a)))), XTime(XTime(XTime(XTime(XTime(a)))))); LinAdd(true, true, false, true, false, false, true, true, false, true, a, XTime(a), XTime(XTime(a)), XTime(XTime(XTime(a))), XTime(XTime(XTime(XTime(a)))));
    Times02(a); Times0D(XTime(a)); LinShift(true, false, true, true, a, XTime(a), XTime(XTime(a)), XTime(XTime(XTime(a))), XTime(XTime(XTime(XTime(a)))), XTime(XTime(XTime(XTime(XTime(a))))));
    LinAdd(true, false, false, true, false, false, true, true, true, false, a, XTime(a), XTime(XTime(a)), XTime(XTime(XTime(a))), XTime(XTime(XTime(XTime(a))))); LinAdd(true, false, true, true, true, false, true, false, true, true, a, XTime(a), XTime(XTime(a)), XTime(XTime(XTime(a))), XTime(XTime(XTime(XTime(a))))); LinAdd(true, true, true, false, false, true, true, true, false, false, a, XTime(a), XTime(XTime(a)), XTime(XTime(XTime(a))), XTime(XTime(XTime(XTime(a)))));
    LinUnits(a, XTime(a), XTime(XTime(a)), XTime(XTime(XTime(a))), XTime(XTime(XTime(XTime(a)))));
  }

  /** Entry (2, 0) of the inverse matrix times the forward matrix is zero. */
  lemma Entry20(a: byte)
    ensures Sum4(Multiply(0x0D, Multiply(0x02, a)), Multiply(0x09, Multiply(0x01, a)), Multiply(0x0E, Multiply(0x01, a)), Multiply(0x0B, Multiply(0x03, a))) == 0
  {
    Times02(a); Times0D(XTime(a)); LinShift(true, false, true, true, a, XTime(a), XTime(XTime(a)), XTime(XTime(XTime(a))), XTime(XTime(XTime(XTime(a)))), XTime(XTime(XTime(XTime(XTime(a))))));
    Times01(a); Times09(a);
    Times01(a); Times0E(a);
    Times03(a); LinAdd(true, false, false, false, false, false, true, false, false, false, a, XTime(a), XTime(XTime(a)), XTime(XTime(XTime(a))), XTime(XTime(XTime(XTime(a))))); Times0B(a); Times0B(XTime(a));
    MultiplyAdd(0x0B, a, XTime(a)); LinShift(true, true, false, true, a, XTime(a), XTime(XTime(a)), XTime(XTime(XTime(a))), XTime(XTime(XTime(XTime(a)))), XTime(XTime(XTime(XTime(XTime(a)))))); LinAdd(true, true, false, true, false, false, true, true, false, true, a, XTime(a), XTime(XTime(a)), XTime(XTime(XTime(a))), XTime(XTime(XTime(XTime(a)))));
    LinAdd(false, true, false, true, true, true, false, false, true, false, a, XTime(a), XTime(XTime(a)), XTime(XTime(XTime(a))), XTime(XTime(XTime(XTime(a))))); LinAdd(false, true, true, true, false, true, false, true, true, true, a, XTime(a), XTime(XTime(a)), XTime(XTime(XTime(a))), XTime(XTime(XTime(XTime(a))))); LinAdd(true, true, false, false, true, true, true, false, false, true, a, XTime(a), XTime(XTime(a)), XTime(XTime(XTime(a))), XTime(XTime(XTime(XTime(a)))));
    LinUnits(a, XTime(a), XTime(XTime(a)), XTime(XTime(XTime(a))), XTime(XTime(XTime(XTime(a)))));
  }

  /** Entry (2, 1) of the inverse matrix times the forward matrix is zero. */
  lemma Entry21(a: byte)
    ensures Sum4(Multiply(0x0D, Multiply(0x03, a)), Multiply(0x09, Multiply(0x02, a)), Multiply(0x0E, Multiply(0x01, a)), Multiply(0x0B, Multiply(0x01, a))) == 0
  {
    Times03(a); LinAdd(true, false, false, false, false, false, true, false, false, false, a, XTime(a), XTime(XTime(a)), XTime(XTime(XTime(a))), XTime(XTime(XTime(XTime(a))))); Times0D(a); Times0D(XTime(a));
    MultiplyAdd(0x0D, a, XTime(a)); LinShift(true, false, true, true, a, XTime(a), XTime(XTime(a)), XTime(XTime(XTime(a))), XTime(XTime(XTime(XTime(a)))), XTime(XTime(XTime(XTime(XTime(a)))))); LinAdd(true, false, true, true, false, false, true, false, true, true, a, XTime(a), XTime(XTime(a)), XTime(XTime(XTime(a))), XTime(XTime(XTime(XTime(a)))));
    Times02(a); Times09(XTime(a)); LinShift(true, false, false, true, a, XTime(a), XTime(XTime(a)), XTime(XTime(XTime(a))), XTime(XTime(XTime(XTime(a)))), XTime(XTime(XTime(XTime(XTime(a))))));
    Times01(a); Times0E(a);
    Times01(a); Times0B(a);
    LinAdd(true, true, true, false, true, false, true, false, false, true, a, XTime(a), XTime(XTime(a)), XTime(XTime(XTime(a))), XTime(XTime(XTime(XTime(a))))); LinAdd(false, true, true, true, false, true, true, false, true, false, a, XTime(a), XTime(XTime(a)), XTime(XTime(XTime(a))), XTime(XTime(XTime(XTime(a))))); LinAdd(true, false, true, false, false, true, false, true, false, false, a, XTime(a), XTime(XTime(a)), XTime(XTime(XTime(a))), XTime(XTime(XTime(XTime(a)))));
    LinUnits(a, XTime(a), XTime(XTime(a)), XTime(XTime(XTime(a))), XTime(XTime(XTime(XTime(a)))));
  }

  /** Entry (2, 2) of the inverse matrix times the forward matrix is {01}. */
  lemma Entry22(a: byte)
    ensures Sum4(Multiply(0x0D, Multiply(0x01, a)), Multiply(0x09, Multiply(0x03, a)), Multiply(0x0E, Multiply(0x02, a)), Multiply(0x0B, Multiply(0x01, a))) == a
  {
    Times01(a); Times0D(a);
    Times03(a); LinAdd(true, false, false, false, false, false, true, false, false, false, a, XTime(a), XTime(XTime(a)), XTime(XTime(XTime(a))), XTime(XTime(XTime(XTime(a))))); Times09(a); Times09(XTime(a));
    MultiplyAdd(0x09, a, XTime(a)); LinShift(true, false, false, true, a, XTime(a), XTime(XTime(a)), XTime(XTime(XTime(a))), XTime(XTime(XTime(XTime(a)))), XTime(XTime(XTime(XTime(XTime(a)))))); LinAdd(true, false, false, true, false, false, true, false, false, true, a, XTime(a), XTime(XTime(a)), XTime(XTime(XTime(a))), XTime(XTime(XTime(XTime(a)))));
    Times02(a); Times0E(XTime(a)); LinShift(false, true, true, true, a, XTime(a), XTime(XTime(a)), XTime(XTime(XTime(a))), XTime(XTime(XTime(XTime(a)))), XTime(XTime(XTime(XTime(XTime(a))))));
    Times01(a); Times0B(a);
    LinAdd(true, false, true, true, false, true, true, false, true, true, a, XTime(a), XTime(XTime(a)), XTime(XTime(XTime(a))), XTime(XTime(XTime(XTime(a))))); LinAdd(false, false, true, true, true, true, true, false, true, false, a, XTime(a), XTime(XTime(a)), XTime(XTime(XTime(a))), XTime(XTime(XTime(XTime(a))))); LinAdd(false, true, true, false, true, true, true, true, false, true, a, XTime(a), XTime(XTime(a)), XTime(XTime(XTime(a))), XTime(XTime(XTime(XTime(a)))));
    LinUnits(a, XTime(a), XTime(XTime(a)), XTime(XTime(XTime(a))), XTime(XTime(XTime(XTime(a)))));
  }

  /** Entry (2, 3) of the inverse matrix times the forward matrix is zero. */
  lemma Entry23(a: byte)
    ensures Sum4(Multiply(0x0D, Multiply(0x01, a)), Multiply(0x09, Multiply(0x01, a)), Multiply(0x0E, Multiply(0x03, a)), Multiply(0x0B, Multiply(0x02, a))) == 0
  {
    Times01(a); Times0D(a);
    Times01(a); Times09(a);
    Times03(a); LinAdd(true, false, false, false, false, false, true, false, false, false, a, XTime(a), XTime(XTime(a)), XTime(XTime(XTime(a))), XTime(XTime(XTime(XTime(a))))); Times0E(a); Times0E(XTime(a));
    MultiplyAdd(0x0E, a, XTime(a)); LinShift(false, true, true, true, a, XTime(a), XTime(XTime(a)), XTime(XTime(XTime(a))), XTime(XTime(XTime(XTime(a)))), XTime(XTime(XTime(XTime(XTime(a)))))); LinAdd(false, true, true, true, false, false, false, true, true, true, a, XTime(a), XTime(XTime(a)), XTime(XTime(XTime(a))), XTime(XTime(XTime(XTime(a)))));
    Times02(a); Times0B(XTime(a)); LinShift(true, true, false, true, a, XTime(a), XTime(XTime(a)), XTime(XTime(XTime(a))), XTime(XTime(XTime(XTime(a)))), XTime(XTime(XTime(XTime(XTime(a))))));
    LinAdd(true, false, true, true, false, true, false, false, true, false, a, XTime(a), XTime(XTime(a)), XTime(XTime(XTime(a))), XTime(XTime(XTime(XTime(a))))); LinAdd(false, true, false, false, true, false, true, true, false, true, a, XTime(a), XTime(XTime(a)), XTime(XTime(XTime(a))), XTime(XTime(XTime(XTime(a))))); LinAdd(false, false, true, false, false, false, false, true, false, false, a, XTime(a), XTime(XTime(a)), XTime(XTime(XTime(a))), XTime(XTime(XTime(XTime(a)))));
    LinUnits(a, XTime(a), XTime(XTime(a)), XTime(XTime(XTime(a))), XTime(XTime(XTime(XTime(a)))));
  }

  /** Entry (3, 0) of the inverse matrix times the forward matrix is zero. */
  lemma Entry30(a: byte)
    ensures Sum4(Multiply(0x0B, Multiply(0x02, a)), Multiply(0x0D, Multiply(0x01, a)), Multiply(0x09, Multiply(0x01, a)), Multiply(0x0E, Multiply(0x03, a))) == 0
  {
    Times02(a); Times0B(XTime(a)); LinShift(true, true, false, true, a, XTime(a), XTime(XTime(a)), XTime(XTime(XTime(a))), XTime(XTime(XTime(XTime(a)))), XTime(XTime(XTime(XTime(XTime(a))))));
    Times01(a); Times0D(a);
    Times01(a); Times09(a);
    Times03(a); LinAdd(true, false, false, false, false, false, true, false, false, false, a, XTime(a), XTime(XTime(a)), XTime(XTime(XTime(a))), XTime(XTime(XTime(XTime(a))))); Times0E(a); Times0E(XTime(a));
    MultiplyAdd(0x0E, a, XTime(a)); LinShift(false, true, true, true, a, XTime(a), XTime(XTime(a)), XTime(XTime(XTime(a))), XTime(XTime(XTime(XTime(a)))), XTime(XTime(XTime(XTime(XTime(a)))))); LinAdd(false, true, true, true, false, false, false, true, true, true, a, XTime(a), XTime(XTime(a)), XTime(XTime(XTime(a))), XTime(XTime(XTime(XTime(a)))));
    LinAdd(false, true, true, false, true, true, false, true, true, false, a, XTime(a), XTime(XTime(a)), XTime(XTime(XTime(a))), XTime(XTime(XTime(XTime(a))))); LinAdd(true, false, false, true, false, false, true, false, false, true, a, XTime(a), XTime(XTime(a)), XTime(XTime(XTime(a))), XTime(XTime(XTime(XTime(a))))); LinAdd(true, true, false, true, true, true, true, false, true, true, a, XTime(a), XTime(XTime(a)), XTime(XTime(XTime(a))), XTime(XTime(XTime(XTime(a)))));
    LinUnits(a, XTime(a), XTime(XTime(a)), XTime(XTime(XTime(a))), XTime(XTime(XTime(XTime(a)))));
  }

  /** Entry (3, 1) of the inverse matrix times the forward matrix is zero. */
  lemma Entry31(a: byte)
    ensures Sum4(Multiply(0x0B, Multiply(0x03, a)), Multiply(0x0D, Multiply(0x02, a)), Multiply(0x09, Multiply(0x01, a)), Multiply(0x0E, Multiply(0x01, a))) == 0
  {
    Times03(a); LinAdd(true, false, false, false, false, false, true, false, false, false, a, XTime(a), XTime(XTime(a)), XTime(XTime(XTime(a))), XTime(XTime(XTime(XTime(a))))); Times0B(a); Times0B(XTime(a));
    MultiplyAdd(0x0B, a, XTime(a)); LinShift(true, true, false, true, a, XTime(a), XTime(XTime(a)), XTime(XTime(XTime(a))), XTime(XTime(XTime(XTime(a)))), XTime(XTime(XTime(XTime(XTime(a)))))); LinAdd(true, true, false, true, false, false, true, true, false, true, a, XTime(a), XTime(XTime(a)), XTime(XTime(XTime(a))), XTime(XTime(XTime(XTime(a)))));
    Times02(a); Times0D(XTime(a)); LinShift(true, false, true, true, a, XTime(a), XTime(XTime(a)), XTime(XTime(XTime(a))), XTime(XTime(XTime(XTime(a)))), XTime(XTime(XTime(XTime(XTime(a))))));
    Times01(a); Times09(a);
    Times01(a); Times0E(a);
    LinAdd(true, false, true, true, true, false, true, false, true, true, a, XTime(a), XTime(XTime(a)), XTime(XTime(XTime(a))), XTime(XTime(XTime(XTime(a))))); LinAdd(true, false, false, true, false, false, true, true, true, false, a, XTime(a), XTime(XTime(a)), XTime(XTime(XTime(a))), XTime(XTime(XTime(XTime(a))))); LinAdd(true, true, true, false, false, true, true, true, false, false, a, XTime(a), XTime(XTime(a)), XTime(XTime(XTime(a))), XTime(XTime(XTime(XTime(a)))));
    LinUnits(a, XTime(a), XTime(XTime(a)), XTime(XTime(XTime(a))), XTime(XTime(XTime(XTime(a)))));
  }

  /** Entry (3, 2) of the inverse matrix times the forward matrix is zero. */
  lemma Entry32(a: byte)
    ensures Sum4(Multiply(0x0B, Multiply(0x01, a)), Multiply(0x0D, Multiply(0x03, a)), Multiply(0x09, Multiply(0x02, a)), Multiply(0x0E, Multiply(0x01, a))) == 0
  {
    Times01(a); Times0B(a);
    Times03(a); LinAdd(true, false, false, false, false, false, true, false, false, false, a, XTime(a), XTime(XTime(a)), XTime(XTime(XTime(a))), XTime(XTime(XTime(XTime(a))))); Times0D(a); Times0D(XTime(a));
    MultiplyAdd(0x0D, a, XTime(a)); LinShift(true, false, true, true, a, XTime(a), XTime(XTime(a)), XTime(XTime(XTime(a))), XTime(XTime(XTime(XTime(a)))), XTime(XTime(XTime(XTime(XTime(a)))))); LinAdd(true, false, true, true, false, false, true, false, true, true, a, XTime(a), XTime(XTime(a)), XTime(XTime(XTime(a))), XTime(XTime(XTime(XTime(a)))));
    Times02(a); Times09(XTime(a)); LinShift(true, false, false, true, a, XTime(a), XTime(XTime(a)), XTime(XTime(XTime(a))), XTime(XTime(XTime(XTime(a)))), XTime(XTime(XTime(XTime(XTime(a))))));
    Times01(a); Times0E(a);
    LinAdd(true, true, false, true, false, true, true, true, false, true, a, XTime(a), XTime(XTime(a)), XTime(XTime(XTime(a))), XTime(XTime(XTime(XTime(a))))); LinAdd(false, true, false, false, true, false, true, true, true, false, a, XTime(a), XTime(XTime(a)), XTime(XTime(XTime(a))), XTime(XTime(XTime(XTime(a))))); LinAdd(false, false, true, true, true, false, false, true, true, true, a, XTime(a), XTime(XTime(a)), XTime(XTime(XTime(a))), XTime(XTime(XTime(XTime(a)))));
    LinUnits(a, XTime(a), XTime(XTime(a)), XTime(XTime(XTime(a))), XTime(XTime(XTime(XTime(a)))));
  }

  /** Entry (3, 3) of the inverse matrix times the forward matrix is {01}. */
  lemma Entry33(a: byte)
    ensures Sum4(Multiply(0x0B, Multiply(0x01, a)), Multiply(0x0D, Multiply(0x01, a)), Multiply(0x09, Multiply(0x03, a)), Multiply(0x0E, Multiply(0x02, a))) == a
  {
    Times01(a); Times0B(a);
    Times01(a); Times0D(a);
    Times03(a); LinAdd(true, false, false, false, false, false, true, false, false, false, a, XTime(a), XTime(XTime(a)), XTime(XTime(XTime(a))), XTime(XTime(XTime(XTime(a))))); Times09(a); Times09(XTime(a));
    MultiplyAdd(0x09, a, XTime(a)); LinShift(true, false, false, true, a, XTime(a), XTime(XTime(a)), XTime(XTime(XTime(a))), XTime(XTime(XTime(XTime(a)))), XTime(XTime(XTime(XTime(XTime(a)))))); LinAdd(true, false, false, true, false, false, true, false, false, true, a, XTime(a), XTime(XTime(a)), XTime(XTime(XTime(a))), XTime(XTime(XTime(XTime(a)))));
    Times02(a); Times0E(XTime(a)); LinShift(false, true, true, true, a, XTime(a), XTime(XTime(a)), XTime(XTime(XTime(a))), XTime(XTime(XTime(XTime(a)))), XTime(XTime(XTime(XTime(XTime(a))))));
    LinAdd(true, true, false, true, false, true, false, true, true, false, a, XTime(a), XTime(XTime(a)), XTime(XTime(XTime(a))), XTime(XTime(XTime(XTime(a))))); LinAdd(true, true, false, true, true, false, false, true, true, true, a, XTime(a), XTime(XTime(a)), XTime(XTime(XTime(a))), XTime(XTime(XTime(XTime(a))))); LinAdd(false, true, true, false, false, true, true, true, false, false, a, XTime(a), XTime(XTime(a)), XTime(XTime(XTime(a))), XTime(XTime(XTime(XTime(a)))));
    LinUnits(a, XTime(a), XTime(XTime(a)), XTime(XTime(XTime(a))), XTime(XTime(XTime(XTime(a)))));
  }

  /** Row 0 of InvMixColumns after MixColumns, on the column a0..a3, gives back a0. */
  lemma Row0(a0: byte, a1: byte, a2: byte, a3: byte)
    ensures Accumulate4(Multiply(0x0E, Accumulate4(Multiply(0x02, a0), Multiply(0x03, a1), Multiply(0x01, a2), Multiply(0x01, a3))), Multiply(0x0B, Accumulate4(Multiply(0x01, a0), Multiply(0x02, a1), Multiply(0x03, a2), Multiply(0x01, a3))), Multiply(0x0D, Accumulate4(Multiply(0x01, a0), Multiply(0x01, a1), Multiply(0x02, a2), Multiply(0x03, a3))), Multiply(0x09, Accumulate4(Multiply(0x03, a0), Multiply(0x01, a1), Multiply(0x01, a2), Multiply(0x02, a3)))) == a0
  {
    AccumulateSum4(Multiply(0x02, a0), Multiply(0x03, a1), Multiply(0x01, a2), Multiply(0x01, a3));
    MultiplySum4(0x0E, Multiply(0x02, a0), Multiply(0x03, a1), Multiply(0x01, a2), Multiply(0x01, a3));
    AccumulateSum4(Multiply(0x01, a0), Multiply(0x02, a1), Multiply(0x03, a2), Multiply(0x01, a3));
    MultiplySum4(0x0B, Multiply(0x01, a0), Multiply(0x02, a1), Multiply(0x03, a2), Multiply(0x01, a3));
    AccumulateSum4(Multiply(0x01, a0), Multiply(0x01, a1), Multiply(0x02, a2), Multiply(0x03, a3));
    MultiplySum4(0x0D, Multiply(0x01, a0), Multiply(0x01, a1), Multiply(0x02, a2), Multiply(0x03, a3));
    AccumulateSum4(Multiply(0x03, a0), Multiply(0x01, a1), Multiply(0x01, a2), Multiply(0x02, a3));
    MultiplySum4(0x09, Multiply(0x03, a0), Multiply(0x01, a1), Multiply(0x01, a2), Multiply(0x02, a3));
    AccumulateSum4(Multiply(0x0E, Accumulate4(Multiply(0x02, a0), Multiply(0x03, a1), Multiply(0x01, a2), Multiply(0x01, a3))), Multiply(0x0B, Accumulate4(Multiply(0x01, a0), Multiply(0x02, a1), Multiply(0x03, a2), Multiply(0x01, a3))), Multiply(0x0D, Accumulate4(Multiply(0x01, a0), Multiply(0x01, a1), Multiply(0x02, a2), Multiply(0x03, a3))), Multiply(0x09, Accumulate4(Multiply(0x03, a0), Multiply(0x01, a1), Multiply(0x01, a2), Multiply(0x02, a3))));
    Transpose(Multiply(0x0E, Multiply(0x02, a0)), Multiply(0x0E, Multiply(0x03, a1)), Multiply(0x0E, Multiply(0x01, a2)), Multiply(0x0E, Multiply(0x01, a3)), Multiply(0x0B, Multiply(0x01, a0)), Multiply(0x0B, Multiply(0x02, a1)), Multiply(0x0B, Multiply(0x03, a2)), Multiply(0x0B, Multiply(0x01, a3)), Multiply(0x0D, Multiply(0x01, a0)), Multiply(0x0D, Multiply(0x01, a1)), Multiply(0x0D, Multiply(0x02, a2)), Multiply(0x0D, Multiply(0x03, a3)), Multiply(0x09, Multiply(0x03, a0)), Multiply(0x09, Multiply(0x01, a1)), Multiply(0x09, Multiply(0x01, a2)), Multiply(0x09, Multiply(0x02, a3)));
    Entry00(a0); Entry01(a1); Entry02(a2); Entry03(a3);
    Sum4Unit(a0);
  }

  /** Row 1 of InvMixColumns after MixColumns, on the column a0..a3, gives back a1. */
  lemma Row1(a0: byte, a1: byte, a2: byte, a3: byte)
    ensures Accumulate4(Multiply(0x09, Accumulate4(Multiply(0x02, a0), Multiply(0x03, a1), Multiply(0x01, a2), Multiply(0x01, a3))), Multiply(0x0E, Accumulate4(Multiply(0x01, a0), Multiply(0x02, a1), Multiply(0x03, a2), Multiply(0x01, a3))), Multiply(0x0B, Accumulate4(Multiply(0x01, a0), Multiply(0x01, a1), Multiply(0x02, a2), Multiply(0x03, a3))), Multiply(0x0D, Accumulate4(Multiply(0x03, a0), Multiply(0x01, a1), Multiply(0x01, a2), Multiply(0x02, a3)))) == a1
  {
    AccumulateSum4(Multiply(0x02, a0), Multiply(0x03, a1), Multiply(0x01, a2), Multiply(0x01, a3));
    MultiplySum4(0x09, Multiply(0x02, a0), Multiply(0x03, a1), Multiply(0x01, a2), Multiply(0x01, a3));
    AccumulateSum4(Multiply(0x01, a0), Multiply(0x02, a1), Multiply(0x03, a2), Multiply(0x01, a3));
    MultiplySum4(0x0E, Multiply(0x01, a0), Multiply(0x02, a1), Multiply(0x03, a2), Multiply(0x01, a3));
    AccumulateSum4(Multiply(0x01, a0), Multiply(0x01, a1), Multiply(0x02, a2), Multiply(0x03, a3));
    MultiplySum4(0x0B, Multiply(0x01, a0), Multiply(0x01, a1), Multiply(0x02, a2), Multiply(0x03, a3));
    AccumulateSum4(Multiply(0x03, a0), Multiply(0x01, a1), Multiply(0x01, a2), Multiply(0x02, a3));
    MultiplySum4(0x0D, Multiply(0x03, a0), Multiply(0x01, a1), Multiply(0x01, a2), Multiply(0x02, a3));
    AccumulateSum4(Multiply(0x09, Accumulate4(Multiply(0x02, a0), Multiply(0x03, a1), Multiply(0x01, a2), Multiply(0x01, a3))), Multiply(0x0E, Accumulate4(Multiply(0x01, a0), Multiply(0x02, a1), Multiply(0x03, a2), Multiply(0x01, a3))), Multiply(0x0B, Accumulate4(Multiply(0x01, a0), Multiply(0x01, a1), Multiply(0x02, a2), Multiply(0x03, a3))), Multiply(0x0D, Accumulate4(Multiply(0x03, a0), Multiply(0x01, a1), Multiply(0x01, a2), Multiply(0x02, a3))));
    Transpose(Multiply(0x09, Multiply(0x02, a0)), Multiply(0x09, Multiply(0x03, a1)), Multiply(0x09, Multiply(0x01, a2)), Multiply(0x09, Multiply(0x01, a3)), Multiply(0x0E, Multiply(0x01, a0)), Multiply(0x0E, Multiply(0x02, a1)), Multiply(0x0E, Multiply(0x03, a2)), Multiply(0x0E, Multiply(0x01, a3)), Multiply(0x0B, Multiply(0x01, a0)), Multiply(0x0B, Multiply(0x01, a1)), Multiply(0x0B, Multiply(0x02, a2)), Multiply(0x0B, Multiply(0x03, a3)), Multiply(0x0D, Multiply(0x03, a0)), Multiply(0x0D, Multiply(0x01, a1)), Multiply(0x0D, Multiply(0x01, a2)), Multiply(0x0D, Multiply(0x02, a3)));
    Entry10(a0); Entry11(a1); Entry12(a2); Entry13(a3);
    Sum4Unit(a1);
  }

  /** Row 2 of InvMixColumns after MixColumns, on the column a0..a3, gives back a2. */
  lemma Row2(a0: byte, a1: byte, a2: byte, a3: byte)
    ensures Accumulate4(Multiply(0x0D, Accumulate4(Multiply(0x02, a0), Multiply(0x03, a1), Multiply(0x01, a2), Multiply(0x01, a3))), Multiply(0x09, Accumulate4(Multiply(0x01, a0), Multiply(0x02, a1), Multiply(0x03, a2), Multiply(0x01, a3))), Multiply(0x0E, Accumulate4(Multiply(0x01, a0), Multiply(0x01, a1), Multiply(0x02, a2), Multiply(0x03, a3))), Multiply(0x0B, Accumulate4(Multiply(0x03, a0), Multiply(0x01, a1), Multiply(0x01, a2), Multiply(0x02, a3)))) == a2
  {
    AccumulateSum4(Multiply(0x02, a0), Multiply(0x03, a1), Multiply(0x01, a2), Multiply(0x01, a3));
    MultiplySum4(0x0D, Multiply(0x02, a0), Multiply(0x03, a1), Multiply(0x01, a2), Multiply(0x01, a3));
    AccumulateSum4(Multiply(0x01, a0), Multiply(0x02, a1), Multiply(0x03, a2), Multiply(0x01, a3));
    MultiplySum4(0x09, Multiply(0x01, a0), Multiply(0x02, a1), Multiply(0x03, a2), Multiply(0x01, a3));
    AccumulateSum4(Multiply(0x01, a0), Multiply(0x01, a1), Multiply(0x02, a2), Multiply(0x03, a3));
    MultiplySum4(0x0E, Multiply(0x01, a0), Multiply(0x01, a1), Multiply(0x02, a2), Multiply(0x03, a3));
    AccumulateSum4(Multiply(0x03, a0), Multiply(0x01, a1), Multiply(0x01, a2), Multiply(0x02, a3));
    MultiplySum4(0x0B, Multiply(0x03, a0), Multiply(0x01, a1), Multiply(0x01, a2), Multiply(0x02, a3));
    AccumulateSum4(Multiply(0x0D, Accumulate4(Multiply(0x02, a0), Multiply(0x03, a1), Multiply(0x01, a2), Multiply(0x01, a3))), Multiply(0x09, Accumulate4(Multiply(0x01, a0), Multiply(0x02, a1), Multiply(0x03, a2), Multiply(0x01, a3))), Multiply(0x0E, Accumulate4(Multiply(0x01, a0), Multiply(0x01, a1), Multiply(0x02, a2), Multiply(0x03, a3))), Multiply(0x0B, Accumulate4(Multiply(0x03, a0), Multiply(0x01, a1), Multiply(0x01, a2), Multiply(0x02, a3))));
    Transpose(Multiply(0x0D, Multiply(0x02, a0)), Multiply(0x0D, Multiply(0x03, a1)), Multiply(0x0D, Multiply(0x01, a2)), Multiply(0x0D, Multiply(0x01, a3)), Multiply(0x09, Multiply(0x01, a0)), Multiply(0x09, Multiply(0x02, a1)), Multiply(0x09, Multiply(0x03, a2)), Multiply(0x09, Multiply(0x01, a3)), Multiply(0x0E, Multiply(0x01, a0)), Multiply(0x0E, Multiply(0x01, a1)), Multiply(0x0E, Multiply(0x02, a2)), Multiply(0x0E, Multiply(0x03, a3)), Multiply(0x0B, Multiply(0x03, a0)), Multiply(0x0B, Multiply(0x01, a1)), Multiply(0x0B, Multiply(0x01, a2)), Multiply(0x0B, Multiply(0x02, a3)));
    Entry20(a0); Entry21(a1); Entry22(a2); Entry23(a3);
    Sum4Unit(a2);
  }

  /** Row 3 of InvMixColumns after MixColumns, on the column a0..a3, gives back a3. */
  lemma Row3(a0: byte, a1: byte, a2: byte, a3: byte)
    ensures Accumulate4(Multiply(0x0B, Accumulate4(Multiply(0x02, a0), Multiply(0x03, a1), Multiply(0x01, a2), Multiply(0x01, a3))), Multiply(0x0D, Accumulate4(Multiply(0x01, a0), Multiply(0x02, a1), Multiply(0x03, a2), Multiply(0x01, a3))), Multiply(0x09, Accumulate4(Multiply(0x01, a0), Multiply(0x01, a1), Multiply(0x02, a2), Multiply(0x03, a3))), Multiply(0x0E, Accumulate4(Multiply(0x03, a0), Multiply(0x01, a1), Multiply(0x01, a2), Multiply(0x02, a3)))) == a3
  {
    AccumulateSum4(Multiply(0x02, a0), Multiply(0x03, a1), Multiply(0x01, a2), Multiply(0x01, a3));
    MultiplySum4(0x0B, Multiply(0x02, a0), Multiply(0x03, a1), Multiply(0x01, a2), Multiply(0x01, a3));
    AccumulateSum4(Multiply(0x01, a0), Multiply(0x02, a1), Multiply(0x03, a2), Multiply(0x01, a3));
    MultiplySum4(0x0D, Multiply(0x01, a0), Multiply(0x02, a1), Multiply(0x03, a2), Multiply(0x01, a3));
    AccumulateSum4(Multiply(0x01, a0), Multiply(0x01, a1), Multiply(0x02, a2), Multiply(0x03, a3));
    MultiplySum4(0x09, Multiply(0x01, a0), Multiply(0x01, a1), Multiply(0x02, a2), Multiply(0x03, a3));
    AccumulateSum4(Multiply(0x03, a0), Multiply(0x01, a1), Multiply(0x01, a2), Multiply(0x02, a3));
    MultiplySum4(0x0E, Multiply(0x03, a0), Multiply(0x01, a1), Multiply(0x01, a2), Multiply(0x02, a3));
    AccumulateSum4(Multiply(0x0B, Accumulate4(Multiply(0x02, a0), Multiply(0x03, a1), Multiply(0x01, a2), Multiply(0x01, a3))), Multiply(0x0D, Accumulate4(Multiply(0x01, a0), Multiply(0x02, a1), Multiply(0x03, a2), Multiply(0x01, a3))), Multiply(0x09, Accumulate4(Multiply(0x01, a0), Multiply(0x01, a1), Multiply(0x02, a2), Multiply(0x03, a3))), Multiply(0x0E, Accumulate4(Multiply(0x03, a0), Multiply(0x01, a1), Multiply(0x01, a2), Multiply(0x02, a3))));
    Transpose(Multiply(0x0B, Multiply(0x02, a0)), Multiply(0x0B, Multiply(0x03, a1)), Multiply(0x0B, Multiply(0x01, a2)), Multiply(0x0B, Multiply(0x01, a3)), Multiply(0x0D, Multiply(0x01, a0)), Multiply(0x0D, Multiply(0x02, a1)), Multiply(0x0D, Multiply(0x03, a2)), Multiply(0x0D, Multiply(0x01, a3)), Multiply(0x09, Multiply(0x01, a0)), Multiply(0x09, Multiply(0x01, a1)), Multiply(0x09, Multiply(0x02, a2)), Multiply(0x09, Multiply(0x03, a3)), Multiply(0x0E, Multiply(0x03, a0)), Multiply(0x0E, Multiply(0x01, a1)), Multiply(0x0E, Multiply(0x01, a2)), Multiply(0x0E, Multiply(0x02, a3)));
    Entry30(a0); Entry31(a1); Entry32(a2); Entry33(a3);
    Sum4Unit(a3);
  }
}
