/**
 * Arithmetic in the field GF(2^8) used by AES (FIPS-197 section 4), as the
 * macros at the head of aes_crypt/lib/aes_crypt.cpp compute it, and the
 * algebra that shows the InvMixColumns matrix inverts the MixColumns matrix.
 *
 * Field addition is kept behind the function Add rather than written as `^`:
 * the identities below are then proved by rewriting with a handful of small
 * laws instead of by bit-blasting whole expressions.
 */
module Gf {
  import opened Bytes

  /** Addition in GF(2^8): bytewise exclusive or (FIPS-197 section 4.1). */
  function Add(a: byte, b: byte): byte { a ^ b }

  /** The xtime macro: multiplication by {02} with the branch on the top bit
    * (FIPS-197 section 4.2.1). The C macro yields an int that is truncated
    * to a byte wherever it is stored; `<<` on bv8 drops that bit already. */
  function Xtime(a: byte): byte { (a << 1) ^ (if a & 0x80 != 0 then 0x1b else 0x00) }

  /** The twotimes macro: the same product with the reduction selected by a
    * multiplication by the top bit instead of a branch. */
  function Twotimes(a: byte): byte { (a << 1) ^ (((a >> 7) & 1) * 0x1b) }

  /** threetimes: {03}·a. */
  function Threetimes(a: byte): byte { Add(a, Twotimes(a)) }

  /** four and eight: {04}·a and {08}·a by repeated doubling. */
  function Four(a: byte): byte { Twotimes(Twotimes(a)) }
  function Eight(a: byte): byte { Twotimes(Four(a)) }

  /** The four products InvMixColumns forms, in the source's grouping. */
  function Mul9(a: byte): byte { Add(Eight(a), a) }
  function Mul11(a: byte): byte { Add(Add(Eight(a), Xtime(a)), a) }
  function Mul13(a: byte): byte { Add(Add(Eight(a), Four(a)), a) }
  function Mul14(a: byte): byte { Add(Add(Eight(a), Four(a)), Xtime(a)) }

  /** Left-to-right sum of four field elements. */
  function Add4(a: byte, b: byte, c: byte, d: byte): byte { Add(Add(Add(a, b), c), d) }

  // ---------------------------------------------------------------- laws

  lemma XtimeIsTwotimes(a: byte)
    ensures Xtime(a) == Twotimes(a)
  {}

  lemma TwotimesLinear(a: byte, b: byte)
    ensures Twotimes(Add(a, b)) == Add(Twotimes(a), Twotimes(b))
  {}

  lemma XtimeLinear(a: byte, b: byte)
    ensures Xtime(Add(a, b)) == Add(Xtime(a), Xtime(b))
  {
    XtimeIsTwotimes(Add(a, b));
    XtimeIsTwotimes(a);
    XtimeIsTwotimes(b);
    TwotimesLinear(a, b);
  }

  lemma FourLinear(a: byte, b: byte)
    ensures Four(Add(a, b)) == Add(Four(a), Four(b))
  {
    TwotimesLinear(a, b);
    TwotimesLinear(Twotimes(a), Twotimes(b));
  }

  lemma EightLinear(a: byte, b: byte)
    ensures Eight(Add(a, b)) == Add(Eight(a), Eight(b))
  {
    FourLinear(a, b);
    TwotimesLinear(Four(a), Four(b));
  }

  // Sums of two and three terms written out as exclusive or; the
  // regrouping laws below go through these rather than through the
  // definition of Add, which the solver unfolds poorly inside equations
  // between two sums.
  lemma UnfoldPairs(p: byte, q: byte, r: byte, s: byte)
    ensures Add(Add(p, q), Add(r, s)) == (p ^ q) ^ (r ^ s)
  {}

  lemma UnfoldLeft(p: byte, q: byte, r: byte)
    ensures Add(Add(p, q), r) == (p ^ q) ^ r
  {}

  lemma UnfoldRight(p: byte, q: byte, r: byte)
    ensures Add(p, Add(q, r)) == p ^ (q ^ r)
  {}

  lemma Swap(p: byte, q: byte, r: byte, s: byte)
    ensures Add(Add(p, q), Add(r, s)) == Add(Add(p, r), Add(q, s))
  {
    UnfoldPairs(p, q, r, s);
    UnfoldPairs(p, r, q, s);
  }

  lemma Regroup(p: byte, q: byte, r: byte, s: byte, t: byte, u: byte)
    ensures Add(Add(Add(p, q), Add(r, s)), Add(t, u)) == Add(Add(Add(p, r), t), Add(Add(q, s), u))
  {
    Swap(p, q, r, s);
    Swap(Add(p, r), Add(q, s), t, u);
  }

  lemma ThreetimesLinear(a: byte, b: byte)
    ensures Threetimes(Add(a, b)) == Add(Threetimes(a), Threetimes(b))
  {
    TwotimesLinear(a, b);
    Swap(a, b, Twotimes(a), Twotimes(b));
  }

  lemma Mul9Linear(a: byte, b: byte)
    ensures Mul9(Add(a, b)) == Add(Mul9(a), Mul9(b))
  {
    EightLinear(a, b);
    Swap(Eight(a), Eight(b), a, b);
  }

  lemma Mul11Linear(a: byte, b: byte)
    ensures Mul11(Add(a, b)) == Add(Mul11(a), Mul11(b))
  {
    EightLinear(a, b);
    XtimeLinear(a, b);
    Regroup(Eight(a), Eight(b), Xtime(a), Xtime(b), a, b);
  }

  lemma Mul13Linear(a: byte, b: byte)
    ensures Mul13(Add(a, b)) == Add(Mul13(a), Mul13(b))
  {
    EightLinear(a, b);
    FourLinear(a, b);
    Regroup(Eight(a), Eight(b), Four(a), Four(b), a, b);
  }

  lemma Mul14Linear(a: byte, b: byte)
    ensures Mul14(Add(a, b)) == Add(Mul14(a), Mul14(b))
  {
    EightLinear(a, b);
    FourLinear(a, b);
    XtimeLinear(a, b);
    Regroup(Eight(a), Eight(b), Four(a), Four(b), Xtime(a), Xtime(b));
  }

  lemma Mul9Add4(a: byte, b: byte, c: byte, d: byte)
    ensures Mul9(Add4(a, b, c, d)) == Add4(Mul9(a), Mul9(b), Mul9(c), Mul9(d))
  {
    Mul9Linear(Add(Add(a, b), c), d);
    Mul9Linear(Add(a, b), c);
    Mul9Linear(a, b);
  }

  lemma Mul11Add4(a: byte, b: byte, c: byte, d: byte)
    ensures Mul11(Add4(a, b, c, d)) == Add4(Mul11(a), Mul11(b), Mul11(c), Mul11(d))
  {
    Mul11Linear(Add(Add(a, b), c), d);
    Mul11Linear(Add(a, b), c);
    Mul11Linear(a, b);
  }

  lemma Mul13Add4(a: byte, b: byte, c: byte, d: byte)
    ensures Mul13(Add4(a, b, c, d)) == Add4(Mul13(a), Mul13(b), Mul13(c), Mul13(d))
  {
    Mul13Linear(Add(Add(a, b), c), d);
    Mul13Linear(Add(a, b), c);
    Mul13Linear(a, b);
  }

  lemma Mul14Add4(a: byte, b: byte, c: byte, d: byte)
    ensures Mul14(Add4(a, b, c, d)) == Add4(Mul14(a), Mul14(b), Mul14(c), Mul14(d))
  {
    Mul14Linear(Add(Add(a, b), c), d);
    Mul14Linear(Add(a, b), c);
    Mul14Linear(a, b);
  }

  /** Sum of four pairwise sums, regrouped. */
  lemma Add4Linear(a: byte, b: byte, c: byte, d: byte, e: byte, f: byte, g: byte, h: byte)
    ensures Add4(Add(a, b), Add(c, d), Add(e, f), Add(g, h)) == Add(Add4(a, c, e, g), Add4(b, d, f, h))
  {
    Swap(a, b, c, d);
    Swap(Add(a, c), Add(b, d), e, f);
    Swap(Add(Add(a, c), e), Add(Add(b, d), f), g, h);
  }

  /** A 4x4 sum may be added up by rows or by columns. */
  lemma Transpose(a00: byte, a01: byte, a02: byte, a03: byte,
                  a10: byte, a11: byte, a12: byte, a13: byte,
                  a20: byte, a21: byte, a22: byte, a23: byte,
                  a30: byte, a31: byte, a32: byte, a33: byte)
    ensures Add4(Add4(a00, a01, a02, a03), Add4(a10, a11, a12, a13),
                 Add4(a20, a21, a22, a23), Add4(a30, a31, a32, a33))
         == Add4(Add4(a00, a10, a20, a30), Add4(a01, a11, a21, a31),
                 Add4(a02, a12, a22, a32), Add4(a03, a13, a23, a33))
  {
    Add4Linear(Add(Add(a00, a01), a02), a03, Add(Add(a10, a11), a12), a13,
               Add(Add(a20, a21), a22), a23, Add(Add(a30, a31), a32), a33);
    Add4Linear(Add(a00, a01), a02, Add(a10, a11), a12, Add(a20, a21), a22, Add(a30, a31), a32);
    Add4Linear(a00, a01, a10, a11, a20, a21, a30, a31);
  }

  lemma Rotate1(w: byte, x: byte, y: byte, z: byte)
    ensures Add4(z, w, x, y) == Add4(w, x, y, z)
  {}

  /** A sum of four is unchanged by rotating its terms. */
  lemma Rotate(w: byte, x: byte, y: byte, z: byte)
    ensures Add4(z, w, x, y) == Add4(w, x, y, z)
    ensures Add4(y, z, w, x) == Add4(w, x, y, z)
    ensures Add4(x, y, z, w) == Add4(w, x, y, z)
  {
    Rotate1(w, x, y, z);
    Rotate1(z, w, x, y);
    Rotate1(y, z, w, x);
  }

  lemma Add4Unit(a: byte)
    ensures Add4(a, 0, 0, 0) == a && Add4(0, a, 0, 0) == a && Add4(0, 0, a, 0) == a && Add4(0, 0, 0, a) == a
  {}

  // The four sums of products that an entry of InvMixColumns∘MixColumns
  // reduces to. Write p_k for {02}^k·a: every product below is a sum of
  // p_0..p_4, and all cancel except p_0 in the first identity.

  lemma Cancel0(p0: byte, p1: byte, p2: byte, p3: byte, p4: byte)
    ensures Add4(Add(Add(p4, p3), p2), Add(Add(p3, p1), p0), Add(Add(p3, p2), p0), Add(Add(p3, p4), Add(p0, p1))) == p0
  {}

  lemma Cancel1(p0: byte, p1: byte, p2: byte, p3: byte, p4: byte)
    ensures Add4(Add(Add(Add(p3, p4), Add(p2, p3)), Add(p1, p2)), Add(Add(p4, p2), p1), Add(Add(p3, p2), p0), Add(p3, p0)) == 0
  {}

  lemma Cancel2(p0: byte, p1: byte, p2: byte, p3: byte, p4: byte)
    ensures Add4(Add(Add(p3, p2), p1), Add(Add(Add(p3, p4), Add(p1, p2)), Add(p0, p1)), Add(Add(p4, p3), p1), Add(p3, p0)) == 0
  {}

  lemma CancelPair(p0: byte, p1: byte, p2: byte, p3: byte)
    ensures Add(Add(Add(p3, p2), p1), Add(Add(p3, p1), p0)) == Add(p2, p0)
  {
    UnfoldLeft(p3, p2, p1);
    UnfoldLeft(p3, p1, p0);
  }

  lemma Cancel3Tail(p0: byte, p1: byte, p2: byte, p3: byte, p4: byte)
    ensures Add(Add(Add(p2, p0), Add(Add(Add(p3, p4), Add(p2, p3)), Add(p0, p1))), Add(p4, p1)) == 0
  {
    var x := Add(Add(p3, p4), Add(p2, p3));
    UnfoldPairs(p3, p4, p2, p3);
    UnfoldRight(x, p0, p1);
    var y := Add(x, Add(p0, p1));
    UnfoldLeft(p2, p0, y);
    UnfoldRight(Add(Add(p2, p0), y), p4, p1);
  }

  lemma Cancel3(p0: byte, p1: byte, p2: byte, p3: byte, p4: byte)
    ensures Add4(Add(Add(p3, p2), p1), Add(Add(p3, p1), p0), Add(Add(Add(p3, p4), Add(p2, p3)), Add(p0, p1)), Add(p4, p1)) == 0
  {
    CancelPair(p0, p1, p2, p3);
    Cancel3Tail(p0, p1, p2, p3, p4);
  }

  lemma E0(a: byte)
    ensures Add4(Mul14(Twotimes(a)), Mul11(a), Mul13(a), Mul9(Threetimes(a))) == a
  {
    XtimeIsTwotimes(a);
    XtimeIsTwotimes(Twotimes(a));
    EightLinear(a, Twotimes(a));
    Cancel0(a, Twotimes(a), Four(a), Eight(a), Twotimes(Eight(a)));
  }

  lemma E1(a: byte)
    ensures Add4(Mul14(Threetimes(a)), Mul11(Twotimes(a)), Mul13(a), Mul9(a)) == 0
  {
    XtimeIsTwotimes(Twotimes(a));
    XtimeIsTwotimes(Threetimes(a));
    TwotimesLinear(a, Twotimes(a));
    EightLinear(a, Twotimes(a));
    FourLinear(a, Twotimes(a));
    Cancel1(a, Twotimes(a), Four(a), Eight(a), Twotimes(Eight(a)));
  }

  lemma E2(a: byte)
    ensures Add4(Mul14(a), Mul11(Threetimes(a)), Mul13(Twotimes(a)), Mul9(a)) == 0
  {
    XtimeIsTwotimes(a);
    XtimeIsTwotimes(Threetimes(a));
    TwotimesLinear(a, Twotimes(a));
    EightLinear(a, Twotimes(a));
    Cancel2(a, Twotimes(a), Four(a), Eight(a), Twotimes(Eight(a)));
  }

  lemma E3(a: byte)
    ensures Add4(Mul14(a), Mul11(a), Mul13(Threetimes(a)), Mul9(Twotimes(a))) == 0
  {
    XtimeIsTwotimes(a);
    EightLinear(a, Twotimes(a));
    FourLinear(a, Twotimes(a));
    Cancel3(a, Twotimes(a), Four(a), Eight(a), Twotimes(Eight(a)));
  }

  // ---------------------------------------------------------------- columns

  /** One column of the state (FIPS-197 section 3.5): rows 0..3. */
  datatype Word = Word(b0: byte, b1: byte, b2: byte, b3: byte)

  /** The column transformation of FIPS-197 equation (5.6). */
  function MixColumn(w: Word): Word
  {
    Word(Add4(Twotimes(w.b0), Threetimes(w.b1), w.b2, w.b3),
         Add4(w.b0, Twotimes(w.b1), Threetimes(w.b2), w.b3),
         Add4(w.b0, w.b1, Twotimes(w.b2), Threetimes(w.b3)),
         Add4(Threetimes(w.b0), w.b1, w.b2, Twotimes(w.b3)))
  }

  /** The column transformation of FIPS-197 equation (5.10), with the
    * products {0e}, {0b}, {0d} and {09} formed as InvMixColumns forms them. */
  function InvMixColumn(w: Word): Word
  {
    Word(Add4(Mul14(w.b0), Mul11(w.b1), Mul13(w.b2), Mul9(w.b3)),
         Add4(Mul9(w.b0), Mul14(w.b1), Mul11(w.b2), Mul13(w.b3)),
         Add4(Mul13(w.b0), Mul9(w.b1), Mul14(w.b2), Mul11(w.b3)),
         Add4(Mul11(w.b0), Mul13(w.b1), Mul9(w.b2), Mul14(w.b3)))
  }

  lemma InvRow0(s0: byte, s1: byte, s2: byte, s3: byte)
    ensures var m := MixColumn(Word(s0, s1, s2, s3));
            Add4(Mul14(m.b0), Mul11(m.b1), Mul13(m.b2), Mul9(m.b3)) == s0
  {
    Mul14Add4(Twotimes(s0), Threetimes(s1), s2, s3);
    Mul11Add4(s0, Twotimes(s1), Threetimes(s2), s3);
    Mul13Add4(s0, s1, Twotimes(s2), Threetimes(s3));
    Mul9Add4(Threetimes(s0), s1, s2, Twotimes(s3));
    Transpose(Mul14(Twotimes(s0)), Mul14(Threetimes(s1)), Mul14(s2), Mul14(s3),
              Mul11(s0), Mul11(Twotimes(s1)), Mul11(Threetimes(s2)), Mul11(s3),
              Mul13(s0), Mul13(s1), Mul13(Twotimes(s2)), Mul13(Threetimes(s3)),
              Mul9(Threetimes(s0)), Mul9(s1), Mul9(s2), Mul9(Twotimes(s3)));
    E0(s0);
    E1(s1);
    E2(s2);
    E3(s3);
    Add4Unit(s0);
  }

  lemma InvRow1(s0: byte, s1: byte, s2: byte, s3: byte)
    ensures var m := MixColumn(Word(s0, s1, s2, s3));
            Add4(Mul9(m.b0), Mul14(m.b1), Mul11(m.b2), Mul13(m.b3)) == s1
  {
    Mul9Add4(Twotimes(s0), Threetimes(s1), s2, s3);
    Mul14Add4(s0, Twotimes(s1), Threetimes(s2), s3);
    Mul11Add4(s0, s1, Twotimes(s2), Threetimes(s3));
    Mul13Add4(Threetimes(s0), s1, s2, Twotimes(s3));
    Transpose(Mul9(Twotimes(s0)), Mul9(Threetimes(s1)), Mul9(s2), Mul9(s3),
              Mul14(s0), Mul14(Twotimes(s1)), Mul14(Threetimes(s2)), Mul14(s3),
              Mul11(s0), Mul11(s1), Mul11(Twotimes(s2)), Mul11(Threetimes(s3)),
              Mul13(Threetimes(s0)), Mul13(s1), Mul13(s2), Mul13(Twotimes(s3)));
    E3(s0);
    Rotate(Mul14(s0), Mul11(s0), Mul13(Threetimes(s0)), Mul9(Twotimes(s0)));
    E0(s1);
    Rotate(Mul14(Twotimes(s1)), Mul11(s1), Mul13(s1), Mul9(Threetimes(s1)));
    E1(s2);
    Rotate(Mul14(Threetimes(s2)), Mul11(Twotimes(s2)), Mul13(s2), Mul9(s2));
    E2(s3);
    Rotate(Mul14(s3), Mul11(Threetimes(s3)), Mul13(Twotimes(s3)), Mul9(s3));
    Add4Unit(s1);
  }

  lemma InvRow2(s0: byte, s1: byte, s2: byte, s3: byte)
    ensures var m := MixColumn(Word(s0, s1, s2, s3));
            Add4(Mul13(m.b0), Mul9(m.b1), Mul14(m.b2), Mul11(m.b3)) == s2
  {
    Mul13Add4(Twotimes(s0), Threetimes(s1), s2, s3);
    Mul9Add4(s0, Twotimes(s1), Threetimes(s2), s3);
    Mul14Add4(s0, s1, Twotimes(s2), Threetimes(s3));
    Mul11Add4(Threetimes(s0), s1, s2, Twotimes(s3));
    Transpose(Mul13(Twotimes(s0)), Mul13(Threetimes(s1)), Mul13(s2), Mul13(s3),
              Mul9(s0), Mul9(Twotimes(s1)), Mul9(Threetimes(s2)), Mul9(s3),
              Mul14(s0), Mul14(s1), Mul14(Twotimes(s2)), Mul14(Threetimes(s3)),
              Mul11(Threetimes(s0)), Mul11(s1), Mul11(s2), Mul11(Twotimes(s3)));
    E2(s0);
    Rotate(Mul14(s0), Mul11(Threetimes(s0)), Mul13(Twotimes(s0)), Mul9(s0));
    E3(s1);
    Rotate(Mul14(s1), Mul11(s1), Mul13(Threetimes(s1)), Mul9(Twotimes(s1)));
    E0(s2);
    Rotate(Mul14(Twotimes(s2)), Mul11(s2), Mul13(s2), Mul9(Threetimes(s2)));
    E1(s3);
    Rotate(Mul14(Threetimes(s3)), Mul11(Twotimes(s3)), Mul13(s3), Mul9(s3));
    Add4Unit(s2);
  }

  lemma InvRow3(s0: byte, s1: byte, s2: byte, s3: byte)
    ensures var m := MixColumn(Word(s0, s1, s2, s3));
            Add4(Mul11(m.b0), Mul13(m.b1), Mul9(m.b2), Mul14(m.b3)) == s3
  {
    Mul11Add4(Twotimes(s0), Threetimes(s1), s2, s3);
    Mul13Add4(s0, Twotimes(s1), Threetimes(s2), s3);
    Mul9Add4(s0, s1, Twotimes(s2), Threetimes(s3));
    Mul14Add4(Threetimes(s0), s1, s2, Twotimes(s3));
    Transpose(Mul11(Twotimes(s0)), Mul11(Threetimes(s1)), Mul11(s2), Mul11(s3),
              Mul13(s0), Mul13(Twotimes(s1)), Mul13(Threetimes(s2)), Mul13(s3),
              Mul9(s0), Mul9(s1), Mul9(Twotimes(s2)), Mul9(Threetimes(s3)),
              Mul14(Threetimes(s0)), Mul14(s1), Mul14(s2), Mul14(Twotimes(s3)));
    E1(s0);
    Rotate(Mul14(Threetimes(s0)), Mul11(Twotimes(s0)), Mul13(s0), Mul9(s0));
    E2(s1);
    Rotate(Mul14(s1), Mul11(Threetimes(s1)), Mul13(Twotimes(s1)), Mul9(s1));
    E3(s2);
    Rotate(Mul14(s2), Mul11(s2), Mul13(Threetimes(s2)), Mul9(Twotimes(s2)));
    E0(s3);
    Rotate(Mul14(Twotimes(s3)), Mul11(s3), Mul13(s3), Mul9(Threetimes(s3)));
    Add4Unit(s3);
  }

  /** InvMixColumns undoes MixColumns on every column: the two matrices of
    * FIPS-197 equations (5.6) and (5.10) are inverse over GF(2^8). */
  lemma InvMixColumnOfMixColumn(w: Word)
    ensures InvMixColumn(MixColumn(w)) == w
  {
    InvRow0(w.b0, w.b1, w.b2, w.b3);
    InvRow1(w.b0, w.b1, w.b2, w.b3);
    InvRow2(w.b0, w.b1, w.b2, w.b3);
    InvRow3(w.b0, w.b1, w.b2, w.b3);
  }

  // ------------------------------------------------ the MixColumns shortcut

  /** MixColumns computes each new row as s_r ⊕ xtime(s_r ⊕ s_{r+1}) ⊕ a,
    * where a is the sum of the whole column. */
  function TrickRow(sr: byte, snext: byte, a: byte): byte
  {
    Add(sr, Add(Xtime(Add(sr, snext)), a))
  }

  lemma Rot3(a: byte, b: byte, c: byte)
    ensures Add(a, Add(b, c)) == Add(b, Add(a, c))
  {}

  lemma Peel0(s0: byte, s1: byte, s2: byte, s3: byte)
    ensures Add(s0, Add4(s0, s1, s2, s3)) == Add(Add(s1, s2), s3)
  {
    UnfoldLeft(s0, s1, s2);
    UnfoldLeft(s1, s2, s3);
  }

  lemma Peel1(s0: byte, s1: byte, s2: byte, s3: byte)
    ensures Add(s1, Add4(s0, s1, s2, s3)) == Add(Add(s0, s2), s3)
  {
    UnfoldLeft(s0, s1, s2);
    UnfoldLeft(s0, s2, s3);
  }

  lemma Peel2(s0: byte, s1: byte, s2: byte, s3: byte)
    ensures Add(s2, Add4(s0, s1, s2, s3)) == Add(Add(s0, s1), s3)
  {
    UnfoldLeft(s0, s1, s2);
    UnfoldLeft(s0, s1, s3);
  }

  lemma Peel3(s0: byte, s1: byte, s2: byte, s3: byte)
    ensures Add(s3, Add4(s0, s1, s2, s3)) == Add(Add(s0, s1), s2)
  {
    UnfoldLeft(s0, s1, s2);
  }

  lemma Spread0(x0: byte, x1: byte, s1: byte, s2: byte, s3: byte)
    ensures Add(Add(x0, x1), Add(Add(s1, s2), s3)) == Add4(x0, Add(s1, x1), s2, s3)
  {}

  lemma Spread1(x1: byte, x2: byte, s0: byte, s2: byte, s3: byte)
    ensures Add(Add(x1, x2), Add(Add(s0, s2), s3)) == Add4(s0, x1, Add(s2, x2), s3)
  {}

  lemma Spread2(x2: byte, x3: byte, s0: byte, s1: byte, s3: byte)
    ensures Add(Add(x2, x3), Add(Add(s0, s1), s3)) == Add4(s0, s1, x2, Add(s3, x3))
  {}

  lemma Spread3(x3: byte, x0: byte, s0: byte, s1: byte, s2: byte)
    ensures Add(Add(x3, x0), Add(Add(s0, s1), s2)) == Add4(Add(s0, x0), s1, s2, x3)
  {
    UnfoldLeft(s0, s1, s2);
    UnfoldLeft(Add(s0, x0), s1, s2);
  }

  lemma TrickFree0(s0: byte, s1: byte, s2: byte, s3: byte, x0: byte, x1: byte)
    ensures Add(s0, Add(Add(x0, x1), Add4(s0, s1, s2, s3))) == Add4(x0, Add(s1, x1), s2, s3)
  {
    Rot3(s0, Add(x0, x1), Add4(s0, s1, s2, s3));
    Peel0(s0, s1, s2, s3);
    Spread0(x0, x1, s1, s2, s3);
  }

  lemma TrickFree1(s0: byte, s1: byte, s2: byte, s3: byte, x1: byte, x2: byte)
    ensures Add(s1, Add(Add(x1, x2), Add4(s0, s1, s2, s3))) == Add4(s0, x1, Add(s2, x2), s3)
  {
    Rot3(s1, Add(x1, x2), Add4(s0, s1, s2, s3));
    Peel1(s0, s1, s2, s3);
    Spread1(x1, x2, s0, s2, s3);
  }

  lemma TrickFree2(s0: byte, s1: byte, s2: byte, s3: byte, x2: byte, x3: byte)
    ensures Add(s2, Add(Add(x2, x3), Add4(s0, s1, s2, s3))) == Add4(s0, s1, x2, Add(s3, x3))
  {
    Rot3(s2, Add(x2, x3), Add4(s0, s1, s2, s3));
    Peel2(s0, s1, s2, s3);
    Spread2(x2, x3, s0, s1, s3);
  }

  lemma TrickFree3(s0: byte, s1: byte, s2: byte, s3: byte, x3: byte, x0: byte)
    ensures Add(s3, Add(Add(x3, x0), Add4(s0, s1, s2, s3))) == Add4(Add(s0, x0), s1, s2, x3)
  {
    Rot3(s3, Add(x3, x0), Add4(s0, s1, s2, s3));
    Peel3(s0, s1, s2, s3);
    Spread3(x3, x0, s0, s1, s2);
  }

  /** The shortcut yields the products of FIPS-197 equation (5.6). */
  lemma TrickRowIsMixColumn(w: Word)
    ensures var a := Add4(w.b0, w.b1, w.b2, w.b3);
            MixColumn(w) == Word(TrickRow(w.b0, w.b1, a), TrickRow(w.b1, w.b2, a),
                                 TrickRow(w.b2, w.b3, a), TrickRow(w.b3, w.b0, a))
  {
    XtimeIsTwotimes(w.b0);
    XtimeIsTwotimes(w.b1);
    XtimeIsTwotimes(w.b2);
    XtimeIsTwotimes(w.b3);
    XtimeLinear(w.b0, w.b1);
    XtimeLinear(w.b1, w.b2);
    XtimeLinear(w.b2, w.b3);
    XtimeLinear(w.b3, w.b0);
    TrickFree0(w.b0, w.b1, w.b2, w.b3, Twotimes(w.b0), Twotimes(w.b1));
    TrickFree1(w.b0, w.b1, w.b2, w.b3, Twotimes(w.b1), Twotimes(w.b2));
    TrickFree2(w.b0, w.b1, w.b2, w.b3, Twotimes(w.b2), Twotimes(w.b3));
    TrickFree3(w.b0, w.b1, w.b2, w.b3, Twotimes(w.b3), Twotimes(w.b0));
  }

  // ----------------------------------------- products, by reference

  /** Multiplication in GF(2^8) as FIPS-197 section 4.2.1 describes it:
    * sum the powers xtime^k(a) selected by the bits of b. */
  function Mul(a: byte, b: byte): byte
    decreases b as int
  {
    if b == 0 then 0 else Add(if b & 1 != 0 then a else 0, Mul(Xtime(a), b >> 1))
  }

  lemma Sum3Free(p: byte, q: byte, r: byte)
    ensures Add(0, Add(p, Add(q, Add(r, 0)))) == Add(Add(r, q), p)
  {}


  /** Mul unfolded on the constants that MixColumns and InvMixColumns use. */
  lemma MulUnfolded(a: byte)
    ensures Mul(a, 0x02) == Add(0, Add(Xtime(a), 0))
    ensures Mul(a, 0x03) == Add(a, Add(Xtime(a), 0))
    ensures Mul(a, 0x09) == Add(a, Add(0, Add(0, Add(Xtime(Xtime(Xtime(a))), 0))))
    ensures Mul(a, 0x0b) == Add(a, Add(Xtime(a), Add(0, Add(Xtime(Xtime(Xtime(a))), 0))))
    ensures Mul(a, 0x0d) == Add(a, Add(0, Add(Xtime(Xtime(a)), Add(Xtime(Xtime(Xtime(a))), 0))))
    ensures Mul(a, 0x0e) == Add(0, Add(Xtime(a), Add(Xtime(Xtime(a)), Add(Xtime(Xtime(Xtime(a))), 0))))
  {
    var x1 := Xtime(a);
    MulTail(x1);
    assert Mul(a, 0x02) == Add(0, Add(x1, 0)) by { assert Mul(Xtime(x1), 0) == 0; }
    assert Mul(a, 0x03) == Add(a, Add(x1, 0)) by { assert Mul(Xtime(x1), 0) == 0; }
  }

  /** The products by 4 to 7 that the odd constants above reduce to. */
  lemma MulTail(x1: byte)
    ensures Mul(x1, 4) == Add(0, Add(0, Add(Xtime(Xtime(x1)), 0)))
    ensures Mul(x1, 5) == Add(x1, Add(0, Add(Xtime(Xtime(x1)), 0)))
    ensures Mul(x1, 6) == Add(0, Add(Xtime(x1), Add(Xtime(Xtime(x1)), 0)))
    ensures Mul(x1, 7) == Add(x1, Add(Xtime(x1), Add(Xtime(Xtime(x1)), 0)))
  {
    var x2 := Xtime(x1);
    var x3 := Xtime(x2);
    assert Mul(x3, 1) == Add(x3, 0) by { assert Mul(Xtime(x3), 0) == 0; }
    assert Mul(x2, 2) == Add(0, Add(x3, 0));
    assert Mul(x2, 3) == Add(x2, Add(x3, 0));
  }

  /** The named products are the field products by {02}, {03}, {09}, {0b},
    * {0d} and {0e}. */
  lemma ProductsAreFieldProducts(a: byte)
    ensures Mul(a, 0x02) == Twotimes(a)
    ensures Mul(a, 0x03) == Threetimes(a)
    ensures Mul(a, 0x09) == Mul9(a)
    ensures Mul(a, 0x0b) == Mul11(a)
    ensures Mul(a, 0x0d) == Mul13(a)
    ensures Mul(a, 0x0e) == Mul14(a)
  {
    MulUnfolded(a);
    XtimeIsTwotimes(a);
    XtimeIsTwotimes(Xtime(a));
    XtimeIsTwotimes(Xtime(Xtime(a)));
    UnitFree(a, Xtime(a));
    UnitsFree(a, Xtime(Xtime(Xtime(a))));
    Sum3Free(Xtime(a), Xtime(Xtime(a)), Xtime(Xtime(Xtime(a))));
    Sum3WithUnitFree(a, Xtime(a), Xtime(Xtime(Xtime(a))));
    Sum3WithUnitFree(a, Xtime(Xtime(a)), Xtime(Xtime(Xtime(a))));
  }

  lemma UnitsFree(p: byte, r: byte)
    ensures Add(p, Add(0, Add(0, Add(r, 0)))) == Add(r, p)
  {}

  lemma Sum3WithUnitFree(p: byte, q: byte, r: byte)
    ensures Add(p, Add(q, Add(0, Add(r, 0)))) == Add(Add(r, q), p)
    ensures Add(p, Add(0, Add(q, Add(r, 0)))) == Add(Add(r, q), p)
  {}

  lemma UnitFree(a: byte, b: byte)
    ensures Add(0, Add(b, 0)) == b && Add(a, Add(b, 0)) == Add(a, b)
  {}
}
