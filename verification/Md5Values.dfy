/**
 What the digest computes: the mixing functions and the rotation bit by bit, and the digest of the empty message, which
 is the first of the test vectors in appendix A.5 of RFC 1321.
 */
module Md5Values {
  import opened Md5Block
  import opened Md5

  // ----- Bits

  type Place = k: bv6 | k < 32

  predicate Bit(x: bv32, k: Place) {
    (x >> k) & 1 == 1
  }

  const ONES: bv32 := 0xffffffff

  lemma Masked(x: bv32, k: Place)
    ensures (1 as bv32) << k != 0 && x & (1 << k) == if Bit(x, k) then 1 << k else 0
  {
  }

  lemma FWhere(x: bv32, y: bv32, z: bv32, m: bv32)
    ensures x & m == m ==> F(x, y, z) & m == y & m
    ensures x & m == 0 ==> F(x, y, z) & m == z & m
  {
  }

  lemma HWhere(x: bv32, y: bv32, z: bv32, m: bv32)
    ensures x & m == y & m ==> H(x, y, z) & m == z & m
    ensures x & m == !y & m ==> H(x, y, z) & m == !z & m
  {
  }

  lemma IWhereX(x: bv32, y: bv32, z: bv32, m: bv32)
    requires x & m == m
    ensures I(x, y, z) & m == !y & m
  {
  }

  lemma IWhereNotZ(x: bv32, y: bv32, z: bv32, m: bv32)
    requires z & m == 0
    ensures I(x, y, z) & m == !y & m
  {
  }

  lemma IWhereZOnly(x: bv32, y: bv32, z: bv32, m: bv32)
    requires x & m == 0 && z & m == m
    ensures I(x, y, z) & m == y & m
  {
  }

  lemma IWhere(x: bv32, y: bv32, z: bv32, m: bv32)
    ensures x & m == m || z & m == 0 ==> I(x, y, z) & m == !y & m
    ensures x & m == 0 && z & m == m ==> I(x, y, z) & m == y & m
  {
    if x & m == m {
      IWhereX(x, y, z, m);
    } else if z & m == 0 {
      IWhereNotZ(x, y, z, m);
    }
    if x & m == 0 && z & m == m {
      IWhereZOnly(x, y, z, m);
    }
  }

  /** Where `x` has a bit set, `F` has the bit of `y`, elsewhere that of `z`. */
  lemma FBit(x: bv32, y: bv32, z: bv32, k: Place)
    ensures Bit(F(x, y, z), k) <==> if Bit(x, k) then Bit(y, k) else Bit(z, k)
  {
    Masked(x, k);
    Masked(y, k);
    Masked(z, k);
    Masked(F(x, y, z), k);
    FWhere(x, y, z, 1 << k);
  }

  /** Where `z` has a bit set, `G` has the bit of `x`, elsewhere that of `y`. */
  lemma GBit(x: bv32, y: bv32, z: bv32, k: Place)
    ensures Bit(G(x, y, z), k) <==> if Bit(z, k) then Bit(x, k) else Bit(y, k)
  {
    Turned(x, y, z);
    FBit(z, x, y, k);
  }

  /** `G` selects as `F` does, with the words in other places. */
  lemma Turned(x: bv32, y: bv32, z: bv32)
    ensures G(x, y, z) == F(z, x, y)
  {
  }

  /** Where `x` and `y` agree, `H` has the bit of `z`. */
  lemma HBitSame(x: bv32, y: bv32, z: bv32, k: Place)
    requires Bit(x, k) == Bit(y, k)
    ensures Bit(H(x, y, z), k) == Bit(z, k)
  {
    Masked(x, k);
    Masked(y, k);
    Masked(z, k);
    Masked(H(x, y, z), k);
    HWhere(x, y, z, 1 << k);
  }

  /** Where they differ, it has the other one. */
  lemma HBitOther(x: bv32, y: bv32, z: bv32, k: Place)
    requires Bit(x, k) != Bit(y, k)
    ensures Bit(H(x, y, z), k) != Bit(z, k)
  {
    Masked(x, k);
    NotMasked(y, k);
    NotMasked(z, k);
    Masked(H(x, y, z), k);
    HWhere(x, y, z, 1 << k);
  }

  lemma NotMasked(x: bv32, k: Place)
    ensures (1 as bv32) << k != 0 && !x & (1 << k) == if Bit(x, k) then 0 else 1 << k
  {
  }

  /** `I` turns the bit of `y` over where that of `x` is set or that of `z` is not. */
  lemma IBit(x: bv32, y: bv32, z: bv32, k: Place)
    ensures Bit(I(x, y, z), k) <==> Bit(y, k) != (Bit(x, k) || !Bit(z, k))
  {
    Masked(x, k);
    Masked(y, k);
    Masked(z, k);
    Masked(I(x, y, z), k);
    IWhere(x, y, z, 1 << k);
  }

  lemma RotatedHigh(r: bv32, x: bv32, s: Shift, k: Place)
    requires r >> s == x & (ONES >> s) && k + s < 32
    ensures Bit(r, k + s) == Bit(x, k)
  {
  }

  lemma RotatedLow(r: bv32, x: bv32, s: Shift, k: Place)
    requires r & !(ONES << s) == x >> (32 - s) && k + s >= 32
    ensures Bit(r, k + s - 32) == Bit(x, k)
  {
  }

  /** The low bits of a word move up by the amount, and the high ones come in below. */
  lemma Rotated(x: bv32, s: Shift)
    ensures RotateLeft(x, s) >> s == x & (ONES >> s)
    ensures RotateLeft(x, s) & !(ONES << s) == x >> (32 - s)
  {
  }

  /** Every bit moves up by the amount. */
  lemma RotateBitUp(x: bv32, s: Shift, k: Place)
    requires k + s < 32
    ensures Bit(RotateLeft(x, s), k + s) == Bit(x, k)
  {
    Rotated(x, s);
    RotatedHigh(RotateLeft(x, s), x, s, k);
  }

  /** Those that leave above come in again below. */
  lemma RotateBitAround(x: bv32, s: Shift, k: Place)
    requires k + s >= 32
    ensures Bit(RotateLeft(x, s), k + s - 32) == Bit(x, k)
  {
    Rotated(x, s);
    RotatedLow(RotateLeft(x, s), x, s, k);
  }

  // ----- The digest of the empty message

  datatype Shifts = Shifts(a: Shift, b: Shift, c: Shift, d: Shift)

  /** Four steps with the message words `x` and the constants `ac` lead from `w` to `r`. */
  predicate Leads(op: Operation, mix: Mix, w: Words, x: Words, s: Shifts, ac: Words, r: Words) {
    && op(mix, w.a, w.b, w.c, w.d, x.a, s.a, ac.a) == r.a
    && op(mix, w.d, r.a, w.b, w.c, x.b, s.b, ac.b) == r.d
    && op(mix, w.c, r.d, r.a, w.b, x.c, s.c, ac.c) == r.c
    && op(mix, w.b, r.c, r.d, r.a, x.d, s.d, ac.d) == r.b
  }

  /** Triggered by `Operate` only, so that the proofs about rows do not see what a step does. */
  ghost predicate Operates(op: Operation) {
    forall mix, a, b, c, d, x, s, ac {:trigger Operate(mix, a, b, c, d, x, s, ac)} ::
      op(mix, a, b, c, d, x, s, ac) == Operate(mix, a, b, c, d, x, s, ac)
  }

  lemma Taken(op: Operation, mix: Mix, w: Words, x: Words, s: Shifts, ac: Words, r: Words)
    requires Operates(op) && Leads(Operate, mix, w, x, s, ac, r)
    ensures Leads(op, mix, w, x, s, ac, r)
  {
    assert Operate(mix, w.a, w.b, w.c, w.d, x.a, s.a, ac.a) == r.a;
    assert Operate(mix, w.d, r.a, w.b, w.c, x.b, s.b, ac.b) == r.d;
    assert Operate(mix, w.c, r.d, r.a, w.b, x.c, s.c, ac.c) == r.c;
    assert Operate(mix, w.b, r.c, r.d, r.a, x.d, s.d, ac.d) == r.b;
  }

  /** The only block of the padded empty message is a one bit and zeros. */
  predicate EmptyBlock(x: seq<Word>) {
    |x| == 16 && x[0] == 0x80 && forall i :: 1 <= i < 16 ==> x[i] == 0
  }

  lemma Row0(op: Operation)
    requires Operates(op)
    ensures Leads(op, MixF, Words(0x67452301, 0xefcdab89, 0x98badcfe, 0x10325476), Words(0x80, 0, 0, 0),
                  Shifts(7, 12, 17, 22), Words(0xd76aa478, 0xe8c7b756, 0x242070db, 0xc1bdceee),
                  Words(0xa5202774, 0x1b163203, 0xe7f06b23, 0xf59592dd))
  {
    Taken(op, MixF, Words(0x67452301, 0xefcdab89, 0x98badcfe, 0x10325476), Words(0x80, 0, 0, 0),
          Shifts(7, 12, 17, 22), Words(0xd76aa478, 0xe8c7b756, 0x242070db, 0xc1bdceee),
          Words(0xa5202774, 0x1b163203, 0xe7f06b23, 0xf59592dd));
  }

  lemma Row1(op: Operation)
    requires Operates(op)
    ensures Leads(op, MixF, Words(0xa5202774, 0x1b163203, 0xe7f06b23, 0xf59592dd), Words(0, 0, 0, 0),
                  Shifts(7, 12, 17, 22), Words(0xf57c0faf, 0x4787c62a, 0xa8304613, 0xfd469501),
                  Words(0x32033344, 0x9bc13ce9, 0xf5b158db, 0x2f35d494))
  {
    Taken(op, MixF, Words(0xa5202774, 0x1b163203, 0xe7f06b23, 0xf59592dd), Words(0, 0, 0, 0),
          Shifts(7, 12, 17, 22), Words(0xf57c0faf, 0x4787c62a, 0xa8304613, 0xfd469501),
          Words(0x32033344, 0x9bc13ce9, 0xf5b158db, 0x2f35d494));
  }

  lemma Row2(op: Operation)
    requires Operates(op)
    ensures Leads(op, MixF, Words(0x32033344, 0x9bc13ce9, 0xf5b158db, 0x2f35d494), Words(0, 0, 0, 0),
                  Shifts(7, 12, 17, 22), Words(0x698098d8, 0x8b44f7af, 0xffff5bb1, 0x895cd7be),
                  Words(0x3893b991, 0x70768a29, 0xe1ef0576, 0xfce4a312))
  {
    Taken(op, MixF, Words(0x32033344, 0x9bc13ce9, 0xf5b158db, 0x2f35d494), Words(0, 0, 0, 0),
          Shifts(7, 12, 17, 22), Words(0x698098d8, 0x8b44f7af, 0xffff5bb1, 0x895cd7be),
          Words(0x3893b991, 0x70768a29, 0xe1ef0576, 0xfce4a312));
  }

  lemma Row3(op: Operation)
    requires Operates(op)
    ensures Leads(op, MixF, Words(0x3893b991, 0x70768a29, 0xe1ef0576, 0xfce4a312), Words(0, 0, 0, 0),
                  Shifts(7, 12, 17, 22), Words(0x6b901122, 0xfd987193, 0xa679438e, 0x49b40821),
                  Words(0xf56c7cf1, 0xd6819c6a, 0x5aa53f75, 0x374943a7))
  {
    Taken(op, MixF, Words(0x3893b991, 0x70768a29, 0xe1ef0576, 0xfce4a312), Words(0, 0, 0, 0),
          Shifts(7, 12, 17, 22), Words(0x6b901122, 0xfd987193, 0xa679438e, 0x49b40821),
          Words(0xf56c7cf1, 0xd6819c6a, 0x5aa53f75, 0x374943a7));
  }

  lemma Row4(op: Operation)
    requires Operates(op)
    ensures Leads(op, MixG, Words(0xf56c7cf1, 0xd6819c6a, 0x5aa53f75, 0x374943a7), Words(0, 0, 0, 0x80),
                  Shifts(5, 9, 14, 20), Words(0xf61e2562, 0xc040b340, 0x265e5a51, 0xe9b6c7aa),
                  Words(0x1c7d7513, 0xbd782e17, 0xc095f13a, 0x7bd57a3a))
  {
    Taken(op, MixG, Words(0xf56c7cf1, 0xd6819c6a, 0x5aa53f75, 0x374943a7), Words(0, 0, 0, 0x80),
          Shifts(5, 9, 14, 20), Words(0xf61e2562, 0xc040b340, 0x265e5a51, 0xe9b6c7aa),
          Words(0x1c7d7513, 0xbd782e17, 0xc095f13a, 0x7bd57a3a));
  }

  lemma Row5(op: Operation)
    requires Operates(op)
    ensures Leads(op, MixG, Words(0x1c7d7513, 0xbd782e17, 0xc095f13a, 0x7bd57a3a), Words(0, 0, 0, 0),
                  Shifts(5, 9, 14, 20), Words(0xd62f105d, 0x02441453, 0xd8a1e681, 0xe7d3fbc8),
                  Words(0x3d1e3e6c, 0xe422531a, 0xeb41643e, 0x68b7b3e3))
  {
    Taken(op, MixG, Words(0x1c7d7513, 0xbd782e17, 0xc095f13a, 0x7bd57a3a), Words(0, 0, 0, 0),
          Shifts(5, 9, 14, 20), Words(0xd62f105d, 0x02441453, 0xd8a1e681, 0xe7d3fbc8),
          Words(0x3d1e3e6c, 0xe422531a, 0xeb41643e, 0x68b7b3e3));
  }

  lemma Row6(op: Operation)
    requires Operates(op)
    ensures Leads(op, MixG, Words(0x3d1e3e6c, 0xe422531a, 0xeb41643e, 0x68b7b3e3), Words(0, 0, 0, 0),
                  Shifts(5, 9, 14, 20), Words(0x21e1cde6, 0xc33707d6, 0xf4d50d87, 0x455a14ed),
                  Words(0x306ec122, 0xa0572807, 0xa3c663da, 0xd28c77c2))
  {
    Taken(op, MixG, Words(0x3d1e3e6c, 0xe422531a, 0xeb41643e, 0x68b7b3e3), Words(0, 0, 0, 0),
          Shifts(5, 9, 14, 20), Words(0x21e1cde6, 0xc33707d6, 0xf4d50d87, 0x455a14ed),
          Words(0x306ec122, 0xa0572807, 0xa3c663da, 0xd28c77c2));
  }

  lemma Row7(op: Operation)
    requires Operates(op)
    ensures Leads(op, MixG, Words(0x306ec122, 0xa0572807, 0xa3c663da, 0xd28c77c2), Words(0, 0, 0, 0),
                  Shifts(5, 9, 14, 20), Words(0xa9e3e905, 0xfcefa3f8, 0x676f02d9, 0x8d2a4c8a),
                  Words(0x13707036, 0xa2205f1f, 0x1c31c384, 0xae7813db))
  {
    Taken(op, MixG, Words(0x306ec122, 0xa0572807, 0xa3c663da, 0xd28c77c2), Words(0, 0, 0, 0),
          Shifts(5, 9, 14, 20), Words(0xa9e3e905, 0xfcefa3f8, 0x676f02d9, 0x8d2a4c8a),
          Words(0x13707036, 0xa2205f1f, 0x1c31c384, 0xae7813db));
  }

  lemma Row8(op: Operation)
    requires Operates(op)
    ensures Leads(op, MixH, Words(0x13707036, 0xa2205f1f, 0x1c31c384, 0xae7813db), Words(0, 0, 0, 0),
                  Shifts(4, 11, 16, 23), Words(0xfffa3942, 0x8771f681, 0x6d9d6122, 0xfde5380c),
                  Words(0xdf63eaa1, 0x004b6669, 0x12f3e755, 0xc3689f5b))
  {
    Taken(op, MixH, Words(0x13707036, 0xa2205f1f, 0x1c31c384, 0xae7813db), Words(0, 0, 0, 0),
          Shifts(4, 11, 16, 23), Words(0xfffa3942, 0x8771f681, 0x6d9d6122, 0xfde5380c),
          Words(0xdf63eaa1, 0x004b6669, 0x12f3e755, 0xc3689f5b));
  }

  lemma Row9(op: Operation)
    requires Operates(op)
    ensures Leads(op, MixH, Words(0xdf63eaa1, 0x004b6669, 0x12f3e755, 0xc3689f5b), Words(0, 0, 0, 0),
                  Shifts(4, 11, 16, 23), Words(0xa4beea44, 0x4bdecfa9, 0xf6bb4b60, 0xbebfbc70),
                  Words(0x5f7a9b2e, 0xc5dc8c15, 0x91ca4cb7, 0xabc34e16))
  {
    Taken(op, MixH, Words(0xdf63eaa1, 0x004b6669, 0x12f3e755, 0xc3689f5b), Words(0, 0, 0, 0),
          Shifts(4, 11, 16, 23), Words(0xa4beea44, 0x4bdecfa9, 0xf6bb4b60, 0xbebfbc70),
          Words(0x5f7a9b2e, 0xc5dc8c15, 0x91ca4cb7, 0xabc34e16));
  }

  lemma Row10(op: Operation)
    requires Operates(op)
    ensures Leads(op, MixH, Words(0x5f7a9b2e, 0xc5dc8c15, 0x91ca4cb7, 0xabc34e16), Words(0, 0x80, 0, 0),
                  Shifts(4, 11, 16, 23), Words(0x289b7ec6, 0xeaa127fa, 0xd4ef3085, 0x04881d05),
                  Words(0x4497169d, 0x0fe32453, 0xfd95f243, 0x76fd93d4))
  {
    Taken(op, MixH, Words(0x5f7a9b2e, 0xc5dc8c15, 0x91ca4cb7, 0xabc34e16), Words(0, 0x80, 0, 0),
          Shifts(4, 11, 16, 23), Words(0x289b7ec6, 0xeaa127fa, 0xd4ef3085, 0x04881d05),
          Words(0x4497169d, 0x0fe32453, 0xfd95f243, 0x76fd93d4));
  }

  lemma Row11(op: Operation)
    requires Operates(op)
    ensures Leads(op, MixH, Words(0x4497169d, 0x0fe32453, 0xfd95f243, 0x76fd93d4), Words(0, 0, 0, 0),
                  Shifts(4, 11, 16, 23), Words(0xd9d4d039, 0xe6db99e5, 0x1fa27cf8, 0xc4ac5665),
                  Words(0x3f55edfd, 0xca7d2dbd, 0x68d84ea2, 0x22a31f54))
  {
    Taken(op, MixH, Words(0x4497169d, 0x0fe32453, 0xfd95f243, 0x76fd93d4), Words(0, 0, 0, 0),
          Shifts(4, 11, 16, 23), Words(0xd9d4d039, 0xe6db99e5, 0x1fa27cf8, 0xc4ac5665),
          Words(0x3f55edfd, 0xca7d2dbd, 0x68d84ea2, 0x22a31f54));
  }

  lemma Row12(op: Operation)
    requires Operates(op)
    ensures Leads(op, MixI, Words(0x3f55edfd, 0xca7d2dbd, 0x68d84ea2, 0x22a31f54), Words(0x80, 0, 0, 0),
                  Shifts(6, 10, 15, 21), Words(0xf4292244, 0x432aff97, 0xab9423a7, 0xfc93a039),
                  Words(0x93aa2577, 0x561e0689, 0xcd85b8cb, 0x1688dc85))
  {
    Taken(op, MixI, Words(0x3f55edfd, 0xca7d2dbd, 0x68d84ea2, 0x22a31f54), Words(0x80, 0, 0, 0),
          Shifts(6, 10, 15, 21), Words(0xf4292244, 0x432aff97, 0xab9423a7, 0xfc93a039),
          Words(0x93aa2577, 0x561e0689, 0xcd85b8cb, 0x1688dc85));
  }

  lemma Row13(op: Operation)
    requires Operates(op)
    ensures Leads(op, MixI, Words(0x93aa2577, 0x561e0689, 0xcd85b8cb, 0x1688dc85), Words(0, 0, 0, 0),
                  Shifts(6, 10, 15, 21), Words(0x655b59c3, 0x8f0ccc92, 0xffeff47d, 0x85845dd1),
                  Words(0x5625a114, 0x1e77fa61, 0x392ad0d0, 0x3450f42b))
  {
    Taken(op, MixI, Words(0x93aa2577, 0x561e0689, 0xcd85b8cb, 0x1688dc85), Words(0, 0, 0, 0),
          Shifts(6, 10, 15, 21), Words(0x655b59c3, 0x8f0ccc92, 0xffeff47d, 0x85845dd1),
          Words(0x5625a114, 0x1e77fa61, 0x392ad0d0, 0x3450f42b));
  }

  lemma Row14(op: Operation)
    requires Operates(op)
    ensures Leads(op, MixI, Words(0x5625a114, 0x1e77fa61, 0x392ad0d0, 0x3450f42b), Words(0, 0, 0, 0),
                  Shifts(6, 10, 15, 21), Words(0x6fa87e4f, 0xfe2ce6e0, 0xa3014314, 0x4e0811a1),
                  Words(0x474a9c8c, 0x30130182, 0x36594b14, 0xdfce00bc))
  {
    Taken(op, MixI, Words(0x5625a114, 0x1e77fa61, 0x392ad0d0, 0x3450f42b), Words(0, 0, 0, 0),
          Shifts(6, 10, 15, 21), Words(0x6fa87e4f, 0xfe2ce6e0, 0xa3014314, 0x4e0811a1),
          Words(0x474a9c8c, 0x30130182, 0x36594b14, 0xdfce00bc));
  }

  lemma Row15(op: Operation)
    requires Operates(op)
    ensures Leads(op, MixI, Words(0x474a9c8c, 0x30130182, 0x36594b14, 0xdfce00bc), Words(0, 0, 0, 0),
                  Shifts(6, 10, 15, 21), Words(0xf7537e82, 0xbd3af235, 0x2ad7d2bb, 0xeb86d391),
                  Words(0x7246fad3, 0x14e45506, 0xff4ea3eb, 0x6e10a476))
  {
    Taken(op, MixI, Words(0x474a9c8c, 0x30130182, 0x36594b14, 0xdfce00bc), Words(0, 0, 0, 0),
          Shifts(6, 10, 15, 21), Words(0xf7537e82, 0xbd3af235, 0x2ad7d2bb, 0xeb86d391),
          Words(0x7246fad3, 0x14e45506, 0xff4ea3eb, 0x6e10a476));
  }

  lemma Rows2(op: Operation, x: seq<Word>)
    requires Operates(op) && EmptyBlock(x)
    ensures Rows(op, INITIAL, x, 2) == Words(0x32033344, 0x9bc13ce9, 0xf5b158db, 0x2f35d494)
  {
    assert Rows(op, INITIAL, x, 0) == INITIAL;
    Row0(op);
    assert Row(op, Words(0x67452301, 0xefcdab89, 0x98badcfe, 0x10325476), x, 0)
        == Words(0xa5202774, 0x1b163203, 0xe7f06b23, 0xf59592dd);
    Row1(op);
    assert Row(op, Words(0xa5202774, 0x1b163203, 0xe7f06b23, 0xf59592dd), x, 1)
        == Words(0x32033344, 0x9bc13ce9, 0xf5b158db, 0x2f35d494);
  }

  lemma Rows4(op: Operation, x: seq<Word>)
    requires Operates(op) && EmptyBlock(x)
    ensures Rows(op, INITIAL, x, 4) == Words(0xf56c7cf1, 0xd6819c6a, 0x5aa53f75, 0x374943a7)
  {
    Rows2(op, x);
    Row2(op);
    assert Row(op, Words(0x32033344, 0x9bc13ce9, 0xf5b158db, 0x2f35d494), x, 2)
        == Words(0x3893b991, 0x70768a29, 0xe1ef0576, 0xfce4a312);
    Row3(op);
    assert Row(op, Words(0x3893b991, 0x70768a29, 0xe1ef0576, 0xfce4a312), x, 3)
        == Words(0xf56c7cf1, 0xd6819c6a, 0x5aa53f75, 0x374943a7);
  }

  lemma Rows6(op: Operation, x: seq<Word>)
    requires Operates(op) && EmptyBlock(x)
    ensures Rows(op, INITIAL, x, 6) == Words(0x3d1e3e6c, 0xe422531a, 0xeb41643e, 0x68b7b3e3)
  {
    Rows4(op, x);
    Row4(op);
    assert Row(op, Words(0xf56c7cf1, 0xd6819c6a, 0x5aa53f75, 0x374943a7), x, 4)
        == Words(0x1c7d7513, 0xbd782e17, 0xc095f13a, 0x7bd57a3a);
    Row5(op);
    assert Row(op, Words(0x1c7d7513, 0xbd782e17, 0xc095f13a, 0x7bd57a3a), x, 5)
        == Words(0x3d1e3e6c, 0xe422531a, 0xeb41643e, 0x68b7b3e3);
  }

  lemma Rows8(op: Operation, x: seq<Word>)
    requires Operates(op) && EmptyBlock(x)
    ensures Rows(op, INITIAL, x, 8) == Words(0x13707036, 0xa2205f1f, 0x1c31c384, 0xae7813db)
  {
    Rows6(op, x);
    Row6(op);
    assert Row(op, Words(0x3d1e3e6c, 0xe422531a, 0xeb41643e, 0x68b7b3e3), x, 6)
        == Words(0x306ec122, 0xa0572807, 0xa3c663da, 0xd28c77c2);
    Row7(op);
    assert Row(op, Words(0x306ec122, 0xa0572807, 0xa3c663da, 0xd28c77c2), x, 7)
        == Words(0x13707036, 0xa2205f1f, 0x1c31c384, 0xae7813db);
  }

  lemma Rows10(op: Operation, x: seq<Word>)
    requires Operates(op) && EmptyBlock(x)
    ensures Rows(op, INITIAL, x, 10) == Words(0x5f7a9b2e, 0xc5dc8c15, 0x91ca4cb7, 0xabc34e16)
  {
    Rows8(op, x);
    Row8(op);
    assert Row(op, Words(0x13707036, 0xa2205f1f, 0x1c31c384, 0xae7813db), x, 8)
        == Words(0xdf63eaa1, 0x004b6669, 0x12f3e755, 0xc3689f5b);
    Row9(op);
    assert Row(op, Words(0xdf63eaa1, 0x004b6669, 0x12f3e755, 0xc3689f5b), x, 9)
        == Words(0x5f7a9b2e, 0xc5dc8c15, 0x91ca4cb7, 0xabc34e16);
  }

  lemma Rows12(op: Operation, x: seq<Word>)
    requires Operates(op) && EmptyBlock(x)
    ensures Rows(op, INITIAL, x, 12) == Words(0x3f55edfd, 0xca7d2dbd, 0x68d84ea2, 0x22a31f54)
  {
    Rows10(op, x);
    Row10(op);
    assert Row(op, Words(0x5f7a9b2e, 0xc5dc8c15, 0x91ca4cb7, 0xabc34e16), x, 10)
        == Words(0x4497169d, 0x0fe32453, 0xfd95f243, 0x76fd93d4);
    Row11(op);
    assert Row(op, Words(0x4497169d, 0x0fe32453, 0xfd95f243, 0x76fd93d4), x, 11)
        == Words(0x3f55edfd, 0xca7d2dbd, 0x68d84ea2, 0x22a31f54);
  }

  lemma Rows14(op: Operation, x: seq<Word>)
    requires Operates(op) && EmptyBlock(x)
    ensures Rows(op, INITIAL, x, 14) == Words(0x5625a114, 0x1e77fa61, 0x392ad0d0, 0x3450f42b)
  {
    Rows12(op, x);
    Row12(op);
    assert Row(op, Words(0x3f55edfd, 0xca7d2dbd, 0x68d84ea2, 0x22a31f54), x, 12)
        == Words(0x93aa2577, 0x561e0689, 0xcd85b8cb, 0x1688dc85);
    Row13(op);
    assert Row(op, Words(0x93aa2577, 0x561e0689, 0xcd85b8cb, 0x1688dc85), x, 13)
        == Words(0x5625a114, 0x1e77fa61, 0x392ad0d0, 0x3450f42b);
  }

  lemma Rows16(op: Operation, x: seq<Word>)
    requires Operates(op) && EmptyBlock(x)
    ensures Rows(op, INITIAL, x, 16) == Words(0x7246fad3, 0x14e45506, 0xff4ea3eb, 0x6e10a476)
  {
    Rows14(op, x);
    Row14(op);
    assert Row(op, Words(0x5625a114, 0x1e77fa61, 0x392ad0d0, 0x3450f42b), x, 14)
        == Words(0x474a9c8c, 0x30130182, 0x36594b14, 0xdfce00bc);
    Row15(op);
    assert Row(op, Words(0x474a9c8c, 0x30130182, 0x36594b14, 0xdfce00bc), x, 15)
        == Words(0x7246fad3, 0x14e45506, 0xff4ea3eb, 0x6e10a476);
  }

  lemma {:induction false} DecodeAt(b: seq<Byte>, n: nat, i: nat)
    requires |b| == 4 * n && i < n
    ensures Decode(b, n)[i] == DecodeWord(b[4 * i..4 * i + 4])
    decreases n
  {
    if i < n - 1 {
      DecodeAt(b[..|b| - 4], n - 1, i);
      assert b[..|b| - 4][4 * i..4 * i + 4] == b[4 * i..4 * i + 4];
    }
  }

  lemma EmptyPadded()
    ensures |Padded([])| == 64 && Padded([])[0] == 0x80 && forall i :: 1 <= i < 64 ==> Padded([])[i] == 0
  {
    assert PadLength(0) == 56 && BitCount(0) == [0, 0];
    assert [0, 0][..1] == [0] && [0][..0] == [];
    assert Encode([0]) == Encode([]) + EncodeWord(0);
    assert Encode([0, 0]) == Encode([0]) + EncodeWord(0);
  }

  lemma EmptyDecoded()
    ensures EmptyBlock(Decode(Padded([]), 16))
  {
    EmptyPadded();
    var m := Padded([]);
    forall i | 0 <= i < 16
      ensures Decode(m, 16)[i] == if i == 0 then 0x80 else 0
    {
      DecodeAt(m, 16, i);
      assert m[4 * i..4 * i + 4] == [m[4 * i], m[4 * i + 1], m[4 * i + 2], m[4 * i + 3]];
    }
  }

  lemma EmptyCompressed(op: Operation, m: seq<Byte>)
    requires Operates(op) && |m| == 64 && EmptyBlock(Decode(m, 16))
    ensures CompressionOf(op)(INITIAL, m) == Words(0xd98c1dd4, 0x04b2008f, 0x980980e9, 0x7e42f8ec)
  {
    Rows16(op, Decode(m, 16));
  }

  lemma OneBlock(f: Compression, m: seq<Byte>)
    requires |Padded(m)| == 64
    ensures DigestOf(f, m) == Encode(Listed(f(INITIAL, Padded(m))))
  {
    assert Padded(m)[0..64] == Padded(m);
    assert Fold(f, Padded(m), 0) == INITIAL;
  }

  lemma OperateOperates()
    ensures Operates(Operate)
  {
  }

  lemma EncodedWords(w: Words)
    ensures Encode(Listed(w)) == EncodeWord(w.a) + EncodeWord(w.b) + EncodeWord(w.c) + EncodeWord(w.d)
  {
    assert Listed(w) == [w.a] + [w.b] + [w.c] + [w.d];
    EncodeAppends([], w.a);
    EncodeAppends([w.a], w.b);
    EncodeAppends([w.a] + [w.b], w.c);
    EncodeAppends([w.a] + [w.b] + [w.c], w.d);
  }

  lemma WordBytes()
    ensures EncodeWord(0xd98c1dd4) == [0xd4, 0x1d, 0x8c, 0xd9] && EncodeWord(0x04b2008f) == [0x8f, 0x00, 0xb2, 0x04]
    ensures EncodeWord(0x980980e9) == [0xe9, 0x80, 0x09, 0x98] && EncodeWord(0x7e42f8ec) == [0xec, 0xf8, 0x42, 0x7e]
  {
  }

  lemma EmptyBytes(w: Words)
    requires w == Words(0xd98c1dd4, 0x04b2008f, 0x980980e9, 0x7e42f8ec)
    ensures Encode(Listed(w)) == [0xd4, 0x1d, 0x8c, 0xd9, 0x8f, 0x00, 0xb2, 0x04,
                                  0xe9, 0x80, 0x09, 0x98, 0xec, 0xf8, 0x42, 0x7e]
  {
    EncodedWords(w);
    WordBytes();
  }

  /** The digest of the empty message is d41d8cd98f00b204e9800998ecf8427e. */
  lemma EmptyDigest()
    ensures DigestOf(CompressionOf(Operate), [])
         == [0xd4, 0x1d, 0x8c, 0xd9, 0x8f, 0x00, 0xb2, 0x04,
             0xe9, 0x80, 0x09, 0x98, 0xec, 0xf8, 0x42, 0x7e]
  {
    OperateOperates();
    EmptyPadded();
    EmptyDecoded();
    EmptyCompressed(Operate, Padded([]));
    OneBlock(CompressionOf(Operate), []);
    EmptyBytes(Words(0xd98c1dd4, 0x04b2008f, 0x980980e9, 0x7e42f8ec));
  }
}
