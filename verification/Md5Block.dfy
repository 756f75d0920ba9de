/**
 The MD5 compression function, section 3.4 of RFC 1321: the sixty-four steps written out with the registers
 taking turns, against the description of one step by its number.
 Words are the integers below 2^32; the operations on their bits are those of bit vectors.
 */
module Md5Block {
  const TWO_32: int := 0x1_0000_0000

  type Byte = x: int | 0 <= x < 256
  type Word = x: int | 0 <= x < 0x1_0000_0000

  datatype Words = Words(a: Word, b: Word, c: Word, d: Word)

  /** The mixing functions of the four rounds. */
  datatype Mix = MixF | MixG | MixH | MixI

  /** How far a word is rotated. */
  type Shift = s: bv6 | 0 < s < 32 witness 1

  /** Steps and rounds are described for any operation on the registers; MD5 uses `Operate`. */
  type Operation = (Mix, Word, Word, Word, Word, Word, Shift, Word) -> Word

  function F(x: bv32, y: bv32, z: bv32): bv32 {
    (x & y) | (!x & z)
  }

  function G(x: bv32, y: bv32, z: bv32): bv32 {
    (x & z) | (y & !z)
  }

  function H(x: bv32, y: bv32, z: bv32): bv32 {
    x ^ y ^ z
  }

  function I(x: bv32, y: bv32, z: bv32): bv32 {
    y ^ (x | !z)
  }

  function RotateLeft(x: bv32, n: Shift): bv32 {
    (x << n) | (x >> (32 - n))
  }

  function Mixed(mix: Mix, b: bv32, c: bv32, d: bv32): bv32 {
    match mix
    case MixF => F(b, c, d)
    case MixG => G(b, c, d)
    case MixH => H(b, c, d)
    case MixI => I(b, c, d)
  }

  /**
   What a step does to the register `a`: adds the mixed other registers, a message word and a constant,
   rotates, and adds `b`. All sums wrap around.
   */
  function Operate(mix: Mix, a: Word, b: Word, c: Word, d: Word, x: Word, s: Shift, ac: Word): Word {
    var sum := (a as bv32) + Mixed(mix, b as bv32, c as bv32, d as bv32) + (x as bv32) + (ac as bv32);
    (RotateLeft(sum, s) + (b as bv32)) as Word
  }

  // ----- One step by its number

  function MixOf(i: nat): Mix {
    if i < 16 then MixF else if i < 32 then MixG else if i < 48 then MixH else MixI
  }

  /** The message word that a step adds. */
  function Index(i: nat): nat {
    if i < 16 then i else if i < 32 then (5 * i + 1) % 16 else if i < 48 then (3 * i + 5) % 16 else 7 * i % 16
  }

  /** How far a step rotates. */
  function Amount(i: nat): Shift {
    var column := i % 4;
    if i < 16 then (if column == 0 then 7 else if column == 1 then 12 else if column == 2 then 17 else 22)
    else if i < 32 then (if column == 0 then 5 else if column == 1 then 9 else if column == 2 then 14 else 20)
    else if i < 48 then (if column == 0 then 4 else if column == 1 then 11 else if column == 2 then 16 else 23)
    else (if column == 0 then 6 else if column == 1 then 10 else if column == 2 then 15 else 21)
  }

  /** The constants of the steps. */
  function Constant(i: nat): Word
    requires i < 64
  {
    match i
    case 0 => 0xd76aa478
    case 1 => 0xe8c7b756
    case 2 => 0x242070db
    case 3 => 0xc1bdceee
    case 4 => 0xf57c0faf
    case 5 => 0x4787c62a
    case 6 => 0xa8304613
    case 7 => 0xfd469501
    case 8 => 0x698098d8
    case 9 => 0x8b44f7af
    case 10 => 0xffff5bb1
    case 11 => 0x895cd7be
    case 12 => 0x6b901122
    case 13 => 0xfd987193
    case 14 => 0xa679438e
    case 15 => 0x49b40821
    case 16 => 0xf61e2562
    case 17 => 0xc040b340
    case 18 => 0x265e5a51
    case 19 => 0xe9b6c7aa
    case 20 => 0xd62f105d
    case 21 => 0x02441453
    case 22 => 0xd8a1e681
    case 23 => 0xe7d3fbc8
    case 24 => 0x21e1cde6
    case 25 => 0xc33707d6
    case 26 => 0xf4d50d87
    case 27 => 0x455a14ed
    case 28 => 0xa9e3e905
    case 29 => 0xfcefa3f8
    case 30 => 0x676f02d9
    case 31 => 0x8d2a4c8a
    case 32 => 0xfffa3942
    case 33 => 0x8771f681
    case 34 => 0x6d9d6122
    case 35 => 0xfde5380c
    case 36 => 0xa4beea44
    case 37 => 0x4bdecfa9
    case 38 => 0xf6bb4b60
    case 39 => 0xbebfbc70
    case 40 => 0x289b7ec6
    case 41 => 0xeaa127fa
    case 42 => 0xd4ef3085
    case 43 => 0x04881d05
    case 44 => 0xd9d4d039
    case 45 => 0xe6db99e5
    case 46 => 0x1fa27cf8
    case 47 => 0xc4ac5665
    case 48 => 0xf4292244
    case 49 => 0x432aff97
    case 50 => 0xab9423a7
    case 51 => 0xfc93a039
    case 52 => 0x655b59c3
    case 53 => 0x8f0ccc92
    case 54 => 0xffeff47d
    case 55 => 0x85845dd1
    case 56 => 0x6fa87e4f
    case 57 => 0xfe2ce6e0
    case 58 => 0xa3014314
    case 59 => 0x4e0811a1
    case 60 => 0xf7537e82
    case 61 => 0xbd3af235
    case 62 => 0x2ad7d2bb
    case _ => 0xeb86d391
  }

  /** The registers move on by one place. */
  function Step(op: Operation, w: Words, x: seq<Word>, i: nat): Words
    requires |x| == 16 && i < 64
  {
    Words(w.d, op(MixOf(i), w.a, w.b, w.c, w.d, x[Index(i)], Amount(i), Constant(i)), w.b, w.c)
  }

  /** Four steps, after which the registers are back in their places. */
  function Row(op: Operation, w: Words, x: seq<Word>, k: nat): Words
    requires |x| == 16 && k < 16
  {
    Step(op, Step(op, Step(op, Step(op, w, x, 4 * k), x, 4 * k + 1), x, 4 * k + 2), x, 4 * k + 3)
  }

  /** The first `n` rows of steps. */
  function Rows(op: Operation, w: Words, x: seq<Word>, n: nat): Words
    requires |x| == 16 && n <= 16
  {
    if n == 0 then w else Row(op, Rows(op, w, x, n - 1), x, n - 1)
  }

  lemma FourRows(op: Operation, w: Words, x: seq<Word>, n: nat)
    requires |x| == 16 && n <= 12
    ensures Rows(op, w, x, n + 4)
         == Row(op, Row(op, Row(op, Row(op, Rows(op, w, x, n), x, n), x, n + 1), x, n + 2), x, n + 3)
  {
    OneRow(op, w, x, n);
    OneRow(op, w, x, n + 1);
    OneRow(op, w, x, n + 2);
    OneRow(op, w, x, n + 3);
  }

  lemma OneRow(op: Operation, w: Words, x: seq<Word>, n: nat)
    requires |x| == 16 && n < 16
    ensures Rows(op, w, x, n + 1) == Row(op, Rows(op, w, x, n), x, n)
  {
  }

  // ----- The steps written out

  method Round1(op: Operation, w: Words, x: seq<Word>, ghost start: Words) returns (r: Words)
    requires |x| == 16 && w == Rows(op, start, x, 0)
    ensures r == Rows(op, start, x, 4)
  {
    var a, b, c, d := w.a, w.b, w.c, w.d;
    a := op(MixF, a, b, c, d, x[0], 7, 0xd76aa478);
    d := op(MixF, d, a, b, c, x[1], 12, 0xe8c7b756);
    c := op(MixF, c, d, a, b, x[2], 17, 0x242070db);
    b := op(MixF, b, c, d, a, x[3], 22, 0xc1bdceee);
    var w1 := Words(a, b, c, d);
    assert w1 == Row(op, w, x, 0);
    a := op(MixF, a, b, c, d, x[4], 7, 0xf57c0faf);
    d := op(MixF, d, a, b, c, x[5], 12, 0x4787c62a);
    c := op(MixF, c, d, a, b, x[6], 17, 0xa8304613);
    b := op(MixF, b, c, d, a, x[7], 22, 0xfd469501);
    var w2 := Words(a, b, c, d);
    assert w2 == Row(op, w1, x, 1);
    a := op(MixF, a, b, c, d, x[8], 7, 0x698098d8);
    d := op(MixF, d, a, b, c, x[9], 12, 0x8b44f7af);
    c := op(MixF, c, d, a, b, x[10], 17, 0xffff5bb1);
    b := op(MixF, b, c, d, a, x[11], 22, 0x895cd7be);
    var w3 := Words(a, b, c, d);
    assert w3 == Row(op, w2, x, 2);
    a := op(MixF, a, b, c, d, x[12], 7, 0x6b901122);
    d := op(MixF, d, a, b, c, x[13], 12, 0xfd987193);
    c := op(MixF, c, d, a, b, x[14], 17, 0xa679438e);
    b := op(MixF, b, c, d, a, x[15], 22, 0x49b40821);
    var w4 := Words(a, b, c, d);
    assert w4 == Row(op, w3, x, 3);
    FourRows(op, start, x, 0);
    r := w4;
  }

  method Round2(op: Operation, w: Words, x: seq<Word>, ghost start: Words) returns (r: Words)
    requires |x| == 16 && w == Rows(op, start, x, 4)
    ensures r == Rows(op, start, x, 8)
  {
    var a, b, c, d := w.a, w.b, w.c, w.d;
    a := op(MixG, a, b, c, d, x[1], 5, 0xf61e2562);
    d := op(MixG, d, a, b, c, x[6], 9, 0xc040b340);
    c := op(MixG, c, d, a, b, x[11], 14, 0x265e5a51);
    b := op(MixG, b, c, d, a, x[0], 20, 0xe9b6c7aa);
    var w1 := Words(a, b, c, d);
    assert w1 == Row(op, w, x, 4);
    a := op(MixG, a, b, c, d, x[5], 5, 0xd62f105d);
    d := op(MixG, d, a, b, c, x[10], 9, 0x2441453);
    c := op(MixG, c, d, a, b, x[15], 14, 0xd8a1e681);
    b := op(MixG, b, c, d, a, x[4], 20, 0xe7d3fbc8);
    var w2 := Words(a, b, c, d);
    assert w2 == Row(op, w1, x, 5);
    a := op(MixG, a, b, c, d, x[9], 5, 0x21e1cde6);
    d := op(MixG, d, a, b, c, x[14], 9, 0xc33707d6);
    c := op(MixG, c, d, a, b, x[3], 14, 0xf4d50d87);
    b := op(MixG, b, c, d, a, x[8], 20, 0x455a14ed);
    var w3 := Words(a, b, c, d);
    assert w3 == Row(op, w2, x, 6);
    a := op(MixG, a, b, c, d, x[13], 5, 0xa9e3e905);
    d := op(MixG, d, a, b, c, x[2], 9, 0xfcefa3f8);
    c := op(MixG, c, d, a, b, x[7], 14, 0x676f02d9);
    b := op(MixG, b, c, d, a, x[12], 20, 0x8d2a4c8a);
    var w4 := Words(a, b, c, d);
    assert w4 == Row(op, w3, x, 7);
    FourRows(op, start, x, 4);
    r := w4;
  }

  method Round3(op: Operation, w: Words, x: seq<Word>, ghost start: Words) returns (r: Words)
    requires |x| == 16 && w == Rows(op, start, x, 8)
    ensures r == Rows(op, start, x, 12)
  {
    var a, b, c, d := w.a, w.b, w.c, w.d;
    a := op(MixH, a, b, c, d, x[5], 4, 0xfffa3942);
    d := op(MixH, d, a, b, c, x[8], 11, 0x8771f681);
    c := op(MixH, c, d, a, b, x[11], 16, 0x6d9d6122);
    b := op(MixH, b, c, d, a, x[14], 23, 0xfde5380c);
    var w1 := Words(a, b, c, d);
    assert w1 == Row(op, w, x, 8);
    a := op(MixH, a, b, c, d, x[1], 4, 0xa4beea44);
    d := op(MixH, d, a, b, c, x[4], 11, 0x4bdecfa9);
    c := op(MixH, c, d, a, b, x[7], 16, 0xf6bb4b60);
    b := op(MixH, b, c, d, a, x[10], 23, 0xbebfbc70);
    var w2 := Words(a, b, c, d);
    assert w2 == Row(op, w1, x, 9);
    a := op(MixH, a, b, c, d, x[13], 4, 0x289b7ec6);
    d := op(MixH, d, a, b, c, x[0], 11, 0xeaa127fa);
    c := op(MixH, c, d, a, b, x[3], 16, 0xd4ef3085);
    b := op(MixH, b, c, d, a, x[6], 23, 0x4881d05);
    var w3 := Words(a, b, c, d);
    assert w3 == Row(op, w2, x, 10);
    a := op(MixH, a, b, c, d, x[9], 4, 0xd9d4d039);
    d := op(MixH, d, a, b, c, x[12], 11, 0xe6db99e5);
    c := op(MixH, c, d, a, b, x[15], 16, 0x1fa27cf8);
    b := op(MixH, b, c, d, a, x[2], 23, 0xc4ac5665);
    var w4 := Words(a, b, c, d);
    assert w4 == Row(op, w3, x, 11);
    FourRows(op, start, x, 8);
    r := w4;
  }

  method Round4(op: Operation, w: Words, x: seq<Word>, ghost start: Words) returns (r: Words)
    requires |x| == 16 && w == Rows(op, start, x, 12)
    ensures r == Rows(op, start, x, 16)
  {
    var a, b, c, d := w.a, w.b, w.c, w.d;
    a := op(MixI, a, b, c, d, x[0], 6, 0xf4292244);
    d := op(MixI, d, a, b, c, x[7], 10, 0x432aff97);
    c := op(MixI, c, d, a, b, x[14], 15, 0xab9423a7);
    b := op(MixI, b, c, d, a, x[5], 21, 0xfc93a039);
    var w1 := Words(a, b, c, d);
    assert w1 == Row(op, w, x, 12);
    a := op(MixI, a, b, c, d, x[12], 6, 0x655b59c3);
    d := op(MixI, d, a, b, c, x[3], 10, 0x8f0ccc92);
    c := op(MixI, c, d, a, b, x[10], 15, 0xffeff47d);
    b := op(MixI, b, c, d, a, x[1], 21, 0x85845dd1);
    var w2 := Words(a, b, c, d);
    assert w2 == Row(op, w1, x, 13);
    a := op(MixI, a, b, c, d, x[8], 6, 0x6fa87e4f);
    d := op(MixI, d, a, b, c, x[15], 10, 0xfe2ce6e0);
    c := op(MixI, c, d, a, b, x[6], 15, 0xa3014314);
    b := op(MixI, b, c, d, a, x[13], 21, 0x4e0811a1);
    var w3 := Words(a, b, c, d);
    assert w3 == Row(op, w2, x, 14);
    a := op(MixI, a, b, c, d, x[4], 6, 0xf7537e82);
    d := op(MixI, d, a, b, c, x[11], 10, 0xbd3af235);
    c := op(MixI, c, d, a, b, x[2], 15, 0x2ad7d2bb);
    b := op(MixI, b, c, d, a, x[9], 21, 0xeb86d391);
    var w4 := Words(a, b, c, d);
    assert w4 == Row(op, w3, x, 15);
    FourRows(op, start, x, 12);
    r := w4;
  }

  // ----- Blocks

  /** The four bytes of a word, the lowest first. */
  function EncodeWord(w: Word): (r: seq<Byte>)
    ensures |r| == 4
  {
    [w % 0x100, w / 0x100 % 0x100, w / 0x100 / 0x100 % 0x100, w / 0x100 / 0x100 / 0x100 % 0x100]
  }

  /** A number whose lowest byte is `low`. */
  function Joined(low: int, high: int): int {
    low + 0x100 * high
  }

  lemma Split(low: int, high: int)
    requires 0 <= low < 0x100
    ensures Joined(low, high) % 0x100 == low && Joined(low, high) / 0x100 == high
  {
  }

  function DecodeWord(b: seq<Byte>): Word
    requires |b| == 4
  {
    Joined(b[0], Joined(b[1], Joined(b[2], b[3])))
  }

  function Encode(ws: seq<Word>): (r: seq<Byte>)
    ensures |r| == 4 * |ws|
  {
    if ws == [] then [] else Encode(ws[..|ws| - 1]) + EncodeWord(ws[|ws| - 1])
  }

  function Decode(b: seq<Byte>, n: nat): (r: seq<Word>)
    requires |b| == 4 * n
    ensures |r| == n
  {
    if n == 0 then [] else Decode(b[..|b| - 4], n - 1) + [DecodeWord(b[|b| - 4..])]
  }

  lemma {:induction false} DecodeInvertsEncode(ws: seq<Word>)
    ensures Decode(Encode(ws), |ws|) == ws
    decreases |ws|
  {
    if ws != [] {
      var n := |ws| - 1;
      DecodeInvertsEncode(ws[..n]);
      DecodeInvertsEncodeWord(ws[n]);
      DecodeAppends(Encode(ws[..n]), EncodeWord(ws[n]), n);
      assert ws == ws[..n] + [ws[n]];
    }
  }

  lemma DecodeAppends(b: seq<Byte>, word: seq<Byte>, n: nat)
    requires |b| == 4 * n && |word| == 4
    ensures Decode(b + word, n + 1) == Decode(b, n) + [DecodeWord(word)]
  {
    assert (b + word)[..|b|] == b && (b + word)[|b|..] == word;
  }

  lemma DecodeInvertsEncodeWord(w: Word)
    ensures DecodeWord(EncodeWord(w)) == w
  {
    var h := w / 0x100 / 0x100 / 0x100;
    assert h % 0x100 == h;
  }

  lemma EncodeAppends(ws: seq<Word>, w: Word)
    ensures Encode(ws + [w]) == Encode(ws) + EncodeWord(w)
  {
    assert (ws + [w])[..|ws|] == ws;
  }

  lemma {:induction false} EncodeInvertsDecode(b: seq<Byte>, n: nat)
    requires |b| == 4 * n
    ensures Encode(Decode(b, n)) == b
    decreases n
  {
    if n == 0 {
      return;
    }
    var front, word := b[..|b| - 4], b[|b| - 4..];
    EncodeInvertsDecode(front, n - 1);
    EncodeInvertsDecodeWord(word);
    EncodeAppends(Decode(front, n - 1), DecodeWord(word));
    assert b == front + word;
  }

  lemma EncodeInvertsDecodeWord(b: seq<Byte>)
    requires |b| == 4
    ensures EncodeWord(DecodeWord(b)) == b
  {
    Split(b[0], Joined(b[1], Joined(b[2], b[3])));
    Split(b[1], Joined(b[2], b[3]));
    Split(b[2], b[3]);
  }

  function Add(v: Words, w: Words): Words {
    Words((v.a + w.a) % TWO_32, (v.b + w.b) % TWO_32, (v.c + w.c) % TWO_32, (v.d + w.d) % TWO_32)
  }

  /** The compression of one block into the state. */
  function Compress(op: Operation, w: Words, block: seq<Byte>): Words
    requires |block| == 64
  {
    var x := Decode(block, 16);
    Add(w, Rows(op, w, x, |x|))
  }

  method DecodeInto(output: array<Word>, input: seq<Byte>)
    requires |input| == 4 * output.Length
    modifies output
    ensures output[..] == Decode(input, output.Length)
  {
    var i, j := 0, 0;
    while j < |input|
      invariant j == 4 * i && j <= |input|
      invariant output[..i] == Decode(input[..j], i)
    {
      var word := input[j..j + 4];
      output[i] := DecodeWord(word);
      DecodeAppends(input[..j], word, i);
      assert input[..j] + word == input[..j + 4];
      i, j := i + 1, j + 4;
    }
    assert input[..j] == input && output[..i] == output[..];
  }

  method EncodeInto(output: array<Byte>, input: seq<Word>)
    requires output.Length == 4 * |input|
    modifies output
    ensures output[..] == Encode(input)
  {
    var i, j := 0, 0;
    while j < output.Length
      invariant j == 4 * i && j <= output.Length
      invariant output[..j] == Encode(input[..i])
    {
      var bytes := EncodeWord(input[i]);
      output[j], output[j + 1], output[j + 2], output[j + 3] := bytes[0], bytes[1], bytes[2], bytes[3];
      EncodeAppends(input[..i], input[i]);
      assert input[..i + 1] == input[..i] + [input[i]];
      assert output[..j + 4] == output[..j] + bytes;
      i, j := i + 1, j + 4;
    }
    assert input[..i] == input && output[..j] == output[..];
  }

  method Transform(op: Operation, w: Words, block: seq<Byte>) returns (r: Words)
    requires |block| == 64
    ensures r == Compress(op, w, block)
  {
    var words := new Word[16];
    DecodeInto(words, block);
    var x := words[..];
    var w1 := Round1(op, w, x, w);
    var w2 := Round2(op, w1, x, w);
    var w3 := Round3(op, w2, x, w);
    var w4 := Round4(op, w3, x, w);
    r := Add(w, w4);
  }
}
