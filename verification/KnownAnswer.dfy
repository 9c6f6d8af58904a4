/**
 The register as the sixteen-bit number the programs hold, its shift in arithmetic, and
 the checksum of the documented text by that arithmetic.
 */
module KnownAnswer {
  import opened Crc16

  // ----- The register as a number -----

  /** The sixteen bits of a number. */
  function Word(n: nat): (r: Bits)
    requires n < 65536
    ensures |r| == 16
  {
    Bits8(n / 256) + Bits8(n % 256)
  }

  lemma WordValue(n: nat)
    requires n < 65536
    ensures Value(Word(n)) == n
  {
    ByteValue(n / 256);
    ByteValue(n % 256);
    ValueSplit(Bits8(n / 256), Bits8(n % 256));
    assert Power2(8) == 256;
    hide Value, Bits8;
  }

  lemma HighBits(h: Byte)
    ensures Bits8(h)[0] == (h >= 128) && Bits8(h)[4] == (h / 8 % 2 == 1) && Bits8(h)[3] == (h / 16 % 2 == 1)
  {
  }

  lemma WordDigits(n: nat)
    requires n < 65536
    ensures (n / 256 >= 128 <==> n >= 32768) && n / 256 / 8 == n / 2048 && n % 256 / 16 % 2 == n / 16 % 2
  {
    var h, l := n / 256, n % 256;
    assert n == 256 * h + l;
    assert n / 16 == 16 * h + l / 16;
  }

  lemma WordBits(n: nat)
    requires n < 65536
    ensures Word(n)[0] <==> n >= 32768
    ensures Word(n)[4] <==> n / 2048 % 2 == 1
    ensures Word(n)[11] <==> n / 16 % 2 == 1
  {
    hide Bits8;
    HighBits(n / 256);
    HighBits(n % 256);
    WordDigits(n);
  }

  lemma Powers()
    ensures Power2(0) == 1 && Power2(5) == 32 && Power2(12) == 4096 && Power2(15) == 32768 && Power2(16) == 65536
  {
    assert Power2(14) == 16384 && Power2(15) == 2 * Power2(14) && Power2(16) == 2 * Power2(15);
  }

  /** A left shift doubles the number and drops what leaves sixteen bits. */
  lemma ShiftValue(x: Bits)
    requires |x| == 16
    ensures Value(x[1..] + [false]) == (2 * Value(x)) % 65536
    ensures 2 * Value(x) - Value(x[1..] + [false]) == if x[0] then 65536 else 0
  {
    Powers();
    EmptyValue();
    hide Value, Power2;
    assert x == [x[0]] + x[1..];
    ValueSplit([x[0]], x[1..]);
    ValueAppend(x[1..], false);
    assert [] + [x[0]] == [x[0]];
    ValueAppend([], x[0]);
  }

  lemma FlipValue(pre: Bits, x: bool, post: Bits)
    ensures Value(pre + [!x] + post) == Value(pre + [x] + post) + if x then -(Power2(|post|) as int) else Power2(|post|)
  {
    ValueSplit(pre + [x], post);
    ValueSplit(pre + [!x], post);
    ValueAppend(pre, x);
    ValueAppend(pre, !x);
    hide Value, Power2;
    assert (2 * Value(pre) + 1) * Power2(|post|) == 2 * Value(pre) * Power2(|post|) + Power2(|post|);
  }

  lemma FlipAt(y: Bits, i: nat)
    requires i < |y|
    ensures Value(y[i := !y[i]]) == Value(y) + if y[i] then -(Power2(|y| - i - 1) as int) else Power2(|y| - i - 1)
  {
    hide Value, Power2;
    FlipValue(y[..i], y[i], y[i + 1..]);
    assert y == y[..i] + [y[i]] + y[i + 1..];
    assert y[i := !y[i]] == y[..i] + [!y[i]] + y[i + 1..];
  }

  /** Exclusive or with 0x1021 flips bits 12, 5 and 0. */
  lemma PolyValue(y: Bits)
    requires |y| == 16
    ensures Value(Xor(y, POLY)) == Value(y) + (if y[3] then -4096 else 4096) + (if y[10] then -32 else 32) + (if y[15] then -1 else 1)
  {
    Powers();
    hide Value, Power2;
    var a := y[3 := !y[3]];
    var b := a[10 := !a[10]];
    var c := b[15 := !b[15]];
    assert Xor(y, POLY) == c;
    FlipAt(y, 3);
    FlipAt(a, 10);
    FlipAt(b, 15);
  }

  /** One step of the register, on the number it holds. */
  function Next(n: nat): (m: int)
  {
    if n < 32768 then 2 * n
    else 2 * n - 65536 + (if n / 2048 % 2 == 1 then -4096 else 4096) + (if n / 16 % 2 == 1 then -32 else 32) + 1
  }

  lemma ShiftIsNext(n: nat)
    requires n < 65536
    ensures 0 <= Next(n) < 65536 && Shift(Word(n)) == Word(Next(n))
  {
    var x := Word(n);
    WordValue(n);
    WordBits(n);
    ShiftValue(x);
    var y := x[1..] + [false];
    PolyValue(y);
    assert y[3] == x[4] && y[10] == x[11] && !y[15];
    hide Word, Value;
    WordRange(Shift(x));
    WordValue(Next(n));
    ValueInjective(Shift(x), Word(Next(n)));
  }

  lemma WordRange(x: Bits)
    requires |x| == 16
    ensures Value(x) < 65536
  {
    ValueSplit([], x);
    Powers();
  }

  // ----- The documented known answer -----

  lemma XorByte(n: nat, b: Byte, x: nat)
    requires n < 65536 && x < 65536 && n % 256 == x % 256 && Bits8(x / 256) == Xor(Bits8(n / 256), Bits8(b))
    ensures Xor(Word(n), Bits8(b) + Zeros(8)) == Word(x)
  {
    hide Bits8;
  }

  lemma TwoShifts(x: Bits, n: nat, m: nat, k: nat)
    requires n < 65536 && x == Word(n) && m == Next(n) && k == Next(m)
    ensures m < 65536 && k < 65536 && Shift(Shift(x)) == Word(k)
  {
    hide Word, Shift, Next;
    ShiftIsNext(n);
    ShiftIsNext(m);
  }

  lemma EightShifts(x: Bits)
    requires |x| == 16
    ensures Shifts(x, 8) == Shift(Shift(Shift(Shift(Shift(Shift(Shift(Shift(x))))))))
  {
    hide Shift;
    var y := Shift(Shift(Shift(Shift(x))));
    assert Shifts(x, 8) == Shifts(Shift(Shift(x)), 6);
    assert Shifts(Shift(Shift(x)), 6) == Shifts(y, 4);
    assert Shifts(y, 4) == Shifts(Shift(Shift(y)), 2);
    assert Shifts(Shift(Shift(y)), 2) == Shifts(Shift(Shift(Shift(Shift(y)))), 0);
  }

  /** One byte: the register's number before, then with the byte added and after each of the eight shifts. */
  lemma ByteStep(n: nat, b: Byte, m0: nat, m1: nat, m2: nat, m3: nat, m4: nat, m5: nat, m6: nat, m7: nat, m8: nat, data: seq<Byte>)
    requires n < 65536 && m0 < 65536
    requires m1 == Next(m0) && m2 == Next(m1) && m3 == Next(m2) && m4 == Next(m3)
    requires m5 == Next(m4) && m6 == Next(m5) && m7 == Next(m6) && m8 == Next(m7)
    requires n % 256 == m0 % 256 && Bits8(m0 / 256) == Xor(Bits8(n / 256), Bits8(b))
    ensures m8 < 65536 && Run(Word(n), [b] + data) == Run(Word(m8), data)
  {
    hide Word, Next, Bits8, Shift, Shifts;
    XorByte(n, b, m0);
    TwoShifts(Word(m0), m0, m1, m2);
    TwoShifts(Word(m2), m2, m3, m4);
    TwoShifts(Word(m4), m4, m5, m6);
    TwoShifts(Word(m6), m6, m7, m8);
    EightShifts(Word(m0));
    assert ([b] + data)[1..] == data;
  }

  lemma Answer1(data: seq<Byte>)
    ensures Run(Word(0), [49] + data) == Run(Word(9842), data)
  {
    AnswerBits1();
    AnswerShifts1();
    hide Next, Bits8;
    ByteStep(0, 49, 12544, 25088, 50176, 38945, 8291, 16582, 33164, 4921, 9842, data);
  }

  lemma AnswerBits1()
    ensures Bits8(12544 / 256) == Xor(Bits8(0 / 256), Bits8(49))
  {
  }

  lemma AnswerShifts1()
    ensures Next(12544) == 25088 && Next(25088) == 50176 && Next(50176) == 38945 && Next(38945) == 8291
    ensures Next(8291) == 16582 && Next(16582) == 33164 && Next(33164) == 4921 && Next(4921) == 9842
  {
  }

  lemma Answer2(data: seq<Byte>)
    ensures Run(Word(9842), [50] + data) == Run(Word(8373), data)
  {
    AnswerBits2();
    AnswerShifts2();
    hide Next, Bits8;
    ByteStep(9842, 50, 5234, 10468, 20936, 41872, 22273, 44546, 19493, 38986, 8373, data);
  }

  lemma AnswerBits2()
    ensures Bits8(5234 / 256) == Xor(Bits8(9842 / 256), Bits8(50))
  {
  }

  lemma AnswerShifts2()
    ensures Next(5234) == 10468 && Next(10468) == 20936 && Next(20936) == 41872 && Next(41872) == 22273
    ensures Next(22273) == 44546 && Next(44546) == 19493 && Next(19493) == 38986 && Next(38986) == 8373
  {
  }

  lemma Answer3(data: seq<Byte>)
    ensures Run(Word(8373), [51] + data) == Run(Word(38738), data)
  {
    AnswerBits3();
    AnswerShifts3();
    hide Next, Bits8;
    ByteStep(8373, 51, 5045, 10090, 20180, 40360, 11121, 22242, 44484, 19369, 38738, data);
  }

  lemma AnswerBits3()
    ensures Bits8(5045 / 256) == Xor(Bits8(8373 / 256), Bits8(51))
  {
  }

  lemma AnswerShifts3()
    ensures Next(5045) == 10090 && Next(10090) == 20180 && Next(20180) == 40360 && Next(40360) == 11121
    ensures Next(11121) == 22242 && Next(22242) == 44484 && Next(44484) == 19369 && Next(19369) == 38738
  {
  }

  lemma Answer4(data: seq<Byte>)
    ensures Run(Word(38738), [52] + data) == Run(Word(55177), data)
  {
    AnswerBits4();
    AnswerShifts4();
    hide Next, Bits8;
    ByteStep(38738, 52, 41810, 22149, 44298, 18997, 37994, 14581, 29162, 58324, 55177, data);
  }

  lemma AnswerBits4()
    ensures Bits8(41810 / 256) == Xor(Bits8(38738 / 256), Bits8(52))
  {
  }

  lemma AnswerShifts4()
    ensures Next(41810) == 22149 && Next(22149) == 44298 && Next(44298) == 18997 && Next(18997) == 37994
    ensures Next(37994) == 14581 && Next(14581) == 29162 && Next(29162) == 58324 && Next(58324) == 55177
  {
  }

  lemma Answer5(data: seq<Byte>)
    ensures Run(Word(55177), [53] + data) == Run(Word(21612), data)
  {
    AnswerBits5();
    AnswerShifts5();
    hide Next, Bits8;
    ByteStep(55177, 53, 57993, 54579, 47687, 25775, 51550, 33437, 5403, 10806, 21612, data);
  }

  lemma AnswerBits5()
    ensures Bits8(57993 / 256) == Xor(Bits8(55177 / 256), Bits8(53))
  {
  }

  lemma AnswerShifts5()
    ensures Next(57993) == 54579 && Next(54579) == 47687 && Next(47687) == 25775 && Next(25775) == 51550
    ensures Next(51550) == 33437 && Next(33437) == 5403 && Next(5403) == 10806 && Next(10806) == 21612
  {
  }

  lemma Answer6(data: seq<Byte>)
    ensures Run(Word(21612), [54] + data) == Run(Word(8420), data)
  {
    AnswerBits6();
    AnswerShifts6();
    hide Next, Bits8;
    ByteStep(21612, 54, 25196, 50392, 39313, 8963, 17926, 35852, 2105, 4210, 8420, data);
  }

  lemma AnswerBits6()
    ensures Bits8(25196 / 256) == Xor(Bits8(21612 / 256), Bits8(54))
  {
  }

  lemma AnswerShifts6()
    ensures Next(25196) == 50392 && Next(50392) == 39313 && Next(39313) == 8963 && Next(8963) == 17926
    ensures Next(17926) == 35852 && Next(35852) == 2105 && Next(2105) == 4210 && Next(4210) == 8420
  {
  }

  lemma Answer7(data: seq<Byte>)
    ensures Run(Word(8420), [55] + data) == Run(Word(34518), data)
  {
    AnswerBits7();
    AnswerShifts7();
    hide Next, Bits8;
    ByteStep(8420, 55, 6116, 12232, 24464, 48928, 28257, 56514, 43429, 17259, 34518, data);
  }

  lemma AnswerBits7()
    ensures Bits8(6116 / 256) == Xor(Bits8(8420 / 256), Bits8(55))
  {
  }

  lemma AnswerShifts7()
    ensures Next(6116) == 12232 && Next(12232) == 24464 && Next(24464) == 48928 && Next(48928) == 28257
    ensures Next(28257) == 56514 && Next(56514) == 43429 && Next(43429) == 17259 && Next(17259) == 34518
  {
  }

  lemma Answer8(data: seq<Byte>)
    ensures Run(Word(34518), [56] + data) == Run(Word(36885), data)
  {
    AnswerBits8();
    AnswerShifts8();
    hide Next, Bits8;
    ByteStep(34518, 56, 48854, 28045, 56090, 42517, 23563, 47126, 24589, 49178, 36885, data);
  }

  lemma AnswerBits8()
    ensures Bits8(48854 / 256) == Xor(Bits8(34518 / 256), Bits8(56))
  {
  }

  lemma AnswerShifts8()
    ensures Next(48854) == 28045 && Next(28045) == 56090 && Next(56090) == 42517 && Next(42517) == 23563
    ensures Next(23563) == 47126 && Next(47126) == 24589 && Next(24589) == 49178 && Next(49178) == 36885
  {
  }

  lemma Answer9(data: seq<Byte>)
    ensures Run(Word(36885), [57] + data) == Run(Word(12739), data)
  {
    AnswerBits9();
    AnswerShifts9();
    hide Next, Bits8;
    ByteStep(36885, 57, 43285, 16907, 33814, 6157, 12314, 24628, 49256, 37105, 12739, data);
  }

  lemma AnswerBits9()
    ensures Bits8(43285 / 256) == Xor(Bits8(36885 / 256), Bits8(57))
  {
  }

  lemma AnswerShifts9()
    ensures Next(43285) == 16907 && Next(16907) == 33814 && Next(33814) == 6157 && Next(6157) == 12314
    ensures Next(12314) == 24628 && Next(24628) == 49256 && Next(49256) == 37105 && Next(37105) == 12739
  {
  }

  /** The checksum of the text 123456789. */
  lemma KnownAnswer()
    ensures Value(Crc([49, 50, 51, 52, 53, 54, 55, 56, 57])) == 0x31C3
  {
    hide Word, Value, Run;
    assert Word(0) == Zeros(16) by { ZeroWord(); }
    assert [49, 50, 51, 52, 53, 54, 55, 56, 57] == [49] + [50, 51, 52, 53, 54, 55, 56, 57];
    Answer1([50, 51, 52, 53, 54, 55, 56, 57]);
    assert [50, 51, 52, 53, 54, 55, 56, 57] == [50] + [51, 52, 53, 54, 55, 56, 57];
    Answer2([51, 52, 53, 54, 55, 56, 57]);
    assert [51, 52, 53, 54, 55, 56, 57] == [51] + [52, 53, 54, 55, 56, 57];
    Answer3([52, 53, 54, 55, 56, 57]);
    assert [52, 53, 54, 55, 56, 57] == [52] + [53, 54, 55, 56, 57];
    Answer4([53, 54, 55, 56, 57]);
    assert [53, 54, 55, 56, 57] == [53] + [54, 55, 56, 57];
    Answer5([54, 55, 56, 57]);
    assert [54, 55, 56, 57] == [54] + [55, 56, 57];
    Answer6([55, 56, 57]);
    assert [55, 56, 57] == [55] + [56, 57];
    Answer7([56, 57]);
    assert [56, 57] == [56] + [57];
    Answer8([57]);
    assert [57] == [57] + [];
    Answer9([]);
    assert Run(Word(0x31C3), []) == Word(0x31C3) by { RunEmpty(Word(0x31C3)); }
    WordValue(0x31C3);
  }

  lemma ZeroWord()
    ensures Word(0) == Zeros(16)
  {
  }

  lemma RunEmpty(crc: Bits)
    requires |crc| == 16
    ensures Run(crc, []) == crc
  {
  }
}
