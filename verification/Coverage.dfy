/**
 Decimal texts reach every slot, so the token search can succeed for every legal bucket
 count. The checksums of digit strings of one length are an affine space; the relation
 x^16 = x^12 + x^5 + 1 alone shows that it is the whole space once strings are long enough.
 */
module Coverage {
  import opened Text
  import opened Crc16
  import opened Slots

  // ----- Powers of x modulo the generator -----

  function Pow(k: nat): (r: Bits)
    ensures |r| == 16
  {
    if k == 0 then Zeros(15) + [true] else Shift(Pow(k - 1))
  }

  lemma ShiftLinear(x: Bits, y: Bits)
    requires |x| == |y| == 16
    ensures Shift(Xor(x, y)) == Xor(Shift(x), Shift(y))
  {
  }

  lemma XorSame(x: Bits)
    ensures Xor(x, x) == Zeros(|x|) && Xor(x, Zeros(|x|)) == x
  {
  }

  lemma XorAssoc(x: Bits, y: Bits, z: Bits)
    requires |x| == |y| == |z|
    ensures Xor(Xor(x, y), z) == Xor(x, Xor(y, z)) && Xor(x, y) == Xor(y, x)
  {
  }

  /** The small powers are the single bits. */
  lemma {:induction false} PowIsUnit(k: nat)
    requires k < 16
    ensures forall i :: 0 <= i < 16 ==> (Pow(k)[i] <==> i == 15 - k)
  {
    if k > 0 {
      PowIsUnit(k - 1);
      hide Pow;
      assert !Pow(k - 1)[0];
      assert Pow(k) == Shift(Pow(k - 1)) by { PowNext(k - 1); }
    }
  }

  lemma PowNext(k: nat)
    ensures Pow(k + 1) == Shift(Pow(k))
  {
  }

  /** x^16 = x^12 + x^5 + 1, carried along by shifting. */
  lemma {:induction false} Relation(k: nat)
    ensures Xor(Pow(k + 16), Pow(k)) == Xor(Pow(k + 12), Pow(k + 5))
  {
    hide Shift, Pow;
    if k == 0 {
      PowNext(15);
      PowIsUnit(15);
      PowIsUnit(12);
      PowIsUnit(5);
      PowIsUnit(0);
      ShiftTop(Pow(15));
      assert Xor(POLY, Pow(0)) == Xor(Pow(12), Pow(5));
    } else {
      Relation(k - 1);
      PowNext(k - 1);
      PowNext(k + 4);
      PowNext(k + 11);
      PowNext(k + 15);
      ShiftLinear(Pow(k + 15), Pow(k - 1));
      ShiftLinear(Pow(k + 11), Pow(k + 4));
    }
  }

  lemma ShiftTop(x: Bits)
    requires |x| == 16 && forall i :: 0 <= i < 16 ==> (x[i] <==> i == 0)
    ensures Shift(x) == POLY
  {
    assert x[1..] + [false] == Zeros(16);
  }

  lemma {:induction false} ShiftsPow(k: nat, n: nat)
    ensures Shifts(Pow(k), n) == Pow(k + n)
    decreases n
  {
    if n > 0 {
      hide Shift;
      PowNext(k);
      ShiftsPow(k + 1, n - 1);
    }
  }

  // ----- Checksums of strings of octal digits -----

  /** A difference of two texts of octal digits: three free bits in each byte. */
  predicate IsOctal(data: seq<Byte>) {
    forall i :: 0 <= i < |data| ==> data[i] < 8
  }

  function XorDigit(a: Byte, b: Byte): (r: Byte)
    requires a < 8 && b < 8
    ensures r < 8
  {
    (if a / 4 % 2 != b / 4 % 2 then 4 else 0) + (if a / 2 % 2 != b / 2 % 2 then 2 else 0)
    + if a % 2 != b % 2 then 1 else 0
  }

  lemma SmallBits(b: Byte)
    requires b < 8
    ensures Bits8(b) == [false, false, false, false, false, b / 4 % 2 == 1, b / 2 % 2 == 1, b % 2 == 1]
  {
    assert b / 128 == 0 && b / 64 == 0 && b / 32 == 0 && b / 16 == 0 && b / 8 == 0;
  }

  lemma XorDigitBits(a: Byte, b: Byte)
    requires a < 8 && b < 8
    ensures Bits8(XorDigit(a, b)) == Xor(Bits8(a), Bits8(b))
  {
    var c := XorDigit(a, b);
    SmallBits(a);
    SmallBits(b);
    SmallBits(c);
    XorDigitParts(a, b);
    hide Bits8, XorDigit;
  }

  lemma XorDigitParts(a: Byte, b: Byte)
    requires a < 8 && b < 8
    ensures var c := XorDigit(a, b);
            && (c / 4 % 2 == 1 <==> a / 4 % 2 != b / 4 % 2)
            && (c / 2 % 2 == 1 <==> a / 2 % 2 != b / 2 % 2)
            && (c % 2 == 1 <==> a % 2 != b % 2)
  {
  }

  function XorDigits(a: seq<Byte>, b: seq<Byte>): (r: seq<Byte>)
    requires |a| == |b| && IsOctal(a) && IsOctal(b)
    ensures |r| == |a| && IsOctal(r)
  {
    if a == [] then [] else [XorDigit(a[0], b[0])] + XorDigits(a[1..], b[1..])
  }

  lemma {:induction false} XorDigitsMessage(a: seq<Byte>, b: seq<Byte>)
    requires |a| == |b| && IsOctal(a) && IsOctal(b)
    ensures Message(XorDigits(a, b)) == Xor(Message(a), Message(b))
  {
    if a != [] {
      hide Bits8, XorDigit;
      XorDigitBits(a[0], b[0]);
      XorDigitsMessage(a[1..], b[1..]);
      XorConcat(Bits8(a[0]), Message(a[1..]), Bits8(b[0]), Message(b[1..]));
      var c := XorDigits(a, b);
      assert c[0] == XorDigit(a[0], b[0]) && c[1..] == XorDigits(a[1..], b[1..]);
    }
  }

  lemma XorConcat(a: Bits, x: Bits, b: Bits, y: Bits)
    requires |a| == |b| && |x| == |y|
    ensures Xor(a + x, b + y) == Xor(a, b) + Xor(x, y)
  {
  }

  /** Some string of n octal digits has the checksum w. */
  ghost predicate Hits(w: Bits, n: nat) {
    exists d :: HitBy(w, n, d)
  }

  ghost predicate HitBy(w: Bits, n: nat, d: seq<Byte>) {
    |d| == n && IsOctal(d) && Crc(d) == w
  }

  lemma HitsXor(v: Bits, w: Bits, n: nat)
    requires Hits(v, n) && Hits(w, n)
    ensures |v| == |w| == 16 && Hits(Xor(v, w), n)
  {
    hide Crc;
    var a :| HitBy(v, n, a);
    var b :| HitBy(w, n, b);
    XorDigitsMessage(a, b);
    CrcLinear(a, b, XorDigits(a, b));
    assert HitBy(Xor(v, w), n, XorDigits(a, b));
  }

  lemma {:induction false} ShiftsZeros(n: nat)
    ensures Shifts(Zeros(16), n) == Zeros(16)
    decreases n
  {
    if n > 0 {
      assert Shift(Zeros(16)) == Zeros(16);
      ShiftsZeros(n - 1);
    }
  }

  /** A leading zero byte changes nothing, so longer strings hit all that shorter ones do. */
  lemma HitsLonger(w: Bits, n: nat)
    requires Hits(w, n)
    ensures Hits(w, n + 1)
  {
    var d :| HitBy(w, n, d);
    var e := [0] + d;
    assert e[1..] == d;
    assert Xor(Zeros(16), Bits8(0) + Zeros(8)) == Zeros(16);
    ShiftsZeros(8);
    hide Shifts;
    assert AddByte(Zeros(16), 0) == Zeros(16);
    hide AddByte;
    assert Crc(e) == Crc(d);
    assert HitBy(w, n + 1, e);
  }

  lemma {:induction false} HitsMuchLonger(w: Bits, n: nat, m: nat)
    requires Hits(w, n) && n <= m
    ensures Hits(w, m)
    decreases m - n
  {
    hide Hits;
    if n < m {
      HitsLonger(w, n);
      HitsMuchLonger(w, n + 1, m);
    }
  }

  lemma {:induction false} RunAppend(crc: Bits, data: seq<Byte>, byte: Byte)
    requires |crc| == 16
    ensures Run(crc, data + [byte]) == AddByte(Run(crc, data), byte)
    decreases data
  {
    hide AddByte;
    if data != [] {
      assert (data + [byte])[1..] == data[1..] + [byte];
      RunAppend(AddByte(crc, data[0]), data[1..], byte);
    } else {
      assert ([] + [byte])[1..] == [];
    }
  }

  /** A trailing zero byte multiplies by x^8. */
  lemma HitsShifted(k: nat, n: nat)
    requires Hits(Pow(k), n)
    ensures Hits(Pow(k + 8), n + 1)
  {
    hide Pow, Shifts;
    var d :| HitBy(Pow(k), n, d);
    RunAppend(Zeros(16), d, 0);
    assert Xor(Pow(k), Bits8(0) + Zeros(8)) == Pow(k);
    ShiftsPow(k, 8);
    assert HitBy(Pow(k + 8), n + 1, d + [0]);
  }

  /** The byte whose only bit is bit j. */
  function BitByte(j: nat): (b: Byte)
    requires j < 3
    ensures b < 8
  {
    if j == 0 then 1 else if j == 1 then 2 else 4
  }

  lemma BytePower(j: nat)
    requires j < 3
    ensures Bits8(BitByte(j)) + Zeros(8) == Pow(8 + j)
  {
    SmallBits(BitByte(j));
    hide Bits8, Pow;
    PowIsUnit(8 + j);
  }

  lemma FirstByte(j: nat)
    requires j < 3
    ensures AddByte(Zeros(16), BitByte(j)) == Pow(16 + j)
  {
    BytePower(j);
    ShiftsPow(8 + j, 8);
    hide Pow, Shifts, Bits8, BitByte;
    assert Xor(Zeros(16), Pow(8 + j)) == Pow(8 + j);
  }

  lemma OneDigit(j: nat)
    requires j < 3
    ensures Hits(Pow(16 + j), 1)
  {
    hide Pow, AddByte, Crc;
    FirstByte(j);
    OneByte(BitByte(j));
    assert HitBy(Pow(16 + j), 1, [BitByte(j)]);
  }

  lemma OneByte(byte: Byte)
    ensures Crc([byte]) == AddByte(Zeros(16), byte)
  {
    hide AddByte;
    assert [byte][1..] == [];
    assert Run(Zeros(16), [byte]) == Run(AddByte(Zeros(16), byte), []);
  }

  // ----- Every power is a checksum of such a string -----

  ghost predicate Spanned(w: Bits) {
    exists n :: Hits(w, n)
  }

  lemma SpannedXor(v: Bits, w: Bits)
    requires Spanned(v) && Spanned(w)
    ensures |v| == |w| == 16 && Spanned(Xor(v, w))
  {
    hide Hits;
    var n :| Hits(v, n);
    var m :| Hits(w, m);
    var most := if n < m then m else n;
    HitsMuchLonger(v, n, most);
    HitsMuchLonger(w, m, most);
    HitsXor(v, w, most);
  }

  /** Words that differ by a checksum. */
  ghost predicate Near(v: Bits, w: Bits)
    requires |v| == |w|
  {
    Spanned(Xor(v, w))
  }

  lemma NearSpanned(v: Bits, w: Bits)
    requires |v| == |w| == 16 && Near(v, w)
    ensures Spanned(v) <==> Spanned(w)
    ensures Near(w, v)
  {
    hide Spanned;
    XorAssoc(v, w, w);
    XorAssoc(w, v, v);
    XorSame(v);
    XorSame(w);
    if Spanned(w) {
      SpannedXor(Xor(v, w), w);
    }
    if Spanned(v) {
      SpannedXor(Xor(v, w), v);
    }
  }

  lemma NearTrans(u: Bits, v: Bits, w: Bits)
    requires |u| == |v| == |w| == 16 && Near(u, v) && Near(v, w)
    ensures Near(u, w)
  {
    hide Spanned;
    SpannedXor(Xor(u, v), Xor(v, w));
    assert Xor(Xor(u, v), Xor(v, w)) == Xor(u, w);
  }

  lemma BothSpanned(v: Bits, w: Bits)
    requires Spanned(v) && Spanned(w)
    ensures |v| == |w| == 16 && Near(v, w)
  {
    SpannedXor(v, w);
  }

  /** Shifting by sixteen and the two middle powers move together. */
  lemma NearRelation(k: nat)
    ensures Near(Pow(k + 16), Pow(k)) <==> Near(Pow(k + 12), Pow(k + 5))
  {
    hide Pow, Spanned;
    Relation(k);
  }

  lemma {:induction false} FreeBitsAt(k: nat) returns (n: nat)
    requires k >= 16 && k % 8 < 3
    ensures Hits(Pow(k), n)
  {
    hide Pow, Hits;
    if k < 24 {
      OneDigit(k - 16);
      n := 1;
    } else {
      n := FreeBitsAt(k - 8);
      HitsShifted(k - 8, n);
      n := n + 1;
    }
  }

  /** The three free bits of each digit. */
  lemma FreeBits(k: nat)
    requires k >= 16 && k % 8 < 3
    ensures Spanned(Pow(k))
  {
    hide Pow, Hits;
    var n := FreeBitsAt(k);
  }

  /** The residue of one middle power, from the spanned ones around it. */
  lemma Middle(k: nat)
    requires Spanned(Pow(k)) && Spanned(Pow(k + 16))
    ensures Near(Pow(k + 12), Pow(k + 5))
  {
    hide Pow, Spanned;
    BothSpanned(Pow(k + 16), Pow(k));
    NearRelation(k);
  }

  lemma Outer(k: nat)
    requires Spanned(Pow(k + 12)) && Spanned(Pow(k + 5))
    ensures Near(Pow(k + 16), Pow(k))
  {
    hide Pow, Spanned;
    BothSpanned(Pow(k + 12), Pow(k + 5));
    NearRelation(k);
  }

  lemma Residue3(k: nat)
    requires k >= 27 && k % 8 == 3
    ensures Spanned(Pow(k))
  {
    hide Pow, Spanned, Near;
    var m := k - 5;
    FreeBits(m - 5);
    FreeBits(m + 11);
    FreeBits(m + 27);
    Middle(m - 5);
    Middle(m + 11);
    FreeBits(m + 19);
    FreeBits(m + 12);
    Outer(m + 7);
    NearSpanned(Pow(m + 7), Pow(m));
    NearTrans(Pow(m + 23), Pow(m + 7), Pow(m));
    NearSpanned(Pow(m + 23), Pow(m + 16));
    NearTrans(Pow(m + 16), Pow(m + 23), Pow(m));
    NearRelation(m);
    NearSpanned(Pow(m + 12), Pow(m + 5));
  }

  lemma Residue7(k: nat)
    requires k >= 39 && k % 8 == 7
    ensures Spanned(Pow(k))
  {
    hide Pow, Spanned, Near;
    Residue3(k - 12);
    Residue3(k + 4);
    Middle(k - 12);
    FreeBits(k - 7);
    NearSpanned(Pow(k), Pow(k - 7));
  }

  lemma Residue6(k: nat)
    requires k >= 46 && k % 8 == 6
    ensures Spanned(Pow(k))
  {
    hide Pow, Spanned, Near;
    FreeBits(k - 12);
    FreeBits(k + 4);
    Middle(k - 12);
    Residue7(k - 7);
    NearSpanned(Pow(k), Pow(k - 7));
  }

  lemma Residue5(k: nat)
    requires k >= 53 && k % 8 == 5
    ensures Spanned(Pow(k))
  {
    hide Pow, Spanned, Near;
    FreeBits(k - 12);
    FreeBits(k + 4);
    Middle(k - 12);
    Residue6(k - 7);
    NearSpanned(Pow(k), Pow(k - 7));
  }

  lemma Residue4(k: nat)
    requires k >= 60 && k % 8 == 4
    ensures Spanned(Pow(k))
  {
    hide Pow, Spanned, Near;
    FreeBits(k - 12);
    FreeBits(k + 4);
    Middle(k - 12);
    Residue5(k - 7);
    NearSpanned(Pow(k), Pow(k - 7));
  }

  /** The relation read backwards brings every power down from the large ones. */
  lemma {:induction false} EveryPower(k: nat)
    ensures Spanned(Pow(k))
    decreases if k < 60 then 60 - k else 0
  {
    hide Pow, Spanned, Near;
    if k < 60 {
      EveryPower(k + 16);
      EveryPower(k + 12);
      EveryPower(k + 5);
      Outer(k);
      NearSpanned(Pow(k + 16), Pow(k));
    } else {
      match k % 8 {
        case 3 => Residue3(k);
        case 4 => Residue4(k);
        case 5 => Residue5(k);
        case 6 => Residue6(k);
        case 7 => Residue7(k);
        case _ => FreeBits(k);
      }
    }
  }

  // ----- One length for all words -----

  lemma {:induction false} UnitsHit(m: nat) returns (n: nat)
    requires m <= 16
    ensures forall k :: 0 <= k < m ==> Hits(Pow(k), n)
  {
    hide Pow, Hits;
    n := 0;
    if m > 0 {
      var below := UnitsHit(m - 1);
      EveryPower(m - 1);
      var own :| Hits(Pow(m - 1), own);
      n := if below < own then own else below;
      HitsMuchLonger(Pow(m - 1), own, n);
      forall k | 0 <= k < m
        ensures Hits(Pow(k), n)
      {
        if k < m - 1 {
          HitsMuchLonger(Pow(k), below, n);
        }
      }
    }
  }

  lemma ZeroHits(n: nat)
    requires Hits(Pow(0), n)
    ensures Hits(Zeros(16), n)
  {
    hide Pow, Hits;
    HitsXor(Pow(0), Pow(0), n);
    XorSame(Pow(0));
  }

  /** A word is the sum of its bits. */
  lemma {:induction false} WordHits(w: Bits, m: nat, n: nat)
    requires |w| == 16 && m <= 16 && forall i :: 0 <= i < 16 - m ==> !w[i]
    requires forall k :: 0 <= k < 16 ==> Hits(Pow(k), n)
    ensures Hits(w, n)
    decreases m
  {
    hide Pow, Hits;
    if m == 0 {
      assert w == Zeros(16);
      ZeroHits(n);
    } else if w[16 - m] {
      PowIsUnit(m - 1);
      var rest := Xor(w, Pow(m - 1));
      WordHits(rest, m - 1, n);
      HitsXor(rest, Pow(m - 1), n);
      assert Xor(rest, Pow(m - 1)) == w;
    } else {
      WordHits(w, m - 1, n);
    }
  }

  // ----- Decimal texts -----

  /** The number whose text is 1 and then the digits. */
  function Number(d: seq<Byte>): (k: nat)
    requires IsOctal(d)
    ensures k >= 1
  {
    if d == [] then 1 else 10 * Number(d[..|d| - 1]) + d[|d| - 1]
  }

  /** The bytes of that text. */
  function Ascii(d: seq<Byte>): (r: seq<Byte>)
    requires IsOctal(d)
    ensures |r| == |d|
  {
    if d == [] then [] else [48 + d[0]] + Ascii(d[1..])
  }

  lemma {:induction false} Utf8Append(s: string, c: char)
    requires IsDigit(c)
    ensures Utf8(s + [c]) == Utf8(s) + [c as int]
  {
    hide Utf8Char;
    assert Utf8Char(c) == [c as int] by { DigitByte(c); }
    if s == "" {
      assert "" + [c] == [c] && [c][1..] == "";
      assert Utf8([c]) == Utf8Char(c) + Utf8("");
    } else {
      assert (s + [c])[1..] == s[1..] + [c];
      Utf8Append(s[1..], c);
    }
  }

  lemma DigitByte(c: char)
    requires IsDigit(c)
    ensures Utf8Char(c) == [c as int]
  {
  }

  lemma {:induction false} AsciiAppend(d: seq<Byte>, b: Byte)
    requires IsOctal(d + [b]) && IsOctal(d) && b < 8
    ensures Ascii(d + [b]) == Ascii(d) + [48 + b]
  {
    if d != [] {
      assert (d + [b])[1..] == d[1..] + [b];
      AsciiAppend(d[1..], b);
    }
  }

  lemma {:induction false} NumberText(d: seq<Byte>)
    requires IsOctal(d)
    ensures Utf8(Decimal(Number(d))) == [49] + Ascii(d)
  {
    if d == [] {
      assert Decimal(1) == "1" && Utf8("1"[1..]) == [];
    } else {
      var init, b := d[..|d| - 1], d[|d| - 1];
      NumberText(init);
      assert d == init + [b];
      AsciiAppend(init, b);
      var m := Number(init);
      assert Decimal(10 * m + b) == Decimal(m) + [Digit(b)] by { DecimalAppend(m, b); }
      Utf8Append(Decimal(m), Digit(b));
      assert [49] + Ascii(init) + [48 + b] == [49] + (Ascii(init) + [48 + b]);
    }
  }

  lemma DecimalAppend(m: nat, b: nat)
    requires m >= 1 && b < 10
    ensures Decimal(10 * m + b) == Decimal(m) + [Digit(b)]
  {
    assert (10 * m + b) / 10 == m && (10 * m + b) % 10 == b;
  }

  lemma AsciiDigitBits(b: Byte)
    requires b < 8
    ensures Bits8(48 + b) == [false, false, true, true, false, b / 4 % 2 == 1, b / 2 % 2 == 1, b % 2 == 1]
  {
    assert (48 + b) / 128 == 0 && (48 + b) / 64 == 0 && (48 + b) / 32 == 1 && (48 + b) / 16 == 3 && (48 + b) / 8 == 6;
    assert (48 + b) / 4 == 12 + b / 4 && (48 + b) / 2 == 24 + b / 2;
  }

  lemma AsciiBits(b: Byte)
    requires b < 8
    ensures Bits8(48 + b) == Xor(Bits8(48), Bits8(b))
  {
    SmallBits(b);
    AsciiDigitBits(b);
    hide Bits8;
    assert 48 + 0 == 48;
    AsciiDigitBits(0);
  }

  function Blank(n: nat): (d: seq<Byte>)
    ensures |d| == n && IsOctal(d) && forall i :: 0 <= i < n ==> d[i] == 0
  {
    seq(n, _ => 0)
  }

  lemma {:induction false} AsciiMessage(d: seq<Byte>)
    requires IsOctal(d)
    ensures Message(Ascii(d)) == Xor(Message(Ascii(Blank(|d|))), Message(d))
  {
    if d != [] {
      hide Bits8;
      var zero := Blank(|d|);
      assert zero[1..] == Blank(|d| - 1);
      AsciiBits(d[0]);
      AsciiMessage(d[1..]);
      XorConcat(Bits8(48), Message(Ascii(zero[1..])), Bits8(d[0]), Message(d[1..]));
      assert Ascii(d)[1..] == Ascii(d[1..]) && Ascii(zero)[1..] == Ascii(zero[1..]);
    }
  }

  lemma MessageCons(b: Byte, rest: seq<Byte>)
    ensures Message([b] + rest) == Bits8(b) + Message(rest)
  {
    hide Bits8;
    assert ([b] + rest)[1..] == rest;
  }

  lemma XorZeroByte(b: Byte)
    ensures Xor(Bits8(b), Bits8(0)) == Bits8(b)
  {
    assert Bits8(0) == Zeros(8);
    hide Bits8;
    XorSame(Bits8(b));
  }

  lemma TextMessage(d: seq<Byte>)
    requires IsOctal(d)
    ensures Message([49] + Ascii(d)) == Xor(Message([49] + Ascii(Blank(|d|))), Message([0] + d))
  {
    hide Bits8, Message, Ascii, Blank, Xor;
    AsciiMessage(d);
    XorZeroByte(49);
    MessageCons(49, Ascii(d));
    MessageCons(49, Ascii(Blank(|d|)));
    MessageCons(0, d);
    XorConcat(Bits8(49), Message(Ascii(Blank(|d|))), Bits8(0), Message(d));
  }

  /** The text's checksum is that of the blank text plus that of the digits. */
  lemma TextCrc(d: seq<Byte>)
    requires IsOctal(d)
    ensures Crc([49] + Ascii(d)) == Xor(Crc([49] + Ascii(Blank(|d|))), Crc(d))
  {
    hide Crc, Message, Ascii, Blank, Xor;
    TextMessage(d);
    CrcLinear([49] + Ascii(Blank(|d|)), [0] + d, [49] + Ascii(d));
    LeadingZero(d);
  }

  lemma LeadingZero(d: seq<Byte>)
    ensures Crc([0] + d) == Crc(d)
  {
    var e := [0] + d;
    assert e[1..] == d;
    assert Xor(Zeros(16), Bits8(0) + Zeros(8)) == Zeros(16);
    ShiftsZeros(8);
    hide Shifts;
    assert AddByte(Zeros(16), 0) == Zeros(16);
  }

  // ----- Every slot -----

  lemma {:induction false} BitsOfNumber(v: nat, n: nat) returns (bits: Bits)
    requires v < Power2(n)
    ensures |bits| == n && Value(bits) == v
  {
    if n == 0 {
      bits := [];
    } else {
      bits := BitsOfNumber(v / 2, n - 1);
      var all := bits + [v % 2 == 1];
      assert all[..|all| - 1] == bits;
      bits := all;
    }
  }

  /** Every slot is the slot of some decimal text. */
  lemma EverySlot(s: nat) returns (k: nat)
    requires s < NUM_SLOTS
    ensures CounterSlot(k) == s
  {
    assert Power2(14) == NUM_SLOTS;
    var low := BitsOfNumber(s, 14);
    var w := [false, false] + low;
    var n := UnitsHit(16);
    var base := Crc([49] + Ascii(Blank(n)));
    hide Power2, Crc, Value, Pow, Hits, Number;
    WordHits(Xor(base, w), 16, n);
    var d := Digits(Xor(base, w), n);
    TextCrc(d);
    assert Xor(base, Xor(base, w)) == w;
    k := Number(d);
    NumberText(d);
    assert w[2..] == low;
  }

  lemma Digits(w: Bits, n: nat) returns (d: seq<Byte>)
    requires Hits(w, n)
    ensures |d| == n && IsOctal(d) && Crc(d) == w
  {
    hide Crc;
    d :| HitBy(w, n, d);
  }

  lemma FittingSlot(b: nat, n: nat) returns (x: nat)
    requires b < n <= NUM_SLOTS
    ensures Lo(b, n, NUM_SLOTS) <= x < Lo(b + 1, n, NUM_SLOTS) && (ModuloSafe(n, NUM_SLOTS) ==> x % n == b)
  {
    var lo, hi := Lo(b, n, NUM_SLOTS), Lo(b + 1, n, NUM_SLOTS);
    ShareWidths(b, b, n, NUM_SLOTS);
    x := lo;
    if ModuloSafe(n, NUM_SLOTS) {
      assert HasModuloMatch(lo, hi, n, b);
      hide HasModuloMatch, ModuloSafe, Lo;
      ModuloMatchMeans(lo, hi, n, b);
      x :| lo <= x < hi && x % n == b;
    }
  }

  /** Some counter fits each bucket. */
  lemma SomeFit(b: nat, n: nat) returns (k: nat)
    requires b < n <= NUM_SLOTS
    ensures Fits(k, b, n)
  {
    hide CounterSlot, ModuloSafe, Lo;
    var x := FittingSlot(b, n);
    ShareInside(b, n);
    k := EverySlot(x);
  }

  lemma ShareInside(b: nat, n: nat)
    requires b < n
    ensures Lo(b + 1, n, NUM_SLOTS) <= NUM_SLOTS
  {
    DivAtMost((b + 1) * NUM_SLOTS, n, NUM_SLOTS);
    assert (b + 1) * NUM_SLOTS <= n * NUM_SLOTS;
  }

  lemma {:induction false} CapFor(n: nat, m: nat) returns (cap: nat)
    requires 1 <= n <= NUM_SLOTS && m <= n
    ensures forall b: nat :: b < m ==> FitsWithin(b, n, cap)
  {
    hide Fits;
    cap := 0;
    if m > 0 {
      var below := CapFor(n, m - 1);
      var k := SomeFit(m - 1, n);
      cap := if below < k then k else below;
      forall b: nat | b < m
        ensures FitsWithin(b, n, cap)
      {
        if b < m - 1 {
          assert FitsWithin(b, n, below);
        }
      }
    }
  }

  /** For every legal bucket count the search succeeds under every cap from some cap on. */
  lemma SearchSucceeds(n: nat) returns (enough: nat)
    requires 1 <= n <= NUM_SLOTS
    ensures forall cap: nat :: enough <= cap ==> Fillable(n, cap)
    ensures forall cap: nat, r :: enough <= cap && Built(r, n, cap) ==> r.Success? && IsTable(r.value, n)
  {
    hide Fits, IsTable;
    enough := CapFor(n, n);
    forall cap: nat | enough <= cap
      ensures Fillable(n, cap)
    {
      forall b: nat | b < n
        ensures FitsWithin(b, n, cap)
      {
        assert FitsWithin(b, n, enough);
      }
    }
  }

  /** For every legal bucket count there is a table, one by TableUnique. */
  lemma TableExists(n: nat) returns (t: BucketTable)
    requires 1 <= n <= NUM_SLOTS
    ensures IsTable(t, n)
  {
    hide Draws, CountSome, Decimal, CounterSlot, ModuloSafe, IsTable, Fillable, Built;
    var cap := SearchSucceeds(n);
    var d := Draws(n, cap + 1);
    SearchEnds(n, cap + 1, cap);
    assert CountSome(d) == n;
    CountSomeAll(d);
    var tokens := seq(n, b requires 0 <= b < n => TokenAt(d[b]));
    var slots := seq(n, b requires 0 <= b < n => SlotAt(d[b]));
    t := BucketTable(Present<string>(tokens), Present<nat>(slots), ModuloSafe(n, NUM_SLOTS));
    FilledIsTable(n, cap + 1, tokens, slots, t);
  }
}
