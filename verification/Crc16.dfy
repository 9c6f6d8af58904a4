/**
 CRC-16/XMODEM as the router computes it bit by bit, and the theorem that it is
 a polynomial remainder over GF(2). A machine word is the list of its bits, the
 highest first, so a shift, a mask and an exclusive or are what they do to bits.
 */
module Crc16 {
  type Byte = n: nat | n < 256

  type Bits = seq<bool>

  function Zeros(n: nat): (r: Bits)
    ensures |r| == n && forall i :: 0 <= i < n ==> !r[i]
  {
    seq(n, _ => false)
  }

  /** Exclusive or of words; addition, which is also subtraction, of polynomials. */
  function Xor(a: Bits, b: Bits): (r: Bits)
    requires |a| == |b|
    ensures |r| == |a| && forall i :: 0 <= i < |r| ==> r[i] == (a[i] != b[i])
  {
    seq(|a|, i requires 0 <= i < |a| == |b| => a[i] != b[i])
  }

  /** 0x1021: the powers 12, 5 and 0. */
  const POLY: Bits :=
    [false, false, false, true, false, false, false, false,
     false, false, true, false, false, false, false, true]

  function Bits8(b: Byte): (r: Bits)
    ensures |r| == 8
  {
    [b / 128 % 2 == 1, b / 64 % 2 == 1, b / 32 % 2 == 1, b / 16 % 2 == 1,
     b / 8 % 2 == 1, b / 4 % 2 == 1, b / 2 % 2 == 1, b % 2 == 1]
  }

  function Value(bits: Bits): (v: nat) {
    if bits == [] then 0
    else 2 * Value(bits[..|bits| - 1]) + if bits[|bits| - 1] then 1 else 0
  }

  // ----- The register -----

  function Shift(crc: Bits): (r: Bits)
    requires |crc| == 16
    ensures |r| == 16
  {
    if crc[0] then Xor(crc[1..] + [false], POLY) else crc[1..] + [false]
  }

  function Shifts(crc: Bits, n: nat): (r: Bits)
    requires |crc| == 16
    ensures |r| == 16
    decreases n
  {
    if n == 0 then crc else Shifts(Shift(crc), n - 1)
  }

  function AddByte(crc: Bits, byte: Byte): (r: Bits)
    requires |crc| == 16
    ensures |r| == 16
  {
    Shifts(Xor(crc, Bits8(byte) + Zeros(8)), 8)
  }

  function Run(crc: Bits, data: seq<Byte>): (r: Bits)
    requires |crc| == 16
    ensures |r| == 16
    decreases data
  {
    if data == [] then crc else Run(AddByte(crc, data[0]), data[1..])
  }

  function Crc(data: seq<Byte>): (r: Bits)
    ensures |r| == 16
  {
    Run(Zeros(16), data)
  }

  /** The Go register is sixteen bits wide, so a shift drops the top bit by itself. */
  method ComputeGo(data: seq<Byte>) returns (crc: Bits)
    ensures crc == Crc(data)
  {
    hide Shift;
    crc := Zeros(16);
    for i := 0 to |data|
      invariant |crc| == 16 && Run(crc, data[i..]) == Crc(data)
    {
      crc := Xor(crc, Bits8(data[i]) + Zeros(8));
      ghost var after := Shifts(crc, 8);
      for j := 0 to 8
        invariant |crc| == 16 && Shifts(crc, 8 - j) == after
      {
        ghost var before := crc;
        if crc[0] {
          crc := Xor(crc[1..] + [false], POLY);
        } else {
          crc := crc[1..] + [false];
        }
        ShiftUnfold(before);
      }
      assert data[i..][1..] == data[i + 1..];
    }
  }

  lemma ShiftUnfold(crc: Bits)
    requires |crc| == 16
    ensures Shift(crc) == if crc[0] then Xor(crc[1..] + [false], POLY) else crc[1..] + [false]
  {
  }

  /**
   The Python register is an unbounded integer: a shift adds a bit below and keeps
   the top one until the mask 0xFFFF cuts the value back to its low sixteen bits.
   */
  function Mask16(wide: Bits): (r: Bits)
    requires |wide| >= 16
    ensures |r| == 16
  {
    wide[|wide| - 16..]
  }

  method ComputePython(data: seq<Byte>) returns (crc: Bits)
    ensures crc == Crc(data)
  {
    hide Shift;
    crc := Zeros(16);
    for i := 0 to |data|
      invariant |crc| == 16 && Run(crc, data[i..]) == Crc(data)
    {
      crc := Xor(crc, Bits8(data[i]) + Zeros(8));
      ghost var after := Shifts(crc, 8);
      for j := 0 to 8
        invariant |crc| == 16 && Shifts(crc, 8 - j) == after
      {
        ghost var before := crc;
        if crc[0] {
          crc := Mask16(Xor(crc + [false], [false] + POLY));
        } else {
          crc := Mask16(crc + [false]);
        }
        MaskedShift(before);
      }
      assert data[i..][1..] == data[i + 1..];
    }
  }

  /** Masking after the wide shift and exclusive or is the narrow shift. */
  lemma MaskedShift(crc: Bits)
    requires |crc| == 16
    ensures Shift(crc) ==
            if crc[0] then Mask16(Xor(crc + [false], [false] + POLY)) else Mask16(crc + [false])
  {
  }

  // ----- Polynomials over GF(2): coefficients, highest power first -----

  /** x^16 + x^12 + x^5 + 1 */
  const GENERATOR: Bits := [true] + POLY

  function Times(bit: bool, g: Bits): (r: Bits)
    ensures |r| == |g| && forall i :: 0 <= i < |r| ==> r[i] == (bit && g[i])
  {
    if bit then g else Zeros(|g|)
  }

  /** Multiplication by Horner's rule on the coefficients of q. */
  function Mul(q: Bits, g: Bits): (r: Bits)
    requires |g| >= 1
    ensures |r| == |q| + |g| - 1
  {
    if q == [] then Zeros(|g| - 1)
    else
      var m := |q| - 1;
      Xor(Mul(q[..m], g) + [false], Zeros(m) + Times(q[m], g))
  }

  /** The message polynomial: the bits of the bytes in order. */
  function Message(data: seq<Byte>): (r: Bits)
    ensures |r| == 8 * |data|
  {
    if data == [] then [] else Bits8(data[0]) + Message(data[1..])
  }

  /** message * x^16 == quotient * generator + remainder, the remainder of degree under 16. */
  predicate Divides(message: Bits, quotient: Bits, remainder: Bits) {
    && |quotient| == |message|
    && |remainder| == 16
    && message + Zeros(16) == Xor(Mul(quotient, GENERATOR), Zeros(|message|) + remainder)
  }

  // ----- The register fed one message bit at a time -----

  function Feed(crc: Bits, bit: bool): (r: Bits)
    requires |crc| == 16
    ensures |r| == 16
  {
    Xor(crc[1..] + [false], Times(crc[0] != bit, POLY))
  }

  function FeedAll(crc: Bits, bits: Bits): (r: Bits)
    requires |crc| == 16
    ensures |r| == 16
    decreases bits
  {
    if bits == [] then crc else FeedAll(Feed(crc, bits[0]), bits[1..])
  }

  lemma {:induction false} FeedAllConcat(crc: Bits, a: Bits, b: Bits)
    requires |crc| == 16
    ensures FeedAll(crc, a + b) == FeedAll(FeedAll(crc, a), b)
    decreases a
  {
    hide Feed;
    if a == [] {
      assert a + b == b;
    } else {
      assert (a + b)[1..] == a[1..] + b;
      FeedAllConcat(Feed(crc, a[0]), a[1..], b);
    }
  }

  /** Bits laid over the top of the register come out one shift at a time. */
  lemma {:induction false} ShiftsFeed(crc: Bits, pending: Bits)
    requires |crc| == 16 && |pending| <= 16
    ensures Shifts(Xor(crc, pending + Zeros(16 - |pending|)), |pending|) == FeedAll(crc, pending)
    decreases pending
  {
    if pending == [] {
      assert Xor(crc, pending + Zeros(16 - |pending|)) == crc;
    } else {
      ShiftFeeds(crc, pending);
      hide Shift, Feed;
      ShiftsFeed(Feed(crc, pending[0]), pending[1..]);
    }
  }

  lemma ShiftFeeds(crc: Bits, pending: Bits)
    requires |crc| == 16 && 1 <= |pending| <= 16
    ensures Shift(Xor(crc, pending + Zeros(16 - |pending|)))
         == Xor(Feed(crc, pending[0]), pending[1..] + Zeros(17 - |pending|))
  {
  }

  lemma {:induction false} RunFeedsMessage(crc: Bits, data: seq<Byte>)
    requires |crc| == 16
    ensures Run(crc, data) == FeedAll(crc, Message(data))
    decreases data
  {
    hide Feed, Shifts, Bits8;
    if data != [] {
      var bits := Bits8(data[0]);
      ShiftsFeed(crc, bits);
      FeedAllConcat(crc, bits, Message(data[1..]));
      RunFeedsMessage(AddByte(crc, data[0]), data[1..]);
    }
  }

  // ----- The message as a number -----

  function Power2(n: nat): (p: nat)
    ensures p >= 1
  {
    if n == 0 then 1 else 2 * Power2(n - 1)
  }

  /** A word's value, split at its low bits. */
  lemma {:induction false} ValueSplit(high: Bits, low: Bits)
    ensures Value(low) < Power2(|low|)
    ensures Value(high + low) == Value(high) * Power2(|low|) + Value(low)
  {
    if low == [] {
      assert high + low == high;
    } else {
      var init, last := low[..|low| - 1], if low[|low| - 1] then 1 else 0;
      assert (high + low)[..|high + low| - 1] == high + init;
      assert Value(high + low) == 2 * Value(high + init) + last && Value(low) == 2 * Value(init) + last;
      assert Power2(|low|) == 2 * Power2(|init|);
      ValueSplit(high, init);
      hide Value, Power2;
      DoubleProduct(Value(high), Power2(|init|));
    }
  }

  lemma DoubleProduct(a: nat, b: nat)
    ensures a * (2 * b) == 2 * (a * b)
  {
  }

  lemma {:induction false} ValueInjective(a: Bits, b: Bits)
    requires |a| == |b| && Value(a) == Value(b)
    ensures a == b
  {
    if a != [] {
      var n := |a| - 1;
      ValueInjective(a[..n], b[..n]);
      assert a == a[..n] + [a[n]] && b == b[..n] + [b[n]];
    }
  }

  function Digit2(x: bool): nat { if x then 1 else 0 }

  lemma ValueAppend(high: Bits, x: bool)
    ensures Value(high + [x]) == 2 * Value(high) + Digit2(x)
  {
    assert (high + [x])[..|high|] == high;
  }

  lemma FourBits(high: Bits, w: bool, x: bool, y: bool, z: bool)
    ensures Value(high + [w, x, y, z]) ==
            16 * Value(high) + 8 * Digit2(w) + 4 * Digit2(x) + 2 * Digit2(y) + Digit2(z)
  {
    hide Value, Digit2;
    ValueAppend(high, w);
    ValueAppend(high + [w], x);
    ValueAppend(high + [w] + [x], y);
    ValueAppend(high + [w] + [x] + [y], z);
    assert high + [w] + [x] + [y] + [z] == high + [w, x, y, z];
  }

  lemma FourDigits(b: nat)
    ensures b == 16 * (b / 16) + 8 * (b / 8 % 2) + 4 * (b / 4 % 2) + 2 * (b / 2 % 2) + b % 2
  {
    assert b == 2 * (b / 2) + b % 2;
    assert b / 2 == 2 * (b / 4) + b / 2 % 2;
    assert b / 4 == 2 * (b / 8) + b / 4 % 2;
    assert b / 8 == 2 * (b / 16) + b / 8 % 2;
  }

  lemma Sixteenth(b: nat)
    ensures b / 16 / 2 == b / 32 && b / 16 / 4 == b / 64 && b / 16 / 8 == b / 128 && b / 16 / 16 == b / 256
  {
  }

  lemma EmptyValue()
    ensures Value([]) == 0
  {
  }

  /** Four binary digits of a number as bits. */
  function Nibble(b: nat): (r: Bits)
    ensures |r| == 4
  {
    [b / 8 % 2 == 1, b / 4 % 2 == 1, b / 2 % 2 == 1, b % 2 == 1]
  }

  lemma NibbleValue(high: Bits, b: nat)
    ensures Value(high + Nibble(b)) == 16 * Value(high) + b % 16
  {
    FourBits(high, b / 8 % 2 == 1, b / 4 % 2 == 1, b / 2 % 2 == 1, b % 2 == 1);
    hide Value;
    FourDigits(b);
  }

  lemma TwoNibbles(b: Byte)
    ensures Bits8(b) == [] + Nibble(b / 16) + Nibble(b)
  {
    Sixteenth(b);
  }

  /** The bits of a byte are its binary digits, the highest first. */
  lemma ByteValue(b: Byte)
    ensures Value(Bits8(b)) == b
  {
    TwoNibbles(b);
    EmptyValue();
    hide Value, Bits8, Nibble;
    NibbleValue([], b / 16);
    NibbleValue([] + Nibble(b / 16), b);
  }

  /** The data read as one number, a byte a digit. */
  function Base256(data: seq<Byte>): nat {
    if data == [] then 0 else 256 * Base256(data[..|data| - 1]) + data[|data| - 1]
  }

  lemma {:induction false} MessageConcat(a: seq<Byte>, b: seq<Byte>)
    ensures Message(a + b) == Message(a) + Message(b)
  {
    hide Bits8;
    if a == [] {
      assert a + b == b;
    } else {
      assert (a + b)[1..] == a[1..] + b;
      MessageConcat(a[1..], b);
    }
  }

  lemma OneMessage(x: Byte)
    ensures Message([x]) == Bits8(x)
  {
    hide Bits8;
    assert [x][1..] == [];
  }

  /** The message is the binary text of that number. */
  lemma {:induction false} MessageValue(data: seq<Byte>)
    ensures Value(Message(data)) == Base256(data)
  {
    hide Bits8, Message;
    if data == [] {
      assert Message([]) == [] by { EmptyMessage(); }
    } else {
      var init, last := data[..|data| - 1], data[|data| - 1];
      MessageValue(init);
      assert data == init + [last];
      MessageConcat(init, [last]);
      OneMessage(last);
      ByteValue(last);
      assert Power2(8) == 256;
      ValueSplit(Message(init), Bits8(last));
    }
  }

  lemma EmptyMessage()
    ensures Message([]) == []
  {
  }

  // ----- The remainder -----

  /** Division, coefficient by coefficient. */
  lemma DividesAt(m: Bits, q: Bits, r: Bits, k: nat)
    requires Divides(m, q, r) && k < |m| + 16
    ensures Mul(q, GENERATOR)[k] == if k < |m| then m[k] else r[k - |m|]
  {
    assert (m + Zeros(16))[k] == (Mul(q, GENERATOR)[k] != (Zeros(|m|) + r)[k]);
  }

  lemma MulUnfold(p: Bits, q: Bits, t: bool, g: Bits)
    requires |g| >= 1 && |p| == |q| + 1 && p[..|q|] == q && p[|q|] == t
    ensures Mul(p, g) == Xor(Mul(q, g) + [false], Zeros(|q|) + Times(t, g))
  {
    hide Zeros, Xor, Times;
  }

  lemma MulAppend(q: Bits, t: bool, k: nat)
    requires k < |q| + 17
    ensures Mul(q + [t], GENERATOR)[k]
         == ((k < |q| + 16 && Mul(q, GENERATOR)[k]) != (k >= |q| && t && GENERATOR[k - |q|]))
  {
    hide Mul;
    MulUnfold(q + [t], q, t, GENERATOR);
    var left, right := Mul(q, GENERATOR) + [false], Zeros(|q|) + Times(t, GENERATOR);
    assert left[k] == (k < |q| + 16 && Mul(q, GENERATOR)[k]);
    assert right[k] == (k >= |q| && t && GENERATOR[k - |q|]);
  }

  /** One more message bit: the quotient gains the bit that cancels the top coefficient. */
  lemma DivideStep(m: Bits, q: Bits, r: Bits, bit: bool)
    requires Divides(m, q, r)
    ensures Divides(m + [bit], q + [r[0] != bit], Feed(r, bit))
  {
    hide Mul, Feed;
    var n, t := |m|, r[0] != bit;
    var left, right := m + [bit] + Zeros(16),
                       Xor(Mul(q + [t], GENERATOR), Zeros(n + 1) + Feed(r, bit));
    forall k | 0 <= k < n + 17
      ensures left[k] == right[k]
    {
      MulAppend(q, t, k);
      if k < n + 16 {
        DividesAt(m, q, r, k);
      }
      if k > n {
        FeedAt(r, bit, k - n - 1);
      }
    }
    assert left == right;
  }

  lemma FeedAt(r: Bits, bit: bool, j: nat)
    requires |r| == 16 && j < 16
    ensures Feed(r, bit)[j] == ((j < 15 && r[j + 1]) != ((r[0] != bit) && POLY[j]))
  {
  }

  lemma {:induction false} FeedDivides(m: Bits, q: Bits, r: Bits, bits: Bits) returns (q': Bits)
    requires Divides(m, q, r)
    ensures Divides(m + bits, q', FeedAll(r, bits))
    decreases bits
  {
    hide Feed, Divides;
    if bits == [] {
      q' := q;
      assert m + bits == m;
    } else {
      assert |r| == 16 by { DividesShape(m, q, r); }
      DivideStep(m, q, r, bits[0]);
      assert m + bits == m + [bits[0]] + bits[1..];
      q' := FeedDivides(m + [bits[0]], q + [r[0] != bits[0]], Feed(r, bits[0]), bits[1..]);
    }
  }

  lemma DividesShape(m: Bits, q: Bits, r: Bits)
    requires Divides(m, q, r)
    ensures |r| == 16 && |q| == |m|
  {
  }

  lemma CrcDivides(data: seq<Byte>) returns (q: Bits)
    ensures Divides(Message(data), q, Crc(data))
  {
    hide Message;
    RunFeedsMessage(Zeros(16), data);
    assert Divides([], [], Zeros(16));
    q := FeedDivides([], [], Zeros(16), Message(data));
    assert [] + Message(data) == Message(data);
  }

  /**
   The checksum is a remainder of the message times x^16 by the generator, where the
   message is any list of eight bits a byte whose value is the data read in base 256.
   */
  lemma CrcIsRemainder(data: seq<Byte>, message: Bits)
    requires |message| == 8 * |data| && Value(message) == Base256(data)
    ensures exists q :: Divides(message, q, Crc(data))
    ensures |GENERATOR| == 17 && forall k :: 0 <= k < 17 ==> (GENERATOR[k] <==> 16 - k in {16, 12, 5, 0})
  {
    var q := CrcDivides(data);
    hide Divides, Message, Crc, Value, Base256;
    MessageValue(data);
    ValueInjective(message, Message(data));
  }

  lemma {:induction false} QuotientUnique(q: Bits, q': Bits)
    requires |q| == |q'|
    requires forall k :: 0 <= k < |q| ==> Mul(q, GENERATOR)[k] == Mul(q', GENERATOR)[k]
    ensures q == q'
  {
    if q != [] {
      hide Mul;
      var m := |q| - 1;
      assert q == q[..m] + [q[m]] && q' == q'[..m] + [q'[m]];
      forall k | 0 <= k <= m
        ensures k < m ==> Mul(q[..m], GENERATOR)[k] == Mul(q'[..m], GENERATOR)[k]
      {
        MulAppend(q[..m], q[m], k);
        MulAppend(q'[..m], q'[m], k);
      }
      QuotientUnique(q[..m], q'[..m]);
      MulAppend(q[..m], q[m], m);
      MulAppend(q'[..m], q'[m], m);
    }
  }

  /** Division leaves only one remainder, so the checksum is the remainder. */
  lemma RemainderUnique(m: Bits, q: Bits, r: Bits, q': Bits, r': Bits)
    requires Divides(m, q, r) && Divides(m, q', r')
    ensures q == q' && r == r'
  {
    hide Mul;
    forall k | 0 <= k < |m|
      ensures Mul(q, GENERATOR)[k] == Mul(q', GENERATOR)[k]
    {
      DividesAt(m, q, r, k);
      DividesAt(m, q', r', k);
    }
    QuotientUnique(q, q');
    forall j | 0 <= j < 16
      ensures r[j] == r'[j]
    {
      DividesAt(m, q, r, |m| + j);
      DividesAt(m, q', r', |m| + j);
    }
  }

  // ----- Linearity -----

  lemma FeedLinear(x: Bits, y: Bits, a: bool, b: bool)
    requires |x| == |y| == 16
    ensures Feed(Xor(x, y), a != b) == Xor(Feed(x, a), Feed(y, b))
  {
  }

  lemma {:induction false} FeedAllLinear(x: Bits, y: Bits, a: Bits, b: Bits)
    requires |x| == |y| == 16 && |a| == |b|
    ensures FeedAll(Xor(x, y), Xor(a, b)) == Xor(FeedAll(x, a), FeedAll(y, b))
    decreases |a|
  {
    if a != [] {
      FeedLinear(x, y, a[0], b[0]);
      assert Xor(a, b)[1..] == Xor(a[1..], b[1..]);
      hide Feed;
      FeedAllLinear(Feed(x, a[0]), Feed(y, b[0]), a[1..], b[1..]);
    }
  }

  /** Data whose bits are the exclusive or of two others has the exclusive or of their checksums. */
  lemma CrcLinear(a: seq<Byte>, b: seq<Byte>, c: seq<Byte>)
    requires |a| == |b|
    requires Message(c) == Xor(Message(a), Message(b))
    ensures Crc(c) == Xor(Crc(a), Crc(b))
  {
    hide Message;
    RunFeedsMessage(Zeros(16), a);
    RunFeedsMessage(Zeros(16), b);
    RunFeedsMessage(Zeros(16), c);
    assert Xor(Zeros(16), Zeros(16)) == Zeros(16);
    FeedAllLinear(Zeros(16), Zeros(16), Message(a), Message(b));
  }

  // ----- Slots -----

  const NUM_SLOTS: nat := 16384

  lemma LowBits(high: nat, low: nat)
    requires low < NUM_SLOTS
    ensures (high * NUM_SLOTS + low) % NUM_SLOTS == low
  {
  }

  /** The mask 0x3FFF keeps the low fourteen bits, which is the checksum modulo the slot count. */
  function Slot(data: seq<Byte>): (s: nat)
    ensures s < NUM_SLOTS && s == Value(Crc(data)) % 16384
  {
    MaskIsRemainder(Crc(data));
    Value(Crc(data)[2..])
  }

  lemma MaskIsRemainder(crc: Bits)
    requires |crc| == 16
    ensures Value(crc[2..]) == Value(crc) % NUM_SLOTS
  {
    assert Power2(14) == NUM_SLOTS;
    hide Value, Power2;
    ValueSplit(crc[..2], crc[2..]);
    assert crc == crc[..2] + crc[2..];
    LowBits(Value(crc[..2]), Value(crc[2..]));
  }
}
