/**
 Slots that keys share: exactly which namespaces keep replicas in their own shares, each
 script call on one slot, and each lookup on three hashed texts.
 */
module Sharing {
  import opened Text
  import opened Crc16
  import opened Pattern
  import opened Slots
  import opened Keys
  import opened Rules
  import opened Placement
  import opened Coverage

  // ----- One byte of a key changed by one bit -----

  lemma {:induction false} BlankMessage(n: nat)
    ensures Message(Blank(n)) == Zeros(8 * n)
    decreases n
  {
    if n > 0 {
      assert Blank(n)[1..] == Blank(n - 1);
      BlankMessage(n - 1);
      assert Bits8(0) == Zeros(8);
    }
  }

  lemma {:induction false} BlankRun(n: nat)
    ensures Run(Zeros(16), Blank(n)) == Zeros(16)
    decreases n
  {
    if n > 0 {
      assert Blank(n) == [0] + Blank(n - 1);
      LeadingZero(Blank(n - 1));
      BlankRun(n - 1);
    }
  }

  lemma {:induction false} RunConcat(crc: Bits, a: seq<Byte>, b: seq<Byte>)
    requires |crc| == 16
    ensures Run(crc, a + b) == Run(Run(crc, a), b)
    decreases |a|
  {
    hide AddByte;
    if a == [] {
      assert a + b == b;
    } else {
      assert (a + b)[1..] == a[1..] + b;
      RunConcat(AddByte(crc, a[0]), a[1..], b);
    }
  }

  /** Zero bytes at the end multiply by x^8 each. */
  lemma {:induction false} BlankShifts(k: nat, n: nat)
    ensures Run(Pow(k), Blank(n)) == Pow(k + 8 * n)
    decreases n
  {
    hide Pow, Shifts;
    if n > 0 {
      assert Blank(n)[1..] == Blank(n - 1);
      assert Xor(Pow(k), Bits8(0) + Zeros(8)) == Pow(k);
      ShiftsPow(k, 8);
      BlankShifts(k + 8, n - 1);
    }
  }

  /** The checksum of one bit, in a string of zero bytes. */
  lemma OneBit(before: nat, j: nat, after: nat)
    requires j < 3
    ensures Crc(Blank(before) + [BitByte(j)] + Blank(after)) == Pow(16 + j + 8 * after)
  {
    hide Pow, Run, AddByte, Blank, BitByte;
    BlankRun(before);
    FirstByte(j);
    RunConcat(Zeros(16), Blank(before) + [BitByte(j)], Blank(after));
    RunAppend(Zeros(16), Blank(before), BitByte(j));
    BlankShifts(16 + j, after);
  }

  /** Two bytes that differ in bit j alone. */
  predicate BitApart(x: Byte, y: Byte, j: nat) {
    j < 3 && Bits8(x) == Xor(Bits8(y), Bits8(BitByte(j)))
  }

  lemma FlipBits(p: Bits, x: Bits, y: Bits, b: Bits, q: Bits)
    requires |x| == |y| == |b| && x == Xor(y, b)
    ensures p + x + q == Xor(p + y + q, Zeros(|p|) + b + Zeros(|q|))
  {
  }

  lemma FlipMessage(pre: seq<Byte>, x: Byte, y: Byte, post: seq<Byte>, byte: Byte)
    requires Bits8(x) == Xor(Bits8(y), Bits8(byte))
    ensures Message(pre + [x] + post) ==
            Xor(Message(pre + [y] + post), Message(Blank(|pre|) + [byte] + Blank(|post|)))
  {
    hide *;
    MessageParts(pre, x, post);
    MessageParts(pre, y, post);
    MessageParts(Blank(|pre|), byte, Blank(|post|));
    BlankMessage(|pre|);
    BlankMessage(|post|);
    FlipBits(Message(pre), Bits8(x), Bits8(y), Bits8(byte), Message(post));
  }

  lemma MessageParts(pre: seq<Byte>, x: Byte, post: seq<Byte>)
    ensures Message(pre + [x] + post) == Message(pre) + Bits8(x) + Message(post)
  {
    hide Bits8, Message;
    MessageConcat(pre + [x], post);
    MessageConcat(pre, [x]);
    OneMessage(x);
  }

  lemma CrcDiff(c: seq<Byte>, a: seq<Byte>, b: seq<Byte>, diff: Bits)
    requires |a| == |b| && Message(c) == Xor(Message(a), Message(b)) && Crc(b) == diff
    ensures Crc(c) == Xor(Crc(a), diff)
  {
    hide Crc, Message;
    CrcLinear(a, b, c);
  }

  lemma FlipCrc(pre: seq<Byte>, x: Byte, y: Byte, post: seq<Byte>, j: nat)
    requires BitApart(x, y, j)
    ensures Crc(pre + [x] + post) == Xor(Crc(pre + [y] + post), Pow(16 + j + 8 * |post|))
  {
    hide Crc, Message, Pow, Bits8, BitByte, Xor, Blank;
    var b := BitByte(j);
    var c, a, d := pre + [x] + post, pre + [y] + post, Blank(|pre|) + [b] + Blank(|post|);
    assert Crc(d) == Pow(16 + j + 8 * |post|) by { OneBit(|pre|, j, |post|); }
    assert Message(c) == Xor(Message(a), Message(d)) by { FlipMessage(pre, x, y, post, b); }
    CrcDiff(c, a, d, Pow(16 + j + 8 * |post|));
  }

  /** Two slots are equal exactly when the difference of the checksums has no low bit. */
  lemma SameSlot(d: seq<Byte>, e: seq<Byte>, diff: Bits)
    requires |diff| == 16 && Crc(d) == Xor(Crc(e), diff) && Slot(d) == Slot(e)
    ensures forall i :: 2 <= i < 16 ==> !diff[i]
  {
    hide Crc, Value;
    ValueInjective(Crc(d)[2..], Crc(e)[2..]);
    forall i | 2 <= i < 16
      ensures !diff[i]
    {
      assert Crc(d)[2..][i - 2] == Crc(e)[2..][i - 2];
    }
  }

  lemma {:induction false} PowNonzero(k: nat)
    ensures exists i :: 0 <= i < 16 && Pow(k)[i]
  {
    if k == 0 {
      assert Pow(0)[15];
    } else {
      PowNonzero(k - 1);
      var i :| 0 <= i < 16 && Pow(k - 1)[i];
      PowNext(k - 1);
      hide Pow;
      ShiftNonzero(Pow(k - 1), i);
    }
  }

  lemma ShiftNonzero(x: Bits, i: nat)
    requires |x| == 16 && i < 16 && x[i]
    ensures exists k :: 0 <= k < 16 && Shift(x)[k]
  {
    if x[0] {
      assert Shift(x)[15];
    } else {
      assert Shift(x)[i - 1];
    }
  }

  /** Of three powers in a row some has a low bit. */
  lemma SomeLowBit(k: nat)
    ensures HasLowBit(Pow(k)) || HasLowBit(Pow(k + 1)) || HasLowBit(Pow(k + 2))
  {
    PowNonzero(k);
    PowNext(k);
    PowNext(k + 1);
    hide Pow, Shift;
    var i :| 0 <= i < 16 && Pow(k)[i];
    if !HasLowBit(Pow(k)) {
      assert i < 2;
      ShiftLow(Pow(k));
    }
  }

  predicate HasLowBit(x: Bits) {
    exists i :: 2 <= i < |x| && x[i]
  }

  lemma ShiftLow(x: Bits)
    requires |x| == 16 && (x[0] || x[1])
    ensures HasLowBit(Shift(x)) || HasLowBit(Shift(Shift(x)))
  {
    if x[0] {
      assert Shift(x)[15];
    } else {
      assert Shift(x)[0];
      assert Shift(Shift(x))[15];
    }
  }

  // ----- Key texts that differ in one character -----

  lemma Utf8Around(a: string, x: char, b: string)
    requires x as int < 128
    ensures Utf8(a + [x] + b) == Utf8(a) + [x as int] + Utf8(b)
  {
    hide Utf8Char;
    Utf8Concat(a + [x], b);
    Utf8Concat(a, [x]);
    assert [x][1..] == "";
    assert Utf8([x]) == Utf8Char(x) + Utf8("");
    assert Utf8Char(x) == [x as int] by { AsciiByte(x); }
  }

  lemma AsciiByte(x: char)
    requires x as int < 128
    ensures Utf8Char(x) == [x as int]
  {
  }

  /** The slots of two texts that differ in one bit of one character are equal only if that bit's power has no low bit. */
  lemma TextFlip(a: string, x: char, y: char, b: string, j: nat)
    requires x as int < 128 && y as int < 128 && BitApart(x as int, y as int, j)
    requires Slot(Utf8(a + [x] + b)) == Slot(Utf8(a + [y] + b))
    ensures !HasLowBit(Pow(16 + j + 8 * |Utf8(b)|))
  {
    hide Pow, Crc, Slot, Utf8, BitApart;
    Utf8Around(a, x, b);
    Utf8Around(a, y, b);
    FlipCrc(Utf8(a), x as int, y as int, Utf8(b), j);
    SameSlot(Utf8(a) + [x as int] + Utf8(b), Utf8(a) + [y as int] + Utf8(b), Pow(16 + j + 8 * |Utf8(b)|));
  }

  // ----- Replicas in their own shares -----

  /** In share b and, when asked for and possible, at its residue. */
  predicate InShare(s: nat, b: nat, n: nat, residue: bool)
    requires n >= 1
  {
    && Lo(b, n, NUM_SLOTS) <= s < Lo(b + 1, n, NUM_SLOTS)
    && (residue && ModuloSafe(n, NUM_SLOTS) ==> s % n == b)
  }

  ghost predicate AllPlaced(cfg: Config, residue: bool)
    requires cfg.Valid()
  {
    forall p, port, b: nat | cfg.Buckets(p) && ValidPort(port) && b < cfg.n ::
      InShare(KeySlot(KeyFor(cfg, p, port, b)), b, cfg.n, residue)
  }

  /** The text after the namespace's first opening brace. */
  function AfterBrace(ns: string): string
    requires '{' in ns
  {
    FindWithin(ns, '{');
    ns[Find(ns, '{') + 1..]
  }

  /** No brace, or an unclosed one whose text before each token happens to keep the token's share. */
  predicate KeepsShares(cfg: Config, residue: bool)
    requires cfg.Valid() && cfg.n > 1
  {
    || '{' !in cfg.ns
    || ('}' !in AfterBrace(cfg.ns) &&
        forall b: nat :: b < cfg.n ==> InShare(Slot(Utf8(AfterBrace(cfg.ns) + ":{" + cfg.tokens[b])), b, cfg.n, residue))
  }

  lemma StarBucketed(cfg: Config)
    requires cfg.n > 1
    ensures cfg.Buckets("*") && HashTag("*") == "__global__"
  {
  }

  lemma SpanCases(cfg: Config, b: nat)
    requires cfg.Valid() && cfg.n > 1 && b < cfg.n && '{' in cfg.ns
    ensures HasEmptySpan(cfg.ns) ==> '}' in AfterBrace(cfg.ns)
    ensures '}' !in AfterBrace(cfg.ns) ==> ReplicaSpan(cfg, b) == AfterBrace(cfg.ns) + ":{" + cfg.tokens[b]
    ensures '}' in AfterBrace(cfg.ns) ==> ReplicaSpan(cfg, b) == AfterBrace(cfg.ns)[..Find(AfterBrace(cfg.ns), '}')]
  {
    FindWithin(cfg.ns, '{');
    hide Find;
    if HasEmptySpan(cfg.ns) {
      assert AfterBrace(cfg.ns)[0] == '}';
    }
  }

  /** All replicas of a pattern have the slot of one text, so two of them are in no share of their own. */
  lemma OneSlotFails(cfg: Config, residue: bool, span: string)
    requires cfg.Valid() && cfg.n > 1
    requires forall b: nat :: b < cfg.n ==> HashedText(KeyFor(cfg, "*", 443, b)) == span
    ensures !AllPlaced(cfg, residue)
  {
    hide HashedText, KeyFor, Slot, Utf8, ModuloSafe, HashTag, Lo;
    StarBucketed(cfg);
    var s := Slot(Utf8(span));
    OwnerIsUnique(s, 0, cfg.n, NUM_SLOTS);
    OwnerIsUnique(s, 1, cfg.n, NUM_SLOTS);
    assert !(InShare(s, 0, cfg.n, residue) && InShare(s, 1, cfg.n, residue));
    assert KeySlot(KeyFor(cfg, "*", 443, 0)) == s && KeySlot(KeyFor(cfg, "*", 443, 1)) == s;
  }

  lemma {:induction false} TopBit(bits: Bits)
    requires |bits| == 14
    ensures bits[0] <==> Value(bits) >= 8192
  {
    var low := bits[1..];
    assert bits == [bits[0]] + low;
    ValueSplit([bits[0]], low);
    assert Power2(13) == 8192;
    assert [bits[0]][..0] == [];
    assert Value([bits[0]]) == if bits[0] then 1 else 0;
  }

  /** Bit 13 of the slot flips with bit 1 of the last byte. */
  lemma LastByteFlips(a: string)
    ensures (Slot(Utf8(a + "1")) >= 8192) != (Slot(Utf8(a + "3")) >= 8192)
  {
    var d, e := Utf8(a + "3"), Utf8(a + "1");
    DigitsApart();
    SeventeenTop();
    assert a + ['3'] + "" == a + "3" && a + ['1'] + "" == a + "1";
    hide Pow, Crc, Utf8, BitApart, Value;
    Utf8Around(a, '3', "");
    Utf8Around(a, '1', "");
    assert Utf8("") == [] by { EmptyUtf8(); }
    FlipCrc(Utf8(a), 51, 49, [], 1);
    TopBit(Crc(d)[2..]);
    TopBit(Crc(e)[2..]);
    assert Crc(d)[2..][0] == Crc(d)[2] && Crc(e)[2..][0] == Crc(e)[2];
  }

  lemma EmptyUtf8()
    ensures Utf8("") == []
  {
  }

  lemma DigitsApart()
    ensures BitApart(51, 49, 1)
  {
    assert Bits8(51) == [false, false, true, true, false, false, true, true];
    assert Bits8(49) == [false, false, true, true, false, false, false, true];
    SmallBits(2);
  }

  /** x^17 is x^13 + x^6 + x. */
  lemma SeventeenTop()
    ensures Pow(17)[2]
  {
    PowIsUnit(15);
    PowNext(15);
    PowNext(16);
    hide Pow;
    ShiftTop(Pow(15));
    assert !POLY[0];
  }

  /** Keys that are hashed whole cannot all keep to the first share: two ports put them in both halves. */
  lemma WholeFails(cfg: Config, residue: bool)
    requires cfg.Valid() && cfg.n > 1
    requires forall port :: HashedText(KeyFor(cfg, "*", port, 0)) == KeyFor(cfg, "*", port, 0)
    ensures !AllPlaced(cfg, residue)
  {
    StarBucketed(cfg);
    hide HashedText, Slot, Utf8, ModuloSafe, HashTag, Decimal;
    var a := "r:" + cfg.ns + ":{" + cfg.tokens[0] + "}:" + "__global__" + ":" + Decimal(0) + ":" + "*" + ":";
    PortText();
    assert KeyFor(cfg, "*", 1, 0) == a + "1" && KeyFor(cfg, "*", 3, 0) == a + "3";
    hide KeyFor;
    LastByteFlips(a);
    FirstShare(cfg.n);
    assert KeySlot(KeyFor(cfg, "*", 1, 0)) == Slot(Utf8(a + "1"));
    assert KeySlot(KeyFor(cfg, "*", 3, 0)) == Slot(Utf8(a + "3"));
    assert !(InShare(Slot(Utf8(a + "1")), 0, cfg.n, residue) && InShare(Slot(Utf8(a + "3")), 0, cfg.n, residue));
  }

  lemma PortText()
    ensures Integer(1) == "1" && Integer(3) == "3"
  {
  }

  lemma FirstShare(n: nat)
    requires n > 1
    ensures Lo(1, n, NUM_SLOTS) <= 8192
  {
    DivAtMost(NUM_SLOTS, n, 8192);
  }

  /**
   Exactly when every replica of every catch-all pattern lies in its own share, through
   the table's tokens; residue says whether the right residue is asked for as well.
   */
  lemma PlacedIff(cfg: Config, t: BucketTable, residue: bool)
    requires cfg.n > 1 && IsTable(t, cfg.n) && cfg.tokens == t.tokens
    ensures cfg.Valid()
    ensures AllPlaced(cfg, residue) <==> KeepsShares(cfg, residue)
  {
    TokensArePlaced(t, cfg.n);
    hide IsTable;
    if '{' !in cfg.ns {
      assert t.moduloSafe == ModuloSafe(cfg.n, NUM_SLOTS) by { TableSafe(t, cfg.n); }
      hide KeyFor, KeySlot, ModuloSafe, HashTag;
      forall p, port, b: nat | cfg.Buckets(p) && ValidPort(port) && b < cfg.n
        ensures InShare(KeySlot(KeyFor(cfg, p, port, b)), b, cfg.n, residue)
      {
        PlacedReplica(cfg, t, p, port, b);
      }
    } else {
      BracePlaced(cfg, residue);
    }
  }

  lemma TableSafe(t: BucketTable, n: nat)
    requires IsTable(t, n)
    ensures t.moduloSafe == ModuloSafe(n, NUM_SLOTS)
  {
    hide IsEntry, ModuloSafe;
  }

  lemma PlacedReplica(cfg: Config, t: BucketTable, p: string, port: int, b: nat)
    requires cfg.n > 1 && b < cfg.n && IsTable(t, cfg.n) && cfg.tokens == t.tokens
    requires cfg.Buckets(p) && '{' !in cfg.ns
    ensures cfg.Valid()
    ensures var s := KeySlot(KeyFor(cfg, p, port, b));
            && Lo(b, cfg.n, NUM_SLOTS) <= s < Lo(b + 1, cfg.n, NUM_SLOTS)
            && (t.moduloSafe ==> s % cfg.n == b)
  {
    hide IsTable, KeySlot, Key, HashTag;
    ReplicaIsPlaced(cfg, t, HashTag(p), b, p, port);
  }

  lemma BracePlaced(cfg: Config, residue: bool)
    requires cfg.Valid() && cfg.n > 1 && '{' in cfg.ns
    ensures AllPlaced(cfg, residue) <==> KeepsShares(cfg, residue)
  {
    StarBucketed(cfg);
    hide HashedText, Key, HashTag, IsBucketedTag, HasEmptySpan, ReplicaSpan, InShare, Slot, Utf8;
    forall p, port, b: nat | cfg.Buckets(p) && b < cfg.n
      ensures HashedText(KeyFor(cfg, p, port, b)) ==
              if HasEmptySpan(cfg.ns) then KeyFor(cfg, p, port, b) else ReplicaSpan(cfg, b)
    {
      ReplicaHashed(cfg, HashTag(p), b, p, port);
    }
    forall b: nat | b < cfg.n
      ensures HasEmptySpan(cfg.ns) ==> '}' in AfterBrace(cfg.ns)
      ensures '}' !in AfterBrace(cfg.ns) ==> ReplicaSpan(cfg, b) == AfterBrace(cfg.ns) + ":{" + cfg.tokens[b]
      ensures '}' in AfterBrace(cfg.ns) ==> ReplicaSpan(cfg, b) == AfterBrace(cfg.ns)[..Find(AfterBrace(cfg.ns), '}')]
    {
      SpanCases(cfg, b);
    }
    hide KeyFor;
    if HasEmptySpan(cfg.ns) {
      WholeFails(cfg, residue);
    } else if '}' in AfterBrace(cfg.ns) {
      OneSlotFails(cfg, residue, AfterBrace(cfg.ns)[..Find(AfterBrace(cfg.ns), '}')]);
    } else {
      forall b: nat | b < cfg.n
        ensures KeySlot(KeyFor(cfg, "*", 443, b)) == Slot(Utf8(AfterBrace(cfg.ns) + ":{" + cfg.tokens[b]))
      {
      }
    }
  }

  // ----- One slot a script call -----

  /** The keys of one tag in one lookup share a slot. */
  predicate SameKeySlot(cfg: Config, b: nat, p: string, q: string, port: int)
    requires cfg.Valid() && b < cfg.n
  {
    HashTag(p) == HashTag(q) ==> KeySlot(KeyFor(cfg, p, port, b)) == KeySlot(KeyFor(cfg, q, port, b))
  }

  /** Every script call of every lookup declares keys of one slot. */
  ghost predicate OneSlotPerCall(cfg: Config, b: nat)
    requires cfg.Valid() && b < cfg.n
  {
    forall fqdn, mode, port, i, j
      | Clean(fqdn) && ValidPort(port) && 0 <= i < |FieldCandidates(fqdn, mode)| && 0 <= j < |FieldCandidates(fqdn, mode)| ::
      SameKeySlot(cfg, b, FieldCandidates(fqdn, mode)[i].pattern, FieldCandidates(fqdn, mode)[j].pattern, port)
  }

  /** A name of three labels whose first is one letter, and the text of its key before and after that letter. */
  lemma LetterKey(cfg: Config, b: nat, y: string) returns (pre: string, post: string)
    requires cfg.Valid() && b < cfg.n && y != "" && '.' !in y && '*' !in y
    ensures forall x: char :: x != '.' && x != '*' ==> KeyFor(cfg, [x] + "." + (y + "." + "c"), 443, b) == pre + [x] + post
  {
    var tag := y + "." + "c";
    var tail := "." + tag + ":" + Integer(443);
    hide HashTag, Integer, Decimal, IsBucketedTag;
    if IsBucketedTag(tag) && cfg.n > 1 {
      pre := "r:" + cfg.ns + ":{" + cfg.tokens[b] + "}:" + tag + ":" + Decimal(b) + ":";
    } else {
      pre := "r:{" + cfg.ns + ":" + tag + "}:";
    }
    post := tail;
    forall x: char | x != '.' && x != '*'
      ensures KeyFor(cfg, [x] + "." + (y + "." + "c"), 443, b) == pre + [x] + post
    {
      ThreeTags([x], y, "c");
      var p := [x] + "." + (y + "." + "c");
      assert pre + p + ":" + Integer(443) == pre + [x] + tail;
    }
  }

  lemma LettersApart()
    ensures BitApart('k' as int, 'j' as int, 0) && BitApart('h' as int, 'j' as int, 1) && BitApart('n' as int, 'j' as int, 2)
  {
    assert Bits8('j' as int) == [false, true, true, false, true, false, true, false];
    assert Bits8('k' as int) == [false, true, true, false, true, false, true, true];
    assert Bits8('h' as int) == [false, true, true, false, true, false, false, false];
    assert Bits8('n' as int) == [false, true, true, false, true, true, true, false];
    SmallBits(1);
    SmallBits(2);
    SmallBits(4);
  }

  function LetterAt(pre: string, x: char, post: string): nat {
    Slot(Utf8(pre + [x] + post))
  }

  /** Of four texts that differ in one letter two have different slots. */
  lemma LettersPart(pre: string, post: string)
    ensures var s := LetterAt(pre, 'j', post);
            LetterAt(pre, 'k', post) != s || LetterAt(pre, 'h', post) != s || LetterAt(pre, 'n', post) != s
  {
    hide LetterAt, Utf8, Pow, BitApart, HasLowBit;
    var k := 16 + 8 * |Utf8(post)|;
    LettersApart();
    SomeLowBit(k);
    LetterFlip(pre, 'k', post, 0);
    LetterFlip(pre, 'h', post, 1);
    LetterFlip(pre, 'n', post, 2);
    assert 16 + 0 + 8 * |Utf8(post)| == k && 16 + 1 + 8 * |Utf8(post)| == k + 1 && 16 + 2 + 8 * |Utf8(post)| == k + 2;
  }

  lemma LetterFlip(pre: string, x: char, post: string, j: nat)
    requires x as int < 128 && BitApart(x as int, 'j' as int, j)
    ensures LetterAt(pre, x, post) == LetterAt(pre, 'j', post) ==> !HasLowBit(Pow(16 + j + 8 * |Utf8(post)|))
  {
    hide Slot, Utf8, Pow, BitApart, HasLowBit;
    if LetterAt(pre, x, post) == LetterAt(pre, 'j', post) {
      TextFlip(pre, x, 'j', post, j);
    }
  }

  /** When the keys of y's names are hashed whole, some name's two keys of one call have different slots. */
  lemma WholePart(cfg: Config, b: nat, y: string)
    requires cfg.Valid() && b < cfg.n && y != "" && '.' !in y && '*' !in y
    requires !HasSpan(cfg, y + "." + "c")
    ensures !OneSlotPerCall(cfg, b)
  {
    var pre, post := LetterKey(cfg, b, y);
    LettersPart(pre, post);
    hide HashedText, HashTag, KeyFor, HasSpan, LetterAt, Clean, FieldCandidates, OneSlotPerCall;
    if OneSlotPerCall(cfg, b) {
      LetterSlot(cfg, b, y, 'j', pre, post);
      LetterSlot(cfg, b, y, 'k', pre, post);
      LetterSlot(cfg, b, y, 'h', pre, post);
      LetterSlot(cfg, b, y, 'n', pre, post);
      assert false;
    }
  }

  lemma LetterSlot(cfg: Config, b: nat, y: string, x: char, pre: string, post: string)
    requires cfg.Valid() && b < cfg.n && y != "" && '.' !in y && '*' !in y && x != '.' && x != '*'
    requires !HasSpan(cfg, y + "." + "c") && OneSlotPerCall(cfg, b)
    requires KeyFor(cfg, [x] + "." + (y + "." + "c"), 443, b) == pre + [x] + post
    ensures LetterAt(pre, x, post) == KeySlot(KeyFor(cfg, "*." + (y + "." + "c"), 443, b))
  {
    hide HashedText, HashTag, Key, HasSpan, Slot, Utf8, Clean, FieldCandidates;
    var fqdn := TwoOfOneTag([x], y, "c");
    assert ValidPort(443);
    assert SameKeySlot(cfg, b, FieldCandidates(fqdn, SingleLevel)[0].pattern, FieldCandidates(fqdn, SingleLevel)[1].pattern, 443);
    ThreeTags([x], y, "c");
    GroupSharesSlot(cfg, y + "." + "c", b, [x] + "." + (y + "." + "c"), 443);
  }

  /** Exactly which namespaces keep each script call of each lookup on one slot. */
  lemma OneSlotPerCallIff(cfg: Config, b: nat)
    requires cfg.Valid() && b < cfg.n
    ensures OneSlotPerCall(cfg, b) <==> !StartsClosing(cfg.ns) && (cfg.n > 1 ==> !HasEmptySpan(cfg.ns))
  {
    hide HashedText, HashTag, FieldCandidates, Clean, IsBucketedTag, GroupText, HasEmptySpan, StartsClosing, Key, Slot, Utf8;
    if StartsClosing(cfg.ns) {
      PlainTag();
      WholePart(cfg, b, "b");
    } else if cfg.n > 1 && HasEmptySpan(cfg.ns) {
      BucketedTag();
      WholePart(cfg, b, "__tld__:b");
    } else {
      forall fqdn, mode, port, i, j
        | Clean(fqdn) && ValidPort(port) && 0 <= i < |FieldCandidates(fqdn, mode)| && 0 <= j < |FieldCandidates(fqdn, mode)|
        ensures SameKeySlot(cfg, b, FieldCandidates(fqdn, mode)[i].pattern, FieldCandidates(fqdn, mode)[j].pattern, port)
      {
        var p, q := FieldCandidates(fqdn, mode)[i].pattern, FieldCandidates(fqdn, mode)[j].pattern;
        GroupSharesSlot(cfg, HashTag(p), b, p, port);
        GroupSharesSlot(cfg, HashTag(q), b, q, port);
      }
    }
  }

  // ----- Three hashed texts a lookup -----

  /** The texts that one lookup's keys hash. */
  ghost function LookupTexts(cfg: Config, b: nat, fqdn: string, mode: MatchMode, port: int): set<string>
    requires cfg.Valid() && b < cfg.n
  {
    set i | 0 <= i < |FieldCandidates(fqdn, mode)| :: HashedText(KeyFor(cfg, FieldCandidates(fqdn, mode)[i].pattern, port, b))
  }

  ghost predicate ThreeTexts(cfg: Config, b: nat)
    requires cfg.Valid() && b < cfg.n
  {
    forall fqdn, mode, port :: Clean(fqdn) && ValidPort(port) ==> |LookupTexts(cfg, b, fqdn, mode, port)| <= 3
  }

  lemma AtMostThree(cfg: Config, b: nat, fqdn: string, mode: MatchMode, port: int)
    requires cfg.Valid() && b < cfg.n && Clean(fqdn) && OneTextPerCall(cfg, b)
    ensures |LookupTexts(cfg, b, fqdn, mode, port)| <= 3
    ensures cfg.n > 1 ==> |LookupTexts(cfg, b, fqdn, mode, port)| <= 2
  {
    hide HashedText, HashTag, FieldCandidates, KeyFor, GroupText, ReplicaSpan, OneTextPerCall, Clean;
    var labels := Split(fqdn, '.');
    hide Split;
    var own, top, all := GroupText(cfg, HashTag(fqdn), b), GroupText(cfg, "__tld__:" + labels[|labels| - 1], b),
                         GroupText(cfg, "__global__", b);
    forall i | 0 <= i < |FieldCandidates(fqdn, mode)|
      ensures var text := HashedText(KeyFor(cfg, FieldCandidates(fqdn, mode)[i].pattern, port, b));
              if cfg.n > 1 then text in {own, ReplicaSpan(cfg, b)} else text in {own, top, all}
    {
      LookupSlots(cfg, fqdn, mode, port, b, i);
    }
    var texts := LookupTexts(cfg, b, fqdn, mode, port);
    SetOfThree(own, top, all);
    if cfg.n > 1 {
      assert texts <= {own, ReplicaSpan(cfg, b)};
      SubsetSize(texts, {own, ReplicaSpan(cfg, b)});
      SetOfTwo(own, ReplicaSpan(cfg, b));
    } else {
      assert texts <= {own, top, all};
      SubsetSize(texts, {own, top, all});
    }
  }

  lemma SetOfTwo(a: string, b: string)
    ensures |{a, b}| <= 2
  {
    assert {a, b} == {a} + {b};
  }

  lemma SubsetSize(a: set<string>, b: set<string>)
    requires a <= b
    ensures |a| <= |b|
  {
    assert b == a + (b - a);
  }

  lemma FourTexts(texts: set<string>, a: string, b: string, c: string, d: string)
    requires a in texts && b in texts && c in texts && d in texts
    requires a != b && a != c && a != d && b != c && b != d && c != d
    ensures |texts| >= 4
  {
    SubsetSize({a, b, c, d}, texts);
    assert {a, b, c, d} == {a} + {b} + {c} + {d};
  }

  lemma InMiddle(a: string, b: string, z: string, c: char)
    requires c in b
    ensures c in a + b + z && c in a + (b + z)
  {
  }

  lemma KeyHasClosing(cfg: Config, p: string, port: int, b: nat)
    requires cfg.Valid() && b < cfg.n
    ensures '}' in KeyFor(cfg, p, port, b)
  {
    hide HashTag, Integer, Decimal, KeyFor;
    KeyIsBody(cfg, p, port, b);
    assert '}' in Body(cfg, p, b) by { BodyHasClosing(cfg, p, b); }
    InMiddle("", Body(cfg, p, b), [':'] + Integer(port), '}');
  }

  lemma BodyHasClosing(cfg: Config, p: string, b: nat)
    requires cfg.Valid() && b < cfg.n
    ensures '}' in Body(cfg, p, b)
  {
    hide HashTag, Decimal;
    if cfg.Buckets(p) {
      InMiddle(cfg.tokens[b], ['}'], ":" + (HashTag(p) + (":" + Decimal(b) + ":") + p), '}');
    } else {
      InMiddle(HashTag(p), "}:", p, '}');
    }
  }

  lemma SpanHasNoClosing(cfg: Config, tag: string, b: nat)
    requires cfg.Valid() && b < cfg.n
    ensures '}' !in GroupText(cfg, tag, b)
  {
    hide IsBucketedTag;
    if IsBucketedTag(tag) && cfg.n > 1 {
      TokenChars(cfg, b);
    }
  }

  /** A key hashed whole hashes a text of its own. */
  lemma WholeIsOwn(cfg: Config, b: nat, p: string, q: string, port: int)
    requires cfg.Valid() && b < cfg.n && p != q && !HasSpan(cfg, HashTag(p))
    ensures HashedText(KeyFor(cfg, p, port, b)) != HashedText(KeyFor(cfg, q, port, b))
  {
    hide HashedText, HashTag, HasSpan, Key, GroupText;
    GroupSharesSlot(cfg, HashTag(p), b, p, port);
    GroupSharesSlot(cfg, HashTag(q), b, q, port);
    KeyHasClosing(cfg, p, port, b);
    SpanHasNoClosing(cfg, HashTag(q), b);
    if KeyFor(cfg, p, port, b) == KeyFor(cfg, q, port, b) {
      KeyInjective(cfg, p, port, b, q, port, b);
    }
  }

  /** Four candidates, three of them hashed whole, hash four texts. */
  lemma FourKeys(cfg: Config, b: nat, fqdn: string)
    requires cfg.Valid() && b < cfg.n && Clean(fqdn) && |FieldCandidates(fqdn, MultiLevel)| >= 4
    requires var cs := FieldCandidates(fqdn, MultiLevel);
             forall i :: 0 <= i < 3 ==> !HasSpan(cfg, HashTag(cs[i].pattern))
    ensures |LookupTexts(cfg, b, fqdn, MultiLevel, 443)| >= 4
  {
    var cs := FieldCandidates(fqdn, MultiLevel);
    forall i, j | 0 <= i < j < 4
      ensures cs[i].pattern != cs[j].pattern
    {
      CandidateFacts(fqdn, MultiLevel, i);
      CandidateFacts(fqdn, MultiLevel, j);
      RanksIncrease(fqdn, MultiLevel);
    }
    hide HashedText, HashTag, HasSpan, KeyFor, FieldCandidates, Clean;
    var text := (i: nat) requires i < 4 => HashedText(KeyFor(cfg, cs[i].pattern, 443, b));
    forall i: nat, j: nat | i < 3 && i < j < 4
      ensures text(i) != text(j)
    {
      WholeIsOwn(cfg, b, cs[i].pattern, cs[j].pattern, 443);
    }
    FourTexts(LookupTexts(cfg, b, fqdn, MultiLevel, 443), text(0), text(1), text(2), text(3));
  }

  /** The tag of each level of a name. */
  lemma LevelTags(fqdn: string, k: nat)
    requires Clean(fqdn) && k < |Split(fqdn, '.')|
    ensures var labels, cs := Split(fqdn, '.'), FieldCandidates(fqdn, MultiLevel);
            && |cs| == |labels| + 1
            && HashTag(cs[k].pattern) ==
               if k == 0 || k < |labels| - 1 then HashTag(fqdn) else "__tld__:" + labels[|labels| - 1]
  {
    SplitParts(fqdn, '.');
    CandidateAtLevel(fqdn, MultiLevel, k);
    hide FieldCandidates, Split, HashTag, Clean, Join;
    if k > 0 {
      LevelTag(fqdn, Split(fqdn, '.'), k);
    }
  }

  lemma NoStar(a: string, b: string)
    requires '*' !in a && '*' !in b
    ensures '*' !in a + "." + b
  {
  }

  lemma FourLabels(w: string, x: string, y: string, z: string)
    requires IsLabel(w) && IsLabel(x) && IsLabel(y) && IsLabel(z)
    ensures Split(w + "." + (x + "." + (y + "." + z)), '.') == [w, x, y, z]
    ensures HashTag(w + "." + (x + "." + (y + "." + z))) == y + "." + z
  {
    hide Split, HashTag;
    assert w[0] in w;
    ThreeLabels(x, y, z);
    SplitCons(w, x + "." + (y + "." + z));
    assert [w] + [x, y, z] == [w, x, y, z];
    LastTwo(w, x, y, z);
  }

  lemma FourClean(w: string, x: string, y: string, z: string)
    requires IsLabel(w) && IsLabel(x) && IsLabel(y) && IsLabel(z)
    ensures Clean(w + "." + (x + "." + (y + "." + z)))
  {
    FourLabels(w, x, y, z);
    hide Split, HashTag;
    NoStar(y, z);
    NoStar(x, y + "." + z);
    NoStar(w, x + "." + (y + "." + z));
    assert "" !in [w, x, y, z];
  }

  lemma WholeFour(cfg: Config, b: nat, fqdn: string)
    requires cfg.Valid() && b < cfg.n && Clean(fqdn) && |Split(fqdn, '.')| >= 3
    requires !HasSpan(cfg, HashTag(fqdn))
    requires |Split(fqdn, '.')| > 3 || !HasSpan(cfg, "__tld__:" + Split(fqdn, '.')[|Split(fqdn, '.')| - 1])
    ensures !ThreeTexts(cfg, b)
  {
    hide HashTag, Split, Clean, FieldCandidates, LookupTexts, HasSpan;
    LevelTags(fqdn, 0);
    LevelTags(fqdn, 1);
    LevelTags(fqdn, 2);
    FourKeys(cfg, b, fqdn);
    assert ValidPort(443);
  }

  lemma ClosingFour(cfg: Config, b: nat)
    requires cfg.Valid() && b < cfg.n && StartsClosing(cfg.ns)
    ensures !ThreeTexts(cfg, b)
  {
    PlainTag();
    SmallLabels();
    hide HashTag, Split, Clean, IsBucketedTag, StartsClosing, ThreeTexts, IsLabel;
    FourLabels("a", "b", "b", "c");
    FourClean("a", "b", "b", "c");
    WholeFour(cfg, b, "a" + "." + ("b" + "." + ("b" + "." + "c")));
  }

  lemma TldTag(x: string)
    ensures IsBucketedTag("__tld__:" + x)
  {
  }

  lemma EmptySpanFour(cfg: Config, b: nat)
    requires cfg.Valid() && b < cfg.n && cfg.n > 1 && HasEmptySpan(cfg.ns)
    ensures !ThreeTexts(cfg, b)
  {
    BucketedTag();
    TldTag("c");
    SmallLabels();
    hide HashTag, Split, Clean, IsBucketedTag, HasEmptySpan, ThreeTexts, IsLabel;
    ThreeFacts("a", "__tld__:b", "c");
    WholeFour(cfg, b, "a" + "." + ("__tld__:b" + "." + "c"));
  }

  /** Exactly which namespaces keep every lookup on three hashed texts, and so on three slots. */
  lemma ThreeTextsIff(cfg: Config, b: nat)
    requires cfg.Valid() && b < cfg.n
    ensures ThreeTexts(cfg, b) <==> !StartsClosing(cfg.ns) && (cfg.n > 1 ==> !HasEmptySpan(cfg.ns))
  {
    hide LookupTexts, Clean, StartsClosing, HasEmptySpan, OneTextPerCall;
    OneTextPerCallIff(cfg, b);
    if StartsClosing(cfg.ns) {
      ClosingFour(cfg, b);
    } else if cfg.n > 1 && HasEmptySpan(cfg.ns) {
      EmptySpanFour(cfg, b);
    } else {
      forall fqdn, mode, port | Clean(fqdn) && ValidPort(port)
        ensures |LookupTexts(cfg, b, fqdn, mode, port)| <= 3
      {
        AtMostThree(cfg, b, fqdn, mode, port);
      }
    }
  }
}
