/**
 The share of the slot space each bucket owns, and the token search that finds,
 for every bucket, the first counter whose slot falls in its share.
 */
module Slots {
  import opened Text
  import opened Results
  import opened Crc16

  // ----- The floor-boundary partition, for any slot count s >= n >= 1 -----

  function Lo(i: nat, n: nat, s: nat): nat
    requires n >= 1
  {
    i * s / n
  }

  function SlotRange(i: nat, n: nat, s: nat): (nat, nat)
    requires n >= 1
  {
    (Lo(i, n, s), Lo(i + 1, n, s))
  }

  /** The bucket whose share holds slot x, in closed form. */
  function Owner(x: nat, n: nat, s: nat): nat
    requires n >= 1 && s >= 1
  {
    ((x + 1) * n - 1) / s
  }

  lemma MulSign(q: int, n: nat)
    ensures q >= 1 ==> q * n >= n
    ensures q >= 0 ==> q * n >= 0
    ensures q <= -1 ==> q * n + n <= 0
  {
  }

  lemma DivModUnique(a: int, q: int, r: nat, n: nat)
    requires r < n && a == q * n + r
    ensures a / n == q && a % n == r
  {
    var d := a / n - q;
    assert a == a / n * n + a % n;
    assert d * n == a / n * n - q * n;
    MulSign(d, n);
  }

  lemma DivAtMost(a: nat, d: nat, x: nat)
    requires d >= 1
    ensures a / d <= x <==> a < (x + 1) * d
  {
    var q, r := a / d, a % d;
    assert a == q * d + r && r < d;
    if q <= x {
      assert q * d <= x * d;
    } else {
      assert q * d >= (x + 1) * d;
    }
  }

  /** A share starts at or below slot x exactly when its bucket is at or below the owner. */
  lemma StartsBelow(b: nat, x: nat, n: nat, s: nat)
    requires n >= 1 && s >= 1
    ensures Lo(b, n, s) <= x <==> b <= Owner(x, n, s)
  {
    DivAtMost(b * s, n, x);
    var top := (x + 1) * n - 1;
    assert top >= 0;
    if b >= 1 {
      DivAtMost(top, s, b - 1);
    }
    assert b * s <= top <==> b <= top / s;
  }

  /** Every slot is in the share of its owner and in no other: the shares tile [0, s). */
  lemma OwnerIsUnique(x: nat, b: nat, n: nat, s: nat)
    requires 1 <= n && x < s
    ensures Owner(x, n, s) < n
    ensures Lo(b, n, s) <= x < Lo(b + 1, n, s) <==> b == Owner(x, n, s)
    ensures Owner(x, n, s) == ((x + 1) * n - 1) / s
    ensures Lo(0, n, s) == 0 && Lo(n, n, s) == s
  {
    StartsBelow(b, x, n, s);
    StartsBelow(b + 1, x, n, s);
    StartsBelow(n, x, n, s);
    assert n * s / n == s by { DivExact(s, n); }
  }

  /** A share starts at the floor of its exact boundary. */
  lemma StartsAreFloors(i: nat, n: nat, s: nat)
    requires n >= 1
    ensures Lo(i, n, s) * n <= i * s < (Lo(i, n, s) + 1) * n
  {
    DivAtMost(i * s, n, Lo(i, n, s));
    assert i * s == i * s / n * n + i * s % n;
  }

  lemma DivExact(s: nat, n: nat)
    requires n >= 1
    ensures n * s / n == s
  {
    DivAtMost(n * s, n, s);
    if s >= 1 {
      DivAtMost(n * s, n, s - 1);
    }
  }

  /** Shares are nonempty when s >= n, and no two differ in width by more than one. */
  lemma ShareWidths(i: nat, j: nat, n: nat, s: nat)
    requires 1 <= n <= s
    ensures Lo(i, n, s) < Lo(i + 1, n, s)
    ensures s / n <= Lo(i + 1, n, s) - Lo(i, n, s) <= s / n + 1
    ensures -1 <= (Lo(i + 1, n, s) - Lo(i, n, s)) - (Lo(j + 1, n, s) - Lo(j, n, s)) <= 1
  {
    DivSum(i * s, s, n);
    DivSum(j * s, s, n);
    assert (i + 1) * s == i * s + s && (j + 1) * s == j * s + s;
    DivExact(1, n);
    DivAtMost(s, n, 0);
  }

  lemma DivSum(a: nat, b: nat, n: nat)
    requires n >= 1
    ensures a / n + b / n <= (a + b) / n <= a / n + b / n + 1
  {
    var q, r := a / n + b / n, a % n + b % n;
    assert a == a / n * n + a % n && b == b / n * n + b % n;
    assert q * n == a / n * n + b / n * n;
    if r < n {
      DivModUnique(a + b, q, r, n);
    } else {
      assert (q + 1) * n == q * n + n;
      DivModUnique(a + b, q + 1, r - n, n);
    }
  }

  // ----- The residue test -----

  predicate HasModuloMatch(lo: nat, hi: nat, n: nat, i: nat)
    requires n >= 1
  {
    var smallest := lo + (i - lo) % n;
    smallest < hi
  }

  lemma ModuloMatchMeans(lo: nat, hi: nat, n: nat, i: nat)
    requires i < n
    ensures HasModuloMatch(lo, hi, n, i) <==> exists x :: lo <= x < hi && x % n == i
  {
    var d := (i - lo) % n;
    ModAdd(lo, i, n);
    if HasModuloMatch(lo, hi, n, i) {
      assert lo <= lo + d < hi && (lo + d) % n == i;
    }
    forall x | lo <= x < hi && x % n == i
      ensures lo + d <= x
    {
      ModDistance(x, lo, i, n);
    }
  }

  lemma ModAdd(lo: nat, i: nat, n: nat)
    requires i < n
    ensures (lo + (i - lo) % n) % n == i
  {
    var a := i - lo;
    assert a == a / n * n + a % n;
    assert (-(a / n)) * n == -(a / n * n);
    DivModUnique(lo + a % n, -(a / n), i, n);
  }

  lemma ModDistance(x: nat, lo: nat, i: nat, n: nat)
    requires i < n && lo <= x && x % n == i
    ensures (i - lo) % n <= x - lo
  {
    var a := i - lo;
    var q := a / n + x / n;
    assert x == x / n * n + i && a == a / n * n + a % n;
    assert q * n == a / n * n + x / n * n;
    MulSign(q, n);
  }

  /** Go's remainder takes the sign of its left operand. */
  function GoRem(a: int, n: nat): int
    requires n >= 1
  {
    if a >= 0 then a % n else -((-a) % n)
  }

  /** Division truncates toward zero, so the remainder is smaller than n and has the sign of a. */
  lemma GoRemMeans(a: int, n: nat)
    requires n >= 1
    ensures exists q :: a == q * n + GoRem(a, n)
    ensures -(n as int) < GoRem(a, n) < n && (a >= 0 ==> GoRem(a, n) >= 0) && (a <= 0 ==> GoRem(a, n) <= 0)
  {
    if a >= 0 {
      assert a == a / n * n + GoRem(a, n);
    } else {
      var q := (-a) / n;
      assert -a == q * n + (-a) % n;
      assert a == (-q) * n + GoRem(a, n);
    }
  }

  /** Go normalizes before it compares, which gives Python's remainder. */
  lemma GoModuloMatch(lo: nat, n: nat, i: nat)
    requires i < n
    ensures GoRem(GoRem(i - lo, n) + n, n) == (i - lo) % n
  {
    var a := i - lo;
    if a >= 0 {
      DivModUnique(a, 0, a, n);
      DivModUnique(a + n, 1, a, n);
    } else {
      var q, r := (-a) / n, (-a) % n;
      assert -a == q * n + r;
      if r == 0 {
        DivModUnique(n, 1, 0, n);
        DivModUnique(a, -q, 0, n);
      } else {
        DivModUnique(n - r, 0, n - r, n);
        assert (-q - 1) * n == -(q * n) - n;
        DivModUnique(a, -q - 1, n - r, n);
      }
    }
  }

  predicate ModuloSafe(n: nat, s: nat)
    requires n >= 1
  {
    forall i: nat :: i < n ==> HasModuloMatch(Lo(i, n, s), Lo(i + 1, n, s), n, i)
  }

  /** Wide enough shares hold every residue. */
  lemma ModuloSafeWhenWide(n: nat, s: nat)
    requires 1 <= n && n * n <= s
    ensures ModuloSafe(n, s)
  {
    forall i: nat | i < n
      ensures HasModuloMatch(Lo(i, n, s), Lo(i + 1, n, s), n, i)
    {
      assert n <= n * n;
      ShareWidths(i, i, n, s);
      DivAtMost(s, n, n - 1);
    }
  }

  method IsModuloSafe(n: nat) returns (safe: bool)
    requires 1 <= n
    ensures safe <==> ModuloSafe(n, NUM_SLOTS)
  {
    for i := 0 to n
      invariant forall j: nat :: j < i ==> HasModuloMatch(Lo(j, n, NUM_SLOTS), Lo(j + 1, n, NUM_SLOTS), n, j)
    {
      var (lo, hi) := SlotRange(i, n, NUM_SLOTS);
      var smallest := lo + GoRem(GoRem(i - lo, n) + n, n);
      GoModuloMatch(lo, n, i);
      if !(smallest < hi) {
        return false;
      }
    }
    return true;
  }

  // ----- Finding the owner by bisection -----

  predicate AreStarts(starts: seq<nat>, n: nat) {
    n >= 1 && |starts| == n && forall i :: 0 <= i < n ==> starts[i] == Lo(i, n, NUM_SLOTS)
  }

  /** Python's bisect_right. */
  method BisectRight(starts: seq<nat>, x: nat) returns (lo: nat)
    requires AreStarts(starts, |starts|) && x < NUM_SLOTS
    ensures lo - 1 == Owner(x, |starts|, NUM_SLOTS)
  {
    OwnerIsUnique(x, 0, |starts|, NUM_SLOTS);
    var hi := |starts|;
    lo := 0;
    while lo < hi
      invariant lo <= Owner(x, |starts|, NUM_SLOTS) + 1 <= hi <= |starts|
    {
      var mid := (lo + hi) / 2;
      StartsBelow(mid, x, |starts|, NUM_SLOTS);
      if x < starts[mid] {
        hi := mid;
      } else {
        lo := mid + 1;
      }
    }
  }

  /** Go's sort.Search for the first start above x. */
  method SortSearch(starts: seq<nat>, x: nat) returns (i: nat)
    requires AreStarts(starts, |starts|) && x < NUM_SLOTS
    ensures i - 1 == Owner(x, |starts|, NUM_SLOTS)
  {
    OwnerIsUnique(x, 0, |starts|, NUM_SLOTS);
    var j := |starts|;
    i := 0;
    while i < j
      invariant i <= Owner(x, |starts|, NUM_SLOTS) + 1 <= j <= |starts|
    {
      var h := (i + j) / 2;
      StartsBelow(h, x, |starts|, NUM_SLOTS);
      if !(starts[h] > x) {
        i := h + 1;
      } else {
        j := h;
      }
    }
  }

  /** Go's sort.SearchInts: the first start at or above the target. */
  method SearchInts(starts: seq<nat>, target: nat) returns (i: nat)
    requires AreStarts(starts, |starts|) && 1 <= target <= NUM_SLOTS
    ensures i - 1 == Owner(target - 1, |starts|, NUM_SLOTS)
  {
    OwnerIsUnique(target - 1, 0, |starts|, NUM_SLOTS);
    var j := |starts|;
    i := 0;
    while i < j
      invariant i <= Owner(target - 1, |starts|, NUM_SLOTS) + 1 <= j <= |starts|
    {
      var h := (i + j) / 2;
      StartsBelow(h, target - 1, |starts|, NUM_SLOTS);
      if !(starts[h] >= target) {
        i := h + 1;
      } else {
        j := h;
      }
    }
  }

  // ----- The token table -----

  datatype BucketTable = BucketTable(tokens: seq<string>, slots: seq<nat>, moduloSafe: bool)

  function Utf8Char(c: char): seq<Byte> {
    var n := c as int;
    if n < 0x80 then [n]
    else if n < 0x800 then [0xC0 + n / 64, 0x80 + n % 64]
    else if n < 0x10000 then [0xE0 + n / 4096, 0x80 + n / 64 % 64, 0x80 + n % 64]
    else [0xF0 + n / 262144, 0x80 + n / 4096 % 64, 0x80 + n / 64 % 64, 0x80 + n % 64]
  }

  function Utf8(s: string): seq<Byte> {
    if s == "" then [] else Utf8Char(s[0]) + Utf8(s[1..])
  }

  /** A continuation byte carries six bits. */
  predicate Continues(b: Byte) { 0x80 <= b < 0xC0 }

  function Six(b: Byte): int { b as int - 0x80 }

  /** The encoding of one character, read back as section 3 of RFC 3629 defines it. */
  lemma Utf8CharMeans(c: char)
    ensures var e, n := Utf8Char(c), c as int;
            match |e|
            case 1 => n < 0x80 && e[0] == n
            case 2 => 0x80 <= n < 0x800 && 0xC0 <= e[0] < 0xE0 && Continues(e[1]) && n == (e[0] as int - 0xC0) * 64 + Six(e[1])
            case 3 =>
              && 0x800 <= n < 0x10000 && 0xE0 <= e[0] < 0xF0 && Continues(e[1]) && Continues(e[2])
              && n == (e[0] as int - 0xE0) * 4096 + Six(e[1]) * 64 + Six(e[2])
            case 4 =>
              && 0x10000 <= n < 0x110000 && 0xF0 <= e[0] < 0xF5 && Continues(e[1]) && Continues(e[2]) && Continues(e[3])
              && n == (e[0] as int - 0xF0) * 262144 + Six(e[1]) * 4096 + Six(e[2]) * 64 + Six(e[3])
            case _ => false
  {
    var n: nat := c as int;
    SixBits(n);
    SixBits(n / 64);
    SixBits(n / 4096);
  }

  lemma SixBits(n: nat)
    ensures n == n / 64 * 64 + n % 64 && n / 64 / 64 == n / 4096 && n / 4096 / 64 == n / 262144
  {
  }

  lemma {:induction false} Utf8Concat(a: string, b: string)
    ensures Utf8(a + b) == Utf8(a) + Utf8(b)
    decreases |a|
  {
    hide Utf8Char;
    if a == "" {
      assert a + b == b;
    } else {
      assert (a + b)[1..] == a[1..] + b;
      Utf8Concat(a[1..], b);
    }
  }

  function CounterSlot(k: nat): (s: nat)
    ensures s < NUM_SLOTS
  {
    Slot(Utf8(Decimal(k)))
  }

  /** Counter k fits bucket b of n. */
  predicate Fits(k: nat, b: nat, n: nat)
    requires n >= 1
  {
    && Lo(b, n, NUM_SLOTS) <= CounterSlot(k) < Lo(b + 1, n, NUM_SLOTS)
    && (ModuloSafe(n, NUM_SLOTS) ==> CounterSlot(k) % n == b)
  }

  predicate IsFirstFit(k: nat, b: nat, n: nat)
    requires n >= 1
  {
    Fits(k, b, n) && forall j: nat :: j < k ==> !Fits(j, b, n)
  }

  ghost predicate IsTable(t: BucketTable, n: nat) {
    && n >= 1
    && |t.tokens| == |t.slots| == n
    && t.moduloSafe == ModuloSafe(n, NUM_SLOTS)
    && forall b: nat :: b < n ==> IsEntry(t.tokens[b], t.slots[b], b, n)
  }

  ghost predicate IsEntry(token: string, slot: nat, b: nat, n: nat)
    requires n >= 1
  {
    exists k: nat :: IsFirstFit(k, b, n) && token == Decimal(k) && slot == CounterSlot(k)
  }

  ghost predicate FitsWithin(b: nat, n: nat, cap: nat)
    requires n >= 1
  {
    exists k: nat :: k <= cap && Fits(k, b, n)
  }

  /** The search can finish within its cap on draws. */
  ghost predicate Fillable(n: nat, cap: nat)
    requires n >= 1
  {
    forall b: nat :: b < n ==> FitsWithin(b, n, cap)
  }

  lemma FirstFitUnique(k: nat, j: nat, b: nat, n: nat)
    requires n >= 1 && IsFirstFit(k, b, n) && IsFirstFit(j, b, n)
    ensures k == j
  {
  }

  /** The bucket count alone fixes the table: every process computes the same one. */
  lemma TableUnique(t: BucketTable, u: BucketTable, n: nat)
    requires IsTable(t, n) && IsTable(u, n)
    ensures t == u
  {
    forall b: nat | b < n
      ensures t.tokens[b] == u.tokens[b] && t.slots[b] == u.slots[b]
    {
      assert IsEntry(t.tokens[b], t.slots[b], b, n) && IsEntry(u.tokens[b], u.slots[b], b, n);
      var k: nat :| IsFirstFit(k, b, n) && t.tokens[b] == Decimal(k) && t.slots[b] == CounterSlot(k);
      var j: nat :| IsFirstFit(j, b, n) && u.tokens[b] == Decimal(j) && u.slots[b] == CounterSlot(j);
      FirstFitUnique(k, j, b, n);
    }
  }

  /** What a store needs of its tokens: digits only, and no two alike. */
  predicate GoodTokens(tokens: seq<string>, n: nat) {
    && |tokens| == n
    && (forall b :: 0 <= b < n ==> tokens[b] != "" && forall c :: c in tokens[b] ==> IsDigit(c))
    && (forall a, b :: 0 <= a < b < n ==> tokens[a] != tokens[b])
  }

  /** Each token hashes into its own bucket's share, so tokens are placed and distinct. */
  lemma TokensArePlaced(t: BucketTable, n: nat)
    requires IsTable(t, n)
    ensures forall b: nat :: b < n ==>
              && t.slots[b] == Slot(Utf8(t.tokens[b]))
              && Lo(b, n, NUM_SLOTS) <= t.slots[b] < Lo(b + 1, n, NUM_SLOTS)
              && (t.moduloSafe ==> t.slots[b] % n == b)
    ensures GoodTokens(t.tokens, n)
  {
    forall b: nat | b < n
      ensures t.slots[b] == Slot(Utf8(t.tokens[b]))
      ensures Lo(b, n, NUM_SLOTS) <= t.slots[b] < Lo(b + 1, n, NUM_SLOTS)
      ensures t.moduloSafe ==> t.slots[b] % n == b
      ensures t.tokens[b] != "" && forall c :: c in t.tokens[b] ==> IsDigit(c)
    {
      assert IsEntry(t.tokens[b], t.slots[b], b, n);
    }
    forall a, b | 0 <= a < b < n
      ensures t.tokens[a] != t.tokens[b]
    {
      OwnerIsUnique(t.slots[a], a, n, NUM_SLOTS);
      OwnerIsUnique(t.slots[a], b, n, NUM_SLOTS);
    }
  }

  /** Slot x suits bucket b: in its share, and of its residue when every share has a slot of its own residue. */
  ghost predicate Suits(x: nat, b: nat, n: nat)
    requires n >= 1
  {
    && b * 16384 / n <= x < (b + 1) * 16384 / n
    && ((forall c: nat :: c < n ==> HasOwnResidue(c, n)) ==> x % n == b)
  }

  ghost predicate HasOwnResidue(c: nat, n: nat)
    requires n >= 1
  {
    exists x :: c * 16384 / n <= x < (c + 1) * 16384 / n && x % n == c
  }

  lemma OwnResidue(c: nat, n: nat)
    requires n >= 1 && c < n
    ensures HasModuloMatch(Lo(c, n, 16384), Lo(c + 1, n, 16384), n, c) <==> HasOwnResidue(c, n)
  {
    ModuloMatchMeans(Lo(c, n, 16384), Lo(c + 1, n, 16384), n, c);
    StartsAreFloors(c, n, 16384);
    StartsAreFloors(c + 1, n, 16384);
  }

  lemma ModuloSafeMeans(n: nat)
    requires n >= 1
    ensures ModuloSafe(n, 16384) <==> forall c: nat :: c < n ==> HasOwnResidue(c, n)
  {
    hide HasModuloMatch, HasOwnResidue;
    if ModuloSafe(n, 16384) {
      forall c: nat | c < n
        ensures HasOwnResidue(c, n)
      {
        OwnResidue(c, n);
      }
    } else {
      var c: nat :| c < n && !HasModuloMatch(Lo(c, n, 16384), Lo(c + 1, n, 16384), n, c);
      OwnResidue(c, n);
    }
  }

  /** The token of a bucket is the first number, counting from 0, whose text hashes to a suitable slot. */
  lemma TokensAreFirst(t: BucketTable, n: nat, b: nat)
    requires IsTable(t, n) && b < n
    ensures t.moduloSafe <==> forall c: nat :: c < n ==> HasOwnResidue(c, n)
    ensures exists k: nat :: t.tokens[b] == Decimal(k) && Suits(Slot(Utf8(Decimal(k))), b, n)
                             && forall j: nat :: j < k ==> !Suits(Slot(Utf8(Decimal(j))), b, n)
  {
    ModuloSafeMeans(n);
    assert IsEntry(t.tokens[b], t.slots[b], b, n);
    var k: nat :| IsFirstFit(k, b, n) && t.tokens[b] == Decimal(k) && t.slots[b] == CounterSlot(k);
    forall j: nat
      ensures Suits(Slot(Utf8(Decimal(j))), b, n) <==> Fits(j, b, n)
    {
      hide ModuloSafe, HasOwnResidue, Decimal, Utf8, Slot;
      StartsAreFloors(b, n, 16384);
      StartsAreFloors(b + 1, n, 16384);
    }
    hide Suits, Fits;
  }

  // ----- The search -----

  /** Which counters the first k draws have given to the buckets. */
  function Draws(n: nat, k: nat): (d: seq<Option<nat>>)
    requires n >= 1
    ensures |d| == n
  {
    if k == 0 then seq(n, _ => None)
    else
      var d := Draws(n, k - 1);
      var x := CounterSlot(k - 1);
      OwnerIsUnique(x, 0, n, NUM_SLOTS);
      var b := Owner(x, n, NUM_SLOTS);
      if d[b].None? && (ModuloSafe(n, NUM_SLOTS) ==> x % n == b) then d[b := Some(k - 1)] else d
  }

  /** Bucket b after k draws: its first fit, or no counter drawn so far fits it. */
  predicate Holds(o: Option<nat>, b: nat, n: nat, k: nat)
    requires n >= 1
  {
    match o
    case Some(j) => j < k && IsFirstFit(j, b, n)
    case None => forall j: nat :: j < k ==> !Fits(j, b, n)
  }

  lemma FitsIsOwner(k: nat, b: nat, n: nat)
    requires n >= 1
    ensures Fits(k, b, n) <==>
              b == Owner(CounterSlot(k), n, NUM_SLOTS) && (ModuloSafe(n, NUM_SLOTS) ==> CounterSlot(k) % n == b)
  {
    hide ModuloSafe, CounterSlot, Lo, Owner;
    OwnerIsUnique(CounterSlot(k), b, n, NUM_SLOTS);
  }

  lemma HoldsStep(o: Option<nat>, b: nat, n: nat, k: nat)
    requires n >= 1 && Holds(o, b, n, k)
    ensures Holds(if o.None? && Fits(k, b, n) then Some(k) else o, b, n, k + 1)
  {
    hide Fits;
  }

  lemma {:induction false} DrawsFirstFit(n: nat, k: nat)
    requires n >= 1
    ensures forall b: nat :: b < n ==> Holds(Draws(n, k)[b], b, n, k)
  {
    if k == 0 {
      assert forall b: nat :: b < n ==> Draws(n, k)[b].None?;
    } else {
      DrawsFirstFit(n, k - 1);
      var d, d' := Draws(n, k - 1), Draws(n, k);
      var owner := Owner(CounterSlot(k - 1), n, NUM_SLOTS);
      OwnerIsUnique(CounterSlot(k - 1), 0, n, NUM_SLOTS);
      hide Holds, ModuloSafe, CounterSlot, Owner, Fits;
      forall b: nat | b < n
        ensures Holds(d'[b], b, n, k)
      {
        HoldsStep(d[b], b, n, k - 1);
        FitsIsOwner(k - 1, b, n);
      }
    }
  }

  function CountSome(d: seq<Option<nat>>): (c: nat)
    ensures c <= |d|
  {
    if d == [] then 0 else CountSome(d[..|d| - 1]) + if d[|d| - 1].Some? then 1 else 0
  }

  lemma {:induction false} CountSomeUpdate(d: seq<Option<nat>>, b: nat, k: nat)
    requires b < |d| && d[b].None?
    ensures CountSome(d[b := Some(k)]) == CountSome(d) + 1
  {
    var m := |d| - 1;
    if b < m {
      CountSomeUpdate(d[..m], b, k);
      assert d[b := Some(k)][..m] == d[..m][b := Some(k)];
    } else {
      assert d[b := Some(k)][..m] == d[..m];
    }
  }

  lemma {:induction false} CountSomeAll(d: seq<Option<nat>>)
    ensures CountSome(d) == |d| <==> forall b :: 0 <= b < |d| ==> d[b].Some?
  {
    if d != [] {
      CountSomeAll(d[..|d| - 1]);
    }
  }

  lemma CountSomeNone(d: seq<Option<nat>>)
    requires forall b :: 0 <= b < |d| ==> d[b].None?
    ensures CountSome(d) == 0
  {
  }

  /** How the search ends: all buckets filled, or the cap passed with one still empty. */
  lemma SearchEnds(n: nat, k: nat, cap: nat)
    requires n >= 1 && k <= cap + 1
    ensures CountSome(Draws(n, k)) == n ==> Fillable(n, cap)
    ensures CountSome(Draws(n, k)) < n && k == cap + 1 ==> !Fillable(n, cap)
  {
    var d := Draws(n, k);
    hide Draws, IsFirstFit, Fits, CountSome;
    DrawsFirstFit(n, k);
    CountSomeAll(d);
    if CountSome(d) == n {
      forall b: nat | b < n
        ensures FitsWithin(b, n, cap)
      {
        FirstFitFits(d[b].value, b, n);
      }
    } else if k == cap + 1 {
      var b: nat :| b < n && d[b].None?;
      assert !FitsWithin(b, n, cap);
    }
  }

  lemma FirstFitFits(k: nat, b: nat, n: nat)
    requires n >= 1 && IsFirstFit(k, b, n)
    ensures Fits(k, b, n)
  {
  }

  function TokenAt(o: Option<nat>): Option<string> {
    match o case None => None case Some(k) => Some(Decimal(k))
  }

  function SlotAt(o: Option<nat>): Option<nat> {
    match o case None => None case Some(k) => Some(CounterSlot(k))
  }

  /** A builder's two lists against the draws. */
  predicate Mirrors(tokens: seq<Option<string>>, slots: seq<Option<nat>>, d: seq<Option<nat>>) {
    && |tokens| == |slots| == |d|
    && forall b :: 0 <= b < |d| ==> tokens[b] == TokenAt(d[b]) && slots[b] == SlotAt(d[b])
  }

  /** One draw, as the builders make it. */
  lemma DrawStep(n: nat, k: nat, tokens: seq<Option<string>>, slots: seq<Option<nat>>, b: nat, free: bool)
    requires n >= 1 && Mirrors(tokens, slots, Draws(n, k))
    requires b == Owner(CounterSlot(k), n, NUM_SLOTS)
    requires free == (ModuloSafe(n, NUM_SLOTS) ==> CounterSlot(k) % n == b)
    ensures b < n == |tokens| == |slots|
    ensures tokens[b].None? && free ==>
              && Mirrors(tokens[b := Some(Decimal(k))], slots[b := Some(CounterSlot(k))], Draws(n, k + 1))
              && CountSome(Draws(n, k + 1)) == CountSome(Draws(n, k)) + 1
    ensures !(tokens[b].None? && free) ==>
              && Mirrors(tokens, slots, Draws(n, k + 1))
              && CountSome(Draws(n, k + 1)) == CountSome(Draws(n, k))
  {
    hide Decimal, CounterSlot, ModuloSafe, CountSome;
    OwnerIsUnique(CounterSlot(k), 0, n, NUM_SLOTS);
    if tokens[b].None? && free {
      CountSomeUpdate(Draws(n, k), b, k);
    }
  }

  lemma MirrorsStart(tokens: seq<Option<string>>, slots: seq<Option<nat>>, n: nat)
    requires n >= 1 && |tokens| == |slots| == n
    requires forall b :: 0 <= b < n ==> tokens[b].None? && slots[b].None?
    ensures Mirrors(tokens, slots, Draws(n, 0)) && CountSome(Draws(n, 0)) == 0
  {
    CountSomeNone(Draws(n, 0));
  }

  /** A filled search is the table. */
  lemma FilledIsTable(n: nat, k: nat, tokens: seq<Option<string>>, slots: seq<Option<nat>>, t: BucketTable)
    requires n >= 1 && CountSome(Draws(n, k)) == n && Mirrors(tokens, slots, Draws(n, k))
    requires |t.tokens| == |t.slots| == n && t.moduloSafe == ModuloSafe(n, NUM_SLOTS)
    requires forall b :: 0 <= b < n && tokens[b].Some? ==> t.tokens[b] == tokens[b].value
    requires forall b :: 0 <= b < n && slots[b].Some? ==> t.slots[b] == slots[b].value
    ensures IsTable(t, n)
  {
    hide Draws, CountSome, IsFirstFit, CounterSlot, Decimal;
    DrawsFirstFit(n, k);
    CountSomeAll(Draws(n, k));
    forall b: nat | b < n
      ensures IsEntry(t.tokens[b], t.slots[b], b, n)
    {
      assert Holds(Draws(n, k)[b], b, n, k);
      assert IsFirstFit(Draws(n, k)[b].value, b, n);
    }
  }

  /** The natural logarithm rounded up: the bounds are the whole parts of the powers of e. */
  function CeilLog(n: nat): nat
    requires n <= NUM_SLOTS
  {
    if n <= 2 then 1 else if n <= 7 then 2 else if n <= 20 then 3 else if n <= 54 then 4 else if n <= 148 then 5
    else if n <= 403 then 6 else if n <= 1096 then 7 else if n <= 2980 then 8 else if n <= 8103 then 9 else 10
  }

  /** The source's own cap on draws. */
  function IterationCap(n: nat): nat
    requires n <= NUM_SLOTS
  {
    200 * n * CeilLog(n) + 10_000
  }

  function RealPower(x: real, k: nat): real {
    if k == 0 then 1.0 else x * RealPower(x, k - 1)
  }

  /** The number e lies between these. */
  const E_BELOW: real := 2.718281828
  const E_ABOVE: real := 2.718281829

  lemma PowersBelow()
    ensures RealPower(E_BELOW, 1) >= 2.0 && RealPower(E_BELOW, 2) >= 7.0 && RealPower(E_BELOW, 3) >= 20.0
    ensures RealPower(E_BELOW, 4) >= 54.0 && RealPower(E_BELOW, 5) >= 148.0 && RealPower(E_BELOW, 6) >= 403.0
    ensures RealPower(E_BELOW, 7) >= 1096.0 && RealPower(E_BELOW, 8) >= 2980.0 && RealPower(E_BELOW, 9) >= 8103.0
    ensures RealPower(E_BELOW, 10) >= 16384.0
  {
    assert RealPower(E_BELOW, 0) == 1.0;
    assert RealPower(E_BELOW, 1) >= 2.71828;
    assert RealPower(E_BELOW, 2) >= 7.38905;
    assert RealPower(E_BELOW, 3) >= 20.08552;
    assert RealPower(E_BELOW, 4) >= 54.59810;
    assert RealPower(E_BELOW, 5) >= 148.41302;
    assert RealPower(E_BELOW, 6) >= 403.42841;
    assert RealPower(E_BELOW, 7) >= 1096.63211;
    assert RealPower(E_BELOW, 8) >= 2980.95513;
    assert RealPower(E_BELOW, 9) >= 8103.07615;
    assert RealPower(E_BELOW, 10) >= 22026.44464;
  }

  lemma PowersAbove()
    ensures RealPower(E_ABOVE, 0) < 2.0 && RealPower(E_ABOVE, 1) < 3.0 && RealPower(E_ABOVE, 2) < 8.0
    ensures RealPower(E_ABOVE, 3) < 21.0 && RealPower(E_ABOVE, 4) < 55.0 && RealPower(E_ABOVE, 5) < 149.0
    ensures RealPower(E_ABOVE, 6) < 404.0 && RealPower(E_ABOVE, 7) < 1097.0 && RealPower(E_ABOVE, 8) < 2981.0
    ensures RealPower(E_ABOVE, 9) < 8104.0
  {
    assert RealPower(E_ABOVE, 0) == 1.0;
    assert RealPower(E_ABOVE, 1) <= 2.71829;
    assert RealPower(E_ABOVE, 2) <= 7.38908;
    assert RealPower(E_ABOVE, 3) <= 20.08561;
    assert RealPower(E_ABOVE, 4) <= 54.59835;
    assert RealPower(E_ABOVE, 5) <= 148.41371;
    assert RealPower(E_ABOVE, 6) <= 403.43030;
    assert RealPower(E_ABOVE, 7) <= 1096.63726;
    assert RealPower(E_ABOVE, 8) <= 2980.96914;
    assert RealPower(E_ABOVE, 9) <= 8103.11425;
  }

  /** The rounded logarithm of a count of at least 2, and the cap it gives. */
  lemma CapMeans(n: nat)
    requires n <= NUM_SLOTS
    ensures var c, top := CeilLog(n), if n < 2 then 2 else n;
            && c >= 1
            && RealPower(E_ABOVE, c - 1) < top as real <= RealPower(E_BELOW, c)
            && IterationCap(n) == 200 * n * c + 10000
  {
    PowersBelow();
    PowersAbove();
    hide RealPower;
  }

  /** What every builder promises: the table, or the reason there is none. */
  ghost predicate Built(r: Result<BucketTable>, n: int, cap: nat) {
    if !(1 <= n <= NUM_SLOTS) then r == Failure(BucketCountOutOfRange)
    else
      && (r.Success? ==> Fillable(n, cap) && IsTable(r.value, n))
      && (r.Failure? ==> !Fillable(n, cap) && r.error == DrawCapReached)
  }

  /** fqdn_slots.py: an empty place holds None, bisect_right finds the bucket. */
  method ComputeTablePython(n: int) returns (r: Result<BucketTable>)
    ensures Built(r, n, if 1 <= n <= NUM_SLOTS then IterationCap(n) else 0)
  {
    if !(1 <= n <= NUM_SLOTS) {
      return Failure(BucketCountOutOfRange);
    }
    var starts := seq(n, i requires 0 <= i < n => SlotRange(i, n, NUM_SLOTS).0);
    var moduloSafe := IsModuloSafe(n);
    r := FillPython(n, IterationCap(n), starts, moduloSafe);
  }

  method FillPython(n: nat, cap: nat, starts: seq<nat>, moduloSafe: bool) returns (r: Result<BucketTable>)
    requires 1 <= n == |starts| && AreStarts(starts, |starts|) && n <= NUM_SLOTS && moduloSafe == ModuloSafe(n, NUM_SLOTS)
    ensures Built(r, n, cap)
  {
    hide Draws, ModuloSafe, Owner, Decimal, CountSome, Fillable, IsTable, Utf8, Slot, Mirrors, AreStarts;
    var tokens := new Option<string>[n](_ => None);
    var slots := new Option<nat>[n](_ => None);
    var filled, k := 0, 0;
    MirrorsStart(tokens[..], slots[..], n);
    while filled < n
      invariant k <= cap + 1 && filled == CountSome(Draws(n, k)) <= n
      invariant Mirrors(tokens[..], slots[..], Draws(n, k))
      decreases cap + 1 - k
    {
      SearchEnds(n, k, cap);
      if k > cap {
        return Failure(DrawCapReached);
      }
      var candidate := Decimal(k);
      var x: nat := Slot(Utf8(candidate));
      var right := BisectRight(starts, x);
      var bucket := right - 1;
      DrawStep(n, k, tokens[..], slots[..], bucket, !moduloSafe || x % n == bucket);
      ghost var t, s := tokens[..], slots[..];
      if tokens[bucket].None? && (!moduloSafe || x % n == bucket) {
        tokens[bucket] := Some(candidate);
        slots[bucket] := Some(x);
        filled := filled + 1;
        assert tokens[..] == t[bucket := Some(candidate)] && slots[..] == s[bucket := Some(x)];
      }
      k := k + 1;
    }
    SearchEnds(n, k, cap);
    AllPresent(n, k, tokens[..], slots[..]);
    r := Success(BucketTable(Present(tokens[..]), Present(slots[..]), moduloSafe));
    FilledIsTable(n, k, tokens[..], slots[..], r.value);
  }

  function Present<T>(s: seq<Option<T>>): (r: seq<T>)
    requires forall o :: o in s ==> o.Some?
    ensures |r| == |s| && forall b :: 0 <= b < |r| ==> r[b] == s[b].value
  {
    seq(|s|, b requires 0 <= b < |s| && s[b].Some? => s[b].value)
  }

  lemma AllPresent(n: nat, k: nat, tokens: seq<Option<string>>, slots: seq<Option<nat>>)
    requires n >= 1 && CountSome(Draws(n, k)) == n && Mirrors(tokens, slots, Draws(n, k))
    ensures forall o :: o in tokens ==> o.Some?
    ensures forall o :: o in slots ==> o.Some?
  {
    hide Draws, CountSome;
    CountSomeAll(Draws(n, k));
  }

  /** A list whose places count as present when flagged. */
  function View<T>(flags: seq<bool>, vals: seq<T>): (r: seq<Option<T>>)
    requires |flags| == |vals|
    ensures |r| == |vals| && forall b :: 0 <= b < |r| ==> r[b] == if flags[b] then Some(vals[b]) else None
  {
    seq(|vals|, b requires 0 <= b < |flags| == |vals| => if flags[b] then Some(vals[b]) else None)
  }

  lemma ViewUpdate<T>(flags: seq<bool>, vals: seq<T>, b: nat, x: T)
    requires |flags| == |vals| && b < |vals|
    ensures View<T>(flags[b := true], vals[b := x]) == View<T>(flags, vals)[b := Some(x)]
  {
  }

  /** go-router-service: a separate array of flags, SearchInts for the slot after. */
  method ComputeTableService(n: int) returns (r: Result<BucketTable>)
    ensures Built(r, n, if 1 <= n <= NUM_SLOTS then IterationCap(n) else 0)
  {
    if n < 1 || n > NUM_SLOTS {
      return Failure(BucketCountOutOfRange);
    }
    var starts := seq(n, i requires 0 <= i < n => SlotRange(i, n, NUM_SLOTS).0);
    var moduloSafe := IsModuloSafe(n);
    r := FillService(n, IterationCap(n), starts, moduloSafe);
  }

  method FillService(n: nat, cap: nat, starts: seq<nat>, moduloSafe: bool) returns (r: Result<BucketTable>)
    requires 1 <= n == |starts| && AreStarts(starts, |starts|) && n <= NUM_SLOTS && moduloSafe == ModuloSafe(n, NUM_SLOTS)
    ensures Built(r, n, cap)
  {
    hide Draws, ModuloSafe, Owner, Decimal, CountSome, Fillable, IsTable, Utf8, Slot, Mirrors, AreStarts;
    var tokens := new string[n](_ => "");
    var slots := new nat[n](_ => 0);
    var filled := new bool[n](_ => false);
    var numFilled, k := 0, 0;
    MirrorsStart(View<string>(filled[..], tokens[..]), View<nat>(filled[..], slots[..]), n);
    while numFilled < n
      invariant k <= cap + 1 && numFilled == CountSome(Draws(n, k)) <= n
      invariant Mirrors(View<string>(filled[..], tokens[..]), View<nat>(filled[..], slots[..]), Draws(n, k))
      decreases cap + 1 - k
    {
      ghost var toks: seq<string>, slts: seq<nat>, flags: seq<bool> := tokens[..], slots[..], filled[..];
      ghost var t, s := View<string>(flags, toks), View<nat>(flags, slts);
      SearchEnds(n, k, cap);
      if k > cap {
        return Failure(DrawCapReached);
      }
      var candidate := Decimal(k);
      var x: nat := Slot(Utf8(candidate));
      var right := SearchInts(starts, x + 1);
      var bucket := right - 1;
      DrawStep(n, k, t, s, bucket, !moduloSafe || x % n == bucket);
      if !filled[bucket] && (!moduloSafe || x % n == bucket) {
        tokens[bucket] := candidate;
        slots[bucket] := x;
        filled[bucket] := true;
        numFilled := numFilled + 1;
        assert tokens[..] == toks[bucket := candidate] && slots[..] == slts[bucket := x] && filled[..] == flags[bucket := true];
        ViewUpdate<string>(flags, toks, bucket, candidate);
        ViewUpdate<nat>(flags, slts, bucket, x);
      } else {
        assert tokens[..] == toks && slots[..] == slts && filled[..] == flags;
      }
      k := k + 1;
    }
    r := Success(BucketTable(tokens[..], slots[..], moduloSafe));
    SearchEnds(n, k, cap);
    FilledIsTable(n, k, View<string>(filled[..], tokens[..]), View<nat>(filled[..], slots[..]), r.value);
  }

  /** go-benchmark: an empty token text marks an empty place, sort.Search finds the bucket. */
  method ComputeTableBenchmark(n: int) returns (r: Result<BucketTable>)
    ensures Built(r, n, if 1 <= n <= NUM_SLOTS then IterationCap(n) else 0)
  {
    if n < 1 || n > NUM_SLOTS {
      return Failure(BucketCountOutOfRange);
    }
    var starts := seq(n, i requires 0 <= i < n => SlotRange(i, n, NUM_SLOTS).0);
    var moduloSafe := IsModuloSafe(n);
    r := FillBenchmark(n, IterationCap(n), starts, moduloSafe);
  }

  function Marks(tokens: seq<string>): (r: seq<bool>)
    ensures |r| == |tokens| && forall b :: 0 <= b < |r| ==> r[b] == (tokens[b] != "")
  {
    seq(|tokens|, b requires 0 <= b < |tokens| => tokens[b] != "")
  }

  method FillBenchmark(n: nat, cap: nat, starts: seq<nat>, moduloSafe: bool) returns (r: Result<BucketTable>)
    requires 1 <= n == |starts| && AreStarts(starts, |starts|) && n <= NUM_SLOTS && moduloSafe == ModuloSafe(n, NUM_SLOTS)
    ensures Built(r, n, cap)
  {
    hide Draws, ModuloSafe, Owner, Decimal, CountSome, Fillable, IsTable, Utf8, Slot, Mirrors, AreStarts;
    var tokens := new string[n](_ => "");
    var slots := new nat[n](_ => 0);
    var filled, k := 0, 0;
    MirrorsStart(View<string>(Marks(tokens[..]), tokens[..]), View<nat>(Marks(tokens[..]), slots[..]), n);
    while filled < n
      invariant k <= cap + 1 && filled == CountSome(Draws(n, k)) <= n
      invariant Mirrors(View<string>(Marks(tokens[..]), tokens[..]), View<nat>(Marks(tokens[..]), slots[..]), Draws(n, k))
      decreases cap + 1 - k
    {
      ghost var toks: seq<string>, slts: seq<nat>, flags: seq<bool> := tokens[..], slots[..], Marks(tokens[..]);
      ghost var t, s := View<string>(flags, toks), View<nat>(flags, slts);
      SearchEnds(n, k, cap);
      if k > cap {
        return Failure(DrawCapReached);
      }
      var candidate := Decimal(k);
      var x: nat := Slot(Utf8(candidate));
      var right := SortSearch(starts, x);
      var bucket := right - 1;
      DrawStep(n, k, t, s, bucket, !moduloSafe || x % n == bucket);
      if !(tokens[bucket] != "" || (moduloSafe && x % n != bucket)) {
        tokens[bucket] := candidate;
        slots[bucket] := x;
        filled := filled + 1;
        assert tokens[..] == toks[bucket := candidate] && slots[..] == slts[bucket := x];
        assert Marks(tokens[..]) == flags[bucket := true];
        ViewUpdate<string>(flags, toks, bucket, candidate);
        ViewUpdate<nat>(flags, slts, bucket, x);
      } else {
        assert tokens[..] == toks && slots[..] == slts;
      }
      k := k + 1;
    }
    r := Success(BucketTable(tokens[..], slots[..], moduloSafe));
    SearchEnds(n, k, cap);
    FilledIsTable(n, k, View<string>(Marks(tokens[..]), tokens[..]), View<nat>(Marks(tokens[..]), slots[..]), r.value);
  }
}
