/**
 Strings as the router uses them: first occurrence, split and join on a
 separator, counting a character, and decimal printing with its inverse.
 Every round trip the other modules need is proved here once.
 */
module Text {
  datatype Option<+T> = None | Some(value: T)

  /** The first index of c in s, or |s| when s has no c. */
  function Find(s: string, c: char): (i: nat)
    ensures i <= |s| && forall k :: 0 <= k < i ==> s[k] != c
    ensures i < |s| ==> s[i] == c
  {
    if s == "" || s[0] == c then 0 else 1 + Find(s[1..], c)
  }

  lemma FindUnique(s: string, c: char, i: nat)
    requires i <= |s| && forall k :: 0 <= k < i ==> s[k] != c
    requires i < |s| ==> s[i] == c
    ensures Find(s, c) == i
  {
    if 0 < i {
      FindUnique(s[1..], c, i - 1);
    }
  }

  lemma FindConcat(a: string, b: string, c: char)
    ensures Find(a + b, c) == if Find(a, c) < |a| then Find(a, c) else |a| + Find(b, c)
  {
    FindUnique(a + b, c, if Find(a, c) < |a| then Find(a, c) else |a| + Find(b, c));
  }

  function Split(s: string, sep: char): (parts: seq<string>)
    ensures |parts| >= 1
    decreases |s|
  {
    var i := Find(s, sep);
    if i == |s| then [s] else [s[..i]] + Split(s[i + 1..], sep)
  }

  function Join(parts: seq<string>, sep: char): string
    requires |parts| >= 1
  {
    if |parts| == 1 then parts[0] else parts[0] + [sep] + Join(parts[1..], sep)
  }

  function Count(s: string, c: char): nat {
    if s == "" then 0 else (if s[0] == c then 1 else 0) + Count(s[1..], c)
  }

  lemma {:induction false} CountConcat(a: string, b: string, c: char)
    ensures Count(a + b, c) == Count(a, c) + Count(b, c)
  {
    if a == "" {
      assert a + b == b;
    } else {
      assert (a + b)[1..] == a[1..] + b;
      CountConcat(a[1..], b, c);
    }
  }

  lemma {:induction false} CountZero(s: string, c: char)
    ensures Count(s, c) == 0 <==> c !in s
  {
    if s != "" {
      CountZero(s[1..], c);
      assert s == [s[0]] + s[1..];
    }
  }

  lemma CountCons(x: string, c: char)
    ensures Count([c] + x, c) == 1 + Count(x, c)
  {
    assert ([c] + x)[1..] == x;
  }

  lemma SliceAt(s: string, i: nat, cut: nat)
    requires i < cut < |s|
    ensures s[..cut] == s[..i] + ([s[i]] + s[i + 1..][..cut - i - 1])
  {
  }

  /** Counting up to a position past the first separator. */
  lemma CountPast(s: string, sep: char, i: nat, cut: nat)
    requires i == Find(s, sep) && i < cut < |s|
    ensures Count(s[..cut], sep) == 1 + Count(s[i + 1..][..cut - i - 1], sep)
  {
    hide Find, Count;
    CountZero(s[..i], sep);
    SliceAt(s, i, cut);
    CountConcat(s[..i], [sep] + s[i + 1..][..cut - i - 1], sep);
    CountCons(s[i + 1..][..cut - i - 1], sep);
  }

  lemma {:induction false} SplitParts(s: string, sep: char)
    ensures |Split(s, sep)| == Count(s, sep) + 1
    ensures forall part :: part in Split(s, sep) ==> sep !in part
    decreases |s|
  {
    var i := Find(s, sep);
    CountZero(s[..i], sep);
    if i == |s| {
      assert s[..i] == s;
    } else {
      hide Find, Count;
      SplitParts(s[i + 1..], sep);
      assert s == s[..i] + ([sep] + s[i + 1..]);
      CountConcat(s[..i], [sep] + s[i + 1..], sep);
      CountCons(s[i + 1..], sep);
    }
  }

  lemma JoinCons(head: string, tail: seq<string>, sep: char)
    requires |tail| >= 1
    ensures Join([head] + tail, sep) == head + [sep] + Join(tail, sep)
  {
    assert ([head] + tail)[1..] == tail;
  }

  lemma {:induction false} JoinSplit(s: string, sep: char)
    ensures Join(Split(s, sep), sep) == s
    decreases |s|
  {
    hide Join;
    var i := Find(s, sep);
    if i < |s| {
      JoinSplit(s[i + 1..], sep);
      JoinCons(s[..i], Split(s[i + 1..], sep), sep);
      assert s == s[..i] + [sep] + s[i + 1..];
    } else {
      JoinOne(s, sep);
    }
  }

  lemma JoinOne(s: string, sep: char)
    ensures Join([s], sep) == s
  {
  }

  lemma SplitCons(x: string, s: string)
    requires '.' !in x
    ensures Split(x + "." + s, '.') == [x] + Split(s, '.')
  {
    var f := x + "." + s;
    FindUnique(f, '.', |x|);
    assert f[..|x|] == x && f[|x| + 1..] == s;
  }

  lemma {:induction false} SplitJoin(parts: seq<string>, sep: char)
    requires |parts| >= 1
    requires forall part :: part in parts ==> sep !in part
    ensures Split(Join(parts, sep), sep) == parts
  {
    var s := Join(parts, sep);
    assert parts[0] in parts;
    assert s[..|parts[0]|] == parts[0];
    FindUnique(s, sep, |parts[0]|);
    if |parts| > 1 {
      SplitJoin(parts[1..], sep);
      assert s[|parts[0]| + 1..] == Join(parts[1..], sep);
    }
  }

  lemma DropCons<T>(head: T, tail: seq<T>, k: nat)
    requires 1 <= k <= |tail| + 1
    ensures ([head] + tail)[k..] == tail[k - 1..]
  {
  }

  /** A part of s after a separator is what joining the later parts gives back. */
  lemma {:induction false} SuffixIsJoin(s: string, sep: char, cut: nat, k: nat)
    requires cut < |s| && s[cut] == sep && k == Count(s[..cut], sep) + 1
    ensures k < |Split(s, sep)| && Join(Split(s, sep)[k..], sep) == s[cut + 1..]
    decreases |s|
  {
    var i := Find(s, sep);
    assert i <= cut;
    hide Split, Join, Find;
    if cut == i {
      CountZero(s[..i], sep);
      AfterFirst(s, sep, i);
    } else {
      CountPast(s, sep, i, cut);
      hide Count;
      var rest, inner := s[i + 1..], cut - i - 1;
      assert rest[inner] == sep;
      SuffixIsJoin(rest, sep, inner, k - 1);
      SplitTail(s, sep, i, k);
      assert rest[inner + 1..] == s[cut + 1..];
    }
  }

  lemma AfterFirst(s: string, sep: char, i: nat)
    requires i == Find(s, sep) && i < |s|
    ensures 1 < |Split(s, sep)| && Join(Split(s, sep)[1..], sep) == s[i + 1..]
  {
    var tail := Split(s[i + 1..], sep);
    assert Split(s, sep) == [s[..i]] + tail;
    JoinSplit(s[i + 1..], sep);
    hide Split, Join;
    DropCons(s[..i], tail, 1);
    assert tail[0..] == tail;
  }

  lemma SplitTail(s: string, sep: char, i: nat, k: nat)
    requires i == Find(s, sep) && i < |s| && 1 <= k && k - 1 < |Split(s[i + 1..], sep)|
    ensures k < |Split(s, sep)| && Split(s, sep)[k..] == Split(s[i + 1..], sep)[k - 1..]
  {
    var tail := Split(s[i + 1..], sep);
    assert Split(s, sep) == [s[..i]] + tail;
    hide Split;
    DropCons(s[..i], tail, k);
  }

  /** Every later part starts after some separator. */
  lemma {:induction false} JoinIsSuffix(s: string, sep: char, k: nat) returns (cut: nat)
    requires 1 <= k < |Split(s, sep)|
    ensures cut < |s| && s[cut] == sep && Count(s[..cut], sep) + 1 == k
    ensures Join(Split(s, sep)[k..], sep) == s[cut + 1..]
    decreases k
  {
    var i := Find(s, sep);
    if k == 1 {
      cut := i;
      CountZero(s[..i], sep);
    } else {
      var inner := JoinIsSuffix(s[i + 1..], sep, k - 1);
      cut := i + 1 + inner;
      CountPast(s, sep, i, cut);
    }
    SuffixIsJoin(s, sep, cut, k);
  }

  /** Decimal text, as Python's str and Go's strconv.Itoa print an integer. */
  function Digit(d: nat): (c: char)
    requires d < 10
    ensures '0' <= c <= '9' && c as int == 48 + d
  {
    (48 + d) as char
  }

  predicate IsDigit(c: char) { '0' <= c <= '9' }

  function Decimal(n: nat): (s: string)
    ensures |s| >= 1 && forall c :: c in s ==> IsDigit(c)
  {
    if n < 10 then [Digit(n)] else Decimal(n / 10) + [Digit(n % 10)]
  }

  function Integer(n: int): string {
    if n < 0 then "-" + Decimal(-n) else Decimal(n)
  }

  function ParseDecimal(s: string): Option<nat> {
    if s == "" || !IsDigit(s[|s| - 1]) then None
    else
      var last := s[|s| - 1] as int - 48;
      if |s| == 1 then Some(last)
      else match ParseDecimal(s[..|s| - 1])
        case None => None
        case Some(high) => Some(10 * high + last)
  }

  lemma {:induction false} DecimalRoundTrip(n: nat)
    ensures ParseDecimal(Decimal(n)) == Some(n)
  {
    if n >= 10 {
      DecimalRoundTrip(n / 10);
      assert Decimal(n)[..|Decimal(n)| - 1] == Decimal(n / 10);
    }
  }

  lemma DecimalInjective(m: nat, n: nat)
    requires Decimal(m) == Decimal(n)
    ensures m == n
  {
    DecimalRoundTrip(m);
    DecimalRoundTrip(n);
  }

  lemma IntegerInjective(m: int, n: int)
    requires Integer(m) == Integer(n)
    ensures m == n
  {
    if m < 0 && n < 0 {
      assert Integer(m)[1..] == Decimal(-m) && Integer(n)[1..] == Decimal(-n);
      DecimalInjective(-m, -n);
    } else if m >= 0 && n >= 0 {
      DecimalInjective(m, n);
    } else {
      IntegerSign(m);
      IntegerSign(n);
    }
  }

  lemma IntegerSign(n: int)
    ensures |Integer(n)| >= 1 && (Integer(n)[0] == '-' <==> n < 0)
  {
    if n >= 0 {
      assert IsDigit(Decimal(n)[0]);
    }
  }

  lemma IntegerChars(n: int)
    ensures |Integer(n)| >= 1
    ensures forall c :: c in Integer(n) ==> c == '-' || IsDigit(c)
  {
  }

  /** Two texts that agree and have no c before their first c split the same way there. */
  lemma SplitAtFirst(a: string, b: string, x: string, y: string, c: char)
    requires a + [c] + x == b + [c] + y
    requires c !in a && c !in b
    ensures a == b && x == y
  {
    var s := a + [c] + x;
    assert s[..|a|] == a && s[..|b|] == b;
    FindUnique(s, c, |a|);
    FindUnique(s, c, |b|);
    assert s[|a| + 1..] == x && s[|b| + 1..] == y;
  }

  /** The mirror image: the part after the last c determines the split. */
  lemma SplitAtLast(a: string, b: string, x: string, y: string, c: char)
    requires a + [c] + x == b + [c] + y
    requires c !in x && c !in y
    ensures a == b && x == y
  {
    var s := a + [c] + x;
    assert s[|a|] == c && forall k :: |a| < k < |s| ==> s[k] == x[k - |a| - 1];
    assert s[|b|] == c && forall k :: |b| < k < |s| ==> s[k] == y[k - |b| - 1];
    assert |a| == |b|;
    assert s[..|a|] == a && s[..|b|] == b;
    assert s[|a| + 1..] == x && s[|b| + 1..] == y;
  }
}
