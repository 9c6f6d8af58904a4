/**
 The benchmark's generated data: laying rules out over keys, generating a rule and
 the query that must hit it, and the claim that every such query hits that rule.
 */
module Benchmark {
  import opened Text
  import opened Results
  import opened Pattern
  import opened Keys
  import opened Rules
  import opened Lookups
  import opened Store
  import opened Replication
  import opened Pipelines

  // ----- Layout: a global index to a key and a position in it -----

  function Sum(sizes: seq<nat>): nat {
    if sizes == [] then 0 else Sum(sizes[..|sizes| - 1]) + sizes[|sizes| - 1]
  }

  lemma SumAppend(sizes: seq<nat>, size: nat)
    ensures Sum(sizes + [size]) == Sum(sizes) + size
  {
    assert (sizes + [size])[..|sizes|] == sizes;
  }

  /** Each key takes the drawn size, the last what is left. */
  method BuildKeySizes(numRules: nat, draw: nat -> nat) returns (sizes: seq<nat>)
    requires forall k :: draw(k) >= 1
    ensures Sum(sizes) == numRules && forall k :: 0 <= k < |sizes| ==> 1 <= sizes[k] <= draw(k)
    ensures forall k :: 0 <= k < |sizes| - 1 ==> sizes[k] == draw(k)
  {
    sizes := [];
    var total := 0;
    while total < numRules
      invariant total == Sum(sizes) <= numRules
      invariant forall k :: 0 <= k < |sizes| ==> 1 <= sizes[k] <= draw(k)
      invariant forall k :: 0 <= k < |sizes| ==> sizes[k] == draw(k) || (total == numRules && k == |sizes| - 1)
    {
      var size := draw(|sizes|);
      if size > numRules - total {
        size := numRules - total;
      }
      SumAppend(sizes, size);
      hide Sum;
      sizes := sizes + [size];
      total := total + size;
    }
  }

  method PrefixSums(sizes: seq<nat>) returns (prefix: seq<nat>)
    ensures |prefix| == |sizes|
    ensures forall j :: 0 <= j < |sizes| ==> prefix[j] == Sum(sizes[..j + 1])
  {
    var out := new nat[|sizes|](_ => 0);
    var sum := 0;
    for i := 0 to |sizes|
      invariant sum == Sum(sizes[..i])
      invariant forall j :: 0 <= j < i ==> out[j] == Sum(sizes[..j + 1])
    {
      assert sizes[..i + 1][..i] == sizes[..i];
      sum := sum + sizes[i];
      out[i] := sum;
    }
    prefix := out[..];
  }

  lemma {:induction false} SumMonotone(sizes: seq<nat>, i: nat, j: nat)
    requires i <= j <= |sizes|
    ensures Sum(sizes[..i]) <= Sum(sizes[..j])
  {
    if i < j {
      assert sizes[..j][..j - 1] == sizes[..j - 1];
      SumMonotone(sizes, i, j - 1);
    }
  }

  /** Index i is position pos of key. */
  predicate IsAt(sizes: seq<nat>, i: nat, key: nat, pos: nat) {
    key < |sizes| && pos < sizes[key] && i == Sum(sizes[..key]) + pos
  }

  /** Binary search over the prefix sums inverts them. */
  method KeyForRule(sizes: seq<nat>, prefix: seq<nat>, i: nat) returns (key: nat, pos: nat)
    requires |prefix| == |sizes| && forall j :: 0 <= j < |sizes| ==> prefix[j] == Sum(sizes[..j + 1])
    ensures i < Sum(sizes) ==> IsAt(sizes, i, key, pos)
    ensures i >= Sum(sizes) ==> key == |sizes| && pos == i - Sum(sizes)
  {
    var hi := |prefix|;
    key := 0;
    hide Sum;
    assert Sum(sizes[..0]) == 0 by { EmptySum(sizes); }
    while key < hi
      invariant key <= hi <= |prefix|
      invariant Sum(sizes[..key]) <= i
      invariant hi < |prefix| ==> i < Sum(sizes[..hi + 1])
    {
      var h := (key + hi) / 2;
      if !(prefix[h] > i) {
        key := h + 1;
      } else {
        hi := h;
      }
    }
    assert key == 0 || prefix[key - 1] == Sum(sizes[..key]);
    pos := if key == 0 then i else i - prefix[key - 1];
    SearchedPlace(sizes, i, key);
  }

  lemma EmptySum(sizes: seq<nat>)
    ensures Sum(sizes[..0]) == 0
  {
  }

  /** Where the running sum first exceeds i is where i belongs. */
  lemma SearchedPlace(sizes: seq<nat>, i: nat, key: nat)
    requires key <= |sizes| && Sum(sizes[..key]) <= i && (key < |sizes| ==> i < Sum(sizes[..key + 1]))
    ensures i < Sum(sizes) ==> IsAt(sizes, i, key, i - Sum(sizes[..key]))
    ensures i >= Sum(sizes) ==> key == |sizes| && Sum(sizes[..key]) == Sum(sizes)
  {
    assert sizes[..|sizes|] == sizes;
    if key < |sizes| {
      SumMonotone(sizes, key + 1, |sizes|);
      SumStep(sizes, key);
    }
  }

  /** No index is at two places, so indices and places correspond one to one. */
  lemma PlaceUnique(sizes: seq<nat>, i: nat, key: nat, pos: nat, key': nat, pos': nat)
    requires IsAt(sizes, i, key, pos) && IsAt(sizes, i, key', pos')
    ensures key == key' && pos == pos'
  {
    SumStep(sizes, key);
    SumStep(sizes, key');
    if key < key' {
      SumMonotone(sizes, key + 1, key');
    } else if key' < key {
      SumMonotone(sizes, key' + 1, key);
    }
  }

  lemma SumStep(sizes: seq<nat>, key: nat)
    requires key < |sizes|
    ensures Sum(sizes[..key + 1]) == Sum(sizes[..key]) + sizes[key]
  {
    assert sizes[..key + 1][..key] == sizes[..key];
  }

  lemma PlaceInRange(sizes: seq<nat>, key: nat, pos: nat)
    requires key < |sizes| && pos < sizes[key]
    ensures Sum(sizes[..key]) + pos < Sum(sizes)
  {
    SumMonotone(sizes, key + 1, |sizes|);
    assert sizes[..|sizes|] == sizes && sizes[..key + 1][..key] == sizes[..key];
  }

  /** Half a unit rounds away from zero. */
  function Round(x: real): int {
    if x >= 0.0 then (x + 0.5).Floor else -(0.5 - x).Floor
  }

  predicate ValidRates(globalRate: real, tldRate: real) {
    0.0 <= globalRate <= 1.0 && 0.0 <= tldRate <= 1.0 && globalRate + tldRate <= 1.0
  }

  /** The two products as computed: no more than the count each, their sum off by less than one. */
  predicate NearShares(n: nat, x: real, y: real) {
    0.0 <= x <= n as real && 0.0 <= y <= n as real && x + y < (n + 1) as real
  }

  lemma ShareOf(x: real, rate: real)
    requires x >= 0.0 && 0.0 <= rate <= 1.0
    ensures 0.0 <= x * rate <= x
  {
  }

  /** Exact products of valid rates are such. */
  lemma ExactShares(n: nat, g: real, t: real)
    requires ValidRates(g, t)
    ensures NearShares(n, n as real * g, n as real * t)
  {
    ShareOf(n as real, g);
    ShareOf(n as real, t);
    ShareOf(n as real, g + t);
    assert n as real * (g + t) == n as real * g + n as real * t;
  }

  /** The nearest whole number, halves away from zero. */
  lemma RoundMeans(x: real)
    ensures x >= 0.0 ==> -0.5 < Round(x) as real - x <= 0.5
    ensures x < 0.0 ==> -0.5 <= Round(x) as real - x < 0.5
  {
  }

  /** Rounding two shares of a whole apart exceeds it by one at most. */
  lemma RoundedShares(n: nat, x: real, y: real)
    requires NearShares(n, x, y)
    ensures 0 <= Round(x) <= n && 0 <= Round(y) <= n && Round(x) + Round(y) <= n + 1
  {
    RoundMeans(x);
    RoundMeans(y);
    assert (Round(x) + Round(y)) as real < (n + 2) as real;
  }

  /**
   The tiers add up whatever the two floating-point products are; when they are near the
   shares of valid rates, the catch-all count is the share rounded to the nearest, halves
   up, and the tld count too, or one less when rounding would exceed the total.
   */
  method PartitionRuleCounts(numRules: nat, globalShare: real, tldShare: real)
    returns (numGlobal: int, numTld: int, numApex: int)
    ensures numGlobal + numTld + numApex == numRules
    ensures NearShares(numRules, globalShare, tldShare) ==>
              && 0 <= numGlobal && 0 <= numTld && 0 <= numApex
              && -0.5 < numGlobal as real - globalShare <= 0.5
              && (|| -0.5 < numTld as real - tldShare <= 0.5
                  || (numApex == 0 && -1.5 < numTld as real - tldShare <= -0.5))
    ensures var (g, t) := (Round(globalShare), Round(tldShare));
            && (g + t <= numRules ==> numGlobal == g && numTld == t)
            && (g + t > numRules ==> numApex == 0 && (numGlobal == g || numGlobal == numRules < g))
  {
    numGlobal, numTld := Round(globalShare), Round(tldShare);
    RoundMeans(globalShare);
    RoundMeans(tldShare);
    if NearShares(numRules, globalShare, tldShare) {
      RoundedShares(numRules, globalShare, tldShare);
    }
    assert NearShares(numRules, globalShare, tldShare) ==> globalShare >= 0.0 && tldShare >= 0.0;
    hide Round, NearShares;
    if numGlobal + numTld > numRules {
      numTld := numRules - numGlobal;
      if numTld < 0 {
        numTld := 0;
      }
      if numGlobal > numRules {
        numGlobal := numRules;
      }
    }
    numApex := numRules - numGlobal - numTld;
  }

  // ----- Generated rules and queries -----

  datatype Mix = Mix(numGlobal: nat, numTld: nat, sizes: seq<nat>) {
    function Total(): nat { numGlobal + numTld + Sum(sizes) }
  }

  function Port(k: nat): (port: int)
    ensures ValidPort(port)
  {
    if k % 3 == 0 then 443 else if k % 3 == 1 then 8443 else 80
  }

  function KeyOf(sizes: seq<nat>, i: nat): (key: nat)
    ensures i < Sum(sizes) ==> exists pos :: IsAt(sizes, i, key, pos)
  {
    if sizes == [] then 0
    else
      var m := |sizes| - 1;
      if i < Sum(sizes[..m]) then
        var key := KeyOf(sizes[..m], i);
        assert i < Sum(sizes) ==> exists pos :: IsAt(sizes, i, key, pos) by { PlaceWidens(sizes, sizes[..m], i, key); }
        key
      else
        assert i < Sum(sizes) ==> IsAt(sizes, i, m, i - Sum(sizes[..m]));
        m
  }

  lemma PlaceWidens(sizes: seq<nat>, init: seq<nat>, i: nat, key: nat)
    requires sizes != [] && init == sizes[..|sizes| - 1] && (i < Sum(init) ==> exists pos :: IsAt(init, i, key, pos))
    ensures i < Sum(init) ==> exists pos :: IsAt(sizes, i, key, pos)
  {
    if i < Sum(init) {
      var pos :| IsAt(init, i, key, pos);
      assert init[..key] == sizes[..key];
      assert IsAt(sizes, i, key, pos);
    }
  }

  lemma KeyOfUnique(sizes: seq<nat>, i: nat, key: nat, pos: nat)
    requires IsAt(sizes, i, key, pos)
    ensures key == KeyOf(sizes, i)
  {
    PlaceInRange(sizes, key, pos);
    var p :| IsAt(sizes, i, KeyOf(sizes, i), p);
    PlaceUnique(sizes, i, key, pos, KeyOf(sizes, i), p);
  }

  /** What follows the first label of a rule's source pattern. */
  function Zone(mix: Mix, i: nat): string {
    if i < mix.numGlobal + mix.numTld then
      var tierIndex := if i < mix.numGlobal then 0 else i - mix.numGlobal;
      "ztld" + Decimal(tierIndex % 20)
    else
      ApexZone(KeyOf(mix.sizes, i - mix.numGlobal - mix.numTld))
  }

  function ApexZone(key: nat): string {
    "host" + Decimal(key) + "." + ("corp" + Decimal(key % 1000)) + "." + ("dragonfly" + Decimal(key % 10000)) + "." + "com"
  }

  function PortOf(mix: Mix, i: nat): (port: int)
    ensures ValidPort(port)
  {
    if i < mix.numGlobal + mix.numTld then Port(i) else Port(KeyOf(mix.sizes, i - mix.numGlobal - mix.numTld))
  }

  function Destination(i: nat): string { "dest" + Decimal(i) + ".example.com" }

  function RuleOf(mix: Mix, i: nat): Rule {
    Rule(if i < mix.numGlobal then "*" else "*." + Zone(mix, i), PortOf(mix, i),
         "*." + Destination(i), "rule:" + Decimal(i), ScopeBoth)
  }

  function QuerySource(mix: Mix, i: nat): string {
    if i < mix.numGlobal then "probe" + Decimal(i) + "." + "global-bench.invalid"
    else if i < mix.numGlobal + mix.numTld then "probe" + Decimal(i) + "." + Zone(mix, i)
    else "probe" + "." + Zone(mix, i)
  }

  function QueryDestination(i: nat): string { "probe" + "." + Destination(i) }

  function MissSource(n: nat, junk: nat): string { "nomatch" + Decimal(n) + "." + ("junk" + Decimal(junk)) + ".invalid" }

  function MissDestination(n: nat): string { "nomatch" + Decimal(n) + ".invalid" }

  function AllRules(mix: Mix): (rules: seq<Rule>)
    ensures |rules| == mix.Total() && forall i :: 0 <= i < |rules| ==> rules[i] == RuleOf(mix, i)
  {
    seq(mix.Total(), i requires i >= 0 => RuleOf(mix, i))
  }

  // ----- Generated names are clean -----

  predicate NameChar(c: char) { 'a' <= c <= 'z' || IsDigit(c) || c == '-' }

  predicate NamePart(s: string) { s != "" && forall c :: c in s ==> NameChar(c) }

  lemma {:induction false} JoinChars(parts: seq<string>)
    requires |parts| >= 1 && forall part :: part in parts ==> NamePart(part)
    ensures Join(parts, '.') != "" && forall c :: c in Join(parts, '.') ==> NameChar(c) || c == '.'
    ensures NameChar(Join(parts, '.')[0]) && NameChar(Join(parts, '.')[|Join(parts, '.')| - 1])
  {
    assert parts[0] in parts;
    if |parts| > 1 {
      JoinChars(parts[1..]);
    }
  }

  lemma CharsLower(n: string)
    requires n != "" && forall c :: c in n ==> NameChar(c) || c == '.'
    ensures Lower(n) == n && '*' !in n
  {
    assert forall i :: 0 <= i < |n| ==> n[i] in n;
  }

  lemma PartsHaveNoDot(parts: seq<string>)
    requires forall part :: part in parts ==> NamePart(part)
    ensures forall part :: part in parts ==> '.' !in part
    ensures "" !in parts
  {
  }

  lemma NameIsClean(parts: seq<string>)
    requires 1 <= |parts| <= MAX_LABELS && forall part :: part in parts ==> NamePart(part)
    ensures Clean(Join(parts, '.')) && Normalize(Join(parts, '.')) == Success(Join(parts, '.'))
  {
    hide Split, Join, NamePart;
    var n := Join(parts, '.');
    JoinChars(parts);
    PartsHaveNoDot(parts);
    SplitJoin(parts, '.');
    CharsLower(n);
    hide Lower, Normalize;
    NormalizeSame(n);
  }

  lemma NumberedPart(prefix: string, n: nat)
    requires forall c :: c in prefix ==> NameChar(c)
    ensures NamePart(prefix + Decimal(n))
  {
  }

  lemma JoinThree(a: string, b: string, c: string)
    ensures Join([a, b, c], '.') == a + "." + b + "." + c
  {
    assert [a, b, c][1..] == [b, c];
    JoinTwo(b, c);
  }

  /** The labels of a zone. */
  function ZoneParts(mix: Mix, i: nat): seq<string> {
    if i < mix.numGlobal + mix.numTld then [Zone(mix, i)]
    else ApexParts(KeyOf(mix.sizes, i - mix.numGlobal - mix.numTld))
  }

  function ApexParts(key: nat): (parts: seq<string>)
    ensures |parts| == 4
  {
    ["host" + Decimal(key), "corp" + Decimal(key % 1000), "dragonfly" + Decimal(key % 10000), "com"]
  }

  lemma ApexIsParts(key: nat)
    ensures ApexZone(key) == Join(ApexParts(key), '.')
    ensures forall part :: part in ApexParts(key) ==> NamePart(part)
  {
    hide Decimal, NamePart, Join;
    NumberedPart("host", key);
    NumberedPart("corp", key % 1000);
    NumberedPart("dragonfly", key % 10000);
    assert NamePart("com") by { PlainPart("com"); }
    JoinFour("host" + Decimal(key), "corp" + Decimal(key % 1000), "dragonfly" + Decimal(key % 10000), "com");
  }

  lemma JoinFour(a: string, b: string, c: string, d: string)
    ensures Join([a, b, c, d], '.') == a + "." + b + "." + c + "." + d
  {
    JoinThree(b, c, d);
    JoinCons(a, [b, c, d], '.');
    assert [a] + [b, c, d] == [a, b, c, d];
    assert a + "." + (b + "." + c + "." + d) == a + "." + b + "." + c + "." + d;
  }

  lemma ZoneIsParts(mix: Mix, i: nat)
    ensures Zone(mix, i) == Join(ZoneParts(mix, i), '.')
    ensures forall part :: part in ZoneParts(mix, i) ==> NamePart(part)
    ensures 1 <= |ZoneParts(mix, i)| <= 4
  {
    hide Decimal, KeyOf, NamePart, Join;
    if i < mix.numGlobal + mix.numTld {
      NumberedPart("ztld", (if i < mix.numGlobal then 0 else i - mix.numGlobal) % 20);
      JoinOne(Zone(mix, i), '.');
    } else {
      ApexIsParts(KeyOf(mix.sizes, i - mix.numGlobal - mix.numTld));
    }
  }

  lemma ZoneLabels(mix: Mix, i: nat)
    ensures Split(Zone(mix, i), '.') == ZoneParts(mix, i)
  {
    ZoneIsParts(mix, i);
    PartsHaveNoDot(ZoneParts(mix, i));
    hide Zone, ZoneParts, NamePart, Split, Join;
    SplitJoin(ZoneParts(mix, i), '.');
  }

  // ----- What the generated patterns are -----

  /** A wildcard pattern and the labels after its star. */
  predicate IsWild(p: string, labels: seq<string>) {
    "*." <= p && Split(p[2..], '.') == labels
  }

  /** The labels of every generated source pattern, tier by tier. */
  lemma PatternLabels(mix: Mix, i: nat)
    ensures RuleOf(mix, i).fqdn1 == "*" <==> i < mix.numGlobal
    ensures i >= mix.numGlobal ==> IsWild(RuleOf(mix, i).fqdn1, ZoneParts(mix, i))
  {
    ZoneLabels(mix, i);
    hide Zone, ZoneParts, Split;
    assert ("*." + Zone(mix, i))[2..] == Zone(mix, i);
  }

  /** A tld rule has one label after its star, and two share a pattern exactly when their indices agree modulo 20. */
  lemma TldRules(mix: Mix, i: nat, j: nat)
    requires mix.numGlobal <= i < mix.numGlobal + mix.numTld && mix.numGlobal <= j < mix.numGlobal + mix.numTld
    ensures exists part :: IsWild(RuleOf(mix, i).fqdn1, [part])
    ensures RuleOf(mix, i).fqdn1 == RuleOf(mix, j).fqdn1 <==> (i - mix.numGlobal) % 20 == (j - mix.numGlobal) % 20
  {
    PatternLabels(mix, i);
    assert ZoneParts(mix, i) == [Zone(mix, i)];
    hide Split, ZoneParts, Decimal;
    var x, y := (i - mix.numGlobal) % 20, (j - mix.numGlobal) % 20;
    if RuleOf(mix, i).fqdn1 == RuleOf(mix, j).fqdn1 {
      DropSame("*.", "ztld" + Decimal(x), "ztld" + Decimal(y));
      DropSame("ztld", Decimal(x), Decimal(y));
      DecimalInjective(x, y);
    }
  }

  /** The catch-all tiers are exactly the first two: only the rules of the layout are not replicated. */
  lemma ReplicatedRules(mix: Mix, i: nat)
    requires i < mix.Total()
    ensures IsBucketedTag(HashTag(RuleOf(mix, i).fqdn1)) <==> i < mix.numGlobal + mix.numTld
  {
    PatternLabels(mix, i);
    BucketedIff(RuleOf(mix, i).fqdn1);
    if i >= mix.numGlobal + mix.numTld {
      assert ZoneParts(mix, i)[2][0] == 'd';
    }
    hide Zone, KeyOf, Decimal, Split, HashTag, IsBucketedTag;
  }

  /** The layout puts index x under the key. */
  ghost predicate IsUnder(sizes: seq<nat>, x: nat, key: nat) {
    exists pos :: IsAt(sizes, x, key, pos)
  }

  ghost predicate OneKey(sizes: seq<nat>, x: nat, y: nat) {
    exists key :: IsUnder(sizes, x, key) && IsUnder(sizes, y, key)
  }

  lemma OneKeyIff(sizes: seq<nat>, x: nat, y: nat)
    requires x < Sum(sizes) && y < Sum(sizes)
    ensures OneKey(sizes, x, y) <==> KeyOf(sizes, x) == KeyOf(sizes, y)
  {
    hide Sum, IsAt;
    assert IsUnder(sizes, x, KeyOf(sizes, x)) && IsUnder(sizes, y, KeyOf(sizes, y));
    if key :| IsUnder(sizes, x, key) && IsUnder(sizes, y, key) {
      var p :| IsAt(sizes, x, key, p);
      var q :| IsAt(sizes, y, key, q);
      KeyOfUnique(sizes, x, key, p);
      KeyOfUnique(sizes, y, key, q);
    }
  }

  lemma ApexLabels(key: nat)
    ensures Split(ApexZone(key), '.') == ApexParts(key)
  {
    ApexIsParts(key);
    PartsHaveNoDot(ApexParts(key));
    hide ApexZone, ApexParts, NamePart, Split, Join;
    SplitJoin(ApexParts(key), '.');
  }

  lemma ApexZoneInjective(k: nat, l: nat)
    ensures ApexZone(k) == ApexZone(l) ==> k == l
  {
    ApexLabels(k);
    ApexLabels(l);
    assert ApexParts(k)[0] == "host" + Decimal(k) && ApexParts(l)[0] == "host" + Decimal(l);
    hide ApexZone, ApexParts, Split, Decimal;
    if ApexZone(k) == ApexZone(l) {
      DropSame("host", Decimal(k), Decimal(l));
      DecimalInjective(k, l);
    }
  }

  lemma ApexRule(mix: Mix, i: nat)
    requires i >= mix.numGlobal + mix.numTld
    ensures RuleOf(mix, i).fqdn1 == "*." + ApexZone(KeyOf(mix.sizes, i - mix.numGlobal - mix.numTld))
    ensures RuleOf(mix, i).port == Port(KeyOf(mix.sizes, i - mix.numGlobal - mix.numTld))
  {
    hide ApexZone, KeyOf, Destination, Decimal;
  }

  lemma SameApexRule(mix: Mix, i: nat, j: nat)
    requires i >= mix.numGlobal + mix.numTld && j >= mix.numGlobal + mix.numTld
    ensures RuleOf(mix, i).fqdn1 == RuleOf(mix, j).fqdn1 && RuleOf(mix, i).port == RuleOf(mix, j).port
            <==> KeyOf(mix.sizes, i - mix.numGlobal - mix.numTld) == KeyOf(mix.sizes, j - mix.numGlobal - mix.numTld)
  {
    hide *;
    var k, l := KeyOf(mix.sizes, i - mix.numGlobal - mix.numTld), KeyOf(mix.sizes, j - mix.numGlobal - mix.numTld);
    ApexRule(mix, i);
    ApexRule(mix, j);
    ApexZoneInjective(k, l);
    if RuleOf(mix, i).fqdn1 == RuleOf(mix, j).fqdn1 {
      DropSame("*.", ApexZone(k), ApexZone(l));
    }
  }

  /** Two rules of the third tier share a pattern and port exactly when the layout puts them at one key. */
  lemma ApexRules(mix: Mix, i: nat, j: nat)
    requires mix.numGlobal + mix.numTld <= i < mix.Total() && mix.numGlobal + mix.numTld <= j < mix.Total()
    ensures RuleOf(mix, i).fqdn1 == RuleOf(mix, j).fqdn1 && RuleOf(mix, i).port == RuleOf(mix, j).port
            <==> OneKey(mix.sizes, i - mix.numGlobal - mix.numTld, j - mix.numGlobal - mix.numTld)
  {
    hide RuleOf, KeyOf, OneKey, Sum;
    SameApexRule(mix, i, j);
    OneKeyIff(mix.sizes, i - mix.numGlobal - mix.numTld, j - mix.numGlobal - mix.numTld);
  }

  /** The text of a zone whose key exceeds both pools. */
  lemma ZoneText()
    ensures ApexZone(12345) == "host12345.corp345.dragonfly2345.com"
  {
    ZonePieces();
    hide Decimal;
    assert 12345 % 1000 == 345 && 12345 % 10000 == 2345;
  }

  lemma ZonePieces()
    ensures "host" + Decimal(12345) == "host12345" && "corp" + Decimal(345) == "corp345"
    ensures "dragonfly" + Decimal(2345) == "dragonfly2345"
  {
    NumberTexts();
    hide Decimal;
  }

  lemma NumberTexts()
    ensures Decimal(12345) == "12345" && Decimal(345) == "345" && Decimal(2345) == "2345"
  {
    assert Decimal(12) == "12" && Decimal(123) == "123" && Decimal(1234) == "1234";
    assert Decimal(34) == "34" && Decimal(23) == "23" && Decimal(234) == "234";
  }

  /** The rules of a mix of one rule a tier, in full. */
  lemma RuleTexts()
    ensures var mix := Mix(1, 1, [1]);
            && RuleOf(mix, 0) == Rule("*", 443, "*.dest0.example.com", "rule:0", ScopeBoth)
            && RuleOf(mix, 1) == Rule("*.ztld0", 8443, "*.dest1.example.com", "rule:1", ScopeBoth)
            && RuleOf(mix, 2) == Rule("*.host0.corp0.dragonfly0.com", 443, "*.dest2.example.com", "rule:2", ScopeBoth)
  {
    GlobalText();
    TldText();
    ApexText();
    hide RuleOf;
  }

  lemma GlobalText()
    ensures RuleOf(Mix(1, 1, [1]), 0) == Rule("*", 443, "*.dest0.example.com", "rule:0", ScopeBoth)
  {
    hide Destination, Zone, KeyOf;
    DestinationTexts();
    TagTexts();
    hide Decimal;
  }

  lemma TldText()
    ensures RuleOf(Mix(1, 1, [1]), 1) == Rule("*.ztld0", 8443, "*.dest1.example.com", "rule:1", ScopeBoth)
  {
    hide Destination, KeyOf, ApexZone;
    DestinationTexts();
    TagTexts();
    hide Decimal;
    assert Zone(Mix(1, 1, [1]), 1) == "ztld" + Decimal(0);
  }

  lemma ApexText()
    ensures RuleOf(Mix(1, 1, [1]), 2) == Rule("*.host0.corp0.dragonfly0.com", 443, "*.dest2.example.com", "rule:2", ScopeBoth)
  {
    hide Destination, KeyOf, ApexZone;
    ApexRule(Mix(1, 1, [1]), 2);
    OneKeyLayout();
    ZeroZone();
    DestinationTexts();
    TagTexts();
    hide Decimal;
  }

  lemma TagTexts()
    ensures "rule:" + Decimal(0) == "rule:0" && "rule:" + Decimal(1) == "rule:1" && "rule:" + Decimal(2) == "rule:2"
    ensures "*." + ("ztld" + Decimal(0)) == "*.ztld0" && "*." + "host0.corp0.dragonfly0.com" == "*.host0.corp0.dragonfly0.com"
  {
    assert Decimal(0) == "0" && Decimal(1) == "1" && Decimal(2) == "2";
    hide Decimal;
  }

  /** The queries that hit those rules, and one that misses. */
  lemma QueryTexts()
    ensures var mix := Mix(1, 1, [1]);
            && QuerySource(mix, 0) == "probe0.global-bench.invalid"
            && QuerySource(mix, 1) == "probe1.ztld0"
            && QuerySource(mix, 2) == "probe.host0.corp0.dragonfly0.com"
    ensures QueryDestination(2) == "probe.dest2.example.com"
  {
    hide QuerySource;
    GlobalQueryText();
    TldQueryText();
    ApexQueryText();
    ProbeTexts();
  }

  lemma GlobalQueryText()
    ensures QuerySource(Mix(1, 1, [1]), 0) == "probe0.global-bench.invalid"
  {
    hide Decimal, Zone;
    ProbeTexts();
  }

  lemma TldQueryText()
    ensures QuerySource(Mix(1, 1, [1]), 1) == "probe1.ztld0"
  {
    hide Decimal, ApexZone, KeyOf;
    ProbeTexts();
    assert Zone(Mix(1, 1, [1]), 1) == "ztld" + Decimal(0);
  }

  lemma ApexQuery(mix: Mix, i: nat)
    requires i >= mix.numGlobal + mix.numTld
    ensures QuerySource(mix, i) == "probe" + "." + ApexZone(KeyOf(mix.sizes, i - mix.numGlobal - mix.numTld))
  {
    hide ApexZone, KeyOf, Decimal;
  }

  lemma ApexQueryText()
    ensures QuerySource(Mix(1, 1, [1]), 2) == "probe.host0.corp0.dragonfly0.com"
  {
    hide QuerySource, ApexZone, KeyOf;
    ApexQuery(Mix(1, 1, [1]), 2);
    OneKeyLayout();
    ZeroZone();
    ProbeZone();
  }

  lemma ProbeZone()
    ensures "probe" + "." + "host0.corp0.dragonfly0.com" == "probe.host0.corp0.dragonfly0.com"
  {
  }

  lemma ProbeTexts()
    ensures "probe" + Decimal(0) + "." + "global-bench.invalid" == "probe0.global-bench.invalid"
    ensures "probe" + Decimal(1) + "." + ("ztld" + Decimal(0)) == "probe1.ztld0"
    ensures QueryDestination(2) == "probe.dest2.example.com"
  {
    assert Decimal(0) == "0" && Decimal(1) == "1" && Decimal(2) == "2";
    hide Decimal;
  }

  lemma MissTexts()
    ensures MissSource(12345, 345) == "nomatch12345.junk345.invalid" && MissDestination(12345) == "nomatch12345.invalid"
  {
    NumberTexts();
    hide Decimal;
  }

  lemma OneKeyLayout()
    ensures KeyOf([1], 0) == 0
  {
    assert [1][..0] == [];
    assert Sum([1]) == 1;
    assert IsAt([1], 0, 0, 0);
    KeyOfUnique([1], 0, 0, 0);
  }

  lemma DestinationTexts()
    ensures "*." + Destination(0) == "*.dest0.example.com"
    ensures "*." + Destination(1) == "*.dest1.example.com"
    ensures "*." + Destination(2) == "*.dest2.example.com"
  {
    assert Decimal(0) == "0" && Decimal(1) == "1" && Decimal(2) == "2";
    hide Decimal;
  }

  lemma ZeroZone()
    ensures ApexZone(0) == "host0.corp0.dragonfly0.com"
  {
    assert Decimal(0) == "0";
    hide Decimal;
  }

  /** Ports go round in threes. */
  lemma Ports(k: nat)
    ensures Port(3 * k) == 443 && Port(3 * k + 1) == 8443 && Port(3 * k + 2) == 80
  {
  }

  lemma PlainPart(s: string)
    requires s != "" && forall c :: c in s ==> NameChar(c)
    ensures NamePart(s)
  {
  }

  lemma ProbeIsClean(head: string, parts: seq<string>)
    requires NamePart(head) && 1 <= |parts| <= 4 && forall part :: part in parts ==> NamePart(part)
    ensures var n := head + "." + Join(parts, '.'); Clean(n) && Normalize(n) == Success(n)
  {
    JoinCons(head, parts, '.');
    NameIsClean([head] + parts);
  }

  lemma SourceIsClean(mix: Mix, i: nat)
    ensures Clean(QuerySource(mix, i)) && Normalize(QuerySource(mix, i)) == Success(QuerySource(mix, i))
  {
    hide Normalize, Clean, Decimal, Zone, ZoneParts;
    NumberedPart("probe", i);
    if i < mix.numGlobal {
      JoinTwo("global-bench", "invalid");
      assert "global-bench" + "." + "invalid" == "global-bench.invalid";
      ProbeIsClean("probe" + Decimal(i), ["global-bench", "invalid"]);
    } else {
      ZoneIsParts(mix, i);
      ProbeIsClean(if i < mix.numGlobal + mix.numTld then "probe" + Decimal(i) else "probe", ZoneParts(mix, i));
    }
  }

  lemma DestinationIsClean(i: nat)
    ensures Clean(QueryDestination(i)) && Normalize(QueryDestination(i)) == Success(QueryDestination(i))
  {
    hide Normalize, Clean, Decimal;
    NumberedPart("dest", i);
    JoinThree("dest" + Decimal(i), "example", "com");
    assert Destination(i) == "dest" + Decimal(i) + "." + "example" + "." + "com";
    ProbeIsClean("probe", ["dest" + Decimal(i), "example", "com"]);
  }

  lemma MissIsClean(n: nat, junk: nat)
    ensures Normalize(MissSource(n, junk)) == Success(MissSource(n, junk)) && Clean(MissSource(n, junk))
    ensures Normalize(MissDestination(n)) == Success(MissDestination(n)) && Clean(MissDestination(n))
  {
    hide Normalize, Clean, Decimal;
    var a, b := "nomatch" + Decimal(n), "junk" + Decimal(junk);
    NumberedPart("nomatch", n);
    NumberedPart("junk", junk);
    JoinTwo(b, "invalid");
    assert MissSource(n, junk) == a + "." + (b + "." + "invalid");
    ProbeIsClean(a, [b, "invalid"]);
    assert MissDestination(n) == a + "." + "invalid";
    assert Join(["invalid"], '.') == "invalid";
    ProbeIsClean(a, ["invalid"]);
  }

  // ----- Which generated rules a query matches -----

  lemma OneLabelMatches(head: string, rest: string, mode: MatchMode)
    requires '.' !in head
    ensures Matches("*." + rest, head + "." + rest, mode)
  {
    var f := head + "." + rest;
    assert f[|head|..] == "." + rest && f[..|head|] == head;
    assert WildcardAt("*." + rest, f, mode, |head|);
  }

  lemma SourceMatches(mix: Mix, i: nat, mode: MatchMode)
    ensures Matches(RuleOf(mix, i).fqdn1, QuerySource(mix, i), mode)
  {
    hide Matches, Zone;
    NumberedPart("probe", i);
    if i >= mix.numGlobal + mix.numTld {
      OneLabelMatches("probe", Zone(mix, i), mode);
    } else if i >= mix.numGlobal {
      OneLabelMatches("probe" + Decimal(i), Zone(mix, i), mode);
    } else {
      StarMatches(QuerySource(mix, i), mode);
    }
  }

  lemma StarMatches(f: string, mode: MatchMode)
    ensures Matches("*", f, mode)
  {
  }

  lemma DotsAround(d: string, f: string, cut: nat)
    requires f == "probe.dest" + d + ".example.com" && '.' !in d && cut < |f|
    ensures f[cut] == '.' ==> cut == 5 || (cut + 1 < |f| && f[cut + 1] in {'e', 'c'})
  {
    var a, t := "probe.dest", ".example.com";
    if cut < 10 {
      assert f[cut] == a[cut];
    } else if cut < 10 + |d| {
      assert f[cut] == d[cut - 10];
      assert d[cut - 10] in d;
    } else {
      var k := cut - 10 - |d|;
      assert f[cut] == t[k];
      assert k < 11 ==> f[cut + 1] == t[k + 1];
    }
  }

  /** Where the dots of a destination query are. */
  lemma DestinationDots(i: nat, cut: nat)
    requires cut < |QueryDestination(i)| && QueryDestination(i)[cut] == '.'
    ensures cut == 5 || (cut + 1 < |QueryDestination(i)| && QueryDestination(i)[cut + 1] in {'e', 'c'})
  {
    var d := Decimal(i);
    hide Decimal;
    assert QueryDestination(i) == "probe.dest" + d + ".example.com";
    DotsAround(d, QueryDestination(i), cut);
  }

  lemma SameDestination(i: nat, j: nat)
    requires Destination(i) == Destination(j)
    ensures i == j
  {
    hide Decimal;
    assert Destination(i) == "dest" + (Decimal(i) + ".example.com");
    assert Destination(j) == "dest" + (Decimal(j) + ".example.com");
    DropSame("dest", Decimal(i) + ".example.com", Decimal(j) + ".example.com");
    SameSuffix(Decimal(i), Decimal(j), ".example.com");
    DecimalInjective(i, j);
  }

  lemma DestinationMatch(i: nat, j: nat, mode: MatchMode)
    ensures Matches("*." + Destination(j), QueryDestination(i), mode) <==> i == j
  {
    OneLabelMatches("probe", Destination(i), mode);
    var p, f := "*." + Destination(j), QueryDestination(i);
    if Matches(p, f, mode) {
      assert p[0] == '*' && f[0] == 'p' && |p| > 1;
      var cut :| 0 <= cut < |f| && WildcardAt(p, f, mode, cut);
      DestinationDots(i, cut);
      assert p[2] == 'd';
      hide Decimal, Matches, Destination;
      assert p[2] == f[cut + 1];
      assert f[5..] == "." + Destination(i);
      DropSame("*.", Destination(j), Destination(i));
      SameDestination(i, j);
    }
  }

  lemma MissMatchesNothing(n: nat, j: nat, mode: MatchMode)
    ensures !Matches("*." + Destination(j), MissDestination(n), mode)
  {
    hide Decimal;
    var p, f := "*." + Destination(j), MissDestination(n);
    assert p[|p| - 1] == 'm' && f[|f| - 1] == 'd';
    assert |p| > 1;
    forall cut | 0 <= cut < |f|
      ensures !WildcardAt(p, f, mode, cut)
    {
      var q := "*" + f[cut..];
      assert q[|q| - 1] == 'd';
    }
  }

  // ----- The loaded map -----

  lemma AllConsistent(mix: Mix)
    ensures Consistent(AllRules(mix))
  {
    var rules := AllRules(mix);
    forall r, s | r in rules && s in rules && r.Where() == s.Where()
      ensures r.What() == s.What()
    {
      var i :| 0 <= i < |rules| && rules[i] == r;
      var j :| 0 <= j < |rules| && rules[j] == s;
      assert "*." + Destination(i) == r.fqdn2 && "*." + Destination(j) == s.fqdn2;
      DropSame("*.", Destination(i), Destination(j));
      SameDestination(i, j);
    }
  }

  /** The loaded map holds exactly the generated rules. */
  lemma LoadedMap(mix: Mix, t: Triple)
    ensures t in AddAll(map[], AllRules(mix)) <==> exists i :: 0 <= i < mix.Total() && RuleOf(mix, i).Where() == t
    ensures forall i :: 0 <= i < mix.Total() && RuleOf(mix, i).Where() == t ==>
              t in AddAll(map[], AllRules(mix)) && AddAll(map[], AllRules(mix))[t] == RuleOf(mix, i).What()
  {
    var rules := AllRules(mix);
    AllConsistent(mix);
    hide AddAll, RuleOf, Consistent;
    AddedLast(rules, t);
    var m := AddAll(map[], rules);
    forall i | 0 <= i < mix.Total() && RuleOf(mix, i).Where() == t
      ensures t in m && m[t] == RuleOf(mix, i).What()
    {
      assert rules[i] in rules;
      SameValue(rules, rules[i], m, t);
    }
    if t in m {
      var r :| r in rules && r.Where() == t;
      var i :| 0 <= i < |rules| && rules[i] == r;
    }
  }

  lemma SameValue(rules: seq<Rule>, r: Rule, m: RuleMap, t: Triple)
    requires Consistent(rules) && r in rules && r.Where() == t && Wanted(m, t).Some?
    requires exists s :: s in rules && s.Where() == t && Wanted(m, t) == Some(s.What().Encode())
    ensures t in m && m[t] == r.What()
  {
    var s :| s in rules && s.Where() == t && Wanted(m, t) == Some(s.What().Encode());
    EncodeInjective(m[t], s.What());
  }

  lemma OnlyRule(mix: Mix, i: nat, mode: MatchMode, t: Triple)
    requires i < mix.Total()
    ensures Eligible(AddAll(map[], AllRules(mix)), QuerySource(mix, i), PortOf(mix, i), QueryDestination(i), mode, t)
            <==> t == RuleOf(mix, i).Where()
  {
    LoadedMap(mix, t);
    SourceMatches(mix, i, mode);
    DestinationMatch(i, i, mode);
    hide Matches, AddAll, Zone, QuerySource, QueryDestination, Destination, PortOf;
    if t in AddAll(map[], AllRules(mix)) && Matches(t.fqdn2, QueryDestination(i), mode) {
      var j :| 0 <= j < mix.Total() && RuleOf(mix, j).Where() == t;
      DestinationMatch(i, j, mode);
    }
  }

  // ----- Loading in batches -----

  /** The rules of a run of loads, in order. */
  function Loaded(ops: seq<Op>): seq<Rule>
    requires forall op :: op in ops ==> op.PutManyOp?
  {
    if ops == [] then []
    else
      assert ops[|ops| - 1] in ops;
      Loaded(ops[..|ops| - 1]) + ops[|ops| - 1].rules
  }

  lemma {:induction false} AddAllConcat(m: RuleMap, a: seq<Rule>, b: seq<Rule>)
    ensures AddAll(m, a + b) == AddAll(AddAll(m, a), b)
  {
    if b == [] {
      assert a + b == a;
    } else {
      assert (a + b)[..|a + b| - 1] == a + b[..|b| - 1];
      AddAllConcat(m, a, b[..|b| - 1]);
    }
  }

  lemma {:induction false} BatchesAddUp(ops: seq<Op>)
    requires forall op :: op in ops ==> op.PutManyOp?
    requires forall r :: r in Loaded(ops) ==> ValidPort(r.port)
    ensures RunMap(map[], ops) == AddAll(map[], Loaded(ops))
  {
    if ops != [] {
      var init, last := ops[..|ops| - 1], ops[|ops| - 1];
      assert last in ops;
      BatchesAddUp(init);
      AddAllConcat(map[], Loaded(init), last.rules);
      assert Accepted(last);
    }
  }

  /** The operations load all generated rules, in batches of any sizes. */
  predicate LoadsAll(mix: Mix, ops: seq<Op>) {
    (forall op :: op in ops ==> op.PutManyOp?) && Loaded(ops) == AllRules(mix)
  }

  lemma LoadIsMap(mix: Mix, ops: seq<Op>)
    requires LoadsAll(mix, ops)
    ensures RunMap(map[], ops) == AddAll(map[], AllRules(mix))
  {
    hide AddAll, PortOf;
    forall r | r in AllRules(mix)
      ensures ValidPort(r.port)
    {
      var i :| 0 <= i < |AllRules(mix)| && AllRules(mix)[i] == r;
    }
    BatchesAddUp(ops);
  }

  /**
   After a load of all generated rules, by any store and in any batches, the query
   generated for index i returns rule i, under both modes.
   */
  lemma HitQueriesHit(cfg: Config, mix: Mix, ops: seq<Op>, checksum: string -> nat, mode: MatchMode, i: nat,
                      r: Result<Option<Match>>)
    requires cfg.Valid() && LoadsAll(mix, ops) && i < mix.Total()
    requires IsLookup(cfg, Run(map[], cfg, ops), checksum, QuerySource(mix, i), PortOf(mix, i), QueryDestination(i), mode, r)
    ensures r.Success? && r.value.Some? && r.value.value.ruleId == "rule:" + Decimal(i)
  {
    var m := AddAll(map[], AllRules(mix));
    var t := RuleOf(mix, i).Where();
    LoadIsMap(mix, ops);
    hide IsLookup, Run, RunMap, AddAll, Zone, AllRules, LoadsAll;
    ReachableLookup(cfg, ops, checksum, QuerySource(mix, i), PortOf(mix, i), QueryDestination(i), mode, r);
    SourceIsClean(mix, i);
    DestinationIsClean(i);
    LoadedMap(mix, t);
    hide Normalize, Clean, Eligible, QuerySource, QueryDestination, PortOf, Decimal;
    OnlyRule(mix, i, mode, t);
    if r.value.Some? {
      var x := r.value.value;
      OnlyRule(mix, i, mode, Triple(x.fqdn1Pattern, PortOf(mix, i), x.fqdn2Pattern));
    }
  }

  /** A miss query returns nothing. */
  lemma MissQueriesMiss(cfg: Config, mix: Mix, ops: seq<Op>, checksum: string -> nat, mode: MatchMode, n: nat, junk: nat,
                        r: Result<Option<Match>>)
    requires cfg.Valid() && LoadsAll(mix, ops)
    requires IsLookup(cfg, Run(map[], cfg, ops), checksum, MissSource(n, junk), 443, MissDestination(n), mode, r)
    ensures r == Success(None)
  {
    var m := AddAll(map[], AllRules(mix));
    LoadIsMap(mix, ops);
    hide IsLookup, Run, RunMap, AddAll, AllRules, LoadsAll;
    ReachableLookup(cfg, ops, checksum, MissSource(n, junk), 443, MissDestination(n), mode, r);
    MissIsClean(n, junk);
    hide Normalize, Clean, MissSource, MissDestination, Matches;
    if r.value.Some? {
      var x := r.value.value;
      var t := Triple(x.fqdn1Pattern, 443, x.fqdn2Pattern);
      LoadedMap(mix, t);
      var j :| 0 <= j < mix.Total() && RuleOf(mix, j).Where() == t;
      MissMatchesNothing(n, j, mode);
    }
  }
}
