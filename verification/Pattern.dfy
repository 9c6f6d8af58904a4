/**
 Matching a concrete name against registered patterns: the generated candidate
 list, the matching relation it must agree with, and the hash tag of a pattern.
 */
module Pattern {
  import opened Text
  import opened Results

  const MAX_LABELS: nat := 20
  const GLOBAL_RANK: nat := 255

  datatype MatchMode = SingleLevel | MultiLevel

  datatype FieldCandidate = FieldCandidate(pattern: string, rank: nat, needsMulti: bool)

  datatype Candidate =
    Candidate(pattern: string, rank: nat, needsMulti: bool, tag: string, bucketIndex: nat)

  // ----- Normalization -----

  /** The white space of ASCII that both languages strip. */
  predicate IsSpace(c: char) {
    c == ' ' || c == '\t' || c == '\n' || c == '\r' || c == '\U{000B}' || c == '\U{000C}'
  }

  /** Python's strip takes the four separator controls as well, Go's TrimSpace does not. */
  predicate IsSpacePython(c: char) {
    IsSpace(c) || IsSeparator(c)
  }

  predicate IsSeparator(c: char) {
    '\U{001C}' <= c <= '\U{001F}'
  }

  function StripLeft(s: string, space: char -> bool): (r: string)
    ensures r == "" || !space(r[0])
  {
    if s == "" || !space(s[0]) then s else StripLeft(s[1..], space)
  }

  function StripRight(s: string, space: char -> bool): (r: string)
    ensures r <= s && (r == "" || !space(r[|r| - 1]))
  {
    if s == "" || !space(s[|s| - 1]) then s else StripRight(s[..|s| - 1], space)
  }

  function StripDots(s: string): (r: string)
    ensures r <= s && (r == "" || r[|r| - 1] != '.')
    ensures s == "" || s[|s| - 1] != '.' ==> r == s
  {
    if s == "" || s[|s| - 1] != '.' then s else StripDots(s[..|s| - 1])
  }

  function LowerChar(c: char): char {
    if 'A' <= c <= 'Z' then (c as int + 32) as char else c
  }

  function Lower(s: string): (r: string)
    ensures |r| == |s|
  {
    seq(|s|, i requires 0 <= i < |s| => LowerChar(s[i]))
  }

  /** What a lookup may assume of a name that passed normalization. */
  predicate Clean(f: string) {
    && '*' !in f
    && |Split(f, '.')| <= MAX_LABELS
    && "" !in Split(f, '.')
  }

  /** Normalization, whatever characters the language's strip takes for white space. */
  function NormalizeBy(fqdn: string, space: char -> bool): Result<string> {
    if fqdn == "" then Failure(EmptyFqdn)
    else if fqdn == "*" then Failure(StarFqdn)
    else
      var normalized := Lower(StripDots(StripRight(StripLeft(fqdn, space), space)));
      var labels := Split(normalized, '.');
      if '*' in normalized then Failure(WildcardInFqdn)
      else if "" in labels then Failure(EmptyLabel)
      else if |labels| > MAX_LABELS then Failure(TooManyLabels)
      else Success(normalized)
  }

  function Normalize(fqdn: string): Result<string> {
    NormalizeBy(fqdn, IsSpace)
  }

  lemma CleanEnds(f: string)
    requires Clean(f)
    ensures |f| > 0 && f[0] != '.' && f[|f| - 1] != '.'
  {
    var labels := Split(f, '.');
    assert labels[0] in labels;
    if f != "" && f[|f| - 1] == '.' {
      var cut := |f| - 1;
      SuffixIsJoin(f, '.', cut, Count(f[..cut], '.') + 1);
      var k := Count(f[..cut], '.') + 1;
      JoinEmpty(labels[k..]);
    }
  }

  lemma JoinEmpty(parts: seq<string>)
    requires |parts| >= 1 && Join(parts, '.') == ""
    ensures parts[0] == ""
  {
  }

  /** f is white space, the core f[i..j], dots and white space. */
  ghost predicate IsCut(f: string, i: int, j: int, k: int, space: char -> bool) {
    && 0 <= i <= j <= k <= |f|
    && (forall m :: 0 <= m < i ==> space(f[m])) && (i < |f| ==> !space(f[i]))
    && (forall m :: j <= m < k ==> f[m] == '.') && (i < j ==> f[j - 1] != '.')
    && (forall m :: k <= m < |f| ==> space(f[m])) && (i < k ==> !space(f[k - 1]))
  }

  lemma {:induction false} LeftCut(s: string, space: char -> bool) returns (i: nat)
    ensures i <= |s| && StripLeft(s, space) == s[i..] && forall m :: 0 <= m < i ==> space(s[m])
  {
    if s == "" || !space(s[0]) {
      i := 0;
    } else {
      i := LeftCut(s[1..], space);
      assert s[1..][i..] == s[i + 1..];
      assert forall m :: 1 <= m < i + 1 ==> s[m] == s[1..][m - 1];
      i := i + 1;
    }
  }

  lemma {:induction false} RightCut(s: string, space: char -> bool)
    ensures forall m :: |StripRight(s, space)| <= m < |s| ==> space(s[m])
  {
    if s != "" && space(s[|s| - 1]) {
      RightCut(s[..|s| - 1], space);
    }
  }

  lemma {:induction false} DotsCut(s: string)
    ensures forall m :: |StripDots(s)| <= m < |s| ==> s[m] == '.'
  {
    if s != "" && s[|s| - 1] == '.' {
      DotsCut(s[..|s| - 1]);
    }
  }

  lemma CutOf(f: string, i: nat, right: string, core: string, space: char -> bool)
    requires i <= |f| && right <= f[i..] && core <= right
    requires (forall m :: 0 <= m < i ==> space(f[m])) && (i < |f| ==> !space(f[i]))
    requires (forall m :: |core| <= m < |right| ==> right[m] == '.') && (core != "" ==> core[|core| - 1] != '.')
    requires (forall m :: |right| <= m < |f| - i ==> space(f[i..][m])) && (right != "" ==> !space(right[|right| - 1]))
    ensures IsCut(f, i, i + |core|, i + |right|, space) && core == f[i..i + |core|]
  {
    forall m | i + |right| <= m < |f|
      ensures space(f[m])
    {
      assert f[m] == f[i..][m - i];
    }
    forall m | i + |core| <= m < i + |right|
      ensures f[m] == '.'
    {
      assert f[m] == right[m - i];
    }
  }

  lemma CutExists(f: string, space: char -> bool) returns (i: nat, j: nat, k: nat)
    ensures IsCut(f, i, j, k, space) && StripDots(StripRight(StripLeft(f, space), space)) == f[i..j]
  {
    i := LeftCut(f, space);
    var left := StripLeft(f, space);
    RightCut(left, space);
    var right := StripRight(left, space);
    DotsCut(right);
    var core := StripDots(right);
    k, j := i + |right|, i + |core|;
    hide StripLeft, StripRight, StripDots, IsCut;
    CutOf(f, i, right, core, space);
  }

  lemma CutUnique(f: string, i: int, j: int, k: int, i': int, j': int, k': int, space: char -> bool)
    requires IsCut(f, i, j, k, space) && IsCut(f, i', j', k', space)
    ensures i == i' && k == k' && j == j'
  {
  }

  lemma NothingClean(n: string)
    requires n == "" || n == "*"
    ensures !Clean(n)
  {
  }

  /** The result of normalization, read off the cut. */
  lemma NormalizeAt(f: string, n: string, i: nat, j: nat, k: nat, space: char -> bool)
    requires IsCut(f, i, j, k, space)
    ensures NormalizeBy(f, space) == Success(n) <==> n == Lower(f[i..j]) && Clean(n)
    ensures NormalizeBy(f, space) == Success(n) ==>
              i < j && |n| == j - i && n[0] == LowerChar(f[i]) && n[|n| - 1] == LowerChar(f[j - 1]) && Lower(n) == n
  {
    var i', j', k' := CutExists(f, space);
    CutUnique(f, i, j, k, i', j', k', space);
    if f == "" || f == "*" {
      assert Lower(f[i..j]) == "" || Lower(f[i..j]) == "*";
      NothingClean(Lower(f[i..j]));
    }
    LowerTwice(f[i..j]);
    hide StripLeft, StripRight, StripDots, Split, IsCut;
    if n == "" {
      NothingClean(n);
    }
  }

  /** Exactly which names are accepted, and as what, whatever counts as white space. */
  lemma NormalizeMeans(f: string, n: string, space: char -> bool)
    ensures NormalizeBy(f, space) == Success(n) <==>
              exists i, j, k :: IsCut(f, i, j, k, space) && n == Lower(f[i..j]) && Clean(n)
  {
    hide NormalizeBy, Clean, IsCut;
    var i, j, k := CutExists(f, space);
    NormalizeAt(f, n, i, j, k, space);
    forall i', j', k' | IsCut(f, i', j', k', space)
      ensures i == i' && j == j'
    {
      CutUnique(f, i, j, k, i', j', k', space);
    }
  }

  lemma NormalizeClean(f: string, n: string)
    requires Normalize(f) == Success(n)
    ensures Clean(n) && |n| > 0
  {
    CleanEnds(n);
  }

  lemma LowerTwice(s: string)
    ensures Lower(Lower(s)) == Lower(s)
  {
  }

  /**
   Normalizing twice changes nothing exactly when the character before the trailing
   dots is not white space, for white space that does not depend on case.
   */
  lemma NormalizeAgain(f: string, n: string, i: nat, j: nat, k: nat, space: char -> bool)
    requires forall c :: space(LowerChar(c)) == space(c)
    requires IsCut(f, i, j, k, space) && NormalizeBy(f, space) == Success(n)
    ensures i < j && (NormalizeBy(n, space) == Success(n) <==> !space(f[j - 1]))
  {
    hide NormalizeBy, Clean, Lower, LowerChar;
    NormalizeAt(f, n, i, j, k, space);
    NormalizeMeans(n, n, space);
    assert space(n[|n| - 1]) == space(f[j - 1]) && space(n[0]) == space(f[i]);
    CleanAt(f, n, i, j, k, space);
    if !space(f[j - 1]) {
      assert IsCut(n, 0, |n|, |n|, space) && n[0..|n|] == n;
    } else {
      forall i', j', k' | IsCut(n, i', j', k', space)
        ensures j' - i' < |n|
      {
      }
    }
  }

  lemma CleanAt(f: string, n: string, i: nat, j: nat, k: nat, space: char -> bool)
    requires IsCut(f, i, j, k, space) && NormalizeBy(f, space) == Success(n)
    ensures Clean(n) && n != "" && n[0] != '.' && n[|n| - 1] != '.'
  {
    NormalizeAt(f, n, i, j, k, space);
    CleanEnds(n);
  }

  /** NormalizeAgain applies to both languages. */
  lemma SpacesKeepCase()
    ensures forall c :: IsSpace(LowerChar(c)) == IsSpace(c) && IsSpacePython(LowerChar(c)) == IsSpacePython(c)
  {
  }

  lemma OneLabel(n: string)
    requires n != "" && '*' !in n && '.' !in n
    ensures Clean(n)
  {
    FindUnique(n, '.', |n|);
  }

  /** A space before the trailing dot is such an input. */
  lemma FooDot()
    ensures Normalize("foo .") == Success("foo ") && Normalize("foo ") == Success("foo")
  {
    assert IsCut("foo .", 0, 4, 5, IsSpace) && Lower("foo ."[0..4]) == "foo ";
    assert IsCut("foo ", 0, 3, 3, IsSpace) && Lower("foo "[0..3]) == "foo";
    OneLabel("foo ");
    OneLabel("foo");
    NormalizeMeans("foo .", "foo ", IsSpace);
    NormalizeMeans("foo ", "foo", IsSpace);
  }

  /** Both accept with one result, or neither accepts. */
  predicate SameOutcome(r: Result<string>, r': Result<string>) {
    r.Success? || r'.Success? ==> r == r'
  }

  /** The outcome, read off the cut. */
  lemma OutcomeAt(f: string, i: nat, j: nat, k: nat, space: char -> bool)
    requires IsCut(f, i, j, k, space)
    ensures var core := Lower(f[i..j]);
            NormalizeBy(f, space).Success? == Clean(core) && (Clean(core) ==> NormalizeBy(f, space) == Success(core))
  {
    hide NormalizeBy, Clean, Lower;
    NormalizeAt(f, Lower(f[i..j]), i, j, k, space);
    if NormalizeBy(f, space).Success? {
      NormalizeAt(f, NormalizeBy(f, space).value, i, j, k, space);
    }
  }

  /**
   Go and Python agree on a name exactly when no separator control ends the text between
   Go's white space, or neither language's core is a clean name.
   */
  lemma LanguagesAgree(f: string, i: nat, j: nat, k: nat, i': nat, j': nat, k': nat)
    requires IsCut(f, i, j, k, IsSpace) && IsCut(f, i', j', k', IsSpacePython)
    ensures SameOutcome(NormalizeBy(f, IsSpace), NormalizeBy(f, IsSpacePython)) <==>
              || (i < k ==> !IsSeparator(f[i]) && !IsSeparator(f[k - 1]))
              || (!Clean(Lower(f[i..j])) && !Clean(Lower(f[i'..j'])))
  {
    hide NormalizeBy, Clean;
    OutcomeAt(f, i, j, k, IsSpace);
    OutcomeAt(f, i', j', k', IsSpacePython);
    if i < k ==> !IsSeparator(f[i]) && !IsSeparator(f[k - 1]) {
      assert IsCut(f, i, j, k, IsSpacePython);
      CutUnique(f, i, j, k, i', j', k', IsSpacePython);
    } else {
      assert i < j;
      if i' < j' {
        NarrowerCut(f, i, j, k, i', j', k');
      }
      assert |Lower(f[i'..j'])| < |Lower(f[i..j])|;
    }
  }

  /** Go rejects this name and Python accepts it. */
  lemma OnlyPythonAccepts()
    ensures NormalizeBy("foo..\U{001C}", IsSpace).Failure? && NormalizeBy("foo..\U{001C}", IsSpacePython) == Success("foo")
  {
    var f := "foo..\U{001C}";
    assert IsCut(f, 0, 6, 6, IsSpace) && IsCut(f, 0, 3, 5, IsSpacePython);
    assert Lower(f[0..3]) == "foo" && Lower(f[0..6]) == f;
    OneLabel("foo");
    TwoDots("foo", "\U{001C}");
    assert "foo" + "." + ("" + "." + "\U{001C}") == f;
    OutcomeAt(f, 0, 6, 6, IsSpace);
    OutcomeAt(f, 0, 3, 5, IsSpacePython);
  }

  lemma TwoDots(x: string, y: string)
    requires '.' !in x
    ensures !Clean(x + "." + ("" + "." + y))
  {
    SplitCons("", y);
    SplitCons(x, "" + "." + y);
    hide Split;
    assert "" in [x] + ([""] + Split(y, '.'));
  }

  lemma NarrowerCut(f: string, i: nat, j: nat, k: nat, i': int, j': int, k': int)
    requires IsCut(f, i, j, k, IsSpace) && IsCut(f, i', j', k', IsSpacePython) && i < j && i' < j'
    requires IsSeparator(f[i]) || IsSeparator(f[k - 1])
    ensures j' - i' < j - i
  {
    assert i <= i' && k' <= k;
    if IsSeparator(f[k - 1]) {
      assert j == k && k' < k;
    } else {
      assert i < i' && k' == k;
    }
  }

  /** What comes out of normalization. */
  predicate IsNormal(n: string) {
    Clean(n) && Lower(n) == n && (n != "" ==> !IsSpace(n[0]))
  }

  lemma ResultIsNormal(g: string, n: string)
    requires Normalize(g) == Success(n)
    ensures IsNormal(n)
  {
    hide NormalizeBy, Clean, Lower;
    var i, j, k := CutExists(g, IsSpace);
    NormalizeAt(g, n, i, j, k, IsSpace);
  }

  /** Exactly the normal names do. */
  lemma NormalizeReaches(n: string)
    ensures (exists g :: Normalize(g) == Success(n)) <==> IsNormal(n)
  {
    hide Normalize;
    if g :| Normalize(g) == Success(n) {
      ResultIsNormal(g, n);
    }
    if IsNormal(n) {
      DotNormalizes(n);
    }
  }

  lemma DotNormalizes(n: string)
    requires IsNormal(n)
    ensures Normalize(n + ".") == Success(n)
  {
    CleanEnds(n);
    hide NormalizeBy, Clean, Lower;
    var g := n + ".";
    assert g[0..|n|] == n && IsCut(g, 0, |n|, |g|, IsSpace);
    NormalizeAt(g, n, 0, |n|, |g|, IsSpace);
  }

  lemma NormalizeSame(n: string)
    requires IsNormal(n) && n != "" && !IsSpace(n[|n| - 1])
    ensures Normalize(n) == Success(n)
  {
    CleanEnds(n);
    hide NormalizeBy, Clean, Lower;
    assert IsCut(n, 0, |n|, |n|, IsSpace) && n[0..|n|] == n;
    NormalizeAt(n, n, 0, |n|, |n|, IsSpace);
  }

  // ----- Hash tags -----

  function StripStar(pattern: string): string {
    if "*." <= pattern then pattern[2..] else pattern
  }

  function HashTag(pattern: string): string {
    if pattern == "*" then "__global__"
    else
      var remaining := Split(StripStar(pattern), '.');
      if |remaining| == 1 then "__tld__:" + remaining[0]
      else remaining[|remaining| - 2] + "." + remaining[|remaining| - 1]
  }

  predicate IsBucketedTag(tag: string) {
    tag == "__global__" || "__tld__:" <= tag
  }

  // ----- Candidate generation -----

  /** How many non-global candidates the walk generates. */
  function Depth(fqdn: string, mode: MatchMode): (d: nat)
    ensures 1 <= d <= |Split(fqdn, '.')|
  {
    var n := |Split(fqdn, '.')|;
    if mode == MultiLevel || n < 2 then n else 2
  }

  function PatternAt(fqdn: string, k: nat): string
    requires k < |Split(fqdn, '.')|
  {
    if k == 0 then fqdn else "*." + Join(Split(fqdn, '.')[k..], '.')
  }

  const STAR: FieldCandidate := FieldCandidate("*", GLOBAL_RANK, false)

  function Level(fqdn: string, k: nat): FieldCandidate
    requires k < |Split(fqdn, '.')|
  {
    FieldCandidate(PatternAt(fqdn, k), k, k >= 2)
  }

  function Levels(fqdn: string, d: nat): (r: seq<FieldCandidate>)
    requires d <= |Split(fqdn, '.')|
    ensures |r| == d && forall k :: 0 <= k < d ==> r[k] == Level(fqdn, k)
  {
    seq(d, k requires 0 <= k < |Split(fqdn, '.')| => Level(fqdn, k))
  }

  function FieldCandidates(fqdn: string, mode: MatchMode): seq<FieldCandidate> {
    Levels(fqdn, Depth(fqdn, mode)) + [STAR]
  }

  function BucketIndex(fqdn: string, numBuckets: nat, checksum: string -> nat): (b: nat)
    ensures b == 0 || b < numBuckets
  {
    if numBuckets > 1 then checksum(fqdn) % numBuckets else 0
  }

  function Tagged(c: FieldCandidate, b: nat): Candidate {
    Candidate(c.pattern, c.rank, c.needsMulti, HashTag(c.pattern), b)
  }

  function TagAll(fields: seq<FieldCandidate>, b: nat): (r: seq<Candidate>)
    ensures |r| == |fields| && forall i :: 0 <= i < |r| ==> r[i] == Tagged(fields[i], b)
  {
    seq(|fields|, i requires 0 <= i < |fields| => Tagged(fields[i], b))
  }

  function Candidates(fqdn: string, mode: MatchMode, numBuckets: nat, checksum: string -> nat)
    : seq<Candidate>
  {
    TagAll(FieldCandidates(fqdn, mode), BucketIndex(fqdn, numBuckets, checksum))
  }

  method ComputeFieldCandidates(fqdn: string, mode: MatchMode)
    returns (result: seq<FieldCandidate>)
    ensures result == FieldCandidates(fqdn, mode)
  {
    var labels := Split(fqdn, '.');
    var n := |labels|;
    result := [FieldCandidate(fqdn, 0, false)];
    if n >= 2 {
      result := result + [FieldCandidate("*." + Join(labels[1..], '.'), 1, false)];
    }
    if mode == MultiLevel {
      var k := 2;
      while k < n
        invariant n >= 2 ==> 2 <= k <= n
        invariant result == Levels(fqdn, if n < 2 then n else k)
      {
        result := result + [FieldCandidate("*." + Join(labels[k..], '.'), k, true)];
        k := k + 1;
      }
    }
    result := result + [FieldCandidate("*", GLOBAL_RANK, false)];
  }

  lemma TagAppend(fields: seq<FieldCandidate>, c: FieldCandidate, b: nat)
    ensures TagAll(fields + [c], b) == TagAll(fields, b) + [Tagged(c, b)]
  {
    hide Tagged;
  }

  lemma LevelsAppend(fqdn: string, k: nat)
    requires k < |Split(fqdn, '.')|
    ensures Levels(fqdn, k) + [Level(fqdn, k)] == Levels(fqdn, k + 1)
  {
    hide Level;
  }

  method ComputeCandidates(fqdn: string, mode: MatchMode, numBuckets: nat, checksum: string -> nat)
    returns (result: seq<Candidate>)
    ensures result == Candidates(fqdn, mode, numBuckets, checksum)
  {
    var labels := Split(fqdn, '.');
    var n := |labels|;
    hide Split, Join, Tagged, TagAll, Levels;
    var b := if numBuckets > 1 then checksum(fqdn) % numBuckets else 0;
    ghost var levels: seq<FieldCandidate> := [];
    assert TagAll(levels, b) == [] && Levels(fqdn, 0) == [];
    LevelsAppend(fqdn, 0);
    TagAppend([], Level(fqdn, 0), b);
    result := [Tagged(FieldCandidate(fqdn, 0, false), b)];
    levels := [] + [Level(fqdn, 0)];
    if n >= 2 {
      LevelsAppend(fqdn, 1);
      TagAppend(levels, Level(fqdn, 1), b);
      result := result + [Tagged(FieldCandidate("*." + Join(labels[1..], '.'), 1, false), b)];
      levels := levels + [Level(fqdn, 1)];
    }
    if mode == MultiLevel {
      var k := 2;
      while k < n
        invariant n >= 2 ==> 2 <= k <= n
        invariant levels == Levels(fqdn, if n < 2 then n else k) && result == TagAll(levels, b)
      {
        LevelsAppend(fqdn, k);
        TagAppend(levels, Level(fqdn, k), b);
        result := result + [Tagged(FieldCandidate("*." + Join(labels[k..], '.'), k, true), b)];
        levels := levels + [Level(fqdn, k)];
        k := k + 1;
      }
    }
    TagAppend(levels, STAR, b);
    result := result + [Tagged(FieldCandidate("*", GLOBAL_RANK, false), b)];
  }

  // ----- The matching relation, stated on the text of the name alone -----

  /** A wildcard stands for the labels before one dot of the name: one label in SingleLevel. */
  predicate Matches(pattern: string, fqdn: string, mode: MatchMode) {
    || pattern == fqdn
    || pattern == "*"
    || exists cut :: 0 <= cut < |fqdn| && WildcardAt(pattern, fqdn, mode, cut)
  }

  predicate WildcardAt(pattern: string, fqdn: string, mode: MatchMode, cut: nat)
    requires cut < |fqdn|
  {
    && fqdn[cut] == '.'
    && pattern == "*" + fqdn[cut..]
    && (mode == SingleLevel ==> '.' !in fqdn[..cut])
  }

  /** Lower is more specific: the number of labels the wildcard stands for. */
  function Rank(pattern: string, fqdn: string): int {
    if pattern == fqdn then 0
    else if pattern == "*" then GLOBAL_RANK
    else Count(fqdn, '.') - Count(pattern, '.') + 1
  }

  /** The wildcard, other than the bare star, stands for two labels or more. */
  predicate Deep(pattern: string, fqdn: string) {
    pattern != "*" && Rank(pattern, fqdn) >= 2
  }

  lemma WildcardRank(fqdn: string, cut: nat)
    requires cut < |fqdn| && fqdn[cut] == '.' && '*' !in fqdn
    ensures var pattern := "*" + fqdn[cut..];
            pattern != fqdn && pattern != "*" &&
            Rank(pattern, fqdn) == Count(fqdn[..cut], '.') + 1
  {
    var pattern := "*" + fqdn[cut..];
    assert pattern[0] == '*' && fqdn[0] in fqdn;
    assert pattern[1..] == fqdn[cut..];
    assert fqdn == fqdn[..cut] + fqdn[cut..];
    CountConcat(fqdn[..cut], fqdn[cut..], '.');
  }

  /** The k-th level is the wildcard at the k-th dot. */
  lemma LevelIsWildcard(fqdn: string, k: nat) returns (cut: nat)
    requires '*' !in fqdn && 1 <= k < |Split(fqdn, '.')|
    ensures cut < |fqdn| && fqdn[cut] == '.' && PatternAt(fqdn, k) == "*" + fqdn[cut..]
    ensures k == 1 <==> '.' !in fqdn[..cut]
    ensures PatternAt(fqdn, k) != fqdn && PatternAt(fqdn, k) != "*" && Rank(PatternAt(fqdn, k), fqdn) == k
  {
    hide Split, Join, Rank, Count;
    cut := JoinIsSuffix(fqdn, '.', k);
    assert "*." + fqdn[cut + 1..] == "*" + fqdn[cut..];
    hide PatternAt;
    WildcardRank(fqdn, cut);
    CountZero(fqdn[..cut], '.');
  }

  lemma WildcardIsLevel(fqdn: string, cut: nat) returns (k: nat)
    requires cut < |fqdn| && fqdn[cut] == '.'
    ensures 1 <= k < |Split(fqdn, '.')| && PatternAt(fqdn, k) == "*" + fqdn[cut..]
    ensures k == 1 <==> '.' !in fqdn[..cut]
  {
    k := Count(fqdn[..cut], '.') + 1;
    CountZero(fqdn[..cut], '.');
    SuffixIsJoin(fqdn, '.', cut, k);
    assert "*." + fqdn[cut + 1..] == "*" + fqdn[cut..];
  }

  /** Every generated candidate matches, with the rank and depth of its text. */
  lemma CandidateFacts(fqdn: string, mode: MatchMode, i: nat)
    requires Clean(fqdn) && i < |FieldCandidates(fqdn, mode)|
    ensures var c := FieldCandidates(fqdn, mode)[i];
            && Matches(c.pattern, fqdn, mode)
            && c.rank == Rank(c.pattern, fqdn)
            && c.needsMulti == Deep(c.pattern, fqdn)
  {
    if i == Depth(fqdn, mode) {
      CleanEnds(fqdn);
      assert fqdn[0] in fqdn;
    } else if i > 0 {
      var cut := LevelIsWildcard(fqdn, i);
      assert WildcardAt(PatternAt(fqdn, i), fqdn, mode, cut);
    }
  }

  lemma CandidateAtLevel(fqdn: string, mode: MatchMode, i: nat)
    requires i <= Depth(fqdn, mode)
    ensures |FieldCandidates(fqdn, mode)| == Depth(fqdn, mode) + 1
    ensures FieldCandidates(fqdn, mode)[i] == if i < Depth(fqdn, mode) then Level(fqdn, i) else STAR
  {
    hide Level, Depth;
  }

  /** Every pattern that matches was generated. */
  lemma MatchIsCandidate(pattern: string, fqdn: string, mode: MatchMode) returns (i: nat)
    requires Clean(fqdn) && Matches(pattern, fqdn, mode)
    ensures i < |FieldCandidates(fqdn, mode)| && FieldCandidates(fqdn, mode)[i].pattern == pattern
  {
    hide FieldCandidates, Clean, Split, Count;
    if pattern == fqdn {
      i := 0;
    } else if pattern == "*" {
      i := Depth(fqdn, mode);
    } else {
      var cut :| 0 <= cut < |fqdn| && WildcardAt(pattern, fqdn, mode, cut);
      i := WildcardIsLevel(fqdn, cut);
    }
    CandidateAtLevel(fqdn, mode, i);
  }

  lemma RanksIncrease(fqdn: string, mode: MatchMode)
    requires Clean(fqdn)
    ensures var cs := FieldCandidates(fqdn, mode);
            forall i, j :: 0 <= i < j < |cs| ==> cs[i].rank < cs[j].rank
  {
  }

  /** The generated list is exactly the matching patterns, most specific first. */
  lemma CandidatesAreTheMatches(fqdn: string, mode: MatchMode)
    requires Clean(fqdn)
    ensures forall p :: Matches(p, fqdn, mode) <==>
              exists i :: 0 <= i < |FieldCandidates(fqdn, mode)| && FieldCandidates(fqdn, mode)[i].pattern == p
    ensures var cs := FieldCandidates(fqdn, mode);
            && (forall i :: 0 <= i < |cs| ==>
                  cs[i].rank == Rank(cs[i].pattern, fqdn) && cs[i].needsMulti == Deep(cs[i].pattern, fqdn))
            && (forall i, j :: 0 <= i < j < |cs| ==> cs[i].rank < cs[j].rank)
    ensures |FieldCandidates(fqdn, mode)| <= MAX_LABELS + 1
  {
    var cs := FieldCandidates(fqdn, mode);
    forall i | 0 <= i < |cs|
      ensures Matches(cs[i].pattern, fqdn, mode)
      ensures cs[i].rank == Rank(cs[i].pattern, fqdn) && cs[i].needsMulti == Deep(cs[i].pattern, fqdn)
    {
      CandidateFacts(fqdn, mode, i);
    }
    forall p | Matches(p, fqdn, mode)
      ensures exists i :: 0 <= i < |cs| && cs[i].pattern == p
    {
      var i := MatchIsCandidate(p, fqdn, mode);
    }
    RanksIncrease(fqdn, mode);
  }

  /** Two patterns of one name with the same rank are the same pattern. */
  lemma RankDeterminesPattern(p: string, q: string, fqdn: string, mode: MatchMode)
    requires Clean(fqdn) && Matches(p, fqdn, mode) && Matches(q, fqdn, mode)
    requires Rank(p, fqdn) == Rank(q, fqdn)
    ensures p == q
  {
    var i := MatchIsCandidate(p, fqdn, mode);
    var j := MatchIsCandidate(q, fqdn, mode);
    CandidateFacts(fqdn, mode, i);
    CandidateFacts(fqdn, mode, j);
    RanksIncrease(fqdn, mode);
  }

  // ----- SingleLevel against MultiLevel -----

  function Shallow(cs: seq<Candidate>): seq<Candidate> {
    if cs == [] then []
    else (if cs[0].needsMulti then [] else [cs[0]]) + Shallow(cs[1..])
  }

  lemma {:induction false} ShallowConcat(a: seq<Candidate>, b: seq<Candidate>)
    ensures Shallow(a + b) == Shallow(a) + Shallow(b)
  {
    if a == [] {
      assert a + b == b;
    } else {
      assert (a + b)[1..] == a[1..] + b;
      ShallowConcat(a[1..], b);
    }
  }

  lemma {:induction false} ShallowAll(cs: seq<Candidate>, deep: bool)
    requires forall c :: c in cs ==> c.needsMulti == deep
    ensures Shallow(cs) == if deep then [] else cs
  {
    if cs != [] {
      ShallowAll(cs[1..], deep);
    }
  }

  /**
   SingleLevel generates MultiLevel's list with the deep candidates removed and
   nothing else changed. The two differ exactly for names of three labels or more.
   */
  lemma SingleIsShallowMulti(fqdn: string, numBuckets: nat, checksum: string -> nat)
    ensures Candidates(fqdn, SingleLevel, numBuckets, checksum)
         == Shallow(Candidates(fqdn, MultiLevel, numBuckets, checksum))
    ensures (Candidates(fqdn, SingleLevel, numBuckets, checksum)
             != Candidates(fqdn, MultiLevel, numBuckets, checksum)) <==> |Split(fqdn, '.')| >= 3
  {
    hide Split, Tagged, TagAll, Levels, Shallow, PatternAt;
    var b := BucketIndex(fqdn, numBuckets, checksum);
    var d, n := Depth(fqdn, SingleLevel), |Split(fqdn, '.')|;
    var all := TagAll(Levels(fqdn, n), b);
    TagAppend(Levels(fqdn, n), STAR, b);
    TagAppend(Levels(fqdn, d), STAR, b);
    assert TagAll(Levels(fqdn, d), b) == all[..d];
    assert forall k :: 0 <= k < n ==> all[k].needsMulti == (k >= 2) by { LevelDepths(fqdn, n, b); }
    assert !Tagged(STAR, b).needsMulti by { TaggedDepth(STAR, b); }
    ShallowSplit(all, [Tagged(STAR, b)], d);
    if n < 3 {
      assert all[..d] == all;
    }
  }

  lemma TaggedDepth(c: FieldCandidate, b: nat)
    ensures Tagged(c, b).needsMulti == c.needsMulti
  {
  }

  lemma LevelDepths(fqdn: string, n: nat, b: nat)
    requires n <= |Split(fqdn, '.')|
    ensures var all := TagAll(Levels(fqdn, n), b);
            |all| == n && forall k :: 0 <= k < n ==> all[k].needsMulti == (k >= 2)
  {
    hide HashTag, PatternAt, Split;
  }

  lemma ShallowSplit(all: seq<Candidate>, star: seq<Candidate>, d: nat)
    requires d <= |all| && forall k :: 0 <= k < |all| ==> all[k].needsMulti == (k >= d)
    requires forall c :: c in star ==> !c.needsMulti
    ensures Shallow(all + star) == all[..d] + star
  {
    hide Shallow;
    var front, back := all[..d], all[d..];
    assert all == front + back;
    ShallowConcat(all, star);
    ShallowConcat(front, back);
    ShallowAll(front, false);
    ShallowAll(back, true);
    ShallowAll(star, false);
  }
}
