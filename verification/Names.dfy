/**
 What normalization and matching mean on the text of a name, without the functions that
 compute them: case, the error a bad name raises, labels, ranks.
 */
module Names {
  import opened Text
  import opened Results
  import opened Pattern

  // ----- Case -----

  const UPPER: string := "ABCDEFGHIJKLMNOPQRSTUVWXYZ"
  const LOWER: string := "abcdefghijklmnopqrstuvwxyz"

  ghost predicate SameLetter(c: char, d: char) {
    c == d || exists k :: 0 <= k < 26 && {c, d} == {UPPER[k], LOWER[k]}
  }

  lemma Alphabet(k: nat)
    requires k < 26
    ensures UPPER[k] as int == 65 + k && LOWER[k] as int == 97 + k
  {
  }

  lemma LetterOf(c: char) returns (k: nat)
    requires 'A' <= c <= 'Z'
    ensures k < 26 && c == UPPER[k] && LowerChar(c) == LOWER[k]
  {
    k := c as int - 65;
    Alphabet(k);
  }

  /** Lower-casing identifies exactly the two forms of each letter. */
  lemma LowerIdentifies(c: char, d: char)
    ensures LowerChar(c) == LowerChar(d) <==> SameLetter(c, d)
    ensures LowerChar(c) !in UPPER
  {
    forall k | 0 <= k < 26
      ensures LowerChar(UPPER[k]) == LOWER[k] == LowerChar(LOWER[k])
      ensures LowerChar(c) != UPPER[k]
    {
      Alphabet(k);
    }
    if 'A' <= c <= 'Z' {
      var k := LetterOf(c);
      if 'A' <= d <= 'Z' {
        var m := LetterOf(d);
        Alphabet(k);
        Alphabet(m);
      } else if LowerChar(c) == LowerChar(d) {
        assert {c, d} == {UPPER[k], LOWER[k]};
      }
    } else if 'A' <= d <= 'Z' {
      var m := LetterOf(d);
      if LowerChar(c) == LowerChar(d) {
        assert {c, d} == {UPPER[m], LOWER[m]};
      }
    }
    if k :| 0 <= k < 26 && {c, d} == {UPPER[k], LOWER[k]} {
      assert c in {UPPER[k], LOWER[k]} && d in {UPPER[k], LOWER[k]};
    }
  }

  /** The white space of each language, by code point. */
  lemma SpaceCodes(c: char)
    ensures IsSpace(c) <==> c as int in {9, 10, 11, 12, 13, 32}
    ensures IsSpacePython(c) <==> c as int in {9, 10, 11, 12, 13, 28, 29, 30, 31, 32}
  {
  }

  // ----- Which error a bad name raises -----

  /** Two dots meet, or a dot or nothing is at an end. */
  predicate HasEmptyPart(s: string) {
    || s == ""
    || s[0] == '.'
    || s[|s| - 1] == '.'
    || exists m :: 0 <= m < |s| - 1 && s[m] == '.' && s[m + 1] == '.'
  }

  lemma {:induction false} EmptyPartMeans(s: string)
    ensures "" in Split(s, '.') <==> HasEmptyPart(s)
    decreases |s|
  {
    var i := Find(s, '.');
    if i < |s| {
      var rest := s[i + 1..];
      EmptyPartMeans(rest);
      assert "" in Split(s, '.') <==> i == 0 || "" in Split(rest, '.') by {
        assert Split(s, '.') == [s[..i]] + Split(rest, '.');
      }
      hide Split, Find;
      EmptyPartTail(s, i, rest);
    } else {
      assert Split(s, '.') == [s];
      hide Split;
    }
  }

  lemma EmptyPartTail(s: string, i: nat, rest: string)
    requires i < |s| && s[i] == '.' && (forall m :: 0 <= m < i ==> s[m] != '.') && rest == s[i + 1..]
    ensures HasEmptyPart(s) <==> i == 0 || HasEmptyPart(rest)
  {
    if rest != "" {
      assert rest[0] == s[i + 1] && rest[|rest| - 1] == s[|s| - 1];
      forall m | 0 <= m < |rest| - 1 && rest[m] == '.' && rest[m + 1] == '.'
        ensures s[m + i + 1] == '.' && s[m + i + 1 + 1] == '.'
      {
      }
      if m :| 0 <= m < |s| - 1 && s[m] == '.' && s[m + 1] == '.' {
        if m > i {
          assert rest[m - i - 1] == '.' && rest[m - i - 1 + 1] == '.';
        }
      }
      if rest[0] == '.' {
        assert s[i] == '.' && s[i + 1] == '.';
      }
    }
  }

  /** The outcome of normalization in the order of the checks, on the core alone. */
  function Outcome(f: string, core: string): Result<string> {
    if f == "" then Failure(EmptyFqdn)
    else if f == "*" then Failure(StarFqdn)
    else if '*' in core then Failure(WildcardInFqdn)
    else if HasEmptyPart(core) then Failure(EmptyLabel)
    else if Count(core, '.') >= 20 then Failure(TooManyLabels)
    else Success(core)
  }

  /** Every outcome: the result or which error, read off the cut. */
  lemma NormalizeOutcome(f: string, i: nat, j: nat, k: nat, space: char -> bool)
    requires IsCut(f, i, j, k, space)
    ensures NormalizeBy(f, space) == Outcome(f, Lower(f[i..j]))
  {
    var i', j', k' := CutExists(f, space);
    CutUnique(f, i, j, k, i', j', k', space);
    var core := Lower(f[i..j]);
    EmptyPartMeans(core);
    SplitParts(core, '.');
    hide StripLeft, StripRight, StripDots, Split, IsCut, HasEmptyPart, Count, Lower;
  }

  /** Names that differ only in the case of letters have one outcome. */
  lemma CaseIgnored(f: string, g: string)
    requires |f| == |g| && forall m :: 0 <= m < |f| ==> SameLetter(f[m], g[m])
    ensures Normalize(f) == Normalize(g)
  {
    forall m | 0 <= m < |f|
      ensures SameMark(f[m], g[m])
    {
      LowerIdentifies(f[m], g[m]);
      MarksKeepCase(f[m]);
      MarksKeepCase(g[m]);
    }
    hide SameLetter, SameMark, NormalizeBy, IsCut;
    var i, j, k := CutExists(f, IsSpace);
    SameCut(f, g, i, j, k);
    NormalizeOutcome(f, i, j, k, IsSpace);
    NormalizeOutcome(g, i, j, k, IsSpace);
  }

  predicate SameMark(c: char, d: char) {
    && LowerChar(c) == LowerChar(d)
    && IsSpace(c) == IsSpace(d)
    && (c == '.' <==> d == '.')
    && (c == '*' <==> d == '*')
  }

  lemma SameCut(f: string, g: string, i: nat, j: nat, k: nat)
    requires |f| == |g| && IsCut(f, i, j, k, IsSpace) && forall m :: 0 <= m < |f| ==> SameMark(f[m], g[m])
    ensures IsCut(g, i, j, k, IsSpace) && Lower(f[i..j]) == Lower(g[i..j])
    ensures f == "*" <==> g == "*"
  {
    hide IsSpace, LowerChar;
  }

  /** An accepted name has no upper-case letter. */
  lemma NoUpperCase(f: string)
    requires Normalize(f).Success?
    ensures forall c :: c in Normalize(f).value ==> c !in UPPER
  {
    var n := Normalize(f).value;
    ResultIsNormal(f, n);
    assert Lower(n) == n;
    hide Normalize, Clean;
    forall c | c in n
      ensures c !in UPPER
    {
      var m :| 0 <= m < |n| && n[m] == c;
      assert Lower(n)[m] == LowerChar(n[m]);
      LowerIdentifies(n[m], n[m]);
    }
  }

  lemma MarksKeepCase(c: char)
    ensures IsSpace(LowerChar(c)) == IsSpace(c)
    ensures (LowerChar(c) == '.' <==> c == '.') && (LowerChar(c) == '*' <==> c == '*')
  {
  }

  // ----- Matching by labels -----

  /** A wildcard stands for the labels before its own: one, or any number in MULTI_LEVEL. */
  lemma MatchByLabels(p: string, f: string, mode: MatchMode)
    requires Clean(f)
    ensures Matches(p, f, mode) <==>
              || p == f
              || p == "*"
              || exists k :: HasTail(p, f, k) && (mode == SingleLevel ==> k == 1)
  {
    hide Clean, Split;
    if p != f && p != "*" {
      if Matches(p, f, mode) {
        var cut :| 0 <= cut < |f| && WildcardAt(p, f, mode, cut);
        var k := WildcardIsLevel(f, cut);
        TailOfLevel(f, k);
        assert HasTail(p, f, k);
      }
      if k :| HasTail(p, f, k) && (mode == SingleLevel ==> k == 1) {
        StarNotIn(f);
        var cut := LevelIsWildcard(f, k);
        TailText(p, f, k);
        assert WildcardAt(p, f, mode, cut);
      }
    }
  }

  /** The labels after the star are those of the name from its k-th on. */
  ghost predicate HasTail(p: string, f: string, k: int) {
    && "*." <= p
    && 1 <= k < |Split(f, '.')|
    && Split(p[2..], '.') == Split(f, '.')[k..]
  }

  lemma StarNotIn(f: string)
    requires Clean(f)
    ensures '*' !in f
  {
  }

  lemma TailOfLevel(f: string, k: nat)
    requires 1 <= k < |Split(f, '.')|
    ensures HasTail(PatternAt(f, k), f, k)
  {
    SplitParts(f, '.');
    var labels := Split(f, '.');
    hide Split, Join;
    SplitJoin(labels[k..], '.');
    assert PatternAt(f, k)[2..] == Join(labels[k..], '.');
  }

  lemma TailText(p: string, f: string, k: nat)
    requires HasTail(p, f, k)
    ensures PatternAt(f, k) == p
  {
    hide Split, Join;
    JoinSplit(p[2..], '.');
    assert p == "*." + p[2..];
  }

  /** The rank of a match is the number of labels its wildcard stands for, 255 for the bare star. */
  lemma RankMeans(p: string, f: string, mode: MatchMode)
    requires Clean(f) && Matches(p, f, mode)
    ensures Rank(p, f) == 0 <==> p == f
    ensures p == "*" ==> Rank(p, f) == 255
    ensures p != f && p != "*" ==> HasTail(p, f, Rank(p, f))
    ensures Deep(p, f) <==> p != "*" && Rank(p, f) >= 2
    ensures p != "*" ==> Rank(p, f) < 20
  {
    hide Clean, Split;
    if p == f || p == "*" {
      StarNotIn(f);
      assert p == "*" ==> '*' in p;
    } else {
      var cut :| 0 <= cut < |f| && WildcardAt(p, f, mode, cut);
      var k := WildcardIsLevel(f, cut);
      StarNotIn(f);
      var again := LevelIsWildcard(f, k);
      TailOfLevel(f, k);
      FewLabels(f);
    }
  }

  lemma FewLabels(f: string)
    requires Clean(f)
    ensures 1 <= |Split(f, '.')| <= 20
  {
  }

  /** How long the generated lists are. */
  lemma ListSizes(f: string)
    requires Clean(f)
    ensures |FieldCandidates(f, MultiLevel)| == |Split(f, '.')| + 1 <= 21
    ensures |FieldCandidates(f, SingleLevel)| == if |Split(f, '.')| == 1 then 2 else 3
  {
    hide Split;
    FewLabels(f);
  }
}
