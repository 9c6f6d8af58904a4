/**
 Which rules some query can reach, exactly, from the rule's scope and the shape of
 its two patterns.
 */
module Reach {
  import opened Text
  import opened Pattern
  import opened Rules
  import opened Lookups
  import opened Store

  // ----- One side -----

  /** Text that can follow the star and its dot in a pattern some name matches. */
  predicate IsSuffix(s: string) {
    '*' !in s && "" !in Split(s, '.') && Lower(s) == s
  }

  /** A wildcard whose suffix leaves room for so many labels in front. */
  predicate HasRoom(p: string, labels: nat) {
    "*." <= p && IsSuffix(p[2..]) && |Split(p[2..], '.')| + labels <= MAX_LABELS
  }

  /** Some name matches the pattern. */
  predicate IsLive(p: string) {
    p == "*" || IsNormal(p) || HasRoom(p, 1)
  }

  lemma LowerConcat(x: string, y: string)
    ensures Lower(x + y) == Lower(x) + Lower(y)
  {
  }

  lemma LowerDrop(f: string, cut: nat)
    requires cut <= |f| && Lower(f) == f
    ensures Lower(f[cut..]) == f[cut..]
  {
    assert f == f[..cut] + f[cut..];
    LowerConcat(f[..cut], f[cut..]);
  }

  lemma PutLabel(s: string)
    requires IsSuffix(s) && |Split(s, '.')| < MAX_LABELS
    ensures IsSuffix("a" + "." + s) && |Split("a" + "." + s, '.')| == |Split(s, '.')| + 1
    ensures IsNormal("a" + "." + s)
  {
    SplitCons("a", s);
    hide Split;
    LowerConcat("a" + ".", s);
    assert Lower("a" + ".") == "a" + ".";
    hide Lower;
  }

  /** The wildcard at a dot of a name, and when it is deep. */
  lemma WildcardDepth(f: string, cut: nat, mode: MatchMode)
    requires '*' !in f && cut < |f| && f[cut] == '.'
    ensures Deep("*" + f[cut..], f) <==> '.' in f[..cut]
    ensures mode == MultiLevel || '.' !in f[..cut] ==> Matches("*" + f[cut..], f, mode)
  {
    WildcardRank(f, cut);
    CountZero(f[..cut], '.');
    hide Rank, Count;
    if mode == MultiLevel || '.' !in f[..cut] {
      assert WildcardAt("*" + f[cut..], f, mode, cut);
    }
  }

  lemma StarFree(f: string)
    requires IsNormal(f)
    ensures '*' !in f
  {
  }

  /** A name with labels x before a wildcard's suffix. */
  lemma FillStar(x: string, s: string, p: string, f: string, mode: MatchMode)
    requires p == "*." + s && f == x + "." + s && '*' !in f
    ensures Deep(p, f) <==> '.' in x
    ensures mode == MultiLevel || '.' !in x ==> Matches(p, f, mode)
  {
    hide Deep, Matches;
    assert f[..|x|] == x && f[|x|..] == "." + s;
    assert "*" + ("." + s) == p;
    WildcardDepth(f, |x|, mode);
  }

  lemma StarTail(p: string)
    requires "*." <= p
    ensures p == "*." + p[2..]
  {
  }

  /** Every live pattern has a name it matches without reaching deep, itself when it is a name. */
  lemma ShallowName(p: string, mode: MatchMode) returns (f: string)
    requires IsLive(p)
    ensures IsNormal(f) && Matches(p, f, mode) && !Deep(p, f) && (IsNormal(p) ==> f == p)
  {
    if IsNormal(p) {
      f := p;
    } else if p == "*" {
      f := "a";
      OneLabel(f);
    } else {
      f := "a" + "." + p[2..];
      PutLabel(p[2..]);
      hide IsNormal, Split, IsSuffix, Deep, Matches;
      StarFree(f);
      StarTail(p);
      FillStar("a", p[2..], p, f, mode);
    }
  }

  lemma DeepName(p: string) returns (f: string)
    requires HasRoom(p, 2)
    ensures IsNormal(f) && Matches(p, f, MultiLevel) && Deep(p, f)
  {
    var g := "a" + "." + p[2..];
    f := "a" + "." + g;
    PutLabel(p[2..]);
    PutLabel(g);
    hide IsNormal, Split, IsSuffix, Deep, Matches;
    StarFree(f);
    StarTail(p);
    Regroup("a", p[2..]);
    FillStar("a" + "." + "a", p[2..], p, f, MultiLevel);
  }

  lemma Regroup(x: string, s: string)
    ensures x + "." + (x + "." + s) == x + "." + x + "." + s
    ensures '.' in x + "." + x
  {
    assert (x + "." + x)[|x|] == '.';
  }

  lemma SuffixOfName(f: string, cut: nat, k: nat)
    requires IsNormal(f) && cut < |f| && 1 <= k < |Split(f, '.')| && f[cut + 1..] == Join(Split(f, '.')[k..], '.')
    ensures IsSuffix(f[cut + 1..]) && |Split(f[cut + 1..], '.')| == |Split(f, '.')| - k
  {
    var labels := Split(f, '.');
    SplitParts(f, '.');
    SplitJoin(labels[k..], '.');
    LowerDrop(f, cut + 1);
    hide Split, Join, Lower;
    assert forall part :: part in labels[k..] ==> part in labels;
    StarFree(f);
    assert forall c :: c in f[cut + 1..] ==> c in f;
  }

  /** The suffix after a dot of a name, and how many labels it leaves. */
  lemma SuffixAt(f: string, cut: nat) returns (k: nat)
    requires IsNormal(f) && cut < |f| && f[cut] == '.'
    ensures 1 <= k && IsSuffix(f[cut + 1..]) && |Split(f[cut + 1..], '.')| + k <= MAX_LABELS
    ensures k == 1 <==> '.' !in f[..cut]
  {
    k := Count(f[..cut], '.') + 1;
    CountZero(f[..cut], '.');
    hide Count;
    SuffixIsJoin(f, '.', cut, k);
    SuffixOfName(f, cut, k);
  }

  /** What a name that matches a pattern says about the pattern. */
  lemma MatchShape(p: string, f: string, mode: MatchMode)
    requires IsNormal(f) && Matches(p, f, mode)
    ensures IsLive(p) && (p == f ==> IsNormal(p))
    ensures Deep(p, f) ==> mode == MultiLevel && HasRoom(p, 2)
  {
    StarFree(f);
    if p == f || p == "*" {
      SelfRank(p, f);
    } else {
      var cut :| 0 <= cut < |f| && WildcardAt(p, f, mode, cut);
      var k := SuffixAt(f, cut);
      WildcardDepth(f, cut, mode);
      hide IsNormal, IsSuffix, Split, Deep, Matches;
      assert p[2..] == f[cut + 1..];
    }
  }

  lemma SelfRank(p: string, f: string)
    requires p == f || p == "*"
    ensures !Deep(p, f)
  {
  }

  // ----- Rules -----

  /** A query, as typed, that a lookup accepts and whose answer the rule may be. */
  predicate Reaches(m: RuleMap, g1: string, g2: string, mode: MatchMode, t: Triple) {
    && LookupError(g1, t.port, g2).None?
    && Eligible(m, Normalize(g1).value, t.port, Normalize(g2).value, mode, t)
  }

  /** Scope M asks for a fully exact rule, or a wildcard with room for two labels on some side. */
  predicate CanReach(scope: Scope, t: Triple, mode: MatchMode) {
    && ValidPort(t.port)
    && IsLive(t.fqdn1)
    && IsLive(t.fqdn2)
    && (scope == ScopeMulti ==>
          || (IsNormal(t.fqdn1) && IsNormal(t.fqdn2))
          || (mode == MultiLevel && (HasRoom(t.fqdn1, 2) || HasRoom(t.fqdn2, 2))))
  }

  /** Exactly the rules some query reaches, in each mode. */
  lemma ReachableIff(m: RuleMap, t: Triple, mode: MatchMode)
    requires t in m
    ensures (exists g1, g2 :: Reaches(m, g1, g2, mode, t)) <==> CanReach(m[t].scope, t, mode)
  {
    hide Normalize, IsNormal, Matches, Deep, HasRoom, IsLive;
    if g1, g2 :| Reaches(m, g1, g2, mode, t) {
      ResultIsNormal(g1, Normalize(g1).value);
      ResultIsNormal(g2, Normalize(g2).value);
      MatchShape(t.fqdn1, Normalize(g1).value, mode);
      MatchShape(t.fqdn2, Normalize(g2).value, mode);
    }
    if CanReach(m[t].scope, t, mode) {
      QueryExists(m, t, mode);
    }
  }

  lemma QueryExists(m: RuleMap, t: Triple, mode: MatchMode)
    requires t in m && CanReach(m[t].scope, t, mode)
    ensures exists g1, g2 :: Reaches(m, g1, g2, mode, t)
  {
    hide Normalize, IsNormal, Matches, Deep, HasRoom, IsLive;
    var f1 := ShallowName(t.fqdn1, mode);
    var f2 := ShallowName(t.fqdn2, mode);
    if m[t].scope == ScopeMulti && !(IsNormal(t.fqdn1) && IsNormal(t.fqdn2)) {
      if HasRoom(t.fqdn1, 2) {
        f1 := DeepName(t.fqdn1);
      } else {
        f2 := DeepName(t.fqdn2);
      }
    }
    DotNormalizes(f1);
    DotNormalizes(f2);
    assert Reaches(m, f1 + ".", f2 + ".", mode, t);
  }

  /** In particular a rule with scope M and no wildcard beside a star answers no query. */
  lemma StarMultiUnreachable(m: RuleMap, t: Triple, mode: MatchMode, g1: string, g2: string)
    requires t in m && m[t].scope == ScopeMulti
    requires (t.fqdn1 == "*" && !("*." <= t.fqdn2)) || (t.fqdn2 == "*" && !("*." <= t.fqdn1))
    ensures !Reaches(m, g1, g2, mode, t)
  {
    hide Reaches, CanReach;
    ReachableIff(m, t, mode);
    StarIsNoName(t, mode);
  }

  lemma StarIsNoName(t: Triple, mode: MatchMode)
    requires (t.fqdn1 == "*" && !("*." <= t.fqdn2)) || (t.fqdn2 == "*" && !("*." <= t.fqdn1))
    ensures !CanReach(ScopeMulti, t, mode)
  {
  }

  // ----- What each scope allows -----

  /** A wildcard match is deep exactly when it is none under SINGLE_LEVEL. */
  lemma DeepIffNotSingle(p: string, f: string)
    requires Clean(f) && Matches(p, f, MultiLevel)
    ensures Deep(p, f) <==> !Matches(p, f, SingleLevel)
  {
    if p == f || p == "*" {
      SelfRank(p, f);
    } else {
      var cut :| 0 <= cut < |f| && WildcardAt(p, f, MultiLevel, cut);
      WildcardDepth(f, cut, SingleLevel);
      hide Deep, Clean;
      if Matches(p, f, SingleLevel) {
        var other :| 0 <= other < |f| && WildcardAt(p, f, SingleLevel, other);
        assert |f[other..]| == |f[cut..]|;
      }
    }
  }

  lemma SingleIsMulti(p: string, f: string)
    requires Matches(p, f, SingleLevel)
    ensures Matches(p, f, MultiLevel)
  {
    if p != f && p != "*" {
      var cut :| 0 <= cut < |f| && WildcardAt(p, f, SingleLevel, cut);
      assert WildcardAt(p, f, MultiLevel, cut);
    }
  }

  /** Which scopes let a live rule answer, from what its patterns match and nothing else. */
  lemma EligibleByScope(m: RuleMap, f1: string, f2: string, mode: MatchMode, t: Triple)
    requires Clean(f1) && Clean(f2) && t in m
    ensures m[t].scope == ScopeBoth ==>
              (Eligible(m, f1, t.port, f2, mode, t) <==> Matches(t.fqdn1, f1, mode) && Matches(t.fqdn2, f2, mode))
    ensures m[t].scope == ScopeSingle ==>
              (Eligible(m, f1, t.port, f2, mode, t) <==>
                 Matches(t.fqdn1, f1, SingleLevel) && Matches(t.fqdn2, f2, SingleLevel))
    ensures m[t].scope == ScopeMulti ==>
              (Eligible(m, f1, t.port, f2, mode, t) <==>
                 || (t.fqdn1 == f1 && t.fqdn2 == f2)
                 || (mode == MultiLevel && Matches(t.fqdn1, f1, mode) && Matches(t.fqdn2, f2, mode)
                     && !(Matches(t.fqdn1, f1, SingleLevel) && Matches(t.fqdn2, f2, SingleLevel))))
  {
    SideFacts(t.fqdn1, f1, mode);
    SideFacts(t.fqdn2, f2, mode);
    hide Matches, Deep, Clean;
  }

  lemma SideFacts(p: string, f: string, mode: MatchMode)
    requires Clean(f)
    ensures p == f ==> Matches(p, f, SingleLevel)
    ensures Matches(p, f, SingleLevel) ==> Matches(p, f, MultiLevel)
    ensures Matches(p, f, mode) ==> Matches(p, f, MultiLevel) && (Deep(p, f) <==> !Matches(p, f, SingleLevel))
  {
    if Matches(p, f, SingleLevel) {
      SingleIsMulti(p, f);
    }
    hide Deep;
    if Matches(p, f, mode) {
      DeepIffNotSingle(p, f);
    }
  }
}
