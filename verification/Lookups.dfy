/**
 What a lookup must answer, and what both lookup algorithms compute on any
 database: the first visible entry in the order of the candidates.
 */
module Lookups {
  import opened Text
  import opened Pattern
  import opened Keys
  import opened Database
  import opened Rules

  datatype Match = Match(ruleId: string, fqdn1Pattern: string, port: int, fqdn2Pattern: string, rank1: int, rank2: int)

  // ----- The answer, on the simple map of rules -----

  /** Scope restricts how far a rule's wildcard may reach; a fully exact hit has none. */
  predicate Blocked(scope: Scope, p1: string, f1: string, p2: string, f2: string) {
    && !(p1 == f1 && p2 == f2)
    && scope == if Deep(p1, f1) || Deep(p2, f2) then ScopeSingle else ScopeMulti
  }

  predicate Eligible(m: RuleMap, f1: string, port: int, f2: string, mode: MatchMode, t: Triple) {
    && t in m
    && t.port == port
    && Matches(t.fqdn1, f1, mode)
    && Matches(t.fqdn2, f2, mode)
    && !Blocked(m[t].scope, t.fqdn1, f1, t.fqdn2, f2)
  }

  predicate NotWorse(r1: int, r2: int, s1: int, s2: int) {
    r1 < s1 || (r1 == s1 && r2 <= s2)
  }

  /** The eligible rule with the least pair of ranks, or none when no rule is eligible. */
  ghost predicate IsAnswer(m: RuleMap, f1: string, port: int, f2: string, mode: MatchMode, r: Option<Match>) {
    match r
    case None => forall t :: !Eligible(m, f1, port, f2, mode, t)
    case Some(x) =>
      var t := Triple(x.fqdn1Pattern, port, x.fqdn2Pattern);
      && Eligible(m, f1, port, f2, mode, t)
      && x == Match(m[t].ruleId, t.fqdn1, port, t.fqdn2, Rank(t.fqdn1, f1), Rank(t.fqdn2, f2))
      && forall u :: Eligible(m, f1, port, f2, mode, u) ==>
           NotWorse(x.rank1, x.rank2, Rank(u.fqdn1, f1), Rank(u.fqdn2, f2))
  }

  lemma AnswerUnique(m: RuleMap, f1: string, port: int, f2: string, mode: MatchMode, r: Option<Match>, r': Option<Match>)
    requires Clean(f1) && Clean(f2)
    requires IsAnswer(m, f1, port, f2, mode, r) && IsAnswer(m, f1, port, f2, mode, r')
    ensures r == r'
  {
    hide Matches, Rank, Blocked, Clean;
    if r.Some? && r'.Some? {
      var x, y := r.value, r'.value;
      RankDeterminesPattern(x.fqdn1Pattern, y.fqdn1Pattern, f1, mode);
      RankDeterminesPattern(x.fqdn2Pattern, y.fqdn2Pattern, f2, mode);
    }
  }

  /** A found rule is eligible, carries its own id, and no eligible rule has a smaller first rank, or the same and a smaller second. */
  lemma AnswerIsLeast(m: RuleMap, f1: string, port: int, f2: string, mode: MatchMode, x: Match, t: Triple)
    requires IsAnswer(m, f1, port, f2, mode, Some(x)) && Eligible(m, f1, port, f2, mode, t)
    ensures var u := Triple(x.fqdn1Pattern, port, x.fqdn2Pattern);
            && Eligible(m, f1, port, f2, mode, u)
            && x == Match(m[u].ruleId, u.fqdn1, port, u.fqdn2, Rank(u.fqdn1, f1), Rank(u.fqdn2, f2))
    ensures x.rank1 <= Rank(t.fqdn1, f1)
    ensures x.rank1 == Rank(t.fqdn1, f1) ==> x.rank2 <= Rank(t.fqdn2, f2)
  {
    hide Rank, Eligible;
  }

  // ----- The scan, on any database -----

  function Raw(cfg: Config, h: Hashes, a: Candidate, c: FieldCandidate, port: int): Option<string>
    requires cfg.Valid() && a.bucketIndex < cfg.n
  {
    Get(h, Key(cfg, a.tag, a.bucketIndex, a.pattern, port), c.pattern)
  }

  /** The scope test as the code makes it, on the stored text. */
  predicate RawBlocked(a: Candidate, c: FieldCandidate, raw: string)
    requires raw != ""
  {
    var exact := a.rank == 0 && c.rank == 0;
    var deep := a.needsMulti || c.needsMulti;
    !exact && ((deep && raw[0] == 'S') || (!deep && raw[0] == 'M'))
  }

  predicate Visible(cfg: Config, h: Hashes, a: Candidate, c: FieldCandidate, port: int)
    requires cfg.Valid() && a.bucketIndex < cfg.n && WellFormed(h)
  {
    var raw := Raw(cfg, h, a, c, port);
    raw.Some? && !RawBlocked(a, c, raw.value)
  }

  predicate Usable(cfg: Config, h: Hashes, xs: seq<Candidate>) {
    && cfg.Valid()
    && WellFormed(h)
    && forall a :: a in xs ==> a.bucketIndex < cfg.n
  }

  predicate Ordered(xs: seq<Candidate>, ys: seq<FieldCandidate>) {
    && (forall i, j :: 0 <= i < j < |xs| ==> xs[i].rank < xs[j].rank)
    && (forall i, j :: 0 <= i < j < |ys| ==> ys[i].rank < ys[j].rank)
  }

  function Found(a: Candidate, c: FieldCandidate, port: int, raw: string): Match
    requires raw != ""
  {
    Match(raw[1..], a.pattern, port, c.pattern, a.rank, c.rank)
  }

  ghost predicate IsScan(cfg: Config, h: Hashes, xs: seq<Candidate>, ys: seq<FieldCandidate>, port: int, r: Option<Match>)
    requires Usable(cfg, h, xs)
  {
    match r
    case None => forall a, c :: a in xs && c in ys ==> !Visible(cfg, h, a, c, port)
    case Some(x) =>
      && (exists a, c :: a in xs && c in ys && IsHit(cfg, h, a, c, port, x))
      && (forall a, c :: a in xs && c in ys && Visible(cfg, h, a, c, port) ==> NotWorse(x.rank1, x.rank2, a.rank, c.rank))
  }

  ghost predicate IsHit(cfg: Config, h: Hashes, a: Candidate, c: FieldCandidate, port: int, x: Match)
    requires cfg.Valid() && a.bucketIndex < cfg.n && WellFormed(h)
  {
    Visible(cfg, h, a, c, port) && x == Found(a, c, port, Raw(cfg, h, a, c, port).value)
  }

  lemma SameRankSameCandidate(xs: seq<Candidate>, ys: seq<FieldCandidate>,
                              a: Candidate, a': Candidate, c: FieldCandidate, c': FieldCandidate)
    requires Ordered(xs, ys) && a in xs && a' in xs && c in ys && c' in ys
    requires a.rank == a'.rank && c.rank == c'.rank
    ensures a == a' && c == c'
  {
  }

  /** Any two ways of scanning the same database give the same answer. */
  lemma ScanUnique(cfg: Config, h: Hashes, xs: seq<Candidate>, ys: seq<FieldCandidate>, port: int,
                   r: Option<Match>, r': Option<Match>)
    requires Ordered(xs, ys) && Usable(cfg, h, xs)
    requires IsScan(cfg, h, xs, ys, port, r) && IsScan(cfg, h, xs, ys, port, r')
    ensures r == r'
  {
    hide Visible, Raw, Ordered;
    if r.Some? && r'.Some? {
      var a, c :| a in xs && c in ys && IsHit(cfg, h, a, c, port, r.value);
      var a', c' :| a' in xs && c' in ys && IsHit(cfg, h, a', c', port, r'.value);
      SameRankSameCandidate(xs, ys, a, a', c, c');
    }
  }

  /** A scan depends only on what its own fields hold when they are read. */
  lemma ScanReads(cfg: Config, h: Hashes, h': Hashes, xs: seq<Candidate>, ys: seq<FieldCandidate>, port: int, r: Option<Match>)
    requires Usable(cfg, h, xs) && Usable(cfg, h', xs) && IsScan(cfg, h, xs, ys, port, r)
    requires forall a, c :: a in xs && c in ys ==> Raw(cfg, h, a, c, port) == Raw(cfg, h', a, c, port)
    ensures IsScan(cfg, h', xs, ys, port, r)
  {
    hide WellFormed, Raw, RawBlocked, Found;
    assert forall a, c :: a in xs && c in ys ==> (Visible(cfg, h, a, c, port) <==> Visible(cfg, h', a, c, port));
    if r.Some? {
      var a, c :| a in xs && c in ys && IsHit(cfg, h, a, c, port, r.value);
      assert IsHit(cfg, h', a, c, port, r.value);
    }
  }

  // ----- Scanning part by part -----

  function Better(r: Option<Match>, s: Option<Match>): Option<Match> {
    if s.None? then r
    else if r.None? || !NotWorse(r.value.rank1, r.value.rank2, s.value.rank1, s.value.rank2) then s
    else r
  }

  /** The better of two parts' answers is the answer for both parts together. */
  lemma ScanMerge(cfg: Config, h: Hashes, xs: seq<Candidate>, xs': seq<Candidate>, ys: seq<FieldCandidate>, port: int,
                  r: Option<Match>, r': Option<Match>)
    requires Usable(cfg, h, xs) && Usable(cfg, h, xs')
    requires IsScan(cfg, h, xs, ys, port, r) && IsScan(cfg, h, xs', ys, port, r')
    ensures Usable(cfg, h, xs + xs') && IsScan(cfg, h, xs + xs', ys, port, Better(r, r'))
  {
    hide Visible, Found, Raw, WellFormed;
    var zs := xs + xs';
    assert forall a :: a in zs <==> a in xs || a in xs';
  }

  lemma ScanSameMembers(cfg: Config, h: Hashes, xs: seq<Candidate>, xs': seq<Candidate>, ys: seq<FieldCandidate>,
                        port: int, r: Option<Match>)
    requires Usable(cfg, h, xs) && IsScan(cfg, h, xs, ys, port, r)
    requires forall a :: a in xs <==> a in xs'
    ensures Usable(cfg, h, xs') && IsScan(cfg, h, xs', ys, port, r)
  {
    hide Visible, Found, Raw, WellFormed;
  }

  // ----- SingleLevel against MultiLevel, on any database -----

  lemma SingleAmongMulti(fqdn: string, n: nat, checksum: string -> nat)
    ensures forall a :: a in Candidates(fqdn, SingleLevel, n, checksum) ==> a in Candidates(fqdn, MultiLevel, n, checksum)
    ensures forall c :: c in FieldCandidates(fqdn, SingleLevel) ==> c in FieldCandidates(fqdn, MultiLevel)
  {
    hide Level, Tagged, BucketIndex;
    var xs, xs' := FieldCandidates(fqdn, SingleLevel), FieldCandidates(fqdn, MultiLevel);
    var d, d' := Depth(fqdn, SingleLevel), Depth(fqdn, MultiLevel);
    forall i | 0 <= i < |xs|
      ensures exists j :: 0 <= j < |xs'| && xs'[j] == xs[i]
    {
      CandidateAtLevel(fqdn, SingleLevel, i);
      var j := if i < d then i else d';
      CandidateAtLevel(fqdn, MultiLevel, j);
      assert xs'[j] == xs[i];
    }
    hide FieldCandidates, Depth;
    var b := BucketIndex(fqdn, n, checksum);
    forall i | 0 <= i < |xs|
      ensures TagAll(xs, b)[i] in TagAll(xs', b)
    {
      var j :| 0 <= j < |xs'| && xs'[j] == xs[i];
      assert TagAll(xs', b)[j] == TagAll(xs, b)[i];
    }
  }

  /** A SingleLevel hit is still there under MultiLevel, where the answer is as specific or more. */
  lemma MultiSeesMore(cfg: Config, h: Hashes, f1: string, port: int, f2: string, checksum: string -> nat,
                      r: Option<Match>, r': Option<Match>)
    requires Usable(cfg, h, Candidates(f1, SingleLevel, cfg.n, checksum))
    requires Usable(cfg, h, Candidates(f1, MultiLevel, cfg.n, checksum))
    requires IsScan(cfg, h, Candidates(f1, SingleLevel, cfg.n, checksum), FieldCandidates(f2, SingleLevel), port, r)
    requires IsScan(cfg, h, Candidates(f1, MultiLevel, cfg.n, checksum), FieldCandidates(f2, MultiLevel), port, r')
    requires r.Some?
    ensures r'.Some? && NotWorse(r'.value.rank1, r'.value.rank2, r.value.rank1, r.value.rank2)
  {
    hide Candidates, FieldCandidates, Visible, Raw, WellFormed;
    SingleAmongMulti(f1, cfg.n, checksum);
    SingleAmongMulti(f2, cfg.n, checksum);
    var a, c :| a in Candidates(f1, SingleLevel, cfg.n, checksum) && c in FieldCandidates(f2, SingleLevel)
                && IsHit(cfg, h, a, c, port, r.value);
  }

  // ----- The scan of a database that represents the simple map is the answer -----

  lemma CandidatesOrdered(cfg: Config, f1: string, f2: string, mode: MatchMode, checksum: string -> nat)
    requires cfg.Valid() && Clean(f1) && Clean(f2)
    ensures Ordered(Candidates(f1, mode, cfg.n, checksum), FieldCandidates(f2, mode))
    ensures forall a :: a in Candidates(f1, mode, cfg.n, checksum) ==> a.bucketIndex < cfg.n
  {
    hide Clean, HashTag, FieldCandidates;
    RanksIncrease(f1, mode);
    RanksIncrease(f2, mode);
  }

  /** On the one replica a query reads, every triple it can match holds what the simple map holds. */
  ghost predicate Shows(cfg: Config, h: Hashes, m: RuleMap, f1: string, port: int, mode: MatchMode, b: nat) {
    && cfg.Valid()
    && b < cfg.n
    && WellFormed(h)
    && forall t: Triple :: t.port == port && Matches(t.fqdn1, f1, mode) ==> Stored(cfg, h, t, b) == Wanted(m, t)
  }

  lemma RepresentsShows(cfg: Config, h: Hashes, m: RuleMap, f1: string, port: int, mode: MatchMode, b: nat)
    requires Represents(cfg, h, m) && b < cfg.n
    ensures Shows(cfg, h, m, f1, port, mode, b)
  {
    hide Matches, Wanted, WellFormed, KeyFor;
  }

  /** One pair of candidates sees exactly an eligible rule. */
  lemma VisibleIsEligible(cfg: Config, h: Hashes, m: RuleMap, f1: string, port: int, f2: string, mode: MatchMode,
                          checksum: string -> nat, i: nat, j: nat)
    requires Shows(cfg, h, m, f1, port, mode, BucketIndex(f1, cfg.n, checksum)) && Clean(f1) && Clean(f2)
    requires i < |FieldCandidates(f1, mode)| && j < |FieldCandidates(f2, mode)|
    ensures var a, c := Candidates(f1, mode, cfg.n, checksum)[i], FieldCandidates(f2, mode)[j];
            var t := Triple(a.pattern, port, c.pattern);
            && a.bucketIndex < cfg.n
            && a.rank == Rank(t.fqdn1, f1) && c.rank == Rank(t.fqdn2, f2)
            && (Visible(cfg, h, a, c, port) <==> Eligible(m, f1, port, f2, mode, t))
            && (Visible(cfg, h, a, c, port) ==> Raw(cfg, h, a, c, port) == Some(m[t].Encode()))
  {
    var a, c := Candidates(f1, mode, cfg.n, checksum)[i], FieldCandidates(f2, mode)[j];
    var t := Triple(a.pattern, port, c.pattern);
    CandidateFacts(f1, mode, i);
    CandidateFacts(f2, mode, j);
    ZeroRank(t.fqdn1, f1, mode);
    ZeroRank(t.fqdn2, f2, mode);
    hide FieldCandidates, Matches, Rank, HashTag, Key, Clean, WellFormed, BucketIndex;
    assert Stored(cfg, h, t, a.bucketIndex) == Wanted(m, t);
    assert Raw(cfg, h, a, c, port) == Wanted(m, t);
    if t in m {
      SameBlock(a, c, m[t], f1, f2);
      hide RawBlocked, Blocked;
    }
  }

  /** The stored text is blocked exactly when the rule is. */
  lemma SameBlock(a: Candidate, c: FieldCandidate, e: Entry, f1: string, f2: string)
    requires a.rank == Rank(a.pattern, f1) && c.rank == Rank(c.pattern, f2)
    requires a.needsMulti == Deep(a.pattern, f1) && c.needsMulti == Deep(c.pattern, f2)
    requires (Rank(a.pattern, f1) == 0 <==> a.pattern == f1) && (Rank(c.pattern, f2) == 0 <==> c.pattern == f2)
    ensures e.Encode() != "" && (RawBlocked(a, c, e.Encode()) <==> Blocked(e.scope, a.pattern, f1, c.pattern, f2))
  {
    hide Rank, Deep;
    assert e.Encode()[0] == ScopeChar(e.scope);
  }

  lemma ZeroRank(p: string, f: string, mode: MatchMode)
    requires Clean(f) && Matches(p, f, mode)
    ensures Rank(p, f) == 0 <==> p == f
    ensures Deep(p, f) ==> p != f
  {
    var i := MatchIsCandidate(p, f, mode);
    CandidateFacts(f, mode, i);
  }

  lemma ScanIsAnswer(cfg: Config, h: Hashes, m: RuleMap, f1: string, port: int, f2: string, mode: MatchMode,
                     checksum: string -> nat, r: Option<Match>)
    requires Shows(cfg, h, m, f1, port, mode, BucketIndex(f1, cfg.n, checksum)) && Clean(f1) && Clean(f2)
    requires Usable(cfg, h, Candidates(f1, mode, cfg.n, checksum))
    requires IsScan(cfg, h, Candidates(f1, mode, cfg.n, checksum), FieldCandidates(f2, mode), port, r)
    ensures IsAnswer(m, f1, port, f2, mode, r)
  {
    var xs, ys := Candidates(f1, mode, cfg.n, checksum), FieldCandidates(f2, mode);
    hide FieldCandidates, Candidates, Matches, Rank, HashTag, Key, Clean, Shows, Visible, Raw, Eligible, NotWorse;
    ConfigUsable(cfg, h, m, f1, port, mode, checksum);
    forall u | Eligible(m, f1, port, f2, mode, u)
      ensures exists a, c :: a in xs && c in ys && Visible(cfg, h, a, c, port)
                && a.rank == Rank(u.fqdn1, f1) && c.rank == Rank(u.fqdn2, f2)
    {
      var i, j := EligibleIsScanned(m, f1, port, f2, mode, u);
      CandidateCount(f1, mode, cfg.n, checksum);
      VisibleIsEligible(cfg, h, m, f1, port, f2, mode, checksum, i, j);
      CandidateAt(f1, mode, cfg.n, checksum, i);
      assert xs[i] in xs && ys[j] in ys;
    }
    if r.Some? {
      var a, c :| a in xs && c in ys && IsHit(cfg, h, a, c, port, r.value);
      var i :| 0 <= i < |xs| && xs[i] == a;
      var j :| 0 <= j < |ys| && ys[j] == c;
      CandidateCount(f1, mode, cfg.n, checksum);
      VisibleIsEligible(cfg, h, m, f1, port, f2, mode, checksum, i, j);
    }
  }

  lemma ConfigUsable(cfg: Config, h: Hashes, m: RuleMap, f1: string, port: int, mode: MatchMode, checksum: string -> nat)
    requires Shows(cfg, h, m, f1, port, mode, BucketIndex(f1, cfg.n, checksum))
    ensures cfg.Valid() && WellFormed(h)
  {
  }

  lemma CandidateCount(f: string, mode: MatchMode, n: nat, checksum: string -> nat)
    ensures |Candidates(f, mode, n, checksum)| == |FieldCandidates(f, mode)|
  {
  }

  lemma CandidateAt(f: string, mode: MatchMode, n: nat, checksum: string -> nat, i: nat)
    requires i < |FieldCandidates(f, mode)|
    ensures Candidates(f, mode, n, checksum)[i].pattern == FieldCandidates(f, mode)[i].pattern
  {
  }

  lemma EligibleIsScanned(m: RuleMap, f1: string, port: int, f2: string, mode: MatchMode, u: Triple)
    returns (i: nat, j: nat)
    requires Clean(f1) && Clean(f2) && Eligible(m, f1, port, f2, mode, u)
    ensures i < |FieldCandidates(f1, mode)| && FieldCandidates(f1, mode)[i].pattern == u.fqdn1
    ensures j < |FieldCandidates(f2, mode)| && FieldCandidates(f2, mode)[j].pattern == u.fqdn2
    ensures u.port == port
  {
    i := MatchIsCandidate(u.fqdn1, f1, mode);
    j := MatchIsCandidate(u.fqdn2, f2, mode);
  }
}
