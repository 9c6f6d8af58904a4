/**
 The rule store: opening a namespace, writing and removing rules on all replicas,
 and the two lookups, one grouped by hash tag through the script and one flat.
 */
module Store {
  import opened Text
  import opened Results
  import opened Pattern
  import opened Keys
  import opened Database
  import opened Rules
  import opened Lookups
  import opened Script

  /**
   Why opening a namespace fails, if it does: the recorded count is read, never written.
   Which texts parse as a number is up to the language.
   */
  function OpenError(h: Hashes, ns: string, n: nat, parse: string -> Option<int>): Option<Error> {
    match Get(h, MetaKey(ns), "num_buckets")
    case None => None
    case Some(raw) =>
      match parse(raw)
      case None => Some(UnreadableBucketCount)
      case Some(claimed) => if claimed != n then Some(BucketCountMismatch) else None
  }

  /** The queries a lookup rejects, in the order it checks them. */
  function LookupError(f1: string, port: int, f2: string): Option<Error> {
    match Normalize(f1)
    case Failure(e) => Some(e)
    case Success(_) =>
      match Normalize(f2)
      case Failure(e) => Some(e)
      case Success(_) => if ValidPort(port) then None else Some(PortOutOfRange)
  }

  /** What both lookups promise on any well-formed database, replicas in step or not. */
  ghost predicate IsLookup(cfg: Config, h: Hashes, checksum: string -> nat, f1: string, port: int, f2: string,
                           mode: MatchMode, r: Result<Option<Match>>) {
    match LookupError(f1, port, f2)
    case Some(e) => r == Failure(e)
    case None =>
      var n1, n2 := Normalize(f1).value, Normalize(f2).value;
      var xs, ys := Candidates(n1, mode, cfg.n, checksum), FieldCandidates(n2, mode);
      r.Success? && Usable(cfg, h, xs) && IsScan(cfg, h, xs, ys, port, r.value)
  }

  /** The two algorithms always agree. */
  lemma LookupUnique(cfg: Config, h: Hashes, checksum: string -> nat, f1: string, port: int, f2: string,
                     mode: MatchMode, r: Result<Option<Match>>, r': Result<Option<Match>>)
    requires cfg.Valid()
    requires IsLookup(cfg, h, checksum, f1, port, f2, mode, r) && IsLookup(cfg, h, checksum, f1, port, f2, mode, r')
    ensures r == r'
  {
    if LookupError(f1, port, f2).None? {
      var n1, n2 := Normalize(f1).value, Normalize(f2).value;
      NormalizeClean(f1, n1);
      NormalizeClean(f2, n2);
      hide IsScan, Usable, Ordered, Normalize, Candidates, FieldCandidates;
      CandidatesOrdered(cfg, n1, n2, mode, checksum);
      ScanUnique(cfg, h, Candidates(n1, mode, cfg.n, checksum), FieldCandidates(n2, mode), port, r.value, r'.value);
    }
  }

  /** What a lookup answers when the database stands for a simple map of rules. */
  ghost predicate Answers(m: RuleMap, f1: string, port: int, f2: string, mode: MatchMode, r: Result<Option<Match>>) {
    match LookupError(f1, port, f2)
    case Some(e) => r == Failure(e)
    case None => r.Success? && IsAnswer(m, Normalize(f1).value, port, Normalize(f2).value, mode, r.value)
  }

  /** It is enough that the replica the query reads holds what the simple map holds. */
  lemma LookupShown(cfg: Config, h: Hashes, m: RuleMap, checksum: string -> nat, f1: string, port: int, f2: string,
                    mode: MatchMode, r: Result<Option<Match>>)
    requires LookupError(f1, port, f2).None? ==>
               Shows(cfg, h, m, Normalize(f1).value, port, mode, BucketIndex(Normalize(f1).value, cfg.n, checksum))
    requires IsLookup(cfg, h, checksum, f1, port, f2, mode, r)
    ensures Answers(m, f1, port, f2, mode, r)
  {
    if LookupError(f1, port, f2).None? {
      var n1, n2 := Normalize(f1).value, Normalize(f2).value;
      NormalizeClean(f1, n1);
      NormalizeClean(f2, n2);
      hide IsScan, Usable, IsAnswer, Normalize, Candidates, FieldCandidates, Shows;
      ScanIsAnswer(cfg, h, m, n1, port, n2, mode, checksum, r.value);
    }
  }

  lemma LookupAnswers(cfg: Config, h: Hashes, m: RuleMap, checksum: string -> nat, f1: string, port: int, f2: string,
                      mode: MatchMode, r: Result<Option<Match>>)
    requires Represents(cfg, h, m)
    requires IsLookup(cfg, h, checksum, f1, port, f2, mode, r)
    ensures Answers(m, f1, port, f2, mode, r)
  {
    hide IsLookup, Answers, Shows, Normalize;
    ConfigValid(cfg, h, m);
    if LookupError(f1, port, f2).None? {
      var n1 := Normalize(f1).value;
      hide Represents;
      RepresentsShows(cfg, h, m, n1, port, mode, BucketIndex(n1, cfg.n, checksum));
    }
    LookupShown(cfg, h, m, checksum, f1, port, f2, mode, r);
  }

  class RuleStore {
    const conn: Db
    const cfg: Config
    const checksum: string -> nat

    constructor (conn: Db, cfg: Config, checksum: string -> nat)
      ensures this.conn == conn && this.cfg == cfg && this.checksum == checksum
    {
      this.conn := conn;
      this.cfg := cfg;
      this.checksum := checksum;
    }

    static method Open(conn: Db, cfg: Config, checksum: string -> nat, parse: string -> Option<int>)
      returns (r: Result<RuleStore>)
      ensures match OpenError(conn.hashes, cfg.ns, cfg.n, parse)
              case Some(e) => r == Failure(e)
              case None => r.Success? && r.value.conn == conn && r.value.cfg == cfg && r.value.checksum == checksum
    {
      var raw := conn.HGet(MetaKey(cfg.ns), "num_buckets");
      if raw.Some? {
        var claimed := parse(raw.value);
        if claimed.None? {
          return Failure(UnreadableBucketCount);
        }
        if claimed.value != cfg.n {
          return Failure(BucketCountMismatch);
        }
      }
      var store := new RuleStore(conn, cfg, checksum);
      return Success(store);
    }

    /** The pipeline of one rule's writes, one for each replica key. */
    method AppendSets(pipe: seq<Command>, rule: Rule) returns (longer: seq<Command>, count: nat)
      requires cfg.Valid()
      ensures longer == pipe + RuleSets(cfg, rule)
      ensures count == Replicas(cfg, rule.fqdn1)
    {
      var keys := KeysForPattern(cfg, rule.fqdn1, rule.port);
      var value := rule.What().Encode();
      count := |keys|;
      SetsOfKeys(cfg, rule, keys);
      longer := AppendTo(pipe, keys, rule.fqdn2, value);
    }

    method AppendTo(pipe: seq<Command>, keys: seq<string>, field: string, value: string) returns (longer: seq<Command>)
      ensures longer == pipe + SetKeys(keys, field, value)
    {
      longer := pipe;
      for i := 0 to |keys|
        invariant |longer| == |pipe| + i
        invariant forall j :: 0 <= j < |pipe| ==> longer[j] == pipe[j]
        invariant forall j :: 0 <= j < i ==> longer[|pipe| + j] == HSet(keys[j], field, value)
      {
        longer := longer + [HSet(keys[i], field, value)];
      }
      assert longer == pipe + SetKeys(keys, field, value);
    }

    method Put(rule: Rule) returns (r: Result<()>)
      requires cfg.Valid()
      modifies conn
      ensures r == if ValidPort(rule.port) then Success(()) else Failure(PortOutOfRange)
      ensures conn.hashes == Step(old(conn.hashes), cfg, PutOp(rule))
      ensures forall m :: Represents(cfg, old(conn.hashes), m) ==>
                Represents(cfg, conn.hashes, MapStep(m, PutOp(rule)))
    {
      StepRefinesAll(cfg, conn.hashes, PutOp(rule));
      hide Represents, ApplyAll, MapStep, RuleSets, IsBucketedTag, HashTag;
      if !ValidPort(rule.port) {
        return Failure(PortOutOfRange);
      }
      var pipe, count := AppendSets([], rule);
      assert pipe == RuleSets(cfg, rule);
      if count > 1 {
        pipe := pipe + [Meta(cfg)];
      }
      PutPipe(cfg, rule, pipe, count);
      var _ := conn.Execute(pipe);
      return Success(());
    }

    /** The pipeline of a whole load, or nothing when some port is bad. */
    method BuildLoad(rules: seq<Rule>) returns (pipe: Option<seq<Command>>)
      requires cfg.Valid()
      ensures pipe == if Accepted(PutManyOp(rules)) then Some(PutManyCommands(cfg, rules)) else None
    {
      hide RuleSets, IsBucketedTag, HashTag;
      var cmds, bucketed := [], false;
      for i := 0 to |rules|
        invariant forall k :: 0 <= k < i ==> ValidPort(rules[k].port)
        invariant cmds == SetsOf(cfg, rules[..i])
        invariant bucketed <==> AnyBucketed(cfg, rules[..i])
      {
        var rule := rules[i];
        if !ValidPort(rule.port) {
          assert rule in rules;
          return None;
        }
        var count;
        cmds, count := AppendSets(cmds, rule);
        bucketed := bucketed || count > 1;
        assert rules[..i + 1] == rules[..i] + [rule];
        AnyBucketedStep(cfg, rules[..i], rule);
      }
      assert rules[..|rules|] == rules;
      if bucketed {
        cmds := cmds + [Meta(cfg)];
      }
      assert cmds == PutManyCommands(cfg, rules);
      return Some(cmds);
    }

    /** A bad port anywhere in the load raises before anything is sent. */
    method PutMany(rules: seq<Rule>) returns (r: Result<()>)
      requires cfg.Valid()
      modifies conn
      ensures r == if Accepted(PutManyOp(rules)) then Success(()) else Failure(PortOutOfRange)
      ensures conn.hashes == Step(old(conn.hashes), cfg, PutManyOp(rules))
      ensures forall m :: Represents(cfg, old(conn.hashes), m) ==>
                Represents(cfg, conn.hashes, MapStep(m, PutManyOp(rules)))
    {
      StepRefinesAll(cfg, conn.hashes, PutManyOp(rules));
      hide Represents, ApplyAll, MapStep, PutManyCommands;
      var pipe := BuildLoad(rules);
      if pipe.None? {
        return Failure(PortOutOfRange);
      }
      var _ := conn.Execute(pipe.value);
      return Success(());
    }

    method Delete(t: Triple) returns (deleted: bool)
      requires cfg.Valid()
      modifies conn
      ensures conn.hashes == Step(old(conn.hashes), cfg, DeleteOp(t))
      ensures deleted <==> exists b: nat :: b < Replicas(cfg, t.fqdn1) && Stored(cfg, old(conn.hashes), t, b).Some?
      ensures forall m :: Represents(cfg, old(conn.hashes), m) ==>
                Represents(cfg, conn.hashes, MapStep(m, DeleteOp(t))) && (deleted <==> t in m)
    {
      ghost var h := conn.hashes;
      StepRefinesAll(cfg, h, DeleteOp(t));
      hide Represents, ApplyAll, DeleteCommands, Stored, Get, Replicas;
      var pipe := BuildRemovals(t);
      var replies := conn.Execute(pipe);
      deleted := exists i :: 0 <= i < |replies| && replies[i];
      DeleteReplies(cfg, h, t, replies);
      forall m | Represents(cfg, h, m)
        ensures deleted <==> t in m
      {
        FoundIffPresent(cfg, h, m, t);
      }
    }

    method BuildRemovals(t: Triple) returns (pipe: seq<Command>)
      requires cfg.Valid()
      ensures pipe == DeleteCommands(cfg, t)
    {
      hide KeyFor, HashTag;
      var keys := KeysForPattern(cfg, t.fqdn1, t.port);
      pipe := [];
      for i := 0 to |keys|
        invariant |pipe| == i && forall j :: 0 <= j < i ==> pipe[j] == HDel(keys[j], t.fqdn2)
      {
        pipe := pipe + [HDel(keys[i], t.fqdn2)];
      }
    }

    /** go-router-service: every candidate key's fields at once, then the first unblocked in order. */
    method LookupFlat(f1: string, port: int, f2: string, mode: MatchMode) returns (r: Result<Option<Match>>)
      requires cfg.Valid() && WellFormed(conn.hashes)
      ensures IsLookup(cfg, conn.hashes, checksum, f1, port, f2, mode, r)
      ensures forall m :: Represents(cfg, conn.hashes, m) ==> Answers(m, f1, port, f2, mode, r)
    {
      var e1 := Normalize(f1);
      if e1.Failure? {
        return Failure(e1.error);
      }
      var e2 := Normalize(f2);
      if e2.Failure? {
        return Failure(e2.error);
      }
      if !ValidPort(port) {
        return Failure(PortOutOfRange);
      }
      NormalizeClean(f1, e1.value);
      NormalizeClean(f2, e2.value);
      hide Normalize, Clean, IsScan, IsAnswer, Represents, WellFormed, FieldCandidates, Candidates;
      var found := ScanFlat(e1.value, port, e2.value, mode);
      r := Success(found);
      assert IsLookup(cfg, conn.hashes, checksum, f1, port, f2, mode, r);
      forall m | Represents(cfg, conn.hashes, m)
        ensures Answers(m, f1, port, f2, mode, r)
      {
        LookupAnswers(cfg, conn.hashes, m, checksum, f1, port, f2, mode, r);
      }
    }

    method ScanFlat(n1: string, port: int, n2: string, mode: MatchMode) returns (r: Option<Match>)
      requires cfg.Valid() && WellFormed(conn.hashes) && Clean(n1) && Clean(n2)
      ensures Usable(cfg, conn.hashes, Candidates(n1, mode, cfg.n, checksum))
      ensures IsScan(cfg, conn.hashes, Candidates(n1, mode, cfg.n, checksum), FieldCandidates(n2, mode), port, r)
    {
      CandidatesOrdered(cfg, n1, n2, mode, checksum);
      hide Clean, WellFormed, Candidates, FieldCandidates, IsScan;
      var xs := ComputeCandidates(n1, mode, cfg.n, checksum);
      var ys := ComputeFieldCandidates(n2, mode);
      var rows := FetchRows(xs, ys, port);
      r := FirstInRows(xs, ys, port, rows, conn.hashes);
    }

    method FetchRows(xs: seq<Candidate>, ys: seq<FieldCandidate>, port: int) returns (rows: seq<seq<Option<string>>>)
      requires Usable(cfg, conn.hashes, xs)
      ensures |rows| == |xs|
      ensures forall k :: 0 <= k < |xs| ==> xs[k] in xs && IsRow(cfg, conn.hashes, xs[k], ys, port, rows[k])
    {
      hide WellFormed, Key, Get;
      var fields := Patterns(ys);
      rows := [];
      for i := 0 to |xs|
        invariant |rows| == i
        invariant forall k :: 0 <= k < i ==> xs[k] in xs && IsRow(cfg, conn.hashes, xs[k], ys, port, rows[k])
      {
        assert xs[i] in xs;
        var vals := conn.HMGet(Key(cfg, xs[i].tag, xs[i].bucketIndex, xs[i].pattern, port), fields);
        rows := rows + [vals];
      }
    }

    /** The scan looks at the rows only: h is any database that has them, one for all or pieced together. */
    method FirstInRows(xs: seq<Candidate>, ys: seq<FieldCandidate>, port: int, rows: seq<seq<Option<string>>>, ghost h: Hashes)
      returns (r: Option<Match>)
      requires Usable(cfg, h, xs) && Ordered(xs, ys) && |rows| == |xs|
      requires forall k :: 0 <= k < |xs| ==> xs[k] in xs && IsRow(cfg, h, xs[k], ys, port, rows[k])
      ensures IsScan(cfg, h, xs, ys, port, r)
    {
      hide WellFormed, Visible, IsScan, Ordered, IsRow, IsHit, ClosedBefore;
      ClosedAtStart(cfg, h, xs, ys, port);
      for i := 0 to |xs|
        invariant ClosedBefore(cfg, h, xs, ys, port, i, 0)
      {
        for j := 0 to |ys|
          invariant ClosedBefore(cfg, h, xs, ys, port, i, j)
        {
          r := TestField(xs[i], ys, port, rows[i], j, h);
          if r.Some? {
            HitEnds(cfg, h, xs, ys, port, i, j, r.value);
            return r;
          }
          ClosedPastField(cfg, h, xs, ys, port, i, j);
        }
        ClosedPastRow(cfg, h, xs, ys, port, i);
      }
      NoneEnds(cfg, h, xs, ys, port);
      return None;
    }

    /** One field of one key: a match unless it is absent or its scope blocks it. */
    method TestField(a: Candidate, ys: seq<FieldCandidate>, port: int, row: seq<Option<string>>, j: nat, ghost h: Hashes)
      returns (r: Option<Match>)
      requires cfg.Valid() && a.bucketIndex < cfg.n && WellFormed(h)
      requires IsRow(cfg, h, a, ys, port, row) && j < |ys|
      ensures r.Some? <==> Visible(cfg, h, a, ys[j], port)
      ensures r.Some? ==> IsHit(cfg, h, a, ys[j], port, r.value)
    {
      RowVisible(cfg, h, a, ys, port, row, j);
      if row[j].None? {
        return None;
      }
      var raw := row[j].value;
      var exact := a.rank == 0 && ys[j].rank == 0;
      var deep := a.needsMulti || ys[j].needsMulti;
      var scope := raw[0];
      var blocked := !exact && ((deep && scope == 'S') || (!deep && scope == 'M'));
      if blocked {
        return None;
      }
      r := Some(Match(raw[1..], a.pattern, port, ys[j].pattern, a.rank, ys[j].rank));
      RowHit(cfg, h, a, ys, port, row, j, r.value);
    }

    /** fqdn_router.py and go-benchmark: one script call per hash tag, the best of the groups. */
    method LookupGrouped(f1: string, port: int, f2: string, mode: MatchMode) returns (r: Result<Option<Match>>)
      requires cfg.Valid() && WellFormed(conn.hashes)
      ensures IsLookup(cfg, conn.hashes, checksum, f1, port, f2, mode, r)
      ensures forall m :: Represents(cfg, conn.hashes, m) ==> Answers(m, f1, port, f2, mode, r)
    {
      var e1 := Normalize(f1);
      if e1.Failure? {
        return Failure(e1.error);
      }
      var e2 := Normalize(f2);
      if e2.Failure? {
        return Failure(e2.error);
      }
      if !ValidPort(port) {
        return Failure(PortOutOfRange);
      }
      NormalizeClean(f1, e1.value);
      NormalizeClean(f2, e2.value);
      hide Normalize, Clean, IsScan, IsAnswer, Represents, WellFormed, FieldCandidates, Candidates;
      var found := ScanGrouped(e1.value, port, e2.value, mode);
      r := Success(found);
      assert IsLookup(cfg, conn.hashes, checksum, f1, port, f2, mode, r);
      forall m | Represents(cfg, conn.hashes, m)
        ensures Answers(m, f1, port, f2, mode, r)
      {
        LookupAnswers(cfg, conn.hashes, m, checksum, f1, port, f2, mode, r);
      }
    }

    method ScanGrouped(n1: string, port: int, n2: string, mode: MatchMode) returns (best: Option<Match>)
      requires cfg.Valid() && WellFormed(conn.hashes) && Clean(n1) && Clean(n2)
      ensures Usable(cfg, conn.hashes, Candidates(n1, mode, cfg.n, checksum))
      ensures IsScan(cfg, conn.hashes, Candidates(n1, mode, cfg.n, checksum), FieldCandidates(n2, mode), port, best)
    {
      CandidatesOrdered(cfg, n1, n2, mode, checksum);
      FirstFieldIsExact(n2, mode);
      var xs := ComputeCandidates(n1, mode, cfg.n, checksum);
      var ys := ComputeFieldCandidates(n2, mode);
      hide Clean, WellFormed, Candidates, FieldCandidates;
      var tags, groups := GroupByTag(xs);
      hide Visible, Ordered, IsScan, Grouped, SeenUpTo;
      best := None;
      ghost var seen: seq<Candidate> := [];
      EmptyScan(cfg, conn.hashes, ys, port);
      NothingSeen(tags, groups);
      for i := 0 to |tags|
        invariant Usable(cfg, conn.hashes, seen) && IsScan(cfg, conn.hashes, seen, ys, port, best)
        invariant forall a :: a in seen ==> a in xs
        invariant SeenUpTo(tags, groups, seen, i)
      {
        var tag := tags[i];
        var group := groups[tag];
        GroupUsable(cfg, conn.hashes, xs, ys, tags, groups, tag);
        var found := ScanGroup(cfg, conn, tag, group, ys, port);
        ScanMerge(cfg, conn.hashes, seen, group, ys, port, best, found);
        SeenGrows(tags, groups, seen, i);
        if found.Some? {
          if best.None? || MoreSpecific(found.value.rank1, found.value.rank2, best.value.rank1, best.value.rank2) {
            best := found;
          }
        }
        seen := seen + group;
      }
      AllSeen(xs, tags, groups, seen);
      ScanSameMembers(cfg, conn.hashes, seen, xs, ys, port, best);
    }
  }

  predicate MoreSpecific(rank1: int, rank2: int, bestRank1: int, bestRank2: int) {
    if rank1 != bestRank1 then rank1 < bestRank1 else rank2 < bestRank2
  }

  // ----- What the methods rest on -----

  function SetKeys(keys: seq<string>, field: string, value: string): (cmds: seq<Command>)
    ensures |cmds| == |keys| && forall j :: 0 <= j < |keys| ==> cmds[j] == HSet(keys[j], field, value)
  {
    seq(|keys|, j requires 0 <= j < |keys| => HSet(keys[j], field, value))
  }

  lemma SetsOfKeys(cfg: Config, rule: Rule, keys: seq<string>)
    requires cfg.Valid() && keys == KeysForPattern(cfg, rule.fqdn1, rule.port)
    ensures RuleSets(cfg, rule) == SetKeys(keys, rule.fqdn2, rule.What().Encode())
  {
    hide KeysForPattern, KeyFor;
  }

  lemma PutPipe(cfg: Config, rule: Rule, pipe: seq<Command>, count: nat)
    requires cfg.Valid() && count == Replicas(cfg, rule.fqdn1)
    requires pipe == if count > 1 then RuleSets(cfg, rule) + [Meta(cfg)] else RuleSets(cfg, rule)
    ensures pipe == PutCommands(cfg, rule)
  {
    hide RuleSets, Meta, IsBucketedTag, HashTag;
  }

  lemma AnyBucketedStep(cfg: Config, rules: seq<Rule>, rule: Rule)
    ensures AnyBucketed(cfg, rules + [rule]) <==> AnyBucketed(cfg, rules) || cfg.Buckets(rule.fqdn1)
  {
    hide IsBucketedTag, HashTag;
    assert forall r :: r in rules + [rule] <==> r in rules || r == rule;
  }

  predicate IsRow(cfg: Config, h: Hashes, a: Candidate, ys: seq<FieldCandidate>, port: int, row: seq<Option<string>>)
    requires cfg.Valid() && a.bucketIndex < cfg.n
  {
    |row| == |ys| && forall j :: 0 <= j < |ys| ==> row[j] == Raw(cfg, h, a, ys[j], port)
  }

  lemma RowVisible(cfg: Config, h: Hashes, a: Candidate, ys: seq<FieldCandidate>, port: int, row: seq<Option<string>>, j: nat)
    requires cfg.Valid() && a.bucketIndex < cfg.n && WellFormed(h)
    requires IsRow(cfg, h, a, ys, port, row) && j < |ys|
    ensures row[j] == Raw(cfg, h, a, ys[j], port)
    ensures row[j].Some? ==> row[j].value != ""
    ensures Visible(cfg, h, a, ys[j], port) <==> row[j].Some? && !RawBlocked(a, ys[j], row[j].value)
  {
    hide Key;
  }

  lemma RowHit(cfg: Config, h: Hashes, a: Candidate, ys: seq<FieldCandidate>, port: int, row: seq<Option<string>>, j: nat,
               x: Match)
    requires cfg.Valid() && a.bucketIndex < cfg.n && WellFormed(h)
    requires j < |ys| && IsRow(cfg, h, a, ys, port, row) && Visible(cfg, h, a, ys[j], port)
    requires row[j].Some? && row[j].value != ""
    requires x == Match(row[j].value[1..], a.pattern, port, ys[j].pattern, a.rank, ys[j].rank)
    ensures IsHit(cfg, h, a, ys[j], port, x)
  {
    hide Key, Visible, WellFormed;
  }

  /** The scan has passed every pair before (i, j) and seen nothing. */
  predicate ClosedBefore(cfg: Config, h: Hashes, xs: seq<Candidate>, ys: seq<FieldCandidate>, port: int, i: nat, j: nat)
    requires Usable(cfg, h, xs)
  {
    forall k, l :: 0 <= k < |xs| && 0 <= l < |ys| && Before(k, l, i, j) ==> !Visible(cfg, h, xs[k], ys[l], port)
  }

  lemma ClosedAtStart(cfg: Config, h: Hashes, xs: seq<Candidate>, ys: seq<FieldCandidate>, port: int)
    requires Usable(cfg, h, xs)
    ensures ClosedBefore(cfg, h, xs, ys, port, 0, 0)
  {
    hide Visible, WellFormed;
  }

  lemma ClosedPastField(cfg: Config, h: Hashes, xs: seq<Candidate>, ys: seq<FieldCandidate>, port: int, i: nat, j: nat)
    requires Usable(cfg, h, xs) && i < |xs| && j < |ys| && xs[i] in xs
    requires ClosedBefore(cfg, h, xs, ys, port, i, j) && !Visible(cfg, h, xs[i], ys[j], port)
    ensures ClosedBefore(cfg, h, xs, ys, port, i, j + 1)
  {
    hide Visible, WellFormed;
  }

  lemma ClosedPastRow(cfg: Config, h: Hashes, xs: seq<Candidate>, ys: seq<FieldCandidate>, port: int, i: nat)
    requires Usable(cfg, h, xs) && ClosedBefore(cfg, h, xs, ys, port, i, |ys|)
    ensures ClosedBefore(cfg, h, xs, ys, port, i + 1, 0)
  {
    hide Visible, WellFormed;
  }

  lemma HitEnds(cfg: Config, h: Hashes, xs: seq<Candidate>, ys: seq<FieldCandidate>, port: int, i: nat, j: nat, x: Match)
    requires Usable(cfg, h, xs) && Ordered(xs, ys) && i < |xs| && j < |ys|
    requires xs[i] in xs && IsHit(cfg, h, xs[i], ys[j], port, x)
    requires ClosedBefore(cfg, h, xs, ys, port, i, j)
    ensures IsScan(cfg, h, xs, ys, port, Some(x))
  {
    hide Visible, WellFormed, Ordered;
    FirstIsLeast(cfg, h, xs, ys, port, i, j);
    assert xs[i] in xs && ys[j] in ys;
  }

  lemma NoneEnds(cfg: Config, h: Hashes, xs: seq<Candidate>, ys: seq<FieldCandidate>, port: int)
    requires Usable(cfg, h, xs) && ClosedBefore(cfg, h, xs, ys, port, |xs|, 0)
    ensures IsScan(cfg, h, xs, ys, port, None)
  {
    hide Visible, WellFormed;
    NoneVisible(cfg, h, xs, ys, port);
  }

  lemma FirstFieldIsExact(f: string, mode: MatchMode)
    ensures |FieldCandidates(f, mode)| > 0 && FieldCandidates(f, mode)[0].rank == 0
  {
  }

  lemma EmptyScan(cfg: Config, h: Hashes, ys: seq<FieldCandidate>, port: int)
    requires cfg.Valid() && WellFormed(h)
    ensures Usable(cfg, h, []) && IsScan(cfg, h, [], ys, port, None)
  {
  }

  lemma GroupUsable(cfg: Config, h: Hashes, xs: seq<Candidate>, ys: seq<FieldCandidate>,
                    tags: seq<string>, groups: map<string, seq<Candidate>>, tag: string)
    requires Usable(cfg, h, xs) && Ordered(xs, ys) && Grouped(xs, tags, groups) && tag in tags
    ensures tag in groups && Usable(cfg, h, groups[tag]) && Ordered(groups[tag], ys)
    ensures forall a :: a in groups[tag] ==> a.tag == tag && a in xs
  {
    assert GroupOf(xs, tag, groups[tag]);
  }

  ghost predicate SeenUpTo(tags: seq<string>, groups: map<string, seq<Candidate>>, seen: seq<Candidate>, i: nat)
    requires i <= |tags|
  {
    forall k, a :: 0 <= k < i && tags[k] in groups && a in groups[tags[k]] ==> a in seen
  }

  lemma NothingSeen(tags: seq<string>, groups: map<string, seq<Candidate>>)
    ensures SeenUpTo(tags, groups, [], 0)
  {
  }

  lemma SeenGrows(tags: seq<string>, groups: map<string, seq<Candidate>>, seen: seq<Candidate>, i: nat)
    requires i < |tags| && tags[i] in groups && SeenUpTo(tags, groups, seen, i)
    ensures SeenUpTo(tags, groups, seen + groups[tags[i]], i + 1)
  {
  }

  lemma AllSeen(xs: seq<Candidate>, tags: seq<string>, groups: map<string, seq<Candidate>>, seen: seq<Candidate>)
    requires Grouped(xs, tags, groups) && forall a :: a in seen ==> a in xs
    requires SeenUpTo(tags, groups, seen, |tags|)
    ensures forall a :: a in xs <==> a in seen
  {
    forall a | a in xs
      ensures a in seen
    {
      assert a.tag in tags;
    }
  }

  /** Each removal of the pipeline replies whether its own replica held the field before the pipeline. */
  lemma DeleteReply(cfg: Config, h: Hashes, t: Triple, pipe: seq<Command>, i: nat)
    requires cfg.Valid() && pipe == DeleteCommands(cfg, t) && i < |pipe|
    ensures i < Replicas(cfg, t.fqdn1) == |pipe| && pipe[i] == HDel(KeyFor(cfg, t.fqdn1, t.port, i), t.fqdn2)
    ensures Get(ApplyAll(h, pipe[..i]), pipe[i].key, pipe[i].field) == Stored(cfg, h, t, i)
  {
    hide KeyFor, ApplyAll, Get, HashTag;
    forall c | c in pipe[..i]
      ensures !c.Touches(pipe[i].key, t.fqdn2)
    {
      var j :| 0 <= j < i && pipe[j] == c;
      if c.key == pipe[i].key {
        KeyInjective(cfg, t.fqdn1, t.port, j, t.fqdn1, t.port, i);
      }
    }
    Untouched(h, pipe[..i], pipe[i].key, t.fqdn2);
  }

  lemma DeleteReplies(cfg: Config, h: Hashes, t: Triple, replies: seq<bool>)
    requires cfg.Valid()
    requires var pipe := DeleteCommands(cfg, t);
             && |replies| == |pipe|
             && forall i :: 0 <= i < |pipe| ==>
                  replies[i] == (pipe[i].HDel? && Get(ApplyAll(h, pipe[..i]), pipe[i].key, pipe[i].field).Some?)
    ensures (exists i :: 0 <= i < |replies| && replies[i]) <==>
            exists b: nat :: b < Replicas(cfg, t.fqdn1) && Stored(cfg, h, t, b).Some?
  {
    hide KeyFor, ApplyAll, Get, Stored, DeleteCommands;
    var pipe := DeleteCommands(cfg, t);
    assert |pipe| == Replicas(cfg, t.fqdn1) by { RemovalCount(cfg, t); }
    forall i: nat | i < |pipe|
      ensures replies[i] <==> Stored(cfg, h, t, i).Some?
    {
      DeleteReply(cfg, h, t, pipe, i);
    }
  }

  lemma RemovalCount(cfg: Config, t: Triple)
    requires cfg.Valid()
    ensures |DeleteCommands(cfg, t)| == Replicas(cfg, t.fqdn1)
  {
  }

  /** On a database in step, any replica tells whether the simple map has the rule. */
  lemma FoundIffPresent(cfg: Config, h: Hashes, m: RuleMap, t: Triple)
    requires Represents(cfg, h, m)
    ensures (exists b: nat :: b < Replicas(cfg, t.fqdn1) && Stored(cfg, h, t, b).Some?) <==> t in m
  {
    hide Stored, WellFormed;
    forall b: nat | b < cfg.n
      ensures Stored(cfg, h, t, b).Some? <==> t in m
    {
      assert Stored(cfg, h, t, b) == Wanted(m, t);
    }
    if t in m {
      assert Stored(cfg, h, t, 0).Some?;
    }
  }
}
