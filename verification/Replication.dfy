/**
 Whole runs: the replicated database against the simple map, and loads that are cut
 short or reordered.
 */
module Replication {
  import opened Text
  import opened Results
  import opened Pattern
  import opened Keys
  import opened Database
  import opened Rules
  import opened Lookups
  import opened Store

  function Run(h: Hashes, cfg: Config, ops: seq<Op>): Hashes
    requires cfg.Valid()
  {
    if ops == [] then h else Step(Run(h, cfg, ops[..|ops| - 1]), cfg, ops[|ops| - 1])
  }

  function RunMap(m: RuleMap, ops: seq<Op>): RuleMap {
    if ops == [] then m else MapStep(RunMap(m, ops[..|ops| - 1]), ops[|ops| - 1])
  }

  // ----- Replication refines the simple map -----

  lemma {:induction false} RunRefines(cfg: Config, h: Hashes, m: RuleMap, ops: seq<Op>)
    requires Represents(cfg, h, m)
    ensures cfg.Valid() && Represents(cfg, Run(h, cfg, ops), RunMap(m, ops))
  {
    hide Represents, Step, MapStep;
    ConfigValid(cfg, h, m);
    if ops != [] {
      RunRefines(cfg, h, m, ops[..|ops| - 1]);
      StepRefines(cfg, Run(h, cfg, ops[..|ops| - 1]), RunMap(m, ops[..|ops| - 1]), ops[|ops| - 1]);
    }
  }

  lemma EmptyRepresents(cfg: Config)
    requires cfg.Valid()
    ensures Represents(cfg, map[], map[])
  {
    hide KeyFor;
  }

  /** In every reachable state all replicas of a triple hold the same, namely what the map holds. */
  lemma ReplicasAgree(cfg: Config, ops: seq<Op>, t: Triple, b: nat, c: nat)
    requires cfg.Valid() && b < cfg.n && c < cfg.n
    ensures Stored(cfg, Run(map[], cfg, ops), t, b) == Stored(cfg, Run(map[], cfg, ops), t, c)
         == Wanted(RunMap(map[], ops), t)
  {
    hide Run, RunMap, Stored, Wanted, WellFormed;
    EmptyRepresents(cfg);
    RunRefines(cfg, map[], map[], ops);
  }

  /** Every lookup of every reachable state answers for the simple map of the same operations. */
  lemma ReachableLookup(cfg: Config, ops: seq<Op>, checksum: string -> nat, f1: string, port: int, f2: string,
                        mode: MatchMode, r: Result<Option<Match>>)
    requires cfg.Valid()
    requires IsLookup(cfg, Run(map[], cfg, ops), checksum, f1, port, f2, mode, r)
    ensures Answers(RunMap(map[], ops), f1, port, f2, mode, r)
  {
    hide Run, RunMap, Represents, IsLookup, Answers;
    EmptyRepresents(cfg);
    RunRefines(cfg, map[], map[], ops);
    LookupAnswers(cfg, Run(map[], cfg, ops), RunMap(map[], ops), checksum, f1, port, f2, mode, r);
  }

  /** The bucket count, the tokens, the namespace and the checksum never change an answer. */
  lemma BucketCountIrrelevant(cfg: Config, cfg': Config, ops: seq<Op>, checksum: string -> nat, checksum': string -> nat,
                              f1: string, port: int, f2: string, mode: MatchMode,
                              r: Result<Option<Match>>, r': Result<Option<Match>>)
    requires cfg.Valid() && cfg'.Valid()
    requires IsLookup(cfg, Run(map[], cfg, ops), checksum, f1, port, f2, mode, r)
    requires IsLookup(cfg', Run(map[], cfg', ops), checksum', f1, port, f2, mode, r')
    ensures r == r'
  {
    hide Run, RunMap, IsLookup;
    ReachableLookup(cfg, ops, checksum, f1, port, f2, mode, r);
    ReachableLookup(cfg', ops, checksum', f1, port, f2, mode, r');
    AnswersUnique(RunMap(map[], ops), f1, port, f2, mode, r, r');
  }

  lemma AnswersUnique(m: RuleMap, f1: string, port: int, f2: string, mode: MatchMode,
                      r: Result<Option<Match>>, r': Result<Option<Match>>)
    requires Answers(m, f1, port, f2, mode, r) && Answers(m, f1, port, f2, mode, r')
    ensures r == r'
  {
    if LookupError(f1, port, f2).None? {
      var n1, n2 := Normalize(f1).value, Normalize(f2).value;
      NormalizeClean(f1, n1);
      NormalizeClean(f2, n2);
      hide Normalize, IsAnswer, Clean;
      AnswerUnique(m, n1, port, n2, mode, r.value, r'.value);
    }
  }

  // ----- Loads cut short -----

  /** Commands that touch a field leave it the same whatever was there. */
  lemma {:induction false} Overwritten(h: Hashes, h': Hashes, cmds: seq<Command>, k: string, f: string)
    requires (exists c :: c in cmds && c.Touches(k, f)) || Get(h, k, f) == Get(h', k, f)
    ensures Get(ApplyAll(h, cmds), k, f) == Get(ApplyAll(h', cmds), k, f)
  {
    hide Apply, Get;
    if cmds != [] {
      var init, last := cmds[..|cmds| - 1], cmds[|cmds| - 1];
      GetApply(ApplyAll(h, init), last, k, f);
      GetApply(ApplyAll(h', init), last, k, f);
      if !last.Touches(k, f) {
        assert cmds == init + [last];
        Overwritten(h, h', init, k, f);
      }
    }
  }

  /** After any part of a pipeline was applied, in any order, replaying all of it gives one clean run. */
  lemma ReplayConverges(h: Hashes, cmds: seq<Command>, part: seq<Command>)
    requires WellFormed(h) && forall c :: c in cmds ==> Writable(c)
    requires forall c :: c in part ==> c in cmds
    ensures ApplyAll(ApplyAll(h, part), cmds) == ApplyAll(h, cmds)
  {
    hide WellFormed, Get;
    WellFormedApplyAll(h, part);
    WellFormedApplyAll(ApplyAll(h, part), cmds);
    WellFormedApplyAll(h, cmds);
    forall k, f
      ensures Get(ApplyAll(ApplyAll(h, part), cmds), k, f) == Get(ApplyAll(h, cmds), k, f)
    {
      if forall c :: c in part ==> !c.Touches(k, f) {
        Untouched(h, part, k, f);
      }
      Overwritten(ApplyAll(h, part), h, cmds, k, f);
    }
    SameFields(ApplyAll(ApplyAll(h, part), cmds), ApplyAll(h, cmds));
  }

  lemma {:induction false} SetsMembers(cfg: Config, rules: seq<Rule>, c: Command)
    requires cfg.Valid()
    ensures c in SetsOf(cfg, rules) <==> exists r :: r in rules && c in RuleSets(cfg, r)
  {
    hide RuleSets;
    if rules != [] {
      var init, last := rules[..|rules| - 1], rules[|rules| - 1];
      SetsMembers(cfg, init, c);
      assert rules == init + [last];
      assert forall r :: r in rules <==> r in init || r == last;
    }
  }

  lemma LoadWritable(cfg: Config, rules: seq<Rule>)
    requires cfg.Valid()
    ensures forall c :: c in PutManyCommands(cfg, rules) ==> Writable(c)
  {
    hide SetsOf, RuleSets, KeyFor, AnyBucketed;
    forall c | c in PutManyCommands(cfg, rules)
      ensures Writable(c)
    {
      SetsMembers(cfg, rules, c);
      if c in SetsOf(cfg, rules) {
        var r :| r in rules && c in RuleSets(cfg, r);
        SetOfRule(cfg, r, c);
      }
    }
  }

  lemma CommandsWritable(cfg: Config, op: Op)
    requires cfg.Valid()
    ensures forall c :: c in Commands(cfg, op) ==> Writable(c)
  {
    match op {
      case PutOp(rule) =>
        hide KeyFor, RuleSets;
        forall c | c in RuleSets(cfg, rule)
          ensures Writable(c)
        {
          SetOfRule(cfg, rule, c);
        }
      case PutManyOp(rules) => LoadWritable(cfg, rules);
      case DeleteOp(_) =>
    }
  }

  /** Resuming a half-applied load converges to the same state. */
  lemma LoadResumes(cfg: Config, h: Hashes, rules: seq<Rule>, part: seq<Command>)
    requires cfg.Valid() && WellFormed(h)
    requires forall c :: c in part ==> c in PutManyCommands(cfg, rules)
    ensures ApplyAll(ApplyAll(h, part), PutManyCommands(cfg, rules)) == ApplyAll(h, PutManyCommands(cfg, rules))
  {
    LoadWritable(cfg, rules);
    hide PutManyCommands, WellFormed;
    ReplayConverges(h, PutManyCommands(cfg, rules), part);
  }

  // ----- Loads reordered -----

  /** Rules for one triple all say the same. */
  predicate Consistent(rules: seq<Rule>) {
    forall r, s :: r in rules && s in rules && r.Where() == s.Where() ==> r.What() == s.What()
  }

  ghost predicate OrderIndependent(cfg: Config, rules: seq<Rule>)
    requires cfg.Valid()
  {
    forall rs, h :: multiset(rs) == multiset(rules) && WellFormed(h) ==> SameLoad(cfg, h, rs, rules)
  }

  ghost predicate SameLoad(cfg: Config, h: Hashes, rs: seq<Rule>, rules: seq<Rule>)
    requires cfg.Valid()
  {
    Step(h, cfg, PutManyOp(rs)) == Step(h, cfg, PutManyOp(rules))
  }

  lemma SetOfRule(cfg: Config, r: Rule, c: Command)
    requires cfg.Valid() && c in RuleSets(cfg, r)
    ensures c.HSet? && c.field == r.fqdn2 && c.value == r.What().Encode()
    ensures exists i: nat :: i < cfg.n && c.key == KeyFor(cfg, r.fqdn1, r.port, i)
  {
    hide KeyFor;
    var i :| 0 <= i < |RuleSets(cfg, r)| && RuleSets(cfg, r)[i] == c;
    assert c.key == KeyFor(cfg, r.fqdn1, r.port, i);
  }

  lemma SameTouchSameValue(cfg: Config, rules: seq<Rule>, c: Command, d: Command, k: string, f: string)
    requires cfg.Valid() && Consistent(rules)
    requires c in PutManyCommands(cfg, rules) && d in PutManyCommands(cfg, rules)
    requires c.Touches(k, f) && d.Touches(k, f)
    ensures c == d
  {
    hide RuleSets, KeyFor, SetsOf, AnyBucketed;
    SetsMembers(cfg, rules, c);
    SetsMembers(cfg, rules, d);
    if c in SetsOf(cfg, rules) && d in SetsOf(cfg, rules) {
      var r :| r in rules && c in RuleSets(cfg, r);
      var s :| s in rules && d in RuleSets(cfg, s);
      SetOfRule(cfg, r, c);
      SetOfRule(cfg, s, d);
      var i: nat :| i < cfg.n && c.key == KeyFor(cfg, r.fqdn1, r.port, i);
      var j: nat :| j < cfg.n && d.key == KeyFor(cfg, s.fqdn1, s.port, j);
      KeyInjective(cfg, r.fqdn1, r.port, i, s.fqdn1, s.port, j);
      assert r.Where() == s.Where();
    } else if c in SetsOf(cfg, rules) {
      var r :| r in rules && c in RuleSets(cfg, r);
      SetIsNotMeta(cfg, r, c);
    } else if d in SetsOf(cfg, rules) {
      var s :| s in rules && d in RuleSets(cfg, s);
      SetIsNotMeta(cfg, s, d);
    }
  }

  lemma SetIsNotMeta(cfg: Config, r: Rule, c: Command)
    requires cfg.Valid() && c in RuleSets(cfg, r)
    ensures c.key != Meta(cfg).key
  {
    hide KeyFor, RuleSets;
    SetOfRule(cfg, r, c);
    var i: nat :| i < cfg.n && c.key == KeyFor(cfg, r.fqdn1, r.port, i);
    KeyIsNotMeta(cfg, r.fqdn1, r.port, i, cfg.ns);
  }

  lemma SameCommands(cfg: Config, rs: seq<Rule>, rules: seq<Rule>, c: Command)
    requires cfg.Valid() && forall r :: r in rs <==> r in rules
    ensures c in PutManyCommands(cfg, rs) <==> c in PutManyCommands(cfg, rules)
  {
    hide RuleSets, SetsOf, IsBucketedTag, HashTag;
    SetsMembers(cfg, rs, c);
    SetsMembers(cfg, rules, c);
    assert AnyBucketed(cfg, rs) == AnyBucketed(cfg, rules);
  }

  lemma ConsistentSameCommands(cfg: Config, h: Hashes, rs: seq<Rule>, rules: seq<Rule>)
    requires cfg.Valid() && WellFormed(h) && Consistent(rules)
    requires forall r :: r in rs <==> r in rules
    ensures ApplyAll(h, PutManyCommands(cfg, rs)) == ApplyAll(h, PutManyCommands(cfg, rules))
  {
    var a, b := PutManyCommands(cfg, rs), PutManyCommands(cfg, rules);
    LoadWritable(cfg, rs);
    LoadWritable(cfg, rules);
    hide PutManyCommands, WellFormed, Get, Consistent;
    WellFormedApplyAll(h, a);
    WellFormedApplyAll(h, b);
    forall c
      ensures c in a <==> c in b
    {
      SameCommands(cfg, rs, rules, c);
    }
    forall k, f
      ensures Get(ApplyAll(h, a), k, f) == Get(ApplyAll(h, b), k, f)
    {
      if c :| c in b && c.Touches(k, f) {
        forall d | d in b && d.Touches(k, f)
          ensures d == c
        {
          SameTouchSameValue(cfg, rules, c, d, k, f);
        }
        Agreed(h, a, k, f, c.Leaves());
        Agreed(h, b, k, f, c.Leaves());
      } else {
        Untouched(h, a, k, f);
        Untouched(h, b, k, f);
      }
    }
    SameFields(ApplyAll(h, a), ApplyAll(h, b));
  }

  /** The last rule of a load wins. */
  lemma LastWins(cfg: Config, rules: seq<Rule>, r: Rule)
    requires cfg.Valid()
    ensures Stored(cfg, ApplyAll(map[], PutManyCommands(cfg, rules + [r])), r.Where(), 0) == Some(r.What().Encode())
  {
    hide Represents, RuleSets, AnyBucketed, Stored, KeyFor, Apply;
    EmptyRepresents(cfg);
    var all := rules + [r];
    assert all[..|all| - 1] == rules;
    RepresentsSetsOf(cfg, map[], map[], all);
    RepresentsThenMeta(cfg, map[], SetsOf(cfg, all), AddAll(map[], all), AnyBucketed(cfg, all));
    RepresentedValue(cfg, ApplyAll(map[], PutManyCommands(cfg, all)), AddAll(map[], all), r.Where());
  }

  lemma RepresentedValue(cfg: Config, h: Hashes, m: RuleMap, t: Triple)
    requires Represents(cfg, h, m)
    ensures cfg.Valid() && Stored(cfg, h, t, 0) == Wanted(m, t)
  {
  }

  lemma TwoLast(rules: seq<Rule>, i: nat, j: nat) returns (rest: seq<Rule>)
    requires i < j < |rules|
    ensures multiset(rest + [rules[i]] + [rules[j]]) == multiset(rules)
    ensures multiset(rest + [rules[j]] + [rules[i]]) == multiset(rules)
  {
    var a, b, c := rules[..i], rules[i + 1..j], rules[j + 1..];
    rest := a + b + c;
    assert rules == a + [rules[i]] + b + [rules[j]] + c;
  }

  /**
   The comment on the load says "order-independent". It is so exactly for the loads that
   are sent only if rules for one triple all say the same: a bad port sends nothing, in any order.
   */
  lemma OrderIndependentIff(cfg: Config, rules: seq<Rule>)
    requires cfg.Valid()
    ensures OrderIndependent(cfg, rules) <==> (Accepted(PutManyOp(rules)) ==> Consistent(rules))
  {
    hide PutManyCommands, SameLoad;
    if Accepted(PutManyOp(rules)) ==> Consistent(rules) {
      forall rs, h | multiset(rs) == multiset(rules) && WellFormed(h)
        ensures SameLoad(cfg, h, rs, rules)
      {
        forall r
          ensures r in rs <==> r in rules
        {
          assert r in rs <==> r in multiset(rs);
          assert r in rules <==> r in multiset(rules);
        }
        SameMembersSameLoad(cfg, h, rs, rules);
      }
    } else {
      var r, s :| r in rules && s in rules && r.Where() == s.Where() && r.What() != s.What();
      var i :| 0 <= i < |rules| && rules[i] == r;
      var j :| 0 <= j < |rules| && rules[j] == s;
      var rest := TwoLast(rules, if i < j then i else j, if i < j then j else i);
      ConflictShows(cfg, rest, r, s, rules);
    }
  }

  lemma SameMembersSameLoad(cfg: Config, h: Hashes, rs: seq<Rule>, rules: seq<Rule>)
    requires cfg.Valid() && WellFormed(h) && (Accepted(PutManyOp(rules)) ==> Consistent(rules))
    requires forall r :: r in rs <==> r in rules
    ensures SameLoad(cfg, h, rs, rules)
  {
    hide PutManyCommands, WellFormed;
    if Accepted(PutManyOp(rules)) {
      ConsistentSameCommands(cfg, h, rs, rules);
    }
  }

  lemma ConflictShows(cfg: Config, rest: seq<Rule>, r: Rule, s: Rule, rules: seq<Rule>)
    requires cfg.Valid() && r.Where() == s.Where() && r.What() != s.What() && Accepted(PutManyOp(rules))
    requires multiset(rest + [r] + [s]) == multiset(rules) == multiset(rest + [s] + [r])
    ensures !OrderIndependent(cfg, rules)
  {
    hide PutManyCommands, Stored, ApplyAll;
    LastWins(cfg, rest + [r], s);
    LastWins(cfg, rest + [s], r);
    EncodeInjective(r.What(), s.What());
    var x, y := rest + [r] + [s], rest + [s] + [r];
    var empty: Hashes := map[];
    assert WellFormed(empty);
    SameAcceptance(x, rules);
    SameAcceptance(y, rules);
    assert !(SameLoad(cfg, empty, x, rules) && SameLoad(cfg, empty, y, rules));
    hide SameLoad, WellFormed;
  }

  lemma SameAcceptance(rs: seq<Rule>, rules: seq<Rule>)
    requires multiset(rs) == multiset(rules)
    ensures Accepted(PutManyOp(rs)) <==> Accepted(PutManyOp(rules))
  {
    assert forall r :: (r in rs <==> r in multiset(rs)) && (r in rules <==> r in multiset(rules));
  }

  lemma EncodeInjective(e: Entry, e': Entry)
    ensures e.Encode() == e'.Encode() ==> e == e'
  {
    assert e.Encode()[1..] == e.ruleId && e'.Encode()[1..] == e'.ruleId;
    assert e.Encode()[0] == ScopeChar(e.scope) && e'.Encode()[0] == ScopeChar(e'.scope);
  }
}
