/**
 Rules, the commands that write them, and the simple map of rules that a
 replicated database must stand for.
 */
module Rules {
  import opened Text
  import opened Pattern
  import opened Keys
  import opened Database

  datatype Scope = ScopeSingle | ScopeMulti | ScopeBoth

  function ScopeChar(scope: Scope): char {
    match scope case ScopeSingle => 'S' case ScopeMulti => 'M' case ScopeBoth => 'B'
  }

  datatype Rule = Rule(fqdn1: string, port: int, fqdn2: string, ruleId: string, scope: Scope) {
    function Where(): Triple { Triple(fqdn1, port, fqdn2) }
    function What(): Entry { Entry(scope, ruleId) }
  }

  datatype Triple = Triple(fqdn1: string, port: int, fqdn2: string)

  datatype Entry = Entry(scope: Scope, ruleId: string) {
    /** The stored text: the scope letter, then the rule id. */
    function Encode(): string { [ScopeChar(scope)] + ruleId }
  }

  /** The simple map the replicated layout speeds up. */
  type RuleMap = map<Triple, Entry>

  predicate ValidPort(port: int) { 0 < port < 65536 }

  // ----- Commands -----

  function Meta(cfg: Config): Command {
    HSet(MetaKey(cfg.ns), "num_buckets", Decimal(cfg.n))
  }

  function RuleSets(cfg: Config, rule: Rule): (cmds: seq<Command>)
    requires cfg.Valid()
  {
    var keys := KeysForPattern(cfg, rule.fqdn1, rule.port);
    seq(|keys|, i requires 0 <= i < |keys| => HSet(keys[i], rule.fqdn2, rule.What().Encode()))
  }

  function PutCommands(cfg: Config, rule: Rule): seq<Command>
    requires cfg.Valid()
  {
    RuleSets(cfg, rule) + if cfg.Buckets(rule.fqdn1) then [Meta(cfg)] else []
  }

  function SetsOf(cfg: Config, rules: seq<Rule>): seq<Command>
    requires cfg.Valid()
  {
    if rules == [] then []
    else SetsOf(cfg, rules[..|rules| - 1]) + RuleSets(cfg, rules[|rules| - 1])
  }

  predicate AnyBucketed(cfg: Config, rules: seq<Rule>) {
    exists r :: r in rules && cfg.Buckets(r.fqdn1)
  }

  function PutManyCommands(cfg: Config, rules: seq<Rule>): seq<Command>
    requires cfg.Valid()
  {
    SetsOf(cfg, rules) + if AnyBucketed(cfg, rules) then [Meta(cfg)] else []
  }

  function DeleteCommands(cfg: Config, t: Triple): (cmds: seq<Command>)
    requires cfg.Valid()
  {
    var keys := KeysForPattern(cfg, t.fqdn1, t.port);
    seq(|keys|, i requires 0 <= i < |keys| => HDel(keys[i], t.fqdn2))
  }

  // ----- Operations, on the database and on the simple map -----

  datatype Op = PutOp(rule: Rule) | PutManyOp(rules: seq<Rule>) | DeleteOp(t: Triple)

  /** A load with any bad port raises before its pipeline is sent; a removal checks no port. */
  predicate Accepted(op: Op) {
    match op
    case PutOp(rule) => ValidPort(rule.port)
    case PutManyOp(rules) => forall r :: r in rules ==> ValidPort(r.port)
    case DeleteOp(_) => true
  }

  function Commands(cfg: Config, op: Op): seq<Command>
    requires cfg.Valid()
  {
    match op
    case PutOp(rule) => PutCommands(cfg, rule)
    case PutManyOp(rules) => PutManyCommands(cfg, rules)
    case DeleteOp(t) => DeleteCommands(cfg, t)
  }

  function Step(h: Hashes, cfg: Config, op: Op): Hashes
    requires cfg.Valid()
  {
    if Accepted(op) then ApplyAll(h, Commands(cfg, op)) else h
  }

  function AddAll(m: RuleMap, rules: seq<Rule>): RuleMap {
    if rules == [] then m
    else AddAll(m, rules[..|rules| - 1])[rules[|rules| - 1].Where() := rules[|rules| - 1].What()]
  }

  function MapStep(m: RuleMap, op: Op): RuleMap {
    if !Accepted(op) then m
    else match op
      case PutOp(rule) => m[rule.Where() := rule.What()]
      case PutManyOp(rules) => AddAll(m, rules)
      case DeleteOp(t) => m - {t}
  }

  /** Which operations are carried out. */
  lemma AcceptedIff(rule: Rule, rules: seq<Rule>, t: Triple)
    ensures Accepted(PutOp(rule)) <==> 1 <= rule.port <= 65535
    ensures Accepted(PutManyOp(rules)) <==> forall r :: r in rules ==> 1 <= r.port <= 65535
    ensures Accepted(DeleteOp(t))
  {
  }

  predicate HasTriple(r: Rule, t: Triple) {
    r.fqdn1 == t.fqdn1 && r.port == t.port && r.fqdn2 == t.fqdn2
  }

  /** After a load the last of its rules at a triple is there. */
  lemma {:induction false} LastRuleWins(m: RuleMap, rules: seq<Rule>, t: Triple, k: nat)
    requires Accepted(PutManyOp(rules)) && k < |rules| && HasTriple(rules[k], t)
    requires forall j :: k < j < |rules| ==> !HasTriple(rules[j], t)
    ensures t in MapStep(m, PutManyOp(rules))
    ensures MapStep(m, PutManyOp(rules))[t] == Entry(rules[k].scope, rules[k].ruleId)
  {
    if k < |rules| - 1 {
      var init := rules[..|rules| - 1];
      LastRuleWins(m, init, t, k);
      assert !HasTriple(rules[|rules| - 1], t);
    }
  }

  /** A load changes nothing at a triple that none of its rules has. */
  lemma {:induction false} OthersStay(m: RuleMap, rules: seq<Rule>, t: Triple)
    requires Accepted(PutManyOp(rules)) && forall r :: r in rules ==> !HasTriple(r, t)
    ensures t in MapStep(m, PutManyOp(rules)) <==> t in m
    ensures t in m ==> MapStep(m, PutManyOp(rules))[t] == m[t]
  {
    if rules != [] {
      OthersStay(m, rules[..|rules| - 1], t);
      assert !HasTriple(rules[|rules| - 1], t);
    }
  }

  /** A put is a load of one rule, and a removal removes its triple and no other. */
  lemma OneOperation(m: RuleMap, rule: Rule, t: Triple, u: Triple)
    ensures MapStep(m, PutOp(rule)) == MapStep(m, PutManyOp([rule]))
    ensures u in MapStep(m, DeleteOp(t)) <==> u in m && u != t
    ensures u in m && u != t ==> MapStep(m, DeleteOp(t))[u] == m[u]
  {
    assert [rule][..0] == [];
    assert AddAll(m, []) == m;
  }

  // ----- The refinement relation -----

  function Stored(cfg: Config, h: Hashes, t: Triple, b: nat): Option<string>
    requires cfg.Valid() && b < cfg.n
  {
    Get(h, KeyFor(cfg, t.fqdn1, t.port, b), t.fqdn2)
  }

  function Wanted(m: RuleMap, t: Triple): Option<string> {
    if t in m then Some(m[t].Encode()) else None
  }

  /** Every replica of every triple holds what the simple map holds. */
  ghost predicate Represents(cfg: Config, h: Hashes, m: RuleMap) {
    && cfg.Valid()
    && WellFormed(h)
    && forall t, b: nat :: b < cfg.n ==> Stored(cfg, h, t, b) == Wanted(m, t)
  }

  /** Replica b of one triple is the only field its commands touch at that key and field. */
  lemma WhoTouches(cfg: Config, t: Triple, cmds: seq<Command>, u: Triple, b: nat)
    requires cfg.Valid() && b < cfg.n
    requires |cmds| == Replicas(cfg, t.fqdn1)
    requires forall i :: 0 <= i < |cmds| ==> cmds[i].key == KeyFor(cfg, t.fqdn1, t.port, i) && cmds[i].field == t.fqdn2
    ensures (exists c :: c in cmds && c.Touches(KeyFor(cfg, u.fqdn1, u.port, b), u.fqdn2)) <==> t == u
  {
    hide KeyFor;
    var key := KeyFor(cfg, u.fqdn1, u.port, b);
    if c :| c in cmds && c.Touches(key, u.fqdn2) {
      var i :| 0 <= i < |cmds| && cmds[i] == c;
      KeyInjective(cfg, t.fqdn1, t.port, i, u.fqdn1, u.port, b);
    }
    if t == u {
      var i := if cfg.Buckets(t.fqdn1) then b else 0;
      SameReplica(cfg, t.fqdn1, t.port, b, i);
      assert cmds[i] in cmds && cmds[i].Touches(key, u.fqdn2);
    }
  }

  /** A pattern that is not bucketed has one key, whatever index is asked for. */
  lemma SameReplica(cfg: Config, pattern: string, port: int, b: nat, c: nat)
    requires cfg.Valid() && b < cfg.n && c < cfg.n
    requires cfg.Buckets(pattern) ==> b == c
    ensures KeyFor(cfg, pattern, port, b) == KeyFor(cfg, pattern, port, c)
  {
    hide HashTag, Decimal, Integer;
  }

  /** Writing one triple on all its replicas changes it everywhere and nothing else. */
  lemma WriteAll(cfg: Config, h: Hashes, t: Triple, cmds: seq<Command>, v: Option<string>, u: Triple, b: nat)
    requires cfg.Valid() && b < cfg.n
    requires |cmds| == Replicas(cfg, t.fqdn1)
    requires forall i :: 0 <= i < |cmds| ==>
               cmds[i].key == KeyFor(cfg, t.fqdn1, t.port, i) && cmds[i].field == t.fqdn2 && cmds[i].Leaves() == v
    ensures Stored(cfg, ApplyAll(h, cmds), u, b) == if t == u then v else Stored(cfg, h, u, b)
  {
    WhoTouches(cfg, t, cmds, u, b);
    hide KeyFor;
    var key := KeyFor(cfg, u.fqdn1, u.port, b);
    if t == u {
      Agreed(h, cmds, key, u.fqdn2, v);
    } else {
      Untouched(h, cmds, key, u.fqdn2);
    }
  }

  lemma RepresentsWrite(cfg: Config, h: Hashes, m: RuleMap, t: Triple, cmds: seq<Command>, v: Option<string>, m': RuleMap)
    requires Represents(cfg, h, m)
    requires |cmds| == Replicas(cfg, t.fqdn1) && forall c :: c in cmds ==> Writable(c)
    requires forall i :: 0 <= i < |cmds| ==>
               cmds[i].key == KeyFor(cfg, t.fqdn1, t.port, i) && cmds[i].field == t.fqdn2 && cmds[i].Leaves() == v
    requires forall u :: Wanted(m', u) == if t == u then v else Wanted(m, u)
    ensures Represents(cfg, ApplyAll(h, cmds), m')
  {
    hide KeyFor, Stored, WellFormed, Wanted;
    WellFormedApplyAll(h, cmds);
    forall u: Triple, b: nat | b < cfg.n
      ensures Stored(cfg, ApplyAll(h, cmds), u, b) == Wanted(m', u)
    {
      WriteAll(cfg, h, t, cmds, v, u, b);
    }
  }

  lemma RepresentsSets(cfg: Config, h: Hashes, m: RuleMap, rule: Rule)
    requires Represents(cfg, h, m)
    ensures Represents(cfg, ApplyAll(h, RuleSets(cfg, rule)), m[rule.Where() := rule.What()])
  {
    hide KeyFor, Represents;
    assert cfg.Valid() by { ConfigValid(cfg, h, m); }
    RepresentsWrite(cfg, h, m, rule.Where(), RuleSets(cfg, rule), Some(rule.What().Encode()),
                    m[rule.Where() := rule.What()]);
  }

  lemma ConfigValid(cfg: Config, h: Hashes, m: RuleMap)
    requires Represents(cfg, h, m)
    ensures cfg.Valid() && WellFormed(h)
  {
  }

  /** Recording the count touches no rule. */
  lemma RepresentsMeta(cfg: Config, h: Hashes, m: RuleMap)
    requires Represents(cfg, h, m)
    ensures Represents(cfg, Apply(h, Meta(cfg)), m)
  {
    hide KeyFor, WellFormed, Apply;
    var cmd := Meta(cfg);
    WellFormedApply(h, cmd);
    forall u: Triple, b: nat | b < cfg.n
      ensures Stored(cfg, Apply(h, cmd), u, b) == Wanted(m, u)
    {
      KeyIsNotMeta(cfg, u.fqdn1, u.port, b, cfg.ns);
      GetApply(h, cmd, KeyFor(cfg, u.fqdn1, u.port, b), u.fqdn2);
      assert Stored(cfg, h, u, b) == Wanted(m, u);
    }
  }

  lemma {:induction false} RepresentsSetsOf(cfg: Config, h: Hashes, m: RuleMap, rules: seq<Rule>)
    requires Represents(cfg, h, m)
    ensures cfg.Valid() && Represents(cfg, ApplyAll(h, SetsOf(cfg, rules)), AddAll(m, rules))
  {
    hide Represents, RuleSets;
    ConfigValid(cfg, h, m);
    if rules != [] {
      var init, last := rules[..|rules| - 1], rules[|rules| - 1];
      RepresentsSetsOf(cfg, h, m, init);
      ApplyAllConcat(h, SetsOf(cfg, init), RuleSets(cfg, last));
      RepresentsSets(cfg, ApplyAll(h, SetsOf(cfg, init)), AddAll(m, init), last);
    }
  }

  lemma RepresentsThenMeta(cfg: Config, h: Hashes, cmds: seq<Command>, m: RuleMap, meta: bool)
    requires Represents(cfg, ApplyAll(h, cmds), m)
    ensures Represents(cfg, ApplyAll(h, cmds + if meta then [Meta(cfg)] else []), m)
  {
    hide Represents, Meta;
    if meta {
      RepresentsMeta(cfg, ApplyAll(h, cmds), m);
      assert (cmds + [Meta(cfg)])[..|cmds|] == cmds;
    } else {
      assert cmds + [] == cmds;
    }
  }

  /** One operation on the replicated database is that operation on the simple map. */
  lemma StepRefines(cfg: Config, h: Hashes, m: RuleMap, op: Op)
    requires Represents(cfg, h, m)
    ensures cfg.Valid() && Represents(cfg, Step(h, cfg, op), MapStep(m, op))
  {
    ConfigValid(cfg, h, m);
    if Accepted(op) {
      match op {
        case PutOp(rule) =>
          hide Represents, RuleSets, Meta;
          RepresentsSets(cfg, h, m, rule);
          RepresentsThenMeta(cfg, h, RuleSets(cfg, rule), MapStep(m, op), cfg.Buckets(rule.fqdn1));
        case PutManyOp(rules) =>
          hide Represents, SetsOf, Meta;
          RepresentsSetsOf(cfg, h, m, rules);
          RepresentsThenMeta(cfg, h, SetsOf(cfg, rules), MapStep(m, op), AnyBucketed(cfg, rules));
        case DeleteOp(t) =>
          hide Represents, KeyFor;
          RepresentsWrite(cfg, h, m, t, DeleteCommands(cfg, t), None, m - {t});
      }
    }
  }

  lemma StepRefinesAll(cfg: Config, h: Hashes, op: Op)
    requires cfg.Valid()
    ensures forall m :: Represents(cfg, h, m) ==> Represents(cfg, Step(h, cfg, op), MapStep(m, op))
  {
    hide Represents, Step, MapStep;
    forall m | Represents(cfg, h, m)
      ensures Represents(cfg, Step(h, cfg, op), MapStep(m, op))
    {
      StepRefines(cfg, h, m, op);
    }
  }
}
