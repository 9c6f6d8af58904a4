/**
 Stores of several namespaces on one database: none sees what another writes.
 */
module Namespaces {
  import opened Text
  import opened Results
  import opened Pattern
  import opened Keys
  import opened Database
  import opened Rules
  import opened Lookups
  import opened Store
  import opened Replication
  import opened Guard

  // ----- Other namespaces -----

  predicate ColonFree(op: Op) {
    match op
    case PutOp(rule) => ':' !in rule.fqdn1
    case PutManyOp(rules) => forall r :: r in rules ==> ':' !in r.fqdn1
    case DeleteOp(t) => ':' !in t.fqdn1
  }

  /** Either no pattern has a colon or all namespaces are plain. */
  predicate Tells(plain: bool, cfg: Config, op: Op) {
    if plain then Plain(cfg.ns) else ColonFree(op)
  }

  predicate Told(plain: bool, cfg: Config, pattern: string) {
    if plain then Plain(cfg.ns) else ':' !in pattern
  }

  lemma KeysApart(plain: bool, cfg: Config, p: string, port: int, b: nat, cfg': Config, q: string, port': int, c: nat)
    requires cfg.Valid() && b < cfg.n && cfg'.Valid() && c < cfg'.n && cfg.ns != cfg'.ns
    requires Told(plain, cfg, p) && Told(plain, cfg', q)
    ensures KeyFor(cfg, p, port, b) != KeyFor(cfg', q, port', c)
  {
    hide KeyFor;
    if KeyFor(cfg, p, port, b) == KeyFor(cfg', q, port', c) {
      if plain {
        PlainNamespacesDisjoint(cfg, p, port, b, cfg', q, port', c);
      } else {
        NamespacesDisjoint(cfg, p, port, b, cfg', q, port', c);
      }
    }
  }

  lemma ForeignKeys(plain: bool, cfg: Config, op: Op, cfg': Config, t: Triple, b: nat)
    requires cfg.Valid() && cfg'.Valid() && b < cfg'.n && cfg.ns != cfg'.ns
    requires Tells(plain, cfg, op) && Told(plain, cfg', t.fqdn1) && Accepted(op)
    ensures forall c :: c in Commands(cfg, op) ==> c.key != KeyFor(cfg', t.fqdn1, t.port, b)
  {
    var key := KeyFor(cfg', t.fqdn1, t.port, b);
    forall c | c in Commands(cfg, op)
      ensures c.key != key
    {
      KeyIsNotMeta(cfg', t.fqdn1, t.port, b, cfg.ns);
      match op {
        case PutOp(rule) =>
          if c in RuleSets(cfg, rule) {
            ForeignSet(plain, cfg, rule, c, cfg', t, b);
          }
        case PutManyOp(rules) =>
          SetsMembers(cfg, rules, c);
          if c in SetsOf(cfg, rules) {
            var r :| r in rules && c in RuleSets(cfg, r);
            ForeignSet(plain, cfg, r, c, cfg', t, b);
          }
        case DeleteOp(u) =>
          hide KeyFor;
          var i :| 0 <= i < |DeleteCommands(cfg, u)| && DeleteCommands(cfg, u)[i] == c;
          assert c.key == KeyFor(cfg, u.fqdn1, u.port, i);
          KeysApart(plain, cfg, u.fqdn1, u.port, i, cfg', t.fqdn1, t.port, b);
      }
    }
  }

  lemma ForeignSet(plain: bool, cfg: Config, r: Rule, c: Command, cfg': Config, t: Triple, b: nat)
    requires cfg.Valid() && cfg'.Valid() && b < cfg'.n && cfg.ns != cfg'.ns
    requires c in RuleSets(cfg, r) && Told(plain, cfg, r.fqdn1) && Told(plain, cfg', t.fqdn1)
    ensures c.key != KeyFor(cfg', t.fqdn1, t.port, b)
  {
    hide KeyFor, RuleSets;
    SetOfRule(cfg, r, c);
    var i: nat :| i < cfg.n && c.key == KeyFor(cfg, r.fqdn1, r.port, i);
    KeysApart(plain, cfg, r.fqdn1, r.port, i, cfg', t.fqdn1, t.port, b);
  }

  /** No write of another namespace, whatever its bucket count, is seen in this one. */
  lemma NamespacesIsolated(plain: bool, cfg: Config, h: Hashes, op: Op, cfg': Config, t: Triple, b: nat)
    requires cfg.Valid() && cfg'.Valid() && b < cfg'.n && cfg.ns != cfg'.ns
    requires Tells(plain, cfg, op) && Told(plain, cfg', t.fqdn1)
    ensures Stored(cfg', Step(h, cfg, op), t, b) == Stored(cfg', h, t, b)
    ensures Recorded(Step(h, cfg, op), cfg'.ns) == Recorded(h, cfg'.ns)
  {
    hide KeyFor, Commands, Get, Apply, Recorded;
    RecordStep(cfg, h, op, cfg'.ns);
    if Accepted(op) {
      ForeignKeys(plain, cfg, op, cfg', t, b);
      Untouched(h, Commands(cfg, op), KeyFor(cfg', t.fqdn1, t.port, b), t.fqdn2);
    }
  }

  // ----- Runs of several stores -----

  /** One operation of one of the stores. */
  datatype Act = Act(cfg: Config, op: Op)

  /** Every namespace has one configuration, and patterns have no colon or all namespaces are plain. */
  predicate Apart(plain: bool, acts: seq<Act>) {
    && (forall a :: a in acts ==> a.cfg.Valid() && Tells(plain, a.cfg, a.op))
    && (forall a, c :: a in acts && c in acts && a.cfg.ns == c.cfg.ns ==> a.cfg == c.cfg)
  }

  function RunStores(plain: bool, acts: seq<Act>): Hashes
    requires Apart(plain, acts)
  {
    if acts == [] then map[]
    else
      var last := acts[|acts| - 1];
      Step(RunStores(plain, acts[..|acts| - 1]), last.cfg, last.op)
  }

  /** The operations of one store. */
  function OwnOps(acts: seq<Act>, cfg: Config): seq<Op> {
    if acts == [] then []
    else
      var last := acts[|acts| - 1];
      OwnOps(acts[..|acts| - 1], cfg) + if last.cfg == cfg then [last.op] else []
  }

  /** A field after a step depends on that field before it and nothing else. */
  lemma SameFieldAfter(h: Hashes, h': Hashes, cfg: Config, op: Op, k: string, f: string)
    requires cfg.Valid() && Get(h, k, f) == Get(h', k, f)
    ensures Get(Step(h, cfg, op), k, f) == Get(Step(h', cfg, op), k, f)
  {
    hide Get, Commands;
    if Accepted(op) {
      Overwritten(h, h', Commands(cfg, op), k, f);
    }
  }

  /** A store's rules and record after a run of all stores are those of its own operations alone. */
  lemma {:induction false} OwnRunOnly(plain: bool, cfg: Config, acts: seq<Act>, t: Triple, b: nat)
    requires cfg.Valid() && b < cfg.n && Told(plain, cfg, t.fqdn1)
    requires Apart(plain, acts) && forall a :: a in acts && a.cfg.ns == cfg.ns ==> a.cfg == cfg
    ensures Stored(cfg, RunStores(plain, acts), t, b) == Stored(cfg, Run(map[], cfg, OwnOps(acts, cfg)), t, b)
    ensures Recorded(RunStores(plain, acts), cfg.ns) == Recorded(Run(map[], cfg, OwnOps(acts, cfg)), cfg.ns)
  {
    if acts != [] {
      var init, last := acts[..|acts| - 1], acts[|acts| - 1];
      assert last in acts;
      OwnRunOnly(plain, cfg, init, t, b);
      var h, own := RunStores(plain, init), OwnOps(init, cfg);
      hide KeyFor, Step, Get, MetaKey, Tells, Apart;
      if last.cfg == cfg {
        assert (own + [last.op])[..|own|] == own;
        SameFieldAfter(h, Run(map[], cfg, own), cfg, last.op, KeyFor(cfg, t.fqdn1, t.port, b), t.fqdn2);
        SameFieldAfter(h, Run(map[], cfg, own), cfg, last.op, MetaKey(cfg.ns), "num_buckets");
      } else {
        assert own + [] == own;
        NamespacesIsolated(plain, last.cfg, h, last.op, cfg, t, b);
      }
    }
  }

  lemma {:induction false} StoresWellFormed(plain: bool, acts: seq<Act>)
    requires Apart(plain, acts)
    ensures WellFormed(RunStores(plain, acts))
  {
    if acts != [] {
      var init, last := acts[..|acts| - 1], acts[|acts| - 1];
      assert last in acts;
      StoresWellFormed(plain, init);
      hide Commands, WellFormed, Tells;
      if Accepted(last.op) {
        CommandsWritable(last.cfg, last.op);
        WellFormedApplyAll(RunStores(plain, init), Commands(last.cfg, last.op));
      }
    }
  }

  lemma ColonFreeMatch(p: string, f: string, mode: MatchMode)
    requires ':' !in f && Matches(p, f, mode)
    ensures ':' !in p
  {
  }

  /** After any interleaved run of stores of several namespaces each lookup answers for its own. */
  lemma LookupAmongNamespaces(plain: bool, cfg: Config, acts: seq<Act>, checksum: string -> nat, f1: string, port: int, f2: string,
                              mode: MatchMode, r: Result<Option<Match>>)
    requires cfg.Valid()
    requires Apart(plain, acts) && forall a :: a in acts && a.cfg.ns == cfg.ns ==> a.cfg == cfg
    requires LookupError(f1, port, f2).None? ==> Told(plain, cfg, Normalize(f1).value)
    requires IsLookup(cfg, RunStores(plain, acts), checksum, f1, port, f2, mode, r)
    ensures Answers(RunMap(map[], OwnOps(acts, cfg)), f1, port, f2, mode, r)
  {
    var h, m := RunStores(plain, acts), RunMap(map[], OwnOps(acts, cfg));
    StoresWellFormed(plain, acts);
    hide RunStores, Run, RunMap, OwnOps, WellFormed, Stored, Wanted, Matches, Normalize, IsLookup, Answers, Apart;
    if LookupError(f1, port, f2).None? {
      var n1 := Normalize(f1).value;
      var b := BucketIndex(n1, cfg.n, checksum);
      hide LookupError;
      forall t: Triple | Matches(t.fqdn1, n1, mode)
        ensures Stored(cfg, h, t, b) == Wanted(m, t)
      {
        if !plain {
          ColonFreeMatch(t.fqdn1, n1, mode);
        }
        OwnRunOnly(plain, cfg, acts, t, b);
        ReplicasAgree(cfg, OwnOps(acts, cfg), t, b, b);
      }
      assert Shows(cfg, h, m, n1, port, mode, b);
    }
    hide Shows;
    LookupShown(cfg, h, m, checksum, f1, port, f2, mode, r);
  }
}
