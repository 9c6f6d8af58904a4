/**
 Writers at work: each command of each writer's pipeline is a step of its own, and
 steps of different writers interleave in any order. Writers to one triple are
 serialised; nothing else is assumed.
 */
module Pipelines {
  import opened Text
  import opened Keys
  import opened Database
  import opened Rules
  import opened Replication

  /** The triples an operation writes. */
  predicate Locks(op: Op, t: Triple) {
    match op
    case PutOp(rule) => t == rule.Where()
    case PutManyOp(rules) => exists r :: r in rules && r.Where() == t
    case DeleteOp(u) => t == u
  }

  /** The values that commands of an operation write at a triple; only a load can have several. */
  predicate MayLeave(op: Op, t: Triple, v: Option<string>) {
    match op
    case PutOp(rule) => t == rule.Where() && v == Some(rule.What().Encode())
    case PutManyOp(rules) => exists r :: r in rules && r.Where() == t && v == Some(r.What().Encode())
    case DeleteOp(u) => t == u && v == None
  }

  /** What an operation leaves at a triple it writes, whatever was there: for a load, its last rule's value. */
  function After(op: Op, t: Triple): Option<string> {
    Wanted(MapStep(map[], op), t)
  }

  lemma {:induction false} AddAllValue(m: RuleMap, rules: seq<Rule>, t: Triple)
    ensures Wanted(AddAll(m, rules), t) ==
            if exists r :: r in rules && r.Where() == t then Wanted(AddAll(map[], rules), t) else Wanted(m, t)
  {
    if rules != [] {
      var init, last := rules[..|rules| - 1], rules[|rules| - 1];
      assert rules == init + [last];
      AddAllValue(m, init, t);
      assert last in rules;
    }
  }

  lemma MapStepAt(m: RuleMap, op: Op, t: Triple)
    requires Accepted(op)
    ensures Wanted(MapStep(m, op), t) == if Locks(op, t) then After(op, t) else Wanted(m, t)
  {
    if op.PutManyOp? {
      hide AddAll, Wanted;
      AddAllValue(m, op.rules, t);
    }
  }

  ghost predicate Targets(cfg: Config, op: Op, c: Command, t: Triple, i: nat)
    requires cfg.Valid() && i < cfg.n
  {
    && Locks(op, t)
    && c.key == KeyFor(cfg, t.fqdn1, t.port, i)
    && c.field == t.fqdn2
    && MayLeave(op, t, c.Leaves())
  }

  lemma LoadTarget(cfg: Config, rules: seq<Rule>, c: Command) returns (t: Triple, i: nat)
    requires cfg.Valid() && c in SetsOf(cfg, rules)
    ensures i < cfg.n && Targets(cfg, PutManyOp(rules), c, t, i)
  {
    hide KeyFor, RuleSets, SetsOf;
    SetsMembers(cfg, rules, c);
    var r :| r in rules && c in RuleSets(cfg, r);
    SetOfRule(cfg, r, c);
    t := r.Where();
    i :| i < cfg.n && c.key == KeyFor(cfg, r.fqdn1, r.port, i);
  }

  /** Every command records the count or writes one replica of one locked triple. */
  lemma CommandTarget(cfg: Config, op: Op, c: Command) returns (t: Triple, i: nat)
    requires cfg.Valid() && c in Commands(cfg, op) && c != Meta(cfg)
    ensures i < cfg.n && Targets(cfg, op, c, t, i)
  {
    match op {
      case PutOp(rule) =>
        hide KeyFor, RuleSets;
        SetOfRule(cfg, rule, c);
        t := rule.Where();
        i :| i < cfg.n && c.key == KeyFor(cfg, rule.fqdn1, rule.port, i);
      case PutManyOp(rules) =>
        hide KeyFor, RuleSets, SetsOf, AnyBucketed;
        t, i := LoadTarget(cfg, rules, c);
      case DeleteOp(u) =>
        hide KeyFor;
        t := u;
        i :| 0 <= i < |DeleteCommands(cfg, u)| && DeleteCommands(cfg, u)[i] == c;
    }
  }

  /** A command that touches a replica of a triple belongs to an operation on that triple. */
  lemma TouchMeans(cfg: Config, op: Op, c: Command, t: Triple, b: nat)
    requires cfg.Valid() && b < cfg.n && c in Commands(cfg, op)
    requires c.Touches(KeyFor(cfg, t.fqdn1, t.port, b), t.fqdn2)
    ensures Locks(op, t) && MayLeave(op, t, c.Leaves())
  {
    hide Commands, KeyFor, Locks, MayLeave;
    KeyIsNotMeta(cfg, t.fqdn1, t.port, b, cfg.ns);
    var u, i := CommandTarget(cfg, op, c);
    KeyInjective(cfg, t.fqdn1, t.port, b, u.fqdn1, u.port, i);
    assert u == t;
  }

  /** Every replica of every locked triple is written by some command. */
  lemma AllTouched(cfg: Config, op: Op, t: Triple, b: nat)
    requires cfg.Valid() && Locks(op, t) && b < cfg.n
    ensures Touched(Commands(cfg, op), KeyFor(cfg, t.fqdn1, t.port, b), t.fqdn2)
  {
    match op {
      case PutOp(rule) =>
        hide KeyFor;
        WhoTouches(cfg, t, RuleSets(cfg, rule), t, b);
      case PutManyOp(rules) =>
        var r :| r in rules && r.Where() == t;
        RuleTouches(cfg, r, b);
        hide KeyFor, RuleSets, SetsOf, AnyBucketed;
        var c :| c in RuleSets(cfg, r) && c.Touches(KeyFor(cfg, t.fqdn1, t.port, b), t.fqdn2);
        SetsMembers(cfg, rules, c);
      case DeleteOp(u) =>
        hide KeyFor;
        WhoTouches(cfg, t, DeleteCommands(cfg, u), t, b);
    }
  }

  lemma RuleTouches(cfg: Config, r: Rule, b: nat)
    requires cfg.Valid() && b < cfg.n
    ensures exists c :: c in RuleSets(cfg, r) && c.Touches(KeyFor(cfg, r.fqdn1, r.port, b), r.fqdn2)
  {
    hide KeyFor;
    WhoTouches(cfg, r.Where(), RuleSets(cfg, r), r.Where(), b);
  }

  /** A replica of t after some commands that found v there. */
  function SeenAt(cfg: Config, cmds: seq<Command>, t: Triple, b: nat, v: Option<string>): Option<string>
    requires cfg.Valid() && b < cfg.n
  {
    Seen(cmds, KeyFor(cfg, t.fqdn1, t.port, b), t.fqdn2, v)
  }

  /** A whole pipeline leaves what its operation leaves, on every replica of every triple. */
  lemma WholePipeline(cfg: Config, op: Op, t: Triple, b: nat, v: Option<string>)
    requires cfg.Valid() && Accepted(op) && b < cfg.n
    ensures SeenAt(cfg, Commands(cfg, op), t, b, v) == if Locks(op, t) then After(op, t) else v
  {
    var key := KeyFor(cfg, t.fqdn1, t.port, b);
    var none: Hashes, empty: RuleMap := map[], map[];
    EmptyRepresents(cfg);
    StepRefines(cfg, none, empty, op);
    assert Stored(cfg, Step(none, cfg, op), t, b) == After(op, t) by { RepresentedAt(cfg, Step(none, cfg, op), MapStep(empty, op), t, b); }
    hide Commands, KeyFor, Locks, MapStep, Accepted, Represents, Wanted;
    GetApplyAll(none, Commands(cfg, op), key, t.fqdn2);
    SeenForgets(Commands(cfg, op), key, t.fqdn2, v, Get(none, key, t.fqdn2));
    if Locks(op, t) {
      AllTouched(cfg, op, t, b);
    } else if Touched(Commands(cfg, op), key, t.fqdn2) {
      var c :| c in Commands(cfg, op) && c.Touches(key, t.fqdn2);
      TouchMeans(cfg, op, c, t, b);
      assert false;
    }
  }

  lemma RepresentedAt(cfg: Config, h: Hashes, m: RuleMap, t: Triple, b: nat)
    requires Represents(cfg, h, m) && b < cfg.n
    ensures Stored(cfg, h, t, b) == Wanted(m, t)
  {
  }

  /** Part of a pipeline leaves what was there or a value it writes. */
  lemma PartOfPipeline(cfg: Config, op: Op, pos: nat, t: Triple, b: nat, v: Option<string>)
    requires cfg.Valid() && b < cfg.n && pos <= |Commands(cfg, op)|
    ensures SeenAt(cfg, Commands(cfg, op)[..pos], t, b, v) == v || MayLeave(op, t, SeenAt(cfg, Commands(cfg, op)[..pos], t, b, v))
  {
    hide Commands, KeyFor, Locks, MayLeave, Touched;
    var part, key := Commands(cfg, op)[..pos], KeyFor(cfg, t.fqdn1, t.port, b);
    SeenForgets(part, key, t.fqdn2, v, v);
    if Touched(part, key, t.fqdn2) {
      var c :| c in part && c.Touches(key, t.fqdn2) && Seen(part, key, t.fqdn2, v) == c.Leaves();
      TouchMeans(cfg, op, c, t, b);
    }
  }

  // ----- The machine -----

  /** A pipeline in flight: its operation and how many of its commands were applied. */
  datatype Flight = Flight(op: Op, pos: nat)

  /** settled is the simple map of the operations whose pipelines have completed. */
  datatype State = State(h: Hashes, settled: RuleMap, flights: map<nat, Flight>)

  datatype Action = Begin(w: nat, op: Op) | Send(w: nat) | Finish(w: nat)

  ghost predicate Enabled(cfg: Config, s: State, a: Action)
    requires cfg.Valid()
  {
    match a
    case Begin(w, op) =>
      w !in s.flights && Accepted(op) && forall v, t :: v in s.flights && Locks(op, t) ==> !Locks(s.flights[v].op, t)
    case Send(w) => w in s.flights && s.flights[w].pos < |Commands(cfg, s.flights[w].op)|
    case Finish(w) => w in s.flights && s.flights[w].pos == |Commands(cfg, s.flights[w].op)|
  }

  /** An action that is not enabled does nothing, so every list of actions is an interleaving. */
  ghost function Next(cfg: Config, s: State, a: Action): State
    requires cfg.Valid()
  {
    if !Enabled(cfg, s, a) then s
    else match a
      case Begin(w, op) => s.(flights := s.flights[w := Flight(op, 0)])
      case Send(w) =>
        var f := s.flights[w];
        s.(h := Apply(s.h, Commands(cfg, f.op)[f.pos]), flights := s.flights[w := f.(pos := f.pos + 1)])
      case Finish(w) =>
        s.(settled := MapStep(s.settled, s.flights[w].op), flights := s.flights - {w})
  }

  ghost function Exec(cfg: Config, s: State, actions: seq<Action>): State
    requires cfg.Valid()
  {
    if actions == [] then s else Next(cfg, Exec(cfg, s, actions[..|actions| - 1]), actions[|actions| - 1])
  }

  ghost predicate FlightOk(cfg: Config, s: State, w: nat)
    requires cfg.Valid() && w in s.flights
  {
    var f := s.flights[w];
    && Accepted(f.op)
    && f.pos <= |Commands(cfg, f.op)|
    && (forall v, t :: v in s.flights && v != w && Locks(f.op, t) ==> !Locks(s.flights[v].op, t))
    && (forall t, b: nat :: b < cfg.n && Locks(f.op, t) ==>
          Stored(cfg, s.h, t, b) == SeenAt(cfg, Commands(cfg, f.op)[..f.pos], t, b, Wanted(s.settled, t)))
  }

  ghost predicate Free(s: State, t: Triple) {
    forall w :: w in s.flights ==> !Locks(s.flights[w].op, t)
  }

  /** A replica of a triple in flight holds what the part applied leaves of the settled value, all others that value. */
  ghost predicate Inv(cfg: Config, s: State) {
    && cfg.Valid()
    && WellFormed(s.h)
    && (forall w :: w in s.flights ==> FlightOk(cfg, s, w))
    && (forall t, b: nat :: b < cfg.n && Free(s, t) ==> Stored(cfg, s.h, t, b) == Wanted(s.settled, t))
  }

  lemma BeginKeeps(cfg: Config, s: State, w: nat, op: Op)
    requires Inv(cfg, s) && Enabled(cfg, s, Begin(w, op))
    ensures Inv(cfg, Next(cfg, s, Begin(w, op)))
  {
    hide Commands, KeyFor, Locks, After, Stored, Wanted, WellFormed, Accepted;
    var s' := Next(cfg, s, Begin(w, op));
    forall v | v in s'.flights
      ensures FlightOk(cfg, s', v)
    {
      if v == w {
        forall t, b: nat | b < cfg.n && Locks(op, t)
          ensures Stored(cfg, s.h, t, b) == SeenAt(cfg, Commands(cfg, op)[..0], t, b, Wanted(s.settled, t))
        {
          assert Free(s, t);
        }
      } else {
        assert FlightOk(cfg, s, v);
      }
    }
    forall t, b: nat | b < cfg.n && Free(s', t)
      ensures Stored(cfg, s'.h, t, b) == Wanted(s'.settled, t)
    {
      assert forall v :: v in s.flights ==> s'.flights[v] == s.flights[v];
      assert Free(s, t);
    }
  }

  /** One command, seen from one replica. */
  lemma SendAt(cfg: Config, h: Hashes, f: Flight, t: Triple, b: nat, v: Option<string>)
    requires cfg.Valid() && b < cfg.n && f.pos < |Commands(cfg, f.op)|
    ensures var cmds := Commands(cfg, f.op);
            var h' := Apply(h, cmds[f.pos]);
            && (Stored(cfg, h, t, b) == SeenAt(cfg, cmds[..f.pos], t, b, v) ==>
                  Stored(cfg, h', t, b) == SeenAt(cfg, cmds[..f.pos + 1], t, b, v))
            && (!Locks(f.op, t) ==> Stored(cfg, h', t, b) == Stored(cfg, h, t, b))
  {
    hide Commands, KeyFor, Locks, Apply, MayLeave;
    var cmds := Commands(cfg, f.op);
    var key := KeyFor(cfg, t.fqdn1, t.port, b);
    GetApply(h, cmds[f.pos], key, t.fqdn2);
    assert cmds[..f.pos + 1][..f.pos] == cmds[..f.pos];
    if cmds[f.pos].Touches(key, t.fqdn2) {
      TouchMeans(cfg, f.op, cmds[f.pos], t, b);
    }
  }

  lemma SendKeeps(cfg: Config, s: State, w: nat)
    requires Inv(cfg, s) && Enabled(cfg, s, Send(w))
    ensures Inv(cfg, Next(cfg, s, Send(w)))
  {
    hide Commands, KeyFor, Locks, After, Stored, Wanted, WellFormed, Accepted, Apply, SeenAt;
    var s' := Next(cfg, s, Send(w));
    var f := s.flights[w];
    assert FlightOk(cfg, s, w);
    CommandsWritable(cfg, f.op);
    assert Commands(cfg, f.op)[f.pos] in Commands(cfg, f.op);
    WellFormedApply(s.h, Commands(cfg, f.op)[f.pos]);
    forall t, b: nat | b < cfg.n
      ensures Locks(f.op, t) ==>
                Stored(cfg, s'.h, t, b) == SeenAt(cfg, Commands(cfg, f.op)[..f.pos + 1], t, b, Wanted(s.settled, t))
      ensures !Locks(f.op, t) ==> Stored(cfg, s'.h, t, b) == Stored(cfg, s.h, t, b)
    {
      SendAt(cfg, s.h, f, t, b, Wanted(s.settled, t));
    }
    forall v | v in s'.flights
      ensures FlightOk(cfg, s', v)
    {
      assert FlightOk(cfg, s, v);
      SendOthers(cfg, s, w, v);
    }
    forall t, b: nat | b < cfg.n && Free(s', t)
      ensures Stored(cfg, s'.h, t, b) == Wanted(s'.settled, t)
    {
      assert !Locks(s'.flights[w].op, t);
      assert forall v :: v in s.flights ==> s'.flights[v].op == s.flights[v].op;
      assert Free(s, t);
    }
  }

  /** Pipelines lock different triples, so a command of one leaves what the others see. */
  lemma SendOthers(cfg: Config, s: State, w: nat, v: nat)
    requires Inv(cfg, s) && Enabled(cfg, s, Send(w)) && v in s.flights
    requires var s' := Next(cfg, s, Send(w));
             var f := s.flights[w];
             && (forall t, b: nat :: b < cfg.n && Locks(f.op, t) ==>
                   Stored(cfg, s'.h, t, b) == SeenAt(cfg, Commands(cfg, f.op)[..f.pos + 1], t, b, Wanted(s.settled, t)))
             && (forall t, b: nat :: b < cfg.n && !Locks(f.op, t) ==> Stored(cfg, s'.h, t, b) == Stored(cfg, s.h, t, b))
    ensures FlightOk(cfg, Next(cfg, s, Send(w)), v)
  {
    hide Commands, KeyFor, Locks, After, Stored, Wanted, WellFormed, Accepted, Apply, SeenAt;
    var s' := Next(cfg, s, Send(w));
    assert FlightOk(cfg, s, v) && FlightOk(cfg, s, w);
    assert forall u :: u in s.flights ==> u in s'.flights && s'.flights[u].op == s.flights[u].op;
  }

  lemma FinishKeeps(cfg: Config, s: State, w: nat)
    requires Inv(cfg, s) && Enabled(cfg, s, Finish(w))
    ensures Inv(cfg, Next(cfg, s, Finish(w)))
  {
    hide Commands, KeyFor, Locks, After, Stored, Wanted, WellFormed, Accepted, MapStep, SeenAt;
    var s' := Next(cfg, s, Finish(w));
    var f := s.flights[w];
    assert FlightOk(cfg, s, w);
    forall t
      ensures Wanted(s'.settled, t) == if Locks(f.op, t) then After(f.op, t) else Wanted(s.settled, t)
    {
      MapStepAt(s.settled, f.op, t);
    }
    assert Commands(cfg, f.op)[..f.pos] == Commands(cfg, f.op);
    forall t, b: nat | b < cfg.n && Locks(f.op, t)
      ensures Stored(cfg, s.h, t, b) == After(f.op, t)
    {
      WholePipeline(cfg, f.op, t, b, Wanted(s.settled, t));
    }
    forall v | v in s'.flights
      ensures FlightOk(cfg, s', v)
    {
      assert FlightOk(cfg, s, v);
      assert forall t :: Locks(s.flights[v].op, t) ==> !Locks(f.op, t);
    }
    forall t, b: nat | b < cfg.n && Free(s', t)
      ensures Stored(cfg, s'.h, t, b) == Wanted(s'.settled, t)
    {
      if !Locks(f.op, t) {
        assert forall v :: v in s.flights && v != w ==> v in s'.flights && s'.flights[v] == s.flights[v];
        assert Free(s, t);
      }
    }
  }

  lemma {:induction false} ExecKeeps(cfg: Config, s: State, actions: seq<Action>)
    requires Inv(cfg, s)
    ensures cfg.Valid() && Inv(cfg, Exec(cfg, s, actions))
  {
    if actions != [] {
      var mid, a := Exec(cfg, s, actions[..|actions| - 1]), actions[|actions| - 1];
      ExecKeeps(cfg, s, actions[..|actions| - 1]);
      assert Exec(cfg, s, actions) == Next(cfg, mid, a);
      hide Inv, Exec;
      if Enabled(cfg, mid, a) {
        hide Enabled, Next;
        match a {
          case Begin(w, op) => BeginKeeps(cfg, mid, w, op);
          case Send(w) => SendKeeps(cfg, mid, w);
          case Finish(w) => FinishKeeps(cfg, mid, w);
        }
      }
    }
  }

  const START: State := State(map[], map[], map[])

  lemma StartInv(cfg: Config)
    requires cfg.Valid()
    ensures Inv(cfg, START)
  {
    hide KeyFor;
  }

  /** A value a triple may show: the settled one, or one that an operation in flight writes there. */
  ghost predicate MayShow(s: State, t: Triple, v: Option<string>) {
    v == Wanted(s.settled, t) || exists w :: w in s.flights && MayLeave(s.flights[w].op, t, v)
  }

  /**
   In every state of every interleaving, each replica of each triple holds the settled
   value or one that the operation in flight on it writes there, and replicas of a triple
   with none in flight agree.
   */
  lemma BeforeOrAfter(cfg: Config, actions: seq<Action>, t: Triple, b: nat)
    requires cfg.Valid() && b < cfg.n
    ensures var s := Exec(cfg, START, actions);
            MayShow(s, t, Stored(cfg, s.h, t, b)) && (Free(s, t) ==> Stored(cfg, s.h, t, b) == Wanted(s.settled, t))
  {
    hide Exec;
    StartInv(cfg);
    ExecKeeps(cfg, START, actions);
    InvShows(cfg, Exec(cfg, START, actions), t, b);
  }

  lemma InvShows(cfg: Config, s: State, t: Triple, b: nat)
    requires Inv(cfg, s) && b < cfg.n
    ensures MayShow(s, t, Stored(cfg, s.h, t, b)) && (Free(s, t) ==> Stored(cfg, s.h, t, b) == Wanted(s.settled, t))
  {
    hide Locks, Stored, Wanted, Commands, KeyFor, WellFormed, Accepted, MayLeave, SeenAt;
    if !Free(s, t) {
      var w :| w in s.flights && Locks(s.flights[w].op, t);
      assert FlightOk(cfg, s, w);
      PartOfPipeline(cfg, s.flights[w].op, s.flights[w].pos, t, b, Wanted(s.settled, t));
    }
  }

  // ----- When no other value shows -----

  lemma {:induction false} AddedLast(rules: seq<Rule>, t: Triple)
    ensures Wanted(AddAll(map[], rules), t).Some? ==>
              exists r :: r in rules && r.Where() == t && Wanted(AddAll(map[], rules), t) == Some(r.What().Encode())
    ensures (exists r :: r in rules && r.Where() == t) ==> Wanted(AddAll(map[], rules), t).Some?
  {
    if rules != [] {
      var init, last := rules[..|rules| - 1], rules[|rules| - 1];
      assert rules == init + [last];
      AddedLast(init, t);
      assert last in rules;
    }
  }

  /** What an operation leaves is one of the values it writes, and the only one unless a load contradicts itself. */
  lemma AfterIsLeft(op: Op, t: Triple)
    requires Accepted(op) && Locks(op, t)
    ensures MayLeave(op, t, After(op, t))
    ensures (op.PutManyOp? ==> Consistent(op.rules)) ==> forall v :: MayLeave(op, t, v) ==> v == After(op, t)
  {
    if op.PutManyOp? {
      AddedLast(op.rules, t);
    }
  }

  /** One replica in one state: the value before, or what the operation leaves. */
  ghost predicate InTwo(cfg: Config, s: State, op: Op, t: Triple, b: nat)
    requires cfg.Valid() && b < cfg.n
  {
    Stored(cfg, s.h, t, b) == Wanted(s.settled, t) || Stored(cfg, s.h, t, b) == After(op, t)
  }

  /** While op is in flight, replicas of its triples show no third value. */
  ghost predicate OnlyTwo(cfg: Config, op: Op)
    requires cfg.Valid()
  {
    forall actions, w, t, b: nat
      | b < cfg.n && w in Exec(cfg, START, actions).flights && Exec(cfg, START, actions).flights[w].op == op && Locks(op, t) ::
      InTwo(cfg, Exec(cfg, START, actions), op, t, b)
  }

  function Sends(op: Op, k: nat): seq<Action> {
    if k == 0 then [Begin(0, op)] else Sends(op, k - 1) + [Send(0)]
  }

  lemma {:induction false} SendsOnly(cfg: Config, op: Op, k: nat)
    requires cfg.Valid() && Accepted(op) && k <= |Commands(cfg, op)|
    ensures Exec(cfg, START, Sends(op, k)) == State(ApplyAll(map[], Commands(cfg, op)[..k]), map[], map[0 := Flight(op, k)])
  {
    hide Commands, Accepted, Apply;
    var actions := Sends(op, k);
    if k == 0 {
      assert actions[..0] == [];
      assert Exec(cfg, START, actions[..0]) == START;
      assert Enabled(cfg, START, Begin(0, op));
      assert Commands(cfg, op)[..0] == [];
    } else {
      SendsOnly(cfg, op, k - 1);
      assert actions[..|actions| - 1] == Sends(op, k - 1);
      ApplyAllStep(map[], Commands(cfg, op), k - 1);
    }
  }

  lemma {:induction false} SetsPrefix(cfg: Config, rules: seq<Rule>, i: nat)
    requires cfg.Valid() && i <= |rules|
    ensures SetsOf(cfg, rules[..i]) <= SetsOf(cfg, rules)
  {
    hide RuleSets;
    if i < |rules| {
      SetsPrefix(cfg, rules[..|rules| - 1], i);
      assert rules[..|rules| - 1][..i] == rules[..i];
    } else {
      assert rules[..i] == rules;
    }
  }

  /** A load that has just written its rule i shows that rule's value, whatever follows. */
  lemma MiddleShows(cfg: Config, rules: seq<Rule>, i: nat) returns (actions: seq<Action>)
    requires cfg.Valid() && Accepted(PutManyOp(rules)) && i < |rules|
    ensures var s := Exec(cfg, START, actions);
            && s.settled == map[]
            && 0 in s.flights && s.flights[0].op == PutManyOp(rules)
            && Stored(cfg, s.h, rules[i].Where(), 0) == Some(rules[i].What().Encode())
  {
    var part, op := rules[..i + 1], PutManyOp(rules);
    var k := |SetsOf(cfg, part)|;
    SetsPrefix(cfg, rules, i + 1);
    assert Commands(cfg, op)[..k] == SetsOf(cfg, part);
    actions := Sends(op, k);
    var none: Hashes, empty: RuleMap := map[], map[];
    assert part[..|part| - 1] == rules[..i] && part[|part| - 1] == rules[i];
    assert Wanted(AddAll(empty, part), rules[i].Where()) == Some(rules[i].What().Encode());
    hide Commands, Accepted, SetsOf, Represents, Stored, Wanted, AddAll, ApplyAll, Exec;
    SendsOnly(cfg, op, k);
    EmptyRepresents(cfg);
    RepresentsSetsOf(cfg, none, empty, part);
    RepresentedAt(cfg, ApplyAll(none, SetsOf(cfg, part)), AddAll(empty, part), rules[i].Where(), 0);
  }

  /** "Before or after" holds in every state exactly for the operations that do not contradict themselves. */
  lemma OnlyTwoIff(cfg: Config, op: Op)
    requires cfg.Valid() && Accepted(op)
    ensures OnlyTwo(cfg, op) <==> (op.PutManyOp? ==> Consistent(op.rules))
  {
    hide Exec, Stored, Wanted, MayLeave, After, Accepted, Locks, Inv, Free;
    if op.PutManyOp? ==> Consistent(op.rules) {
      forall actions, w, t, b: nat
        | b < cfg.n && w in Exec(cfg, START, actions).flights && Exec(cfg, START, actions).flights[w].op == op && Locks(op, t)
        ensures InTwo(cfg, Exec(cfg, START, actions), op, t, b)
      {
        ConsistentInTwo(cfg, actions, w, op, t, b);
      }
    } else {
      var actions, t := ThirdValue(cfg, op.rules);
      assert !InTwo(cfg, Exec(cfg, START, actions), op, t, 0);
    }
  }

  lemma ConsistentInTwo(cfg: Config, actions: seq<Action>, w: nat, op: Op, t: Triple, b: nat)
    requires cfg.Valid() && b < cfg.n && Accepted(op) && Locks(op, t) && (op.PutManyOp? ==> Consistent(op.rules))
    requires w in Exec(cfg, START, actions).flights && Exec(cfg, START, actions).flights[w].op == op
    ensures InTwo(cfg, Exec(cfg, START, actions), op, t, b)
  {
    hide Exec, Stored, Wanted, After, Accepted, Commands, WellFormed, SeenAt, Consistent;
    StartInv(cfg);
    ExecKeeps(cfg, START, actions);
    var s := Exec(cfg, START, actions);
    assert FlightOk(cfg, s, w);
    hide Locks, MayLeave;
    PartOfPipeline(cfg, op, s.flights[w].pos, t, b, Wanted(s.settled, t));
    AfterIsLeft(op, t);
  }

  lemma ThirdValue(cfg: Config, rules: seq<Rule>) returns (actions: seq<Action>, t: Triple)
    requires cfg.Valid() && Accepted(PutManyOp(rules)) && !Consistent(rules)
    ensures Locks(PutManyOp(rules), t)
    ensures 0 in Exec(cfg, START, actions).flights && Exec(cfg, START, actions).flights[0].op == PutManyOp(rules)
    ensures !InTwo(cfg, Exec(cfg, START, actions), PutManyOp(rules), t, 0)
  {
    var r, s :| r in rules && s in rules && r.Where() == s.Where() && r.What() != s.What();
    t := r.Where();
    EncodeInjective(r.What(), s.What());
    var q := if Some(r.What().Encode()) == After(PutManyOp(rules), t) then s else r;
    var i :| 0 <= i < |rules| && rules[i] == q;
    hide Accepted, Exec, After, Stored;
    actions := MiddleShows(cfg, rules, i);
  }

  /** The failing input: a load of two rules for one triple shows the first one's value on its way. */
  lemma LoadShowsMiddle(cfg: Config, r: Rule, s: Rule) returns (actions: seq<Action>)
    requires cfg.Valid() && ValidPort(r.port) && r.Where() == s.Where() && r.What() != s.What()
    ensures var state := Exec(cfg, START, actions);
            && 0 in state.flights && state.flights[0].op == PutManyOp([r, s])
            && Stored(cfg, state.h, r.Where(), 0) == Some(r.What().Encode())
            && Wanted(state.settled, r.Where()) == None
            && After(PutManyOp([r, s]), r.Where()) == Some(s.What().Encode()) != Some(r.What().Encode())
  {
    var rules := [r, s];
    assert rules[..|rules| - 1] == [r] && rules[|rules| - 1] == s;
    assert After(PutManyOp(rules), r.Where()) == Some(s.What().Encode());
    EncodeInjective(r.What(), s.What());
    hide Exec, After, Stored;
    actions := MiddleShows(cfg, rules, 0);
  }

  /** With nothing in flight the database stands for the simple map of all completed operations. */
  lemma QuietRepresents(cfg: Config, actions: seq<Action>)
    requires cfg.Valid()
    ensures var s := Exec(cfg, START, actions);
            s.flights == map[] ==> Represents(cfg, s.h, s.settled)
  {
    hide Exec, Locks, Stored, Wanted, After, Commands, KeyFor, WellFormed, Accepted;
    StartInv(cfg);
    ExecKeeps(cfg, START, actions);
    var s := Exec(cfg, START, actions);
    if s.flights == map[] {
      assert forall t :: Free(s, t);
    }
  }
}
