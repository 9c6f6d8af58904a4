/**
 Pipelines that overlap with nothing to serialise them: exactly when every interleaving
 of their commands leaves all replicas in step.
 */
module Overlaps {
  import opened Text
  import opened Pattern
  import opened Keys
  import opened Database
  import opened Rules
  import opened Replication
  import opened Pipelines

  // ----- Interleavings -----

  ghost predicate EndsIn(ps: seq<seq<Command>>, w: seq<Command>, i: int) {
    0 <= i < |ps| && ps[i] != [] && w != [] && ps[i][|ps[i]| - 1] == w[|w| - 1]
  }

  function Shorter(ps: seq<seq<Command>>, i: nat): (qs: seq<seq<Command>>)
    requires i < |ps| && ps[i] != []
    ensures |qs| == |ps| && qs[i] == ps[i][..|ps[i]| - 1] && forall j :: 0 <= j < |ps| && j != i ==> qs[j] == ps[j]
  {
    ps[i := ps[i][..|ps[i]| - 1]]
  }

  /** w has the commands of all pipelines, those of each in its own order. */
  ghost predicate Merge(ps: seq<seq<Command>>, w: seq<Command>)
    decreases |w|
  {
    if w == [] then forall i :: 0 <= i < |ps| ==> ps[i] == []
    else exists i :: EndsIn(ps, w, i) && Merge(Shorter(ps, i), w[..|w| - 1])
  }

  ghost predicate SeenFrom(ps: seq<seq<Command>>, w: seq<Command>, k: string, f: string, v: Option<string>, i: int) {
    0 <= i < |ps| && Touched(ps[i], k, f) && Seen(w, k, f, v) == Seen(ps[i], k, f, v)
  }

  lemma ShorterSeen(cmds: seq<Command>, k: string, f: string, v: Option<string>)
    requires cmds != [] && !cmds[|cmds| - 1].Touches(k, f)
    ensures Touched(cmds, k, f) <==> Touched(cmds[..|cmds| - 1], k, f)
    ensures Seen(cmds, k, f, v) == Seen(cmds[..|cmds| - 1], k, f, v)
  {
    assert cmds == cmds[..|cmds| - 1] + [cmds[|cmds| - 1]];
    TouchedAppend(cmds[..|cmds| - 1], cmds[|cmds| - 1], k, f);
  }

  /** After an interleaving a field holds what one of the pipelines that touch it alone would leave. */
  lemma {:induction false} MergeSeen(ps: seq<seq<Command>>, w: seq<Command>, k: string, f: string, v: Option<string>)
    requires Merge(ps, w)
    ensures Touched(w, k, f) <==> exists i :: 0 <= i < |ps| && Touched(ps[i], k, f)
    ensures Touched(w, k, f) ==> exists i :: SeenFrom(ps, w, k, f, v, i)
    decreases |w|
  {
    if w != [] {
      var i :| EndsIn(ps, w, i) && Merge(Shorter(ps, i), w[..|w| - 1]);
      var last, qs := w[|w| - 1], Shorter(ps, i);
      hide Merge, Shorter;
      if last.Touches(k, f) {
        assert last in w && last in ps[i];
        assert SeenFrom(ps, w, k, f, v, i);
      } else {
        MergeSeen(qs, w[..|w| - 1], k, f, v);
        ShorterSeen(w, k, f, v);
        ShorterSeen(ps[i], k, f, v);
        hide Seen, Touched;
        assert forall j :: 0 <= j < |ps| ==> (Touched(qs[j], k, f) <==> Touched(ps[j], k, f));
        if Touched(w, k, f) {
          var j :| SeenFrom(qs, w[..|w| - 1], k, f, v, j);
          assert SeenFrom(ps, w, k, f, v, j);
        }
      }
    }
  }

  /** qs is ps with more commands at the end of pipeline i. */
  ghost predicate Grown(ps: seq<seq<Command>>, qs: seq<seq<Command>>, i: nat, more: seq<Command>) {
    i < |ps| == |qs| && qs[i] == ps[i] + more && forall j :: 0 <= j < |ps| && j != i ==> qs[j] == ps[j]
  }

  /** More commands of one pipeline may follow an interleaving. */
  lemma {:induction false} MergeMore(ps: seq<seq<Command>>, qs: seq<seq<Command>>, w: seq<Command>, i: nat, more: seq<Command>)
    requires Merge(ps, w) && Grown(ps, qs, i, more)
    ensures Merge(qs, w + more)
    decreases |more|
  {
    if more == [] {
      assert qs == ps && w + [] == w;
    } else {
      var init, v := more[..|more| - 1], w + more;
      assert EndsIn(qs, v, i);
      assert v[..|v| - 1] == w + init;
      MergeMore(ps, Shorter(qs, i), w, i, init);
    }
  }

  function Flat(ps: seq<seq<Command>>): seq<Command> {
    if ps == [] then [] else Flat(ps[..|ps| - 1]) + ps[|ps| - 1]
  }

  function FirstOnly(ps: seq<seq<Command>>, n: nat): (qs: seq<seq<Command>>)
    ensures |qs| == |ps| && forall j :: 0 <= j < |ps| ==> qs[j] == if j < n then ps[j] else []
  {
    seq(|ps|, j requires 0 <= j < |ps| => if j < n then ps[j] else [])
  }

  lemma {:induction false} FirstMerge(ps: seq<seq<Command>>, n: nat)
    requires n <= |ps|
    ensures Merge(FirstOnly(ps, n), Flat(ps[..n]))
    decreases n
  {
    if n > 0 {
      FirstMerge(ps, n - 1);
      assert ps[..n][..n - 1] == ps[..n - 1];
      hide Merge;
      MergeMore(FirstOnly(ps, n - 1), FirstOnly(ps, n), Flat(ps[..n - 1]), n - 1, ps[n - 1]);
    }
  }

  /** Pipelines may run whole one after another. */
  lemma FlatMerge(ps: seq<seq<Command>>)
    ensures Merge(ps, Flat(ps))
  {
    hide Merge;
    FirstMerge(ps, |ps|);
    assert ps[..|ps|] == ps && FirstOnly(ps, |ps|) == ps;
  }

  /** One pipeline may run whole between two commands of another, after all the rest. */
  lemma MergeInside(ps: seq<seq<Command>>, i: nat, j: nat, early: seq<Command>, late: seq<Command>)
    returns (rest: seq<Command>)
    requires i < |ps| && j < |ps| && i != j && ps[i] == early + late
    ensures Merge(ps, rest + early + ps[j] + late)
  {
    var q0 := ps[i := []][j := []];
    var q1 := ps[i := early][j := []];
    var q2 := ps[i := early];
    rest := Flat(q0);
    FlatMerge(q0);
    hide Merge, Flat;
    MergeMore(q0, q1, rest, i, early);
    MergeMore(q1, q2, rest + early, j, ps[j]);
    MergeMore(q2, ps, rest + early + ps[j], i, late);
  }

  // ----- Operations that overlap -----

  /** What an operation sends: nothing when it is rejected. */
  function Sent(cfg: Config, op: Op): seq<Command>
    requires cfg.Valid()
  {
    if Accepted(op) then Commands(cfg, op) else []
  }

  ghost predicate InStep(cfg: Config, h: Hashes)
    requires cfg.Valid()
  {
    forall t, b: nat, c: nat :: b < cfg.n && c < cfg.n ==> Stored(cfg, h, t, b) == Stored(cfg, h, t, c)
  }

  /** Both write a replicated triple and leave different values there. */
  ghost predicate Clash(cfg: Config, op: Op, op': Op) {
    && Accepted(op)
    && Accepted(op')
    && exists t :: ClashAt(cfg, op, op', t)
  }

  predicate ClashAt(cfg: Config, op: Op, op': Op, t: Triple) {
    Locks(op, t) && Locks(op', t) && cfg.Buckets(t.fqdn1) && After(op, t) != After(op', t)
  }

  function SentAll(cfg: Config, ops: seq<Op>): (ps: seq<seq<Command>>)
    requires cfg.Valid()
    ensures |ps| == |ops| && forall i :: 0 <= i < |ps| ==> ps[i] == Sent(cfg, ops[i])
  {
    seq(|ops|, i requires 0 <= i < |ops| => Sent(cfg, ops[i]))
  }

  ghost predicate NoClash(cfg: Config, ops: seq<Op>) {
    forall i, j :: 0 <= i < j < |ops| ==> !Clash(cfg, ops[i], ops[j])
  }

  lemma SameAfter(cfg: Config, ops: seq<Op>, i: nat, j: nat, t: Triple)
    requires NoClash(cfg, ops) && i < |ops| && j < |ops| && cfg.Buckets(t.fqdn1)
    requires Accepted(ops[i]) && Accepted(ops[j]) && Locks(ops[i], t) && Locks(ops[j], t)
    ensures After(ops[i], t) == After(ops[j], t)
  {
    hide After, Locks, Accepted;
    var a, b := if i < j then i else j, if i < j then j else i;
    if a < b {
      assert !Clash(cfg, ops[a], ops[b]);
      assert !ClashAt(cfg, ops[a], ops[b], t);
    }
  }

  /** What one pipeline alone does to a replica. */
  lemma SentSeen(cfg: Config, op: Op, t: Triple, b: nat, v: Option<string>)
    requires cfg.Valid() && b < cfg.n
    ensures Touched(Sent(cfg, op), KeyFor(cfg, t.fqdn1, t.port, b), t.fqdn2) <==> Accepted(op) && Locks(op, t)
    ensures Accepted(op) && Locks(op, t) ==> SeenAt(cfg, Sent(cfg, op), t, b, v) == After(op, t)
  {
    hide Commands, KeyFor, Locks, After, Accepted, MayLeave;
    if Accepted(op) {
      WholePipeline(cfg, op, t, b, v);
      if Locks(op, t) {
        AllTouched(cfg, op, t, b);
      } else if c :| c in Commands(cfg, op) && c.Touches(KeyFor(cfg, t.fqdn1, t.port, b), t.fqdn2) {
        TouchMeans(cfg, op, c, t, b);
        assert false;
      }
    }
  }

  /** One replica after an interleaving of operations that do not clash; i is one that writes it, if any. */
  lemma CalmReplica(cfg: Config, h: Hashes, ops: seq<Op>, w: seq<Command>, t: Triple, b: nat, i: int)
    requires cfg.Valid() && b < cfg.n && cfg.Buckets(t.fqdn1) && NoClash(cfg, ops)
    requires Merge(SentAll(cfg, ops), w)
    requires 0 <= i < |ops| ==> Accepted(ops[i]) && Locks(ops[i], t)
    requires !(0 <= i < |ops|) ==> forall j :: 0 <= j < |ops| ==> !(Accepted(ops[j]) && Locks(ops[j], t))
    ensures Stored(cfg, ApplyAll(h, w), t, b) == if 0 <= i < |ops| then After(ops[i], t) else Stored(cfg, h, t, b)
  {
    hide KeyFor, Locks, After, Accepted, Sent, Merge, Get, Touched, NoClash;
    var key, v, ps := KeyFor(cfg, t.fqdn1, t.port, b), Stored(cfg, h, t, b), SentAll(cfg, ops);
    forall j | 0 <= j < |ops|
      ensures Touched(ps[j], key, t.fqdn2) <==> Accepted(ops[j]) && Locks(ops[j], t)
      ensures Accepted(ops[j]) && Locks(ops[j], t) ==> Seen(ps[j], key, t.fqdn2, v) == After(ops[j], t)
    {
      SentSeen(cfg, ops[j], t, b, v);
    }
    GetApplyAll(h, w, key, t.fqdn2);
    MergeSeen(ps, w, key, t.fqdn2, v);
    SeenForgets(w, key, t.fqdn2, v, v);
    if 0 <= i < |ops| {
      assert Touched(ps[i], key, t.fqdn2);
      var j :| SeenFrom(ps, w, key, t.fqdn2, v, j);
      SameAfter(cfg, ops, i, j, t);
    }
  }

  lemma CalmInStep(cfg: Config, h: Hashes, ops: seq<Op>, w: seq<Command>)
    requires cfg.Valid() && InStep(cfg, h) && NoClash(cfg, ops)
    requires Merge(SentAll(cfg, ops), w)
    ensures InStep(cfg, ApplyAll(h, w))
  {
    hide KeyFor, Locks, After, Accepted, Merge, NoClash, SentAll, ApplyAll;
    forall t, b: nat, c: nat | b < cfg.n && c < cfg.n
      ensures Stored(cfg, ApplyAll(h, w), t, b) == Stored(cfg, ApplyAll(h, w), t, c)
    {
      if cfg.Buckets(t.fqdn1) {
        var i := -1;
        if j :| 0 <= j < |ops| && Accepted(ops[j]) && Locks(ops[j], t) {
          i := j;
        }
        CalmReplica(cfg, h, ops, w, t, b, i);
        CalmReplica(cfg, h, ops, w, t, c, i);
        assert Stored(cfg, h, t, b) == Stored(cfg, h, t, c);
      } else {
        SameReplica(cfg, t.fqdn1, t.port, b, c);
      }
    }
  }

  // ----- A clash shows -----

  /** The last writes of a triple's first replica and what follows, where its second one is written again. */
  ghost predicate Splits(cfg: Config, cmds: seq<Command>, t: Triple, early: seq<Command>, late: seq<Command>)
    requires cfg.Valid() && cfg.n > 1
  {
    && cmds == early + late
    && (forall c :: c in late ==> !c.Touches(KeyFor(cfg, t.fqdn1, t.port, 0), t.fqdn2))
    && (exists c :: c in late && c.Touches(KeyFor(cfg, t.fqdn1, t.port, 1), t.fqdn2))
  }

  /** The writes of one triple split after the first. */
  lemma SplitOne(cfg: Config, t: Triple, cmds: seq<Command>)
    requires cfg.Valid() && cfg.Buckets(t.fqdn1) && |cmds| == cfg.n
    requires forall i :: 0 <= i < |cmds| ==> cmds[i].key == KeyFor(cfg, t.fqdn1, t.port, i) && cmds[i].field == t.fqdn2
    ensures Splits(cfg, cmds, t, cmds[..1], cmds[1..])
  {
    hide KeyFor, HashTag, IsBucketedTag;
    assert cmds[1..][0] == cmds[1] && cmds[1].Touches(KeyFor(cfg, t.fqdn1, t.port, 1), t.fqdn2);
    forall c | c in cmds[1..]
      ensures !c.Touches(KeyFor(cfg, t.fqdn1, t.port, 0), t.fqdn2)
    {
      var i :| 0 <= i < |cmds[1..]| && cmds[1..][i] == c;
      assert c.key == KeyFor(cfg, t.fqdn1, t.port, i + 1);
      if c.Touches(KeyFor(cfg, t.fqdn1, t.port, 0), t.fqdn2) {
        KeyInjective(cfg, t.fqdn1, t.port, i + 1, t.fqdn1, t.port, 0);
      }
    }
  }

  lemma SplitsBefore(cfg: Config, cmds: seq<Command>, t: Triple, early: seq<Command>, late: seq<Command>, more: seq<Command>)
    requires cfg.Valid() && cfg.n > 1 && Splits(cfg, cmds, t, early, late)
    ensures Splits(cfg, more + cmds, t, more + early, late)
  {
    hide KeyFor;
  }

  lemma SplitsAfter(cfg: Config, cmds: seq<Command>, t: Triple, early: seq<Command>, late: seq<Command>, more: seq<Command>)
    requires cfg.Valid() && cfg.n > 1 && Splits(cfg, cmds, t, early, late)
    requires forall c :: c in more ==> !c.Touches(KeyFor(cfg, t.fqdn1, t.port, 0), t.fqdn2)
    ensures Splits(cfg, cmds + more, t, early, late + more)
  {
    hide KeyFor;
    var c :| c in late && c.Touches(KeyFor(cfg, t.fqdn1, t.port, 1), t.fqdn2);
    assert c in late + more;
  }

  lemma SplitRule(cfg: Config, r: Rule)
    requires cfg.Valid() && cfg.Buckets(r.fqdn1)
    ensures |RuleSets(cfg, r)| == cfg.n > 1
    ensures Splits(cfg, RuleSets(cfg, r), r.Where(), RuleSets(cfg, r)[..1], RuleSets(cfg, r)[1..])
  {
    hide KeyFor, Splits;
    SplitOne(cfg, r.Where(), RuleSets(cfg, r));
  }

  lemma {:induction false} SplitSets(cfg: Config, rules: seq<Rule>, t: Triple) returns (early: seq<Command>, late: seq<Command>)
    requires cfg.Valid() && cfg.Buckets(t.fqdn1) && exists r :: r in rules && r.Where() == t
    ensures Splits(cfg, SetsOf(cfg, rules), t, early, late)
  {
    var init, last := rules[..|rules| - 1], rules[|rules| - 1];
    assert rules == init + [last];
    hide KeyFor, RuleSets, Splits, HashTag, IsBucketedTag;
    if last.Where() == t {
      SplitRule(cfg, last);
      var sets := RuleSets(cfg, last);
      SplitsBefore(cfg, sets, t, sets[..1], sets[1..], SetsOf(cfg, init));
      early, late := SetsOf(cfg, init) + sets[..1], sets[1..];
    } else {
      early, late := SplitSets(cfg, init, t);
      OtherRule(cfg, last, t);
      SplitsAfter(cfg, SetsOf(cfg, init), t, early, late, RuleSets(cfg, last));
      late := late + RuleSets(cfg, last);
    }
  }

  lemma OtherRule(cfg: Config, r: Rule, t: Triple)
    requires cfg.Valid() && r.Where() != t
    ensures forall c :: c in RuleSets(cfg, r) ==> !c.Touches(KeyFor(cfg, t.fqdn1, t.port, 0), t.fqdn2)
  {
    hide KeyFor;
    WhoTouches(cfg, r.Where(), RuleSets(cfg, r), t, 0);
  }

  lemma MetaElsewhere(cfg: Config, t: Triple)
    requires cfg.Valid()
    ensures !Meta(cfg).Touches(KeyFor(cfg, t.fqdn1, t.port, 0), t.fqdn2)
  {
    KeyIsNotMeta(cfg, t.fqdn1, t.port, 0, cfg.ns);
  }

  lemma SplitCommands(cfg: Config, op: Op, t: Triple) returns (early: seq<Command>, late: seq<Command>)
    requires cfg.Valid() && cfg.Buckets(t.fqdn1) && Locks(op, t)
    ensures Splits(cfg, Commands(cfg, op), t, early, late)
  {
    MetaElsewhere(cfg, t);
    hide KeyFor, RuleSets, Splits, HashTag, IsBucketedTag, Meta, SetsOf;
    match op {
      case PutOp(rule) =>
        SplitRule(cfg, rule);
        var sets := RuleSets(cfg, rule);
        SplitsAfter(cfg, sets, t, sets[..1], sets[1..], [Meta(cfg)]);
        early, late := sets[..1], sets[1..] + [Meta(cfg)];
      case PutManyOp(rules) =>
        early, late := SplitSets(cfg, rules, t);
        var more := if AnyBucketed(cfg, rules) then [Meta(cfg)] else [];
        SplitsAfter(cfg, SetsOf(cfg, rules), t, early, late, more);
        late := late + more;
      case DeleteOp(u) =>
        var cmds := DeleteCommands(cfg, u);
        SplitOne(cfg, u, cmds);
        early, late := cmds[..1], cmds[1..];
    }
  }

  lemma {:induction false} SeenConcat(a: seq<Command>, b: seq<Command>, k: string, f: string, v: Option<string>)
    ensures Seen(a + b, k, f, v) == Seen(b, k, f, Seen(a, k, f, v))
    decreases |b|
  {
    if b == [] {
      assert a + b == a;
    } else {
      assert (a + b)[..|a + b| - 1] == a + b[..|b| - 1];
      SeenConcat(a, b[..|b| - 1], k, f, v);
    }
  }

  /** The part of a pipeline after a split writes the second replica as the whole does. */
  lemma LateSeen(cfg: Config, op: Op, t: Triple, early: seq<Command>, late: seq<Command>, v: Option<string>)
    requires cfg.Valid() && cfg.n > 1 && Accepted(op) && Locks(op, t) && Splits(cfg, Commands(cfg, op), t, early, late)
    ensures SeenAt(cfg, late, t, 1, v) == After(op, t)
    ensures SeenAt(cfg, late, t, 0, v) == v
  {
    hide Commands, KeyFor, Locks, After, Accepted;
    var k0, k1 := KeyFor(cfg, t.fqdn1, t.port, 0), KeyFor(cfg, t.fqdn1, t.port, 1);
    WholePipeline(cfg, op, t, 1, v);
    SeenConcat(early, late, k1, t.fqdn2, v);
    SeenForgets(late, k1, t.fqdn2, v, Seen(early, k1, t.fqdn2, v));
    SeenForgets(late, k0, t.fqdn2, v, v);
  }

  /** One operation overtaken by another between its writes of the first two replicas. */
  lemma ClashShows(cfg: Config, h: Hashes, ops: seq<Op>, i: nat, j: nat, t: Triple) returns (w: seq<Command>)
    requires cfg.Valid() && i < |ops| && j < |ops| && i != j
    requires Accepted(ops[i]) && Accepted(ops[j]) && ClashAt(cfg, ops[i], ops[j], t)
    ensures Merge(SentAll(cfg, ops), w)
    ensures cfg.n > 1 && Stored(cfg, ApplyAll(h, w), t, 0) != Stored(cfg, ApplyAll(h, w), t, 1)
  {
    var early, late := SplitCommands(cfg, ops[i], t);
    var theirs := Commands(cfg, ops[j]);
    var rest := MergeInside(SentAll(cfg, ops), i, j, early, late);
    w := rest + early + theirs + late;
    hide Commands, KeyFor, Locks, After, Accepted, Merge, Get, HashTag, IsBucketedTag, SentAll;
    forall b: nat | b < cfg.n
      ensures Stored(cfg, ApplyAll(h, w), t, b) ==
              SeenAt(cfg, late, t, b, SeenAt(cfg, theirs, t, b, SeenAt(cfg, rest + early, t, b, Stored(cfg, h, t, b))))
    {
      var key := KeyFor(cfg, t.fqdn1, t.port, b);
      GetApplyAll(h, w, key, t.fqdn2);
      SeenConcat(rest + early + theirs, late, key, t.fqdn2, Stored(cfg, h, t, b));
      SeenConcat(rest + early, theirs, key, t.fqdn2, Stored(cfg, h, t, b));
    }
    hide Stored;
    WholePipeline(cfg, ops[j], t, 0, SeenAt(cfg, rest + early, t, 0, Stored(cfg, h, t, 0)));
    LateSeen(cfg, ops[i], t, early, late, SeenAt(cfg, theirs, t, 0, SeenAt(cfg, rest + early, t, 0, Stored(cfg, h, t, 0))));
    LateSeen(cfg, ops[i], t, early, late, SeenAt(cfg, theirs, t, 1, SeenAt(cfg, rest + early, t, 1, Stored(cfg, h, t, 1))));
  }

  /**
   Exactly when operations need to be serialised: every interleaving of their whole
   pipelines, of any number, keeps the replicas in step unless two of them leave
   different values at one replicated triple.
   */
  lemma OverlapIff(cfg: Config, h: Hashes, ops: seq<Op>)
    requires cfg.Valid() && InStep(cfg, h)
    ensures (forall w :: Merge(SentAll(cfg, ops), w) ==> InStep(cfg, ApplyAll(h, w))) <==> NoClash(cfg, ops)
  {
    hide Commands, KeyFor, Locks, After, Accepted, Merge, Stored, ApplyAll, ClashAt, SentAll;
    if NoClash(cfg, ops) {
      hide InStep, NoClash;
      forall w | Merge(SentAll(cfg, ops), w)
        ensures InStep(cfg, ApplyAll(h, w))
      {
        CalmInStep(cfg, h, ops, w);
      }
    } else {
      var i, j :| 0 <= i < j < |ops| && Clash(cfg, ops[i], ops[j]);
      var t :| ClashAt(cfg, ops[i], ops[j], t);
      var w := ClashShows(cfg, h, ops, i, j, t);
      assert !InStep(cfg, ApplyAll(h, w));
    }
  }

  /** In particular two puts of one catch-all triple with different values can part for good. */
  lemma UnserialisedDiverge(cfg: Config, r: Rule, r': Rule)
    requires cfg.Valid() && cfg.Buckets(r.fqdn1) && r.Where() == r'.Where() && r.What() != r'.What()
    requires ValidPort(r.port)
    ensures exists w :: Merge([PutCommands(cfg, r), PutCommands(cfg, r')], w)
              && Stored(cfg, ApplyAll(map[], w), r.Where(), 0) != Stored(cfg, ApplyAll(map[], w), r.Where(), 1)
  {
    hide PutCommands, Stored, ApplyAll, Merge, HashTag, IsBucketedTag;
    EncodeInjective(r.What(), r'.What());
    var ops := [PutOp(r), PutOp(r')];
    var w := ClashShows(cfg, map[], ops, 0, 1, r.Where());
    assert SentAll(cfg, ops) == [PutCommands(cfg, r), PutCommands(cfg, r')];
  }
}
