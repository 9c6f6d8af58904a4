/**
 Lookups while writers are at work: each key is read in a step of its own, and commands
 of the writers fall between the reads.
 */
module Reads {
  import opened Text
  import opened Results
  import opened Pattern
  import opened Keys
  import opened Database
  import opened Rules
  import opened Lookups
  import opened Store
  import opened Replication
  import opened Pipelines
  import opened Placement

  // ----- The simple map one replica shows -----

  function Decode(v: string): Entry {
    if v == "" then Entry(ScopeBoth, "")
    else Entry(if v[0] == 'S' then ScopeSingle else if v[0] == 'M' then ScopeMulti else ScopeBoth, v[1..])
  }

  lemma DecodeEncode(m: RuleMap, t: Triple)
    ensures Wanted(m, t).Some? ==> Decode(Wanted(m, t).value).Encode() == Wanted(m, t).value
  {
    if t in m {
      var v := m[t].Encode();
      assert v[0] == ScopeChar(m[t].scope) && v[1..] == m[t].ruleId;
    }
  }

  function LockSet(op: Op): set<Triple> {
    match op
    case PutOp(rule) => {rule.Where()}
    case PutManyOp(rules) => set r | r in rules :: r.Where()
    case DeleteOp(u) => {u}
  }

  /** The simple map that one replica shows. */
  function ReplicaMap(cfg: Config, s: State, b: nat): RuleMap
    requires cfg.Valid() && b < cfg.n
  {
    map t | t in s.settled.Keys + (set w, u | w in s.flights && u in LockSet(s.flights[w].op) :: u)
            && Stored(cfg, s.h, t, b).Some?
      :: Decode(Stored(cfg, s.h, t, b).value)
  }

  lemma EncodeDecode(v: string)
    requires exists e: Entry :: e.Encode() == v
    ensures Decode(v).Encode() == v
  {
    var e: Entry :| e.Encode() == v;
    assert v[0] == ScopeChar(e.scope) && v[1..] == e.ruleId;
  }

  lemma ShownIsText(s: State, t: Triple, v: Option<string>)
    requires MayShow(s, t, v) && v.Some?
    ensures Decode(v.value).Encode() == v.value
    ensures t in s.settled.Keys || exists w :: w in s.flights && t in LockSet(s.flights[w].op)
  {
    hide Decode;
    if v == Wanted(s.settled, t) {
      DecodeEncode(s.settled, t);
    } else {
      var w :| w in s.flights && MayLeave(s.flights[w].op, t, v);
      LeavesText(s.flights[w].op, t, v);
    }
  }

  lemma LeavesText(op: Op, t: Triple, v: Option<string>)
    requires MayLeave(op, t, v)
    ensures t in LockSet(op) && Locks(op, t) && (v.Some? ==> Decode(v.value).Encode() == v.value)
  {
    hide Decode;
    match op {
      case PutOp(rule) => EncodeDecode(rule.What().Encode());
      case PutManyOp(rules) =>
        var r :| r in rules && r.Where() == t && v == Some(r.What().Encode());
        EncodeDecode(r.What().Encode());
      case DeleteOp(_) =>
    }
  }

  lemma ReplicaMapAt(cfg: Config, s: State, t: Triple, b: nat)
    requires Inv(cfg, s) && b < cfg.n
    ensures Wanted(ReplicaMap(cfg, s, b), t) == Stored(cfg, s.h, t, b)
  {
    InvShows(cfg, s, t, b);
    hide Stored, Decode, Inv, MayShow;
    if Stored(cfg, s.h, t, b).Some? {
      ShownIsText(s, t, Stored(cfg, s.h, t, b));
    }
  }

  // ----- The database as reads at different times see it -----

  /** Key i as it is in hs[i], and nothing else. */
  function Snapshot(keys: seq<string>, hs: seq<Hashes>): Hashes
    requires |keys| == |hs|
  {
    if keys == [] then map[]
    else
      var n := |keys| - 1;
      var rest := Snapshot(keys[..n], hs[..n]);
      if keys[n] in hs[n] then rest[keys[n] := hs[n][keys[n]]] else rest
  }

  lemma {:induction false} SnapshotKeys(keys: seq<string>, hs: seq<Hashes>, k: string)
    requires |keys| == |hs| && k in Snapshot(keys, hs)
    ensures k in keys
  {
    if keys != [] {
      var n := |keys| - 1;
      assert keys == keys[..n] + [keys[n]];
      if k != keys[n] {
        SnapshotKeys(keys[..n], hs[..n], k);
      }
    }
  }

  lemma {:induction false} SnapshotAt(keys: seq<string>, hs: seq<Hashes>, i: nat, f: string)
    requires i < |keys| == |hs| && forall j, k :: 0 <= j < k < |keys| ==> keys[j] != keys[k]
    ensures Get(Snapshot(keys, hs), keys[i], f) == Get(hs[i], keys[i], f)
  {
    var n := |keys| - 1;
    if i < n {
      SnapshotAt(keys[..n], hs[..n], i, f);
    } else if keys[n] in Snapshot(keys[..n], hs[..n]) {
      SnapshotKeys(keys[..n], hs[..n], keys[n]);
    }
  }

  lemma {:induction false} SnapshotWellFormed(keys: seq<string>, hs: seq<Hashes>)
    requires |keys| == |hs| && forall i :: 0 <= i < |hs| ==> WellFormed(hs[i])
    ensures WellFormed(Snapshot(keys, hs))
  {
    if keys != [] {
      SnapshotWellFormed(keys[..|keys| - 1], hs[..|keys| - 1]);
    }
  }

  // ----- One lookup, its reads spread over several states -----

  function CandidateKeys(cfg: Config, xs: seq<Candidate>, port: int): (keys: seq<string>)
    requires cfg.Valid() && forall a :: a in xs ==> a.bucketIndex < cfg.n
    ensures |keys| == |xs|
    ensures forall i :: 0 <= i < |xs| ==> xs[i] in xs && keys[i] == Key(cfg, xs[i].tag, xs[i].bucketIndex, xs[i].pattern, port)
  {
    seq(|xs|, i requires 0 <= i < |xs| => assert xs[i] in xs; Key(cfg, xs[i].tag, xs[i].bucketIndex, xs[i].pattern, port))
  }

  /** The states in which the keys of a lookup are read, one for each candidate. */
  ghost predicate AreReads(cfg: Config, states: seq<State>, xs: seq<Candidate>) {
    cfg.Valid() && |states| == |xs| && forall i :: 0 <= i < |states| ==> Inv(cfg, states[i])
  }

  function HashesOf(states: seq<State>): (hs: seq<Hashes>)
    ensures |hs| == |states| && forall i :: 0 <= i < |hs| ==> hs[i] == states[i].h
  {
    seq(|states|, i requires 0 <= i < |states| => states[i].h)
  }

  /** What the lookup of a normal name reads in all. */
  function View(cfg: Config, states: seq<State>, xs: seq<Candidate>, port: int): Hashes
    requires cfg.Valid() && |states| == |xs| && forall a :: a in xs ==> a.bucketIndex < cfg.n
  {
    Snapshot(CandidateKeys(cfg, xs, port), HashesOf(states))
  }

  /** The candidates of one name: one bucket, tags of their patterns, no pattern twice. */
  lemma CandidateList(cfg: Config, n1: string, mode: MatchMode, checksum: string -> nat)
    requires cfg.Valid() && Clean(n1)
    ensures var xs := Candidates(n1, mode, cfg.n, checksum);
            && (forall a :: a in xs ==> a.bucketIndex < cfg.n)
            && (forall i :: 0 <= i < |xs| ==>
                  xs[i].tag == HashTag(xs[i].pattern) && xs[i].bucketIndex == BucketIndex(n1, cfg.n, checksum))
            && (forall i, j :: 0 <= i < j < |xs| ==> xs[i].pattern != xs[j].pattern)
  {
    hide FieldCandidates, HashTag, Clean;
    var xs := Candidates(n1, mode, cfg.n, checksum);
    RanksIncrease(n1, mode);
    forall i, j | 0 <= i < j < |xs|
      ensures xs[i].pattern != xs[j].pattern
    {
      CandidateFacts(n1, mode, i);
      CandidateFacts(n1, mode, j);
    }
  }

  /** The list of the patterns' replicas in bucket b. */
  ghost predicate OneBucket(cfg: Config, xs: seq<Candidate>, b: nat) {
    && b < cfg.n
    && (forall i :: 0 <= i < |xs| ==> xs[i].tag == HashTag(xs[i].pattern) && xs[i].bucketIndex == b)
    && (forall i, j :: 0 <= i < j < |xs| ==> xs[i].pattern != xs[j].pattern)
  }

  lemma ViewAt(cfg: Config, states: seq<State>, xs: seq<Candidate>, port: int, b: nat, i: nat, t: Triple)
    requires AreReads(cfg, states, xs) && OneBucket(cfg, xs, b) && forall a :: a in xs ==> a.bucketIndex < cfg.n
    requires i < |xs| && t.fqdn1 == xs[i].pattern && t.port == port
    ensures Stored(cfg, View(cfg, states, xs, port), t, b) == Stored(cfg, states[i].h, t, b)
  {
    hide Key, Snapshot, Get, HashTag, Inv;
    var keys := CandidateKeys(cfg, xs, port);
    forall j, k | 0 <= j < k < |keys|
      ensures keys[j] != keys[k]
    {
      if keys[j] == keys[k] {
        KeyInjective(cfg, xs[j].pattern, port, b, xs[k].pattern, port, b);
      }
    }
    SnapshotAt(keys, HashesOf(states), i, t.fqdn2);
  }

  /** The map that holds, for each candidate, what its own read found. */
  function ReadMap(cfg: Config, states: seq<State>, xs: seq<Candidate>, b: nat, k: nat): RuleMap
    requires cfg.Valid() && b < cfg.n && k <= |states| == |xs|
  {
    if k == 0 then map[]
    else
      var shown := ReplicaMap(cfg, states[k - 1], b);
      ReadMap(cfg, states, xs, b, k - 1)
      + map t | t in shown && t.fqdn1 == xs[k - 1].pattern :: shown[t]
  }

  lemma {:induction false} ReadMapOnly(cfg: Config, states: seq<State>, xs: seq<Candidate>, b: nat, k: nat, t: Triple)
    requires cfg.Valid() && b < cfg.n && k <= |states| == |xs|
    requires t in ReadMap(cfg, states, xs, b, k)
    ensures exists i :: 0 <= i < k && t.fqdn1 == xs[i].pattern
  {
    hide ReplicaMap;
    if k > 0 && t.fqdn1 != xs[k - 1].pattern {
      ReadMapOnly(cfg, states, xs, b, k - 1, t);
    }
  }

  lemma {:induction false} ReadMapAt(cfg: Config, states: seq<State>, xs: seq<Candidate>, b: nat, k: nat, i: nat, t: Triple)
    requires cfg.Valid() && b < cfg.n && i < k <= |states| == |xs| && t.fqdn1 == xs[i].pattern
    requires forall i, j :: 0 <= i < j < |xs| ==> xs[i].pattern != xs[j].pattern
    ensures Wanted(ReadMap(cfg, states, xs, b, k), t) == Wanted(ReplicaMap(cfg, states[i], b), t)
  {
    hide ReplicaMap;
    if i < k - 1 {
      ReadMapAt(cfg, states, xs, b, k - 1, i, t);
    } else if t in ReadMap(cfg, states, xs, b, k - 1) {
      ReadMapOnly(cfg, states, xs, b, k - 1, t);
      assert false;
    }
  }

  /** Every triple of a candidate has a value it may show in the state its key is read in. */
  ghost predicate HeldWhenRead(states: seq<State>, xs: seq<Candidate>, m: RuleMap)
    requires |states| == |xs|
  {
    forall i, t: Triple :: 0 <= i < |xs| && t.fqdn1 == xs[i].pattern ==> MayShow(states[i], t, Wanted(m, t))
  }

  lemma ReadMapShows(cfg: Config, states: seq<State>, xs: seq<Candidate>, port: int, b: nat, i: nat, t: Triple)
    requires AreReads(cfg, states, xs) && OneBucket(cfg, xs, b) && forall a :: a in xs ==> a.bucketIndex < cfg.n
    requires i < |xs| && t.fqdn1 == xs[i].pattern
    ensures var m := ReadMap(cfg, states, xs, b, |xs|);
            && MayShow(states[i], t, Wanted(m, t))
            && (t.port == port ==> Stored(cfg, View(cfg, states, xs, port), t, b) == Wanted(m, t))
  {
    hide ReplicaMap, ReadMap, Stored, View, Inv, MayShow, HashTag;
    ReadMapAt(cfg, states, xs, b, |xs|, i, t);
    ReplicaMapAt(cfg, states[i], t, b);
    InvShows(cfg, states[i], t, b);
    if t.port == port {
      ViewAt(cfg, states, xs, port, b, i, t);
    }
  }

  ghost predicate Covers(xs: seq<Candidate>, n1: string, mode: MatchMode) {
    forall p :: Matches(p, n1, mode) ==> exists i :: 0 <= i < |xs| && xs[i].pattern == p
  }

  lemma CandidatesCover(n1: string, mode: MatchMode, n: nat, checksum: string -> nat)
    requires Clean(n1)
    ensures Covers(Candidates(n1, mode, n, checksum), n1, mode)
  {
    hide Matches, Candidates, FieldCandidates, Clean;
    CandidateCount(n1, mode, n, checksum);
    forall p | Matches(p, n1, mode)
      ensures exists i :: 0 <= i < |Candidates(n1, mode, n, checksum)| && Candidates(n1, mode, n, checksum)[i].pattern == p
    {
      var i := MatchIsCandidate(p, n1, mode);
      CandidateAt(n1, mode, n, checksum, i);
    }
  }

  lemma ReadMapHolds(cfg: Config, states: seq<State>, xs: seq<Candidate>, port: int, b: nat, n1: string, mode: MatchMode)
    requires AreReads(cfg, states, xs) && OneBucket(cfg, xs, b) && forall a :: a in xs ==> a.bucketIndex < cfg.n
    requires Covers(xs, n1, mode)
    ensures HeldWhenRead(states, xs, ReadMap(cfg, states, xs, b, |xs|))
    ensures Shows(cfg, View(cfg, states, xs, port), ReadMap(cfg, states, xs, b, |xs|), n1, port, mode, b)
  {
    var m, h := ReadMap(cfg, states, xs, b, |xs|), View(cfg, states, xs, port);
    ViewWellFormed(cfg, states, xs, port);
    assert b < cfg.n;
    hide ReadMap, View, Stored, Wanted, Matches, MayShow, WellFormed, Inv, OneBucket;
    forall i, t: Triple | 0 <= i < |xs| && t.fqdn1 == xs[i].pattern
      ensures MayShow(states[i], t, Wanted(m, t))
    {
      ReadMapShows(cfg, states, xs, port, b, i, t);
    }
    forall t: Triple | t.port == port && Matches(t.fqdn1, n1, mode)
      ensures Stored(cfg, h, t, b) == Wanted(m, t)
    {
      var i :| 0 <= i < |xs| && xs[i].pattern == t.fqdn1;
      ReadMapShows(cfg, states, xs, port, b, i, t);
    }
  }

  lemma CandidatesOneBucket(cfg: Config, n1: string, mode: MatchMode, checksum: string -> nat)
    requires cfg.Valid() && Clean(n1)
    ensures OneBucket(cfg, Candidates(n1, mode, cfg.n, checksum), BucketIndex(n1, cfg.n, checksum))
  {
    CandidateList(cfg, n1, mode, checksum);
    BucketInRange(cfg, n1, checksum);
    hide Candidates, BucketIndex, HashTag, Clean;
  }

  /**
   A lookup whose keys are read in different states answers for a map whose every triple
   has a value it may show in the state in which its own key is read.
   */
  lemma LookupAcross(cfg: Config, states: seq<State>, checksum: string -> nat, f1: string, port: int, f2: string,
                     mode: MatchMode, n1: string, r: Result<Option<Match>>) returns (m: RuleMap)
    requires cfg.Valid() && Normalize(f1) == Success(n1)
    requires var xs := Candidates(n1, mode, cfg.n, checksum);
             && AreReads(cfg, states, xs)
             && (forall a :: a in xs ==> a.bucketIndex < cfg.n)
             && IsLookup(cfg, View(cfg, states, xs, port), checksum, f1, port, f2, mode, r)
    ensures HeldWhenRead(states, Candidates(n1, mode, cfg.n, checksum), m)
    ensures Answers(m, f1, port, f2, mode, r)
  {
    var xs, b := Candidates(n1, mode, cfg.n, checksum), BucketIndex(n1, cfg.n, checksum);
    hide Normalize, Candidates, Clean, BucketIndex, OneBucket, Covers, Inv, View, ReadMap, HeldWhenRead, Shows,
         IsLookup, Answers, LookupError;
    NormalizeClean(f1, n1);
    CandidatesOneBucket(cfg, n1, mode, checksum);
    CandidatesCover(n1, mode, cfg.n, checksum);
    assert b < cfg.n by { BucketInRange(cfg, n1, checksum); }
    m := ReadMap(cfg, states, xs, b, |xs|);
    ReadMapHolds(cfg, states, xs, port, b, n1, mode);
    LookupShown(cfg, View(cfg, states, xs, port), m, checksum, f1, port, f2, mode, r);
  }

  lemma BucketInRange(cfg: Config, n1: string, checksum: string -> nat)
    requires cfg.Valid()
    ensures BucketIndex(n1, cfg.n, checksum) < cfg.n
  {
  }

  lemma ViewWellFormed(cfg: Config, states: seq<State>, xs: seq<Candidate>, port: int)
    requires AreReads(cfg, states, xs) && forall a :: a in xs ==> a.bucketIndex < cfg.n
    ensures WellFormed(View(cfg, states, xs, port))
  {
    hide WellFormed;
    SnapshotWellFormed(CandidateKeys(cfg, xs, port), HashesOf(states));
  }

  // ----- In an interleaving -----

  /** The states after so many actions each. */
  ghost function StatesAt(cfg: Config, actions: seq<Action>, times: seq<nat>): (states: seq<State>)
    requires cfg.Valid() && forall i :: 0 <= i < |times| ==> times[i] <= |actions|
    ensures |states| == |times|
    ensures forall i :: 0 <= i < |times| ==> states[i] == Exec(cfg, START, actions[..times[i]])
  {
    seq(|times|, i requires 0 <= i < |times| => Exec(cfg, START, actions[..times[i]]))
  }

  /** r is what a lookup returns whose i-th key is read after times[i] actions. */
  ghost predicate ReturnsAcross(cfg: Config, actions: seq<Action>, times: seq<nat>, checksum: string -> nat,
                                f1: string, port: int, f2: string, mode: MatchMode, n1: string, r: Result<Option<Match>>)
    requires cfg.Valid()
  {
    var xs := Candidates(n1, mode, cfg.n, checksum);
    && Normalize(f1) == Success(n1)
    && |times| == |xs|
    && (forall i :: 0 <= i < |times| ==> times[i] <= |actions|)
    && (forall a :: a in xs ==> a.bucketIndex < cfg.n)
    && IsLookup(cfg, View(cfg, StatesAt(cfg, actions, times), xs, port), checksum, f1, port, f2, mode, r)
  }

  /** In every interleaving, however the reads fall between the commands of the writers. */
  lemma LookupInFlight(cfg: Config, actions: seq<Action>, times: seq<nat>, checksum: string -> nat,
                       f1: string, port: int, f2: string, mode: MatchMode, n1: string, r: Result<Option<Match>>)
    returns (m: RuleMap)
    requires cfg.Valid() && ReturnsAcross(cfg, actions, times, checksum, f1, port, f2, mode, n1, r)
    ensures HeldWhenRead(StatesAt(cfg, actions, times), Candidates(n1, mode, cfg.n, checksum), m)
    ensures Answers(m, f1, port, f2, mode, r)
  {
    hide Exec, Inv, View, IsLookup, Answers, Normalize, Candidates, HeldWhenRead;
    var states := StatesAt(cfg, actions, times);
    forall i | 0 <= i < |states|
      ensures Inv(cfg, states[i])
    {
      StartInv(cfg);
      ExecKeeps(cfg, START, actions[..times[i]]);
    }
    m := LookupAcross(cfg, states, checksum, f1, port, f2, mode, n1, r);
  }

  // ----- When no matching write overlaps -----

  /** The answer depends only on the triples the query can match. */
  lemma AnswersLocal(m: RuleMap, m': RuleMap, f1: string, port: int, f2: string, mode: MatchMode,
                     n1: string, n2: string, r: Result<Option<Match>>)
    requires Normalize(f1) == Success(n1) && Normalize(f2) == Success(n2)
    requires forall t: Triple :: t.port == port && Matches(t.fqdn1, n1, mode) && Matches(t.fqdn2, n2, mode) ==>
               Wanted(m, t) == Wanted(m', t)
    requires Answers(m, f1, port, f2, mode, r)
    ensures Answers(m', f1, port, f2, mode, r)
  {
    hide Normalize, Matches, Blocked, Rank;
    forall t: Triple
      ensures Eligible(m, n1, port, n2, mode, t) <==> Eligible(m', n1, port, n2, mode, t)
      ensures Eligible(m, n1, port, n2, mode, t) ==> m[t] == m'[t]
    {
      if t.port == port && Matches(t.fqdn1, n1, mode) && Matches(t.fqdn2, n2, mode) {
        WantedSame(m, m', t);
      }
    }
    hide Eligible;
  }

  lemma WantedSame(m: RuleMap, m': RuleMap, t: Triple)
    requires Wanted(m, t) == Wanted(m', t)
    ensures t in m <==> t in m'
    ensures t in m ==> m[t] == m'[t]
  {
    if t in m && t in m' {
      EncodeInjective(m[t], m'[t]);
    }
  }

  /** A step changes the settled value of a triple only when an operation in flight on it finishes. */
  lemma FreeStays(cfg: Config, s: State, a: Action, t: Triple)
    requires Inv(cfg, s) && Free(s, t)
    ensures Wanted(Next(cfg, s, a).settled, t) == Wanted(s.settled, t)
  {
    hide Commands, Stored, WellFormed, Accepted, MapStep, SeenAt, Locks, After, Wanted;
    if Enabled(cfg, s, a) && a.Finish? {
      assert FlightOk(cfg, s, a.w);
      MapStepAt(s.settled, s.flights[a.w].op, t);
    }
  }

  lemma {:induction false} FreeSettled(cfg: Config, actions: seq<Action>, lo: nat, hi: nat, t: Triple)
    requires cfg.Valid() && lo <= hi <= |actions|
    requires forall k :: lo <= k <= hi ==> Free(Exec(cfg, START, actions[..k]), t)
    ensures Wanted(Exec(cfg, START, actions[..hi]).settled, t) == Wanted(Exec(cfg, START, actions[..lo]).settled, t)
    decreases hi - lo
  {
    if lo < hi {
      FreeSettled(cfg, actions, lo, hi - 1, t);
      StartInv(cfg);
      ExecKeeps(cfg, START, actions[..hi - 1]);
      assert actions[..hi][..hi - 1] == actions[..hi - 1];
      hide Inv, Next, Free, Wanted;
      FreeStays(cfg, Exec(cfg, START, actions[..hi - 1]), actions[hi - 1], t);
    }
  }

  /** When no write to a triple the query can match is in flight during the reads, the answer is the settled one. */
  lemma UndisturbedLookup(cfg: Config, actions: seq<Action>, times: seq<nat>, lo: nat, hi: nat, checksum: string -> nat,
                          f1: string, port: int, f2: string, mode: MatchMode, n1: string, n2: string,
                          r: Result<Option<Match>>)
    requires cfg.Valid() && ReturnsAcross(cfg, actions, times, checksum, f1, port, f2, mode, n1, r)
    requires Normalize(f2) == Success(n2)
    requires lo <= hi <= |actions| && forall i :: 0 <= i < |times| ==> lo <= times[i] <= hi
    requires forall k, t: Triple :: lo <= k <= hi && t.port == port && Matches(t.fqdn1, n1, mode) && Matches(t.fqdn2, n2, mode) ==>
               Free(Exec(cfg, START, actions[..k]), t)
    ensures Answers(Exec(cfg, START, actions[..lo]).settled, f1, port, f2, mode, r)
  {
    var m := LookupInFlight(cfg, actions, times, checksum, f1, port, f2, mode, n1, r);
    NormalizeClean(f1, n1);
    var settled := Exec(cfg, START, actions[..lo]).settled;
    var xs, states := Candidates(n1, mode, cfg.n, checksum), StatesAt(cfg, actions, times);
    CandidateCount(n1, mode, cfg.n, checksum);
    hide Exec, View, IsLookup, Answers, Normalize, Candidates, FieldCandidates, Matches, Wanted, MayLeave, Clean;
    forall t: Triple | t.port == port && Matches(t.fqdn1, n1, mode) && Matches(t.fqdn2, n2, mode)
      ensures Wanted(m, t) == Wanted(settled, t)
    {
      var i := MatchIsCandidate(t.fqdn1, n1, mode);
      CandidateAt(n1, mode, cfg.n, checksum, i);
      assert MayShow(states[i], t, Wanted(m, t));
      FreeShows(states[i], t, Wanted(m, t));
      FreeSettled(cfg, actions, lo, times[i], t);
    }
    AnswersLocal(m, settled, f1, port, f2, mode, n1, n2, r);
  }

  lemma FreeShows(s: State, t: Triple, v: Option<string>)
    requires Free(s, t) && MayShow(s, t, v)
    ensures v == Wanted(s.settled, t)
  {
    hide Locks, MayLeave, Wanted;
    if v != Wanted(s.settled, t) {
      var w :| w in s.flights && MayLeave(s.flights[w].op, t, v);
      LeavesText(s.flights[w].op, t, v);
    }
  }

  // ----- A lookup that no single instant explains -----

  const NAME: string := "a" + "." + ("b" + "." + "c")
  const WILD: string := "*." + ("b" + "." + "c")
  const EXACT_RULE: Rule := Rule(NAME, 443, "d", "first", ScopeBoth)
  const WILD_RULE: Rule := Rule(WILD, 443, "d", "second", ScopeBoth)
  const TORN: Match := Match("second", WILD, 443, "d", 1, 0)

  /** Two puts, one after the other; the rule put second is the less specific one. */
  const TWO_PUTS: seq<Action> :=
    [Begin(0, PutOp(EXACT_RULE)), Send(0), Finish(0), Begin(0, PutOp(WILD_RULE)), Send(0), Finish(0)]

  /** A put of one command, step by step. */
  lemma SinglePut(cfg: Config, s: State, rule: Rule)
    requires cfg.Valid() && s.flights == map[] && ValidPort(rule.port) && !cfg.Buckets(rule.fqdn1)
    ensures var s1 := Next(cfg, s, Begin(0, PutOp(rule)));
            var s2 := Next(cfg, s1, Send(0));
            var s3 := Next(cfg, s2, Finish(0));
            && s1.h == s.h && s2.h == s3.h == Step(s.h, cfg, PutOp(rule)) && s3.flights == map[]
  {
    var op := PutOp(rule);
    var cmds := Commands(cfg, op);
    OneCommand(cfg, rule);
    hide Commands, Apply, KeyFor;
    assert cmds[..1] == cmds && cmds[..0] == [];
    ApplyAllStep(s.h, cmds, 0);
  }

  lemma OneCommand(cfg: Config, rule: Rule)
    requires cfg.Valid() && !cfg.Buckets(rule.fqdn1)
    ensures |Commands(cfg, PutOp(rule))| == 1
  {
    hide KeyFor;
  }

  lemma {:induction false} ExecNext(cfg: Config, actions: seq<Action>, k: nat)
    requires cfg.Valid() && k < |actions|
    ensures Exec(cfg, START, actions[..k + 1]) == Next(cfg, Exec(cfg, START, actions[..k]), actions[k])
  {
    assert actions[..k + 1][..k] == actions[..k];
  }

  function FirstPut(cfg: Config): Hashes
    requires cfg.Valid()
  {
    Step(map[], cfg, PutOp(EXACT_RULE))
  }

  function SecondPut(cfg: Config): Hashes
    requires cfg.Valid()
  {
    Step(FirstPut(cfg), cfg, PutOp(WILD_RULE))
  }

  lemma NotReplicated(cfg: Config)
    ensures !cfg.Buckets(NAME) && !cfg.Buckets(WILD) && NAME != WILD
  {
    PlainTag();
    SmallLabels();
    hide HashTag, IsBucketedTag, IsLabel, Clean, Split;
    ThreeFacts("a", "b", "c");
  }

  /** The database at each instant of the run. */
  lemma TwoPutStates(cfg: Config, k: nat)
    requires cfg.Valid() && k <= 6
    ensures Exec(cfg, START, TWO_PUTS[..k]).h ==
            if k < 2 then map[] else if k < 5 then FirstPut(cfg) else SecondPut(cfg)
  {
    NotReplicated(cfg);
    assert Exec(cfg, START, TWO_PUTS[..0]) == START;
    hide Exec, Next, Step, HashTag, IsBucketedTag;
    forall i: nat | i < 6
      ensures Exec(cfg, START, TWO_PUTS[..i + 1]) == Next(cfg, Exec(cfg, START, TWO_PUTS[..i]), TWO_PUTS[i])
    {
      ExecNext(cfg, TWO_PUTS, i);
    }
    SinglePut(cfg, START, EXACT_RULE);
    assert Exec(cfg, START, TWO_PUTS[..0 + 1]) == Next(cfg, START, TWO_PUTS[0]);
    assert Exec(cfg, START, TWO_PUTS[..1 + 1]) == Next(cfg, Exec(cfg, START, TWO_PUTS[..1]), TWO_PUTS[1]);
    assert Exec(cfg, START, TWO_PUTS[..2 + 1]) == Next(cfg, Exec(cfg, START, TWO_PUTS[..2]), TWO_PUTS[2]);
    SinglePut(cfg, Exec(cfg, START, TWO_PUTS[..3]), WILD_RULE);
    assert Exec(cfg, START, TWO_PUTS[..3 + 1]) == Next(cfg, Exec(cfg, START, TWO_PUTS[..3]), TWO_PUTS[3]);
    assert Exec(cfg, START, TWO_PUTS[..4 + 1]) == Next(cfg, Exec(cfg, START, TWO_PUTS[..4]), TWO_PUTS[4]);
    assert Exec(cfg, START, TWO_PUTS[..5 + 1]) == Next(cfg, Exec(cfg, START, TWO_PUTS[..5]), TWO_PUTS[5]);
  }

  /** The simple map of each of the three databases. */
  function PutMap(k: nat): RuleMap {
    if k < 2 then map[]
    else if k < 5 then map[EXACT_RULE.Where() := EXACT_RULE.What()]
    else map[EXACT_RULE.Where() := EXACT_RULE.What()][WILD_RULE.Where() := WILD_RULE.What()]
  }

  lemma TwoPutMaps(cfg: Config, k: nat)
    requires cfg.Valid() && k <= 6
    ensures Represents(cfg, Exec(cfg, START, TWO_PUTS[..k]).h, PutMap(k))
  {
    TwoPutStates(cfg, k);
    EmptyRepresents(cfg);
    hide Exec, Represents, Step;
    StepRefines(cfg, map[], map[], PutOp(EXACT_RULE));
    StepRefines(cfg, FirstPut(cfg), PutMap(2), PutOp(WILD_RULE));
  }

  /** No instant of the run has the torn answer. */
  lemma NeverTheAnswer(k: nat)
    requires Normalize(NAME) == Success(NAME) && Normalize("d") == Success("d")
    ensures !Answers(PutMap(k), NAME, 443, "d", SingleLevel, Success(Some(TORN)))
  {
    NotReplicated(Config("", 1, []));
    ExactWins(PutMap(k), NAME, WILD);
    hide Normalize, Matches, Rank, Blocked, IsAnswer;
  }

  /** The wildcard's rule is no answer: it is absent, or the exact rule is there too and better. */
  lemma ExactWins(m: RuleMap, name: string, wild: string)
    requires name != wild
    requires Triple(wild, 443, "d") in m ==> Triple(name, 443, "d") in m && m[Triple(name, 443, "d")].scope == ScopeBoth
    ensures !IsAnswer(m, name, 443, "d", SingleLevel, Some(Match("second", wild, 443, "d", 1, 0)))
  {
    if Triple(wild, 443, "d") in m {
      assert Eligible(m, name, 443, "d", SingleLevel, Triple(name, 443, "d"));
    }
  }

  lemma TornNames()
    ensures Normalize(NAME) == Success(NAME) && Normalize("d") == Success("d") && Clean(NAME) && Clean("d")
  {
    ThreeClean("a", "b", "c");
    OneLabel("d");
    assert Lower(NAME) == NAME && Lower("d") == "d";
    hide Clean, Normalize;
    NormalizeSame(NAME);
    NormalizeSame("d");
  }

  lemma ThreeLevels(n1: string, rest: string, n: nat, checksum: string -> nat)
    requires |Split(n1, '.')| == 3 && rest == Join(Split(n1, '.')[1..], '.')
    ensures var xs := Candidates(n1, SingleLevel, n, checksum);
            && |xs| == 3 && xs[0].pattern == n1 && xs[1].pattern == "*." + rest
            && xs[1].rank == 1 && !xs[1].needsMulti && xs[2].rank > 1
  {
    hide Split, HashTag, BucketIndex, FieldCandidates, Join;
    CandidateAtLevel(n1, SingleLevel, 0);
    CandidateAtLevel(n1, SingleLevel, 1);
    CandidateAtLevel(n1, SingleLevel, 2);
  }

  lemma OneLevel(f: string)
    requires '.' !in f
    ensures |FieldCandidates(f, SingleLevel)| == 2 && FieldCandidates(f, SingleLevel)[0] == FieldCandidate(f, 0, false)
  {
    OnePart(f);
    hide Split, FieldCandidates;
    CandidateAtLevel(f, SingleLevel, 0);
  }

  lemma TornCandidates(cfg: Config, checksum: string -> nat)
    requires cfg.Valid()
    ensures var xs, ys := Candidates(NAME, SingleLevel, cfg.n, checksum), FieldCandidates("d", SingleLevel);
            && |xs| == 3 && xs[0].pattern == NAME && xs[1].pattern == WILD
            && xs[1].rank == 1 && !xs[1].needsMulti && xs[2].rank > 1
            && |ys| == 2 && ys[0] == FieldCandidate("d", 0, false)
  {
    OneLevel("d");
    ThreeLabels("a", "b", "c");
    JoinTwo("b", "c");
    hide Split, Join, Candidates, FieldCandidates;
    assert ["a", "b", "c"][1..] == ["b", "c"];
    ThreeLevels(NAME, "b" + "." + "c", cfg.n, checksum);
  }

  lemma StatesInv(cfg: Config, actions: seq<Action>, times: seq<nat>)
    requires cfg.Valid() && forall i :: 0 <= i < |times| ==> times[i] <= |actions|
    ensures forall i :: 0 <= i < |times| ==> Inv(cfg, StatesAt(cfg, actions, times)[i])
  {
    hide Exec, Inv;
    forall i | 0 <= i < |times|
      ensures Inv(cfg, StatesAt(cfg, actions, times)[i])
    {
      StartInv(cfg);
      ExecKeeps(cfg, START, actions[..times[i]]);
    }
  }

  /** What a lookup reads of one candidate's key, by the map its own state stands for. */
  lemma ReadField(cfg: Config, states: seq<State>, xs: seq<Candidate>, port: int, b: nat, i: nat, f: string, m: RuleMap)
    requires AreReads(cfg, states, xs) && OneBucket(cfg, xs, b) && forall a :: a in xs ==> a.bucketIndex < cfg.n
    requires i < |xs| && xs[i] in xs && Represents(cfg, states[i].h, m)
    ensures Get(View(cfg, states, xs, port), Key(cfg, xs[i].tag, xs[i].bucketIndex, xs[i].pattern, port), f)
         == Wanted(m, Triple(xs[i].pattern, port, f))
  {
    hide Key, HashTag, View, Get, Represents, Inv, Wanted;
    var t := Triple(xs[i].pattern, port, f);
    ViewAt(cfg, states, xs, port, b, i, t);
    RepresentedAt(cfg, states[i].h, m, t, b);
  }

  lemma TornStates(cfg: Config)
    requires cfg.Valid()
    ensures var states := StatesAt(cfg, TWO_PUTS, [0, 6, 6]);
            && (forall i :: 0 <= i < 3 ==> Inv(cfg, states[i]))
            && Represents(cfg, states[0].h, PutMap(0)) && Represents(cfg, states[1].h, PutMap(6))
  {
    var times: seq<nat> := [0, 6, 6];
    hide Exec, Inv, Represents, PutMap;
    StatesInv(cfg, TWO_PUTS, times);
    TwoPutMaps(cfg, 0);
    TwoPutMaps(cfg, 6);
    assert StatesAt(cfg, TWO_PUTS, times)[0] == Exec(cfg, START, TWO_PUTS[..0]);
    assert StatesAt(cfg, TWO_PUTS, times)[1] == Exec(cfg, START, TWO_PUTS[..6]);
  }

  lemma TornReads(cfg: Config, checksum: string -> nat)
    requires cfg.Valid()
    ensures var xs := Candidates(NAME, SingleLevel, cfg.n, checksum);
            var states := StatesAt(cfg, TWO_PUTS, [0, 6, 6]);
            && AreReads(cfg, states, xs) && (forall a :: a in xs ==> a.bucketIndex < cfg.n)
            && OneBucket(cfg, xs, BucketIndex(NAME, cfg.n, checksum))
            && Represents(cfg, states[0].h, PutMap(0)) && Represents(cfg, states[1].h, PutMap(6))
  {
    TornNames();
    hide Candidates, FieldCandidates, BucketIndex, Clean, Normalize, Exec, Inv, OneBucket, Represents, StatesAt, PutMap, HashTag;
    TornCandidates(cfg, checksum);
    CandidateList(cfg, NAME, SingleLevel, checksum);
    CandidatesOneBucket(cfg, NAME, SingleLevel, checksum);
    TornStates(cfg);
  }

  lemma PutMapText(f: string)
    ensures Wanted(PutMap(0), Triple(NAME, 443, f)) == None
    ensures Wanted(PutMap(6), Triple(WILD, 443, "d")) == Some("Bsecond")
  {
    assert WILD_RULE.What().Encode() == "Bsecond";
  }

  /** What the torn lookup reads: nothing under the exact name, the second rule under the wildcard. */
  lemma TornView(cfg: Config, checksum: string -> nat, f: string)
    requires cfg.Valid()
    ensures var xs := Candidates(NAME, SingleLevel, cfg.n, checksum);
            var states := StatesAt(cfg, TWO_PUTS, [0, 6, 6]);
            && |xs| == 3 && xs[0] in xs && xs[1] in xs
            && AreReads(cfg, states, xs) && (forall a :: a in xs ==> a.bucketIndex < cfg.n)
            && Get(View(cfg, states, xs, 443), Key(cfg, xs[0].tag, xs[0].bucketIndex, xs[0].pattern, 443), f) == None
            && Get(View(cfg, states, xs, 443), Key(cfg, xs[1].tag, xs[1].bucketIndex, xs[1].pattern, 443), "d") == Some("Bsecond")
  {
    var xs, b := Candidates(NAME, SingleLevel, cfg.n, checksum), BucketIndex(NAME, cfg.n, checksum);
    var states := StatesAt(cfg, TWO_PUTS, [0, 6, 6]);
    TornReads(cfg, checksum);
    TornCandidates(cfg, checksum);
    PutMapText(f);
    hide Candidates, FieldCandidates, BucketIndex, OneBucket, Represents, View, Get, Key, Wanted, PutMap, StatesAt, Inv;
    ReadField(cfg, states, xs, 443, b, 0, f, PutMap(0));
    ReadField(cfg, states, xs, 443, b, 1, "d", PutMap(6));
  }

  /** The torn answer is the scan of that view. */
  lemma TornScan(cfg: Config, h: Hashes, xs: seq<Candidate>, ys: seq<FieldCandidate>)
    requires Usable(cfg, h, xs)
    requires |xs| == 3 && xs[1] in xs && xs[1].pattern == WILD && xs[1].rank == 1 && !xs[1].needsMulti && xs[2].rank > 1
    requires |ys| == 2 && ys[0] == FieldCandidate("d", 0, false)
    requires xs[0] in xs && forall f :: Get(h, Key(cfg, xs[0].tag, xs[0].bucketIndex, xs[0].pattern, 443), f) == None
    requires Get(h, Key(cfg, xs[1].tag, xs[1].bucketIndex, xs[1].pattern, 443), "d") == Some("Bsecond")
    ensures IsScan(cfg, h, xs, ys, 443, Some(TORN))
  {
    hide Key, WellFormed, Get;
    assert "Bsecond"[1..] == "second" && "Bsecond"[0] == 'B';
    assert IsHit(cfg, h, xs[1], ys[0], 443, TORN);
    assert ys[0] in ys;
    forall a, c | a in xs && c in ys && Visible(cfg, h, a, c, 443)
      ensures NotWorse(1, 0, a.rank, c.rank)
    {
      assert a == xs[0] || a == xs[1] || a == xs[2];
    }
  }

  /**
   A lookup is no snapshot: one that reads the exact name's key before the first put and
   the wildcard's after the second returns the second rule, which no instant would.
   */
  lemma TornLookup(cfg: Config, checksum: string -> nat)
    requires cfg.Valid()
    ensures ReturnsAcross(cfg, TWO_PUTS, [0, 6, 6], checksum, NAME, 443, "d", SingleLevel, NAME, Success(Some(TORN)))
    ensures forall k: nat :: k <= |TWO_PUTS| ==>
              !IsLookup(cfg, Exec(cfg, START, TWO_PUTS[..k]).h, checksum, NAME, 443, "d", SingleLevel, Success(Some(TORN)))
  {
    hide Exec, IsLookup;
    TornReturns(cfg, checksum);
    hide ReturnsAcross;
    forall k: nat | k <= 6
      ensures !IsLookup(cfg, Exec(cfg, START, TWO_PUTS[..k]).h, checksum, NAME, 443, "d", SingleLevel, Success(Some(TORN)))
    {
      NotAtAnInstant(cfg, checksum, k);
    }
  }

  lemma TornIsLookup(cfg: Config, h: Hashes, checksum: string -> nat)
    requires Usable(cfg, h, Candidates(NAME, SingleLevel, cfg.n, checksum))
    requires IsScan(cfg, h, Candidates(NAME, SingleLevel, cfg.n, checksum), FieldCandidates("d", SingleLevel), 443, Some(TORN))
    ensures IsLookup(cfg, h, checksum, NAME, 443, "d", SingleLevel, Success(Some(TORN)))
  {
    TornNames();
    hide Candidates, FieldCandidates, Normalize, IsScan, Usable;
  }

  lemma TornReturns(cfg: Config, checksum: string -> nat)
    requires cfg.Valid()
    ensures ReturnsAcross(cfg, TWO_PUTS, [0, 6, 6], checksum, NAME, 443, "d", SingleLevel, NAME, Success(Some(TORN)))
  {
    TornNames();
    hide Exec, Candidates, FieldCandidates, Inv, Key, Normalize, Clean, View, Get, WellFormed, IsScan, StatesAt, IsLookup;
    TornCandidates(cfg, checksum);
    var xs, ys := Candidates(NAME, SingleLevel, cfg.n, checksum), FieldCandidates("d", SingleLevel);
    var states := StatesAt(cfg, TWO_PUTS, [0, 6, 6]);
    TornView(cfg, checksum, "d");
    ViewWellFormed(cfg, states, xs, 443);
    var h := View(cfg, states, xs, 443);
    forall f
      ensures Get(h, Key(cfg, xs[0].tag, xs[0].bucketIndex, xs[0].pattern, 443), f) == None
    {
      TornView(cfg, checksum, f);
    }
    TornScan(cfg, h, xs, ys);
    TornIsLookup(cfg, h, checksum);
  }

  lemma NotAtAnInstant(cfg: Config, checksum: string -> nat, k: nat)
    requires cfg.Valid() && k <= 6
    ensures !IsLookup(cfg, Exec(cfg, START, TWO_PUTS[..k]).h, checksum, NAME, 443, "d", SingleLevel, Success(Some(TORN)))
  {
    TornNames();
    TwoPutMaps(cfg, k);
    NeverTheAnswer(k);
    hide Exec, Represents, Answers, IsLookup, Normalize;
    var h := Exec(cfg, START, TWO_PUTS[..k]).h;
    if IsLookup(cfg, h, checksum, NAME, 443, "d", SingleLevel, Success(Some(TORN))) {
      LookupAnswers(cfg, h, PutMap(k), checksum, NAME, 443, "d", SingleLevel, Success(Some(TORN)));
      assert false;
    }
  }
}
