/**
 The memo in front of the token search, called from any number of goroutines. A
 schedule is a list of goroutine numbers; each entry lets one of them take a step.
 */
module Memo {
  import opened Results
  import opened Slots
  import opened Crc16

  type Ref = nat

  /** What one call on its own returns. */
  function Sequential(build: nat -> Result<BucketTable>, n: int): Result<BucketTable> {
    if n < 1 || n > NUM_SLOTS then Failure(BucketCountOutOfRange) else build(n)
  }

  /** A returned reference, read through the tables allocated so far. */
  ghost predicate Reads(tables: map<Ref, BucketTable>, r: Result<Ref>, t: Result<BucketTable>) {
    match r
    case Success(ref) => ref in tables && t == Success(tables[ref])
    case Failure(e) => t == Failure(e)
  }

  // ----- go-benchmark: load, compute, then LoadOrStore -----

  datatype RacePc = RaceLoad | RaceBuild | RaceStore(ref: Ref) | RaceDone(result: Result<Ref>)

  datatype RaceThread = RaceThread(n: int, pc: RacePc)

  datatype Race = Race(threads: map<nat, RaceThread>, published: map<int, Ref>, tables: map<Ref, BucketTable>, next: Ref)

  function RaceStart(calls: map<nat, int>): Race {
    Race(map g | g in calls :: RaceThread(calls[g], RaceLoad), map[], map[], 0)
  }

  function RaceStep(build: nat -> Result<BucketTable>, s: Race, g: nat): Race {
    if g !in s.threads then s
    else
      var n := s.threads[g].n;
      match s.threads[g].pc
      case RaceLoad =>
        var pc := if n < 1 || n > NUM_SLOTS then RaceDone(Failure(BucketCountOutOfRange))
                  else if n in s.published then RaceDone(Success(s.published[n]))
                  else RaceBuild;
        s.(threads := s.threads[g := RaceThread(n, pc)])
      case RaceBuild =>
        if n < 0 then s
        else (
          match build(n)
          case Failure(e) => s.(threads := s.threads[g := RaceThread(n, RaceDone(Failure(e)))])
          case Success(t) =>
            s.(threads := s.threads[g := RaceThread(n, RaceStore(s.next))],
               tables := s.tables[s.next := t], next := s.next + 1))
      case RaceStore(ref) =>
        if n in s.published then s.(threads := s.threads[g := RaceThread(n, RaceDone(Success(s.published[n])))])
        else s.(threads := s.threads[g := RaceThread(n, RaceDone(Success(ref)))], published := s.published[n := ref])
      case RaceDone(_) => s
  }

  function RaceRun(build: nat -> Result<BucketTable>, s: Race, schedule: seq<nat>): Race {
    if schedule == [] then s
    else RaceStep(build, RaceRun(build, s, schedule[..|schedule| - 1]), schedule[|schedule| - 1])
  }

  ghost predicate RaceThreadOk(build: nat -> Result<BucketTable>, s: Race, g: nat)
    requires g in s.threads
  {
    var n := s.threads[g].n;
    match s.threads[g].pc
    case RaceLoad => true
    case RaceBuild => 1 <= n <= NUM_SLOTS
    case RaceStore(ref) => 1 <= n <= NUM_SLOTS && ref in s.tables && build(n) == Success(s.tables[ref])
    case RaceDone(r) =>
      && Reads(s.tables, r, Sequential(build, n))
      && (r.Success? ==> n in s.published && s.published[n] == r.value)
  }

  ghost predicate RaceInv(build: nat -> Result<BucketTable>, s: Race) {
    && (forall ref :: ref in s.tables ==> ref < s.next)
    && (forall n :: n in s.published ==>
          1 <= n <= NUM_SLOTS && s.published[n] in s.tables && build(n) == Success(s.tables[s.published[n]]))
    && (forall g :: g in s.threads ==> RaceThreadOk(build, s, g))
  }

  lemma RaceStepKeeps(build: nat -> Result<BucketTable>, s: Race, g: nat)
    requires RaceInv(build, s)
    ensures RaceInv(build, RaceStep(build, s, g))
    ensures forall n :: n in s.published ==>
              n in RaceStep(build, s, g).published && RaceStep(build, s, g).published[n] == s.published[n]
  {
    var s' := RaceStep(build, s, g);
    if g in s.threads {
      assert RaceThreadOk(build, s, g);
    }
    forall k | k in s'.threads
      ensures RaceThreadOk(build, s', k)
    {
      assert RaceThreadOk(build, s, k);
    }
  }

  lemma {:induction false} RaceRunKeeps(build: nat -> Result<BucketTable>, s: Race, schedule: seq<nat>)
    requires RaceInv(build, s)
    ensures RaceInv(build, RaceRun(build, s, schedule))
  {
    if schedule != [] {
      hide RaceInv, RaceStep;
      RaceRunKeeps(build, s, schedule[..|schedule| - 1]);
      RaceStepKeeps(build, RaceRun(build, s, schedule[..|schedule| - 1]), schedule[|schedule| - 1]);
    }
  }

  lemma {:induction false} RaceThreadsStay(build: nat -> Result<BucketTable>, s: Race, schedule: seq<nat>)
    ensures RaceRun(build, s, schedule).threads.Keys == s.threads.Keys
    ensures forall g :: g in s.threads ==> RaceRun(build, s, schedule).threads[g].n == s.threads[g].n
  {
    if schedule != [] {
      RaceThreadsStay(build, s, schedule[..|schedule| - 1]);
    }
  }

  /**
   However the goroutines race, every caller that has returned holds the sequential result,
   and all callers of one count hold the one published table itself.
   */
  lemma RaceAgrees(build: nat -> Result<BucketTable>, calls: map<nat, int>, schedule: seq<nat>, g: nat, k: nat)
    requires g in calls && k in calls && calls[g] == calls[k]
    ensures var s := RaceRun(build, RaceStart(calls), schedule);
            && g in s.threads && k in s.threads
            && (s.threads[g].pc.RaceDone? ==> Reads(s.tables, s.threads[g].pc.result, if 1 <= calls[g] <= 16384 then build(calls[g]) else Failure(BucketCountOutOfRange)))
            && (s.threads[g].pc.RaceDone? && s.threads[k].pc.RaceDone? ==> s.threads[g].pc.result == s.threads[k].pc.result)
  {
    RaceRunKeeps(build, RaceStart(calls), schedule);
    RaceThreadsStay(build, RaceStart(calls), schedule);
    hide RaceRun, Sequential;
    var s := RaceRun(build, RaceStart(calls), schedule);
    assert g in RaceStart(calls).threads && k in RaceStart(calls).threads;
    assert g in s.threads.Keys && k in s.threads.Keys;
    assert RaceThreadOk(build, s, g) && RaceThreadOk(build, s, k);
  }

  /** A published table is never replaced. */
  lemma {:induction false} RacePublishedStays(build: nat -> Result<BucketTable>, s: Race, schedule: seq<nat>, n: int)
    requires RaceInv(build, s) && n in s.published
    ensures var s' := RaceRun(build, s, schedule);
            n in s'.published && s'.published[n] == s.published[n]
  {
    if schedule != [] {
      hide RaceInv, RaceStep;
      RacePublishedStays(build, s, schedule[..|schedule| - 1], n);
      RaceRunKeeps(build, s, schedule[..|schedule| - 1]);
      RaceStepKeeps(build, RaceRun(build, s, schedule[..|schedule| - 1]), schedule[|schedule| - 1]);
    }
  }

  // ----- go-router-service: LoadOrStore an entry, then its Once -----

  datatype Entry = Unrun | Running(runner: nat) | Ran(result: Result<Ref>)

  datatype OncePc = OnceStart | OnceEntry(entry: nat) | OnceBuild(entry: nat) | OnceDone(result: Result<Ref>)

  datatype OnceThread = OnceThread(n: int, pc: OncePc)

  /** builds counts, for each n, how often the search was started. */
  datatype Once = Once(threads: map<nat, OnceThread>, published: map<int, nat>, entries: map<nat, Entry>,
                       tables: map<Ref, BucketTable>, next: nat, builds: map<int, nat>)

  function OnceInit(calls: map<nat, int>): Once {
    Once(map g | g in calls :: OnceThread(calls[g], OnceStart), map[], map[], map[], 0, map[])
  }

  function Builds(s: Once, n: int): nat { if n in s.builds then s.builds[n] else 0 }

  /** A goroutine can step unless it has returned or waits for another's Once to finish. */
  predicate CanStep(s: Once, g: nat) {
    g in s.threads && match s.threads[g].pc
      case OnceStart => true
      case OnceEntry(e) => e in s.entries && !s.entries[e].Running?
      case OnceBuild(_) => true
      case OnceDone(_) => false
  }

  function OnceStep(build: nat -> Result<BucketTable>, s: Once, g: nat): Once {
    if !CanStep(s, g) then s
    else match s.threads[g].pc
      case OnceStart => LoadOrStore(s, g, s.threads[g].n)
      case OnceEntry(e) => EnterOnce(s, g, s.threads[g].n, e)
      case OnceBuild(e) => if s.threads[g].n < 0 then s else LeaveOnce(build, s, g, s.threads[g].n, e)
      case OnceDone(_) => s
  }

  function LoadOrStore(s: Once, g: nat, n: int): Once {
    if n < 1 || n > NUM_SLOTS then
      s.(threads := s.threads[g := OnceThread(n, OnceDone(Failure(BucketCountOutOfRange)))])
    else if n in s.published then
      s.(threads := s.threads[g := OnceThread(n, OnceEntry(s.published[n]))])
    else
      s.(threads := s.threads[g := OnceThread(n, OnceEntry(s.next))], published := s.published[n := s.next],
         entries := s.entries[s.next := Unrun], next := s.next + 1)
  }

  function EnterOnce(s: Once, g: nat, n: int, e: nat): Once
    requires e in s.entries
  {
    match s.entries[e]
    case Unrun =>
      s.(threads := s.threads[g := OnceThread(n, OnceBuild(e))], entries := s.entries[e := Running(g)],
         builds := s.builds[n := Builds(s, n) + 1])
    case Running(_) => s
    case Ran(result) => s.(threads := s.threads[g := OnceThread(n, OnceDone(result))])
  }

  function LeaveOnce(build: nat -> Result<BucketTable>, s: Once, g: nat, n: nat, e: nat): Once {
    var (tables, result) := Allocate(s.tables, s.next, build(n));
    s.(threads := s.threads[g := OnceThread(n, OnceDone(result))], entries := s.entries[e := Ran(result)],
       tables := tables, next := s.next + 1)
  }

  function Allocate(tables: map<Ref, BucketTable>, next: Ref, r: Result<BucketTable>): (map<Ref, BucketTable>, Result<Ref>) {
    match r
    case Failure(e) => (tables, Failure(e))
    case Success(t) => (tables[next := t], Success(next))
  }

  function OnceRun(build: nat -> Result<BucketTable>, s: Once, schedule: seq<nat>): Once {
    if schedule == [] then s
    else OnceStep(build, OnceRun(build, s, schedule[..|schedule| - 1]), schedule[|schedule| - 1])
  }

  ghost predicate OnceThreadOk(build: nat -> Result<BucketTable>, s: Once, g: nat)
    requires g in s.threads
  {
    var n := s.threads[g].n;
    match s.threads[g].pc
    case OnceStart => true
    case OnceEntry(e) => n in s.published && s.published[n] == e
    case OnceBuild(e) => n in s.published && s.published[n] == e && e in s.entries && s.entries[e] == Running(g)
    case OnceDone(r) =>
      if n < 1 || n > NUM_SLOTS then r == Failure(BucketCountOutOfRange)
      else n in s.published && s.published[n] in s.entries && s.entries[s.published[n]] == Ran(r)
  }

  ghost predicate EntryOk(build: nat -> Result<BucketTable>, s: Once, n: int)
    requires n in s.published
  {
    var e := s.published[n];
    && 1 <= n <= NUM_SLOTS
    && e in s.entries
    && Builds(s, n) == (if s.entries[e].Unrun? then 0 else 1)
    && (s.entries[e].Running? ==>
          var g := s.entries[e].runner;
          g in s.threads && s.threads[g] == OnceThread(n, OnceBuild(e)))
    && (s.entries[e].Ran? ==> Reads(s.tables, s.entries[e].result, build(n)))
  }

  ghost predicate OnceInv(build: nat -> Result<BucketTable>, s: Once) {
    && (forall ref :: ref in s.tables ==> ref < s.next)
    && (forall e :: e in s.entries ==> e < s.next)
    && (forall n :: n in s.published ==> EntryOk(build, s, n))
    && (forall n, m :: n in s.published && m in s.published && n != m ==> s.published[n] != s.published[m])
    && (forall n :: n in s.builds ==> n in s.published)
    && (forall g :: g in s.threads ==> OnceThreadOk(build, s, g))
  }

  /** Only goroutine g moves, and it does not move into or out of the Once. */
  lemma MoveKeeps(build: nat -> Result<BucketTable>, s: Once, g: nat, t: OnceThread)
    requires OnceInv(build, s) && g in s.threads && s.threads[g].pc == OnceStart
    requires !t.pc.OnceBuild? && OnceThreadOk(build, s.(threads := s.threads[g := t]), g)
    ensures OnceInv(build, s.(threads := s.threads[g := t]))
  {
    hide Reads;
    var s' := s.(threads := s.threads[g := t]);
    forall m | m in s'.published
      ensures EntryOk(build, s', m)
    {
      assert EntryOk(build, s, m);
    }
    forall k | k in s'.threads && k != g
      ensures OnceThreadOk(build, s', k)
    {
      assert OnceThreadOk(build, s, k);
    }
  }

  lemma PublishKeeps(build: nat -> Result<BucketTable>, s: Once, n: int)
    requires OnceInv(build, s) && n !in s.published && 1 <= n <= NUM_SLOTS
    ensures OnceInv(build, s.(published := s.published[n := s.next], entries := s.entries[s.next := Unrun], next := s.next + 1))
  {
    hide Reads;
    var s' := s.(published := s.published[n := s.next], entries := s.entries[s.next := Unrun], next := s.next + 1);
    forall m | m in s'.published
      ensures EntryOk(build, s', m)
    {
      if m != n {
        assert EntryOk(build, s, m);
      }
    }
    forall m, k | m in s'.published && k in s'.published && m != k
      ensures s'.published[m] != s'.published[k]
    {
      if m in s.published {
        assert EntryOk(build, s, m);
      }
      if k in s.published {
        assert EntryOk(build, s, k);
      }
    }
    forall k | k in s'.threads
      ensures OnceThreadOk(build, s', k)
    {
      assert OnceThreadOk(build, s, k);
      if s.threads[k].n in s.published {
        assert EntryOk(build, s, s.threads[k].n);
      }
    }
  }

  lemma LoadOrStoreKeeps(build: nat -> Result<BucketTable>, s: Once, g: nat, n: int)
    requires OnceInv(build, s) && g in s.threads && s.threads[g] == OnceThread(n, OnceStart)
    ensures OnceInv(build, LoadOrStore(s, g, n))
  {
    hide OnceInv;
    if n < 1 || n > NUM_SLOTS {
      MoveKeeps(build, s, g, OnceThread(n, OnceDone(Failure(BucketCountOutOfRange))));
    } else if n in s.published {
      MoveKeeps(build, s, g, OnceThread(n, OnceEntry(s.published[n])));
    } else {
      var mid := s.(published := s.published[n := s.next], entries := s.entries[s.next := Unrun], next := s.next + 1);
      PublishKeeps(build, s, n);
      MoveKeeps(build, mid, g, OnceThread(n, OnceEntry(s.next)));
    }
  }

  lemma EnterOnceKeeps(build: nat -> Result<BucketTable>, s: Once, g: nat, n: int, e: nat)
    requires OnceInv(build, s) && g in s.threads && s.threads[g] == OnceThread(n, OnceEntry(e)) && e in s.entries
    ensures OnceInv(build, EnterOnce(s, g, n, e))
  {
    var s' := EnterOnce(s, g, n, e);
    assert OnceThreadOk(build, s, g);
    assert EntryOk(build, s, n);
    forall m | m in s'.published
      ensures EntryOk(build, s', m)
    {
      assert EntryOk(build, s, m);
    }
    forall k | k in s'.threads
      ensures OnceThreadOk(build, s', k)
    {
      assert OnceThreadOk(build, s, k);
    }
  }

  lemma LeaveOnceKeeps(build: nat -> Result<BucketTable>, s: Once, g: nat, n: nat, e: nat)
    requires OnceInv(build, s) && g in s.threads && s.threads[g] == OnceThread(n, OnceBuild(e))
    ensures OnceInv(build, LeaveOnce(build, s, g, n, e))
  {
    var s' := LeaveOnce(build, s, g, n, e);
    assert OnceThreadOk(build, s, g);
    assert EntryOk(build, s, n);
    forall m | m in s'.published
      ensures EntryOk(build, s', m)
    {
      assert EntryOk(build, s, m);
    }
    forall k | k in s'.threads
      ensures OnceThreadOk(build, s', k)
    {
      assert OnceThreadOk(build, s, k);
    }
  }

  lemma OnceStepKeeps(build: nat -> Result<BucketTable>, s: Once, g: nat)
    requires OnceInv(build, s)
    ensures OnceInv(build, OnceStep(build, s, g))
  {
    hide OnceInv, LoadOrStore, EnterOnce, LeaveOnce;
    if CanStep(s, g) {
      var n := s.threads[g].n;
      match s.threads[g].pc {
        case OnceStart => LoadOrStoreKeeps(build, s, g, n);
        case OnceEntry(e) => EnterOnceKeeps(build, s, g, n, e);
        case OnceBuild(e) =>
          if n >= 0 {
            LeaveOnceKeeps(build, s, g, n, e);
          }
        case OnceDone(_) =>
      }
    }
  }

  /** A step changes no call's count, and an entry once published stays. */
  lemma OnceStepStays(build: nat -> Result<BucketTable>, s: Once, g: nat)
    ensures OnceStep(build, s, g).threads.Keys == s.threads.Keys
    ensures forall k :: k in s.threads ==> OnceStep(build, s, g).threads[k].n == s.threads[k].n
    ensures forall n :: n in s.published ==>
              n in OnceStep(build, s, g).published && OnceStep(build, s, g).published[n] == s.published[n]
  {
    if CanStep(s, g) {
      var n := s.threads[g].n;
      hide CanStep;
      match s.threads[g].pc {
        case OnceStart => assert OnceStep(build, s, g) == LoadOrStore(s, g, n);
        case OnceEntry(e) => EnterOnceStays(s, g, n, e);
        case OnceBuild(e) =>
        case OnceDone(_) =>
      }
    }
  }

  lemma EnterOnceStays(s: Once, g: nat, n: int, e: nat)
    requires e in s.entries && g in s.threads && s.threads[g].n == n
    ensures var s' := EnterOnce(s, g, n, e);
            && s'.threads.Keys == s.threads.Keys
            && (forall k :: k in s.threads ==> s'.threads[k].n == s.threads[k].n)
            && s'.published == s.published
  {
  }

  lemma {:induction false} OnceRunKeeps(build: nat -> Result<BucketTable>, s: Once, schedule: seq<nat>)
    requires OnceInv(build, s)
    ensures OnceInv(build, OnceRun(build, s, schedule))
  {
    if schedule != [] {
      hide OnceInv, OnceStep;
      OnceRunKeeps(build, s, schedule[..|schedule| - 1]);
      OnceStepKeeps(build, OnceRun(build, s, schedule[..|schedule| - 1]), schedule[|schedule| - 1]);
    }
  }

  lemma {:induction false} OnceThreadsStay(build: nat -> Result<BucketTable>, s: Once, schedule: seq<nat>)
    ensures OnceRun(build, s, schedule).threads.Keys == s.threads.Keys
    ensures forall g :: g in s.threads ==> OnceRun(build, s, schedule).threads[g].n == s.threads[g].n
  {
    if schedule != [] {
      hide OnceStep;
      OnceThreadsStay(build, s, schedule[..|schedule| - 1]);
      OnceStepStays(build, OnceRun(build, s, schedule[..|schedule| - 1]), schedule[|schedule| - 1]);
      assert forall g :: g in s.threads.Keys ==> g in OnceRun(build, s, schedule[..|schedule| - 1]).threads.Keys;
    }
  }

  /** The search runs at most once for each count, and every caller that has returned holds its one result. */
  lemma OnceAgrees(build: nat -> Result<BucketTable>, calls: map<nat, int>, schedule: seq<nat>, g: nat, k: nat, n: int)
    requires g in calls && k in calls && calls[g] == calls[k]
    ensures var s := OnceRun(build, OnceInit(calls), schedule);
            && Builds(s, n) <= 1
            && g in s.threads && k in s.threads
            && (s.threads[g].pc.OnceDone? ==> Reads(s.tables, s.threads[g].pc.result, if 1 <= calls[g] <= 16384 then build(calls[g]) else Failure(BucketCountOutOfRange)))
            && (s.threads[g].pc.OnceDone? && s.threads[k].pc.OnceDone? ==> s.threads[g].pc.result == s.threads[k].pc.result)
  {
    OnceRunKeeps(build, OnceInit(calls), schedule);
    OnceThreadsStay(build, OnceInit(calls), schedule);
    hide OnceRun, OnceInv, Reads;
    var s := OnceRun(build, OnceInit(calls), schedule);
    assert g in OnceInit(calls).threads && k in OnceInit(calls).threads;
    assert g in s.threads.Keys && k in s.threads.Keys;
    BuiltOnce(build, s, n);
    if s.threads[g].pc.OnceDone? {
      DoneHolds(build, s, g);
      ReadsError(s.tables, s.threads[g].pc.result);
    }
    if s.threads[k].pc.OnceDone? {
      DoneHolds(build, s, k);
    }
  }

  lemma ReadsError(tables: map<Ref, BucketTable>, r: Result<Ref>)
    ensures r == Failure(BucketCountOutOfRange) ==> Reads(tables, r, Failure(BucketCountOutOfRange))
  {
  }

  lemma BuiltOnce(build: nat -> Result<BucketTable>, s: Once, n: int)
    requires OnceInv(build, s)
    ensures Builds(s, n) <= 1
  {
    hide Reads, OnceThreadOk;
    if n in s.published {
      assert EntryOk(build, s, n);
    }
  }

  /** What a returned call holds: the error, or the result of its count's entry. */
  lemma DoneHolds(build: nat -> Result<BucketTable>, s: Once, g: nat)
    requires OnceInv(build, s) && g in s.threads && s.threads[g].pc.OnceDone?
    ensures var n, r := s.threads[g].n, s.threads[g].pc.result;
            if 1 <= n <= 16384 then
              && n in s.published && s.published[n] in s.entries && s.entries[s.published[n]] == Ran(r)
              && Reads(s.tables, r, build(n))
            else r == Failure(BucketCountOutOfRange)
  {
    hide Reads;
    assert OnceThreadOk(build, s, g);
    var n := s.threads[g].n;
    if 1 <= n <= NUM_SLOTS {
      assert EntryOk(build, s, n);
    }
  }

  /** While a goroutine has not returned, some goroutine can step. */
  lemma SomeCanStep(build: nat -> Result<BucketTable>, s: Once, g: nat)
    requires OnceInv(build, s) && g in s.threads && !s.threads[g].pc.OnceDone?
    ensures exists k :: k in s.threads && CanStep(s, k)
  {
    assert OnceThreadOk(build, s, g);
    if s.threads[g].pc.OnceEntry? {
      var e := s.threads[g].pc.entry;
      assert EntryOk(build, s, s.threads[g].n);
      if s.entries[e].Running? {
        assert CanStep(s, s.entries[e].runner);
      } else {
        assert CanStep(s, g);
      }
    } else {
      assert CanStep(s, g);
    }
  }

  /** Waiting on a Once never deadlocks: while a call has not returned, some goroutine can step. */
  lemma OnceProgress(build: nat -> Result<BucketTable>, calls: map<nat, int>, schedule: seq<nat>, g: nat)
    requires g in calls
    ensures var s := OnceRun(build, OnceInit(calls), schedule);
            g in s.threads && (!s.threads[g].pc.OnceDone? ==> exists k :: CanStep(s, k))
  {
    OnceRunKeeps(build, OnceInit(calls), schedule);
    OnceThreadsStay(build, OnceInit(calls), schedule);
    hide OnceRun, OnceInv;
    var s := OnceRun(build, OnceInit(calls), schedule);
    assert g in OnceInit(calls).threads.Keys && g in s.threads.Keys;
    if !s.threads[g].pc.OnceDone? {
      SomeCanStep(build, s, g);
    }
  }

  // ----- Every fair schedule returns every call -----

  /** How many steps a goroutine still has to make. */
  function Stage(pc: OncePc): (n: nat)
    ensures n <= 3
  {
    match pc case OnceStart => 3 case OnceEntry(_) => 2 case OnceBuild(_) => 1 case OnceDone(_) => 0
  }

  function Left(s: Once, ids: seq<nat>): (n: nat)
    ensures n <= 3 * |ids|
  {
    if ids == [] then 0
    else
      var g := ids[|ids| - 1];
      Left(s, ids[..|ids| - 1]) + if g in s.threads then Stage(s.threads[g].pc) else 0
  }

  /** A step moves its own goroutine on and no other. */
  lemma StepMoves(build: nat -> Result<BucketTable>, s: Once, g: nat)
    requires OnceInv(build, s) && CanStep(s, g)
    ensures var s' := OnceStep(build, s, g);
            && s'.threads.Keys == s.threads.Keys
            && Stage(s'.threads[g].pc) < Stage(s.threads[g].pc)
            && forall k :: k in s.threads && k != g ==> s'.threads[k] == s.threads[k]
  {
    hide Reads;
    assert OnceThreadOk(build, s, g);
    if s.threads[g].pc.OnceBuild? {
      assert EntryOk(build, s, s.threads[g].n);
    }
  }

  lemma {:induction false} StepLowers(build: nat -> Result<BucketTable>, s: Once, g: nat, ids: seq<nat>)
    requires OnceInv(build, s) && CanStep(s, g)
    ensures Left(OnceStep(build, s, g), ids) <= Left(s, ids) - if g in ids then 1 else 0
  {
    StepMoves(build, s, g);
    assert g in s.threads && g in OnceStep(build, s, g).threads.Keys;
    hide OnceInv, CanStep, OnceStep, Stage;
    if ids != [] {
      StepLowers(build, s, g, ids[..|ids| - 1]);
      assert ids == ids[..|ids| - 1] + [ids[|ids| - 1]];
      assert ids[|ids| - 1] in s.threads.Keys <==> ids[|ids| - 1] in OnceStep(build, s, g).threads.Keys;
    }
  }

  /** A schedule that names a goroutine that can step lowers what is left. */
  lemma {:induction false} ScheduleLowers(build: nat -> Result<BucketTable>, s: Once, schedule: seq<nat>, ids: seq<nat>)
    requires OnceInv(build, s) && forall g :: g in s.threads ==> g in ids
    ensures var after := OnceRun(build, s, schedule);
            && Left(after, ids) <= Left(s, ids)
            && ((exists g :: g in schedule && CanStep(s, g)) ==> Left(after, ids) < Left(s, ids))
            && ((forall g :: g in schedule ==> !CanStep(s, g)) ==> after == s)
  {
    if schedule != [] {
      var init, last := schedule[..|schedule| - 1], schedule[|schedule| - 1];
      assert schedule == init + [last];
      ScheduleLowers(build, s, init, ids);
      OnceRunKeeps(build, s, init);
      OnceThreadsStay(build, s, init);
      var mid := OnceRun(build, s, init);
      hide OnceInv, Left;
      if CanStep(mid, last) {
        StepLowers(build, mid, last, ids);
        assert last in mid.threads.Keys;
      } else {
        assert OnceStep(build, mid, last) == mid;
      }
    }
  }

  /** A round names every goroutine at least once, in any order. */
  predicate IsRound(calls: map<nat, int>, round: seq<nat>) {
    forall g :: g in calls ==> g in round
  }

  function Rounds(rounds: seq<seq<nat>>): seq<nat> {
    if rounds == [] then [] else Rounds(rounds[..|rounds| - 1]) + rounds[|rounds| - 1]
  }

  lemma {:induction false} OnceRunConcat(build: nat -> Result<BucketTable>, s: Once, a: seq<nat>, b: seq<nat>)
    ensures OnceRun(build, s, a + b) == OnceRun(build, OnceRun(build, s, a), b)
    decreases |b|
  {
    hide OnceStep;
    if b == [] {
      assert a + b == a;
    } else {
      assert (a + b)[..|a + b| - 1] == a + b[..|b| - 1];
      OnceRunConcat(build, s, a, b[..|b| - 1]);
    }
  }

  predicate AllReturned(s: Once) {
    forall g :: g in s.threads ==> s.threads[g].pc.OnceDone?
  }

  /** Each round makes a step unless all have returned. */
  lemma {:induction false} RoundsLower(build: nat -> Result<BucketTable>, calls: map<nat, int>, rounds: seq<seq<nat>>, ids: seq<nat>)
    requires forall g :: g in calls ==> g in ids
    requires forall i :: 0 <= i < |rounds| ==> IsRound(calls, rounds[i])
    ensures var s := OnceRun(build, OnceInit(calls), Rounds(rounds));
            AllReturned(s) || Left(s, ids) + |rounds| <= 3 * |ids|
  {
    if rounds != [] {
      var init, last := rounds[..|rounds| - 1], rounds[|rounds| - 1];
      RoundsLower(build, calls, init, ids);
      OnceRunConcat(build, OnceInit(calls), Rounds(init), last);
      OnceRunKeeps(build, OnceInit(calls), Rounds(init));
      OnceThreadsStay(build, OnceInit(calls), Rounds(init));
      hide OnceInv, OnceRun, Left, CanStep;
      var mid := OnceRun(build, OnceInit(calls), Rounds(init));
      assert forall g :: g in mid.threads ==> g in OnceInit(calls).threads.Keys;
      ScheduleLowers(build, mid, last, ids);
      if g :| g in mid.threads && !mid.threads[g].pc.OnceDone? {
        SomeCanStep(build, mid, g);
      } else {
        ReturnedStays(mid, last);
      }
    }
  }

  lemma ReturnedStays(s: Once, round: seq<nat>)
    requires AllReturned(s)
    ensures forall g :: g in round ==> !CanStep(s, g)
  {
  }

  /** Every schedule of enough rounds returns every call, whatever order each round has. */
  lemma OnceReturns(build: nat -> Result<BucketTable>, calls: map<nat, int>, rounds: seq<seq<nat>>, ids: seq<nat>)
    requires forall g :: g in calls ==> g in ids
    requires forall i :: 0 <= i < |rounds| ==> IsRound(calls, rounds[i])
    requires |rounds| > 3 * |ids|
    ensures AllReturned(OnceRun(build, OnceInit(calls), Rounds(rounds)))
  {
    hide OnceRun;
    RoundsLower(build, calls, rounds, ids);
  }
}
