/**
 The recorded bucket count: what runs leave in it, which opens it refuses, and exactly
 when an open that it lets pass sees every rule.
 */
module Guard {
  import opened Text
  import opened Results
  import opened Pattern
  import opened Keys
  import opened Database
  import opened Rules
  import opened Store
  import opened Replication

  // ----- The recorded bucket count -----

  function Recorded(h: Hashes, ns: string): Option<string> {
    Get(h, MetaKey(ns), "num_buckets")
  }

  /** An operation that completes a write to a replicated tier. */
  predicate Claims(cfg: Config, op: Op) {
    Accepted(op) && match op
      case PutOp(rule) => cfg.Buckets(rule.fqdn1)
      case PutManyOp(rules) => AnyBucketed(cfg, rules)
      case DeleteOp(_) => false
  }

  predicate AnyClaims(cfg: Config, ops: seq<Op>) {
    exists op :: op in ops && Claims(cfg, op)
  }

  lemma RuleKeysAreNotMeta(cfg: Config, cmds: seq<Command>, ns: string)
    requires cfg.Valid()
    requires forall c :: c in cmds ==> exists p, port, i: nat :: i < cfg.n && c.key == KeyFor(cfg, p, port, i)
    ensures forall c :: c in cmds ==> c.key != MetaKey(ns)
  {
    hide KeyFor, MetaKey;
    forall c | c in cmds
      ensures c.key != MetaKey(ns)
    {
      var p, port, i: nat :| i < cfg.n && c.key == KeyFor(cfg, p, port, i);
      KeyIsNotMeta(cfg, p, port, i, ns);
    }
  }

  /** The commands of an operation write rule keys, and after them the count when it claims. */
  lemma CommandShape(cfg: Config, op: Op) returns (sets: seq<Command>)
    requires cfg.Valid() && Accepted(op)
    ensures Commands(cfg, op) == sets + if Claims(cfg, op) then [Meta(cfg)] else []
    ensures forall c :: c in sets ==> exists p, port, i: nat :: i < cfg.n && c.key == KeyFor(cfg, p, port, i)
  {
    match op {
      case PutOp(rule) =>
        sets := RuleSets(cfg, rule);
        hide RuleSets;
        forall c | c in sets
          ensures exists p, port, i: nat :: i < cfg.n && c.key == KeyFor(cfg, p, port, i)
        {
          SetOfRule(cfg, rule, c);
        }
      case PutManyOp(rules) =>
        sets := SetsOf(cfg, rules);
        hide RuleSets, SetsOf, AnyBucketed;
        forall c | c in sets
          ensures exists p, port, i: nat :: i < cfg.n && c.key == KeyFor(cfg, p, port, i)
        {
          SetsMembers(cfg, rules, c);
          var r :| r in rules && c in RuleSets(cfg, r);
          SetOfRule(cfg, r, c);
        }
      case DeleteOp(t) =>
        hide KeyFor;
        sets := DeleteCommands(cfg, t);
        assert sets + [] == sets;
    }
  }

  /** Exactly the accepted writes of a rule that has several keys record the count. */
  lemma ClaimsIff(cfg: Config, rule: Rule, rules: seq<Rule>, t: Triple)
    requires cfg.Valid()
    ensures Claims(cfg, PutOp(rule)) <==>
              1 <= rule.port <= 65535 && |KeysForPattern(cfg, rule.fqdn1, rule.port)| > 1
    ensures Claims(cfg, PutManyOp(rules)) <==>
              && (forall r :: r in rules ==> 1 <= r.port <= 65535)
              && exists r :: r in rules && |KeysForPattern(cfg, r.fqdn1, r.port)| > 1
    ensures !Claims(cfg, DeleteOp(t))
  {
    hide KeyFor, HashTag, IsBucketedTag;
  }

  /** A pipeline records the count in its last command, when every replica has been written. */
  lemma CountIsLast(cfg: Config, op: Op, k: nat)
    requires cfg.Valid() && Accepted(op) && k < |Commands(cfg, op)|
    ensures Commands(cfg, op)[k].key == MetaKey(cfg.ns) <==> Claims(cfg, op) && k == |Commands(cfg, op)| - 1
    ensures Claims(cfg, op) ==> Commands(cfg, op)[|Commands(cfg, op)| - 1] == HSet(MetaKey(cfg.ns), "num_buckets", Decimal(cfg.n))
  {
    var sets := CommandShape(cfg, op);
    hide Commands, Claims, KeyFor, MetaKey;
    RuleKeysAreNotMeta(cfg, sets, cfg.ns);
    if k < |sets| {
      assert sets[k] in sets;
    }
  }

  /** One step changes the record of a namespace only by claiming it. */
  lemma RecordStep(cfg: Config, h: Hashes, op: Op, ns: string)
    requires cfg.Valid()
    ensures Recorded(Step(h, cfg, op), ns) ==
            if Claims(cfg, op) && ns == cfg.ns then Some(Decimal(cfg.n)) else Recorded(h, ns)
  {
    if Accepted(op) {
      var sets := CommandShape(cfg, op);
      hide Commands, Claims, KeyFor, Apply, Get, MetaKey;
      RuleKeysAreNotMeta(cfg, sets, ns);
      Untouched(h, sets, MetaKey(ns), "num_buckets");
      if Claims(cfg, op) {
        assert (sets + [Meta(cfg)])[..|sets|] == sets;
        GetApply(ApplyAll(h, sets), Meta(cfg), MetaKey(ns), "num_buckets");
        if ns != cfg.ns && MetaKey(ns) == MetaKey(cfg.ns) {
          MetaKeyInjective(ns, cfg.ns);
        }
      } else {
        assert sets + [] == sets;
      }
    }
  }

  lemma {:induction false} RecordRun(cfg: Config, ops: seq<Op>)
    requires cfg.Valid()
    ensures Recorded(Run(map[], cfg, ops), cfg.ns) == if AnyClaims(cfg, ops) then Some(Decimal(cfg.n)) else None
  {
    if ops == [] {
    } else {
      var init, last := ops[..|ops| - 1], ops[|ops| - 1];
      hide Recorded, Step, Claims, AnyClaims;
      assert Run(map[], cfg, ops) == Step(Run(map[], cfg, init), cfg, last);
      hide Run;
      RecordRun(cfg, init);
      RecordStep(cfg, Run(map[], cfg, init), last, cfg.ns);
      assert ops == init + [last];
      AnyClaimsStep(cfg, init, last);
    }
  }

  lemma AnyClaimsStep(cfg: Config, ops: seq<Op>, last: Op)
    ensures AnyClaims(cfg, ops + [last]) <==> AnyClaims(cfg, ops) || Claims(cfg, last)
  {
    hide Claims;
    assert forall op :: op in ops + [last] <==> op in ops || op == last;
  }

  // ----- Reading the record -----

  const INT64_MAX: int := 0x7FFF_FFFF_FFFF_FFFF

  function Unsigned(s: string): string {
    if s != "" && (s[0] == '-' || s[0] == '+') then s[1..] else s
  }

  function WithSign(s: string, n: nat): int {
    if s != "" && s[0] == '-' then -(n as int) else n
  }

  /** strconv.Atoi: a sign, digits, and a value of 64 bits. */
  function GoAtoi(s: string): Option<int> {
    match ParseDecimal(Unsigned(s))
    case None => None
    case Some(n) => if -INT64_MAX - 1 <= WithSign(s, n) <= INT64_MAX then Some(WithSign(s, n)) else None
  }

  /** Digits with single underscores between them. */
  function ParseUnderscored(s: string): Option<nat> {
    if s == "" || !IsDigit(s[|s| - 1]) then None
    else
      var last := s[|s| - 1] as int - 48;
      if |s| == 1 then Some(last)
      else match ParseUnderscored(if s[|s| - 2] == '_' then s[..|s| - 2] else s[..|s| - 1])
        case None => None
        case Some(high) => Some(10 * high + last)
  }

  /** Python's int of a text: white space around, a sign, digits with underscores. */
  function PythonInt(s: string): Option<int> {
    var text := StripRight(StripLeft(s, IsSpacePython), IsSpacePython);
    match ParseUnderscored(Unsigned(text))
    case None => None
    case Some(n) => Some(WithSign(text, n))
  }

  lemma {:induction false} UnderscoredDigits(s: string)
    requires forall c :: c in s ==> IsDigit(c)
    ensures ParseUnderscored(s) == ParseDecimal(s)
  {
    if |s| > 1 {
      assert s[|s| - 2] in s;
      UnderscoredDigits(s[..|s| - 1]);
    }
  }

  lemma PlainDigits(s: string, n: nat)
    requires s != "" && forall c :: c in s ==> IsDigit(c)
    ensures StripRight(StripLeft(s, IsSpacePython), IsSpacePython) == s
    ensures Unsigned(s) == s && WithSign(s, n) == n
  {
    assert IsDigit(s[0]) && IsDigit(s[|s| - 1]);
  }

  /** Both readers take the text that stores record back to the count. */
  lemma ReadersRead(n: nat)
    ensures PythonInt(Decimal(n)) == Some(n)
    ensures GoAtoi(Decimal(n)) == if n < 0x8000_0000_0000_0000 then Some(n) else None
  {
    hide Decimal, ParseDecimal, ParseUnderscored, Unsigned, WithSign, StripLeft, StripRight;
    DecimalRoundTrip(n);
    UnderscoredDigits(Decimal(n));
    PlainDigits(Decimal(n), n);
  }

  lemma {:induction false} DecimalIsUnderscored(s: string)
    requires ParseDecimal(s).Some?
    ensures forall c :: c in s ==> IsDigit(c)
  {
    if |s| > 1 {
      DecimalIsUnderscored(s[..|s| - 1]);
      assert s == s[..|s| - 1] + [s[|s| - 1]];
    }
  }

  /** Python reads every text that Go reads, as the same number. */
  lemma PythonReadsGo(s: string)
    requires GoAtoi(s).Some?
    ensures PythonInt(s) == GoAtoi(s)
  {
    var digits := Unsigned(s);
    DecimalIsUnderscored(digits);
    UnderscoredDigits(digits);
    assert s != "" && digits != "";
    assert IsDigit(digits[0]) && IsDigit(digits[|digits| - 1]);
    assert s[|s| - 1] == digits[|digits| - 1];
    assert s[0] == '-' || s[0] == '+' || s[0] == digits[0];
    assert !IsSpacePython(s[0]) && !IsSpacePython(s[|s| - 1]);
    assert StripRight(StripLeft(s, IsSpacePython), IsSpacePython) == s;
  }

  /** A text that Python alone reads. */
  lemma OnlyPythonReads()
    ensures PythonInt(" 1_6") == Some(16) && GoAtoi(" 1_6") == None
    ensures PythonInt("-1") == GoAtoi("-1") == Some(-1)
  {
    assert ParseUnderscored("1") == Some(1);
    assert "1_6"[..1] == "1";
    assert ParseUnderscored("1_6") == Some(16);
    assert StripLeft(" 1_6", IsSpacePython) == "1_6";
    assert StripRight("1_6", IsSpacePython) == "1_6";
    assert " 1_6"[..3] == " 1_" && ParseDecimal(" 1_") == None;
    assert "-1"[1..] == "1" && ParseDecimal("1") == Some(1);
    PythonReadsGo("-1");
  }

  /**
   When all writers use one count, an open is refused exactly when some write to a
   replicated tier has completed and the count asked for is another. Removals and
   opens never change that.
   */
  lemma OpenGuard(cfg: Config, ops: seq<Op>, n: nat, parse: string -> Option<int>)
    requires cfg.Valid() && parse(Decimal(cfg.n)) == Some(cfg.n)
    ensures OpenError(Run(map[], cfg, ops), cfg.ns, n, parse) ==
            if AnyClaims(cfg, ops) && n != cfg.n then Some(BucketCountMismatch) else None
  {
    hide Run, AnyClaims;
    RecordRun(cfg, ops);
  }

  /** Which error an open gives. */
  lemma OpenErrors(h: Hashes, ns: string, n: nat, parse: string -> Option<int>)
    ensures OpenError(h, ns, n, parse) == None <==> Recorded(h, ns) == None || parse(Recorded(h, ns).value) == Some(n as int)
    ensures OpenError(h, ns, n, parse) == Some(UnreadableBucketCount) <==>
              Recorded(h, ns).Some? && parse(Recorded(h, ns).value) == None
  {
  }

  // ----- What a store with another count sees -----

  /** A field of a key that no rule of the writers has stays absent. */
  lemma {:induction false} NeverTouched(cfg: Config, ops: seq<Op>, k: string, f: string)
    requires cfg.Valid() && k != MetaKey(cfg.ns)
    requires forall p, port, i: nat :: i < cfg.n ==> KeyFor(cfg, p, port, i) != k
    ensures Get(Run(map[], cfg, ops), k, f) == None
  {
    if ops != [] {
      var init, last := ops[..|ops| - 1], ops[|ops| - 1];
      NeverTouched(cfg, init, k, f);
      if Accepted(last) {
        var sets := CommandShape(cfg, last);
        hide KeyFor, Claims, Commands, Get, MetaKey;
        Untouched(Run(map[], cfg, init), Commands(cfg, last), k, f);
      }
    }
  }

  /** Does the reader's replica b of a pattern lie where the writers put one? */
  predicate Shared(cfg: Config, cfg': Config, pattern: string, b: nat)
    requires cfg.Valid() && cfg'.Valid() && b < cfg'.n
  {
    && cfg.Buckets(pattern) == cfg'.Buckets(pattern)
    && (cfg.Buckets(pattern) ==> b < cfg.n && cfg.tokens[b] == cfg'.tokens[b])
  }

  /** One replica, as a store with another count finds it after any run of the writers. */
  lemma StoredAcross(cfg: Config, cfg': Config, ops: seq<Op>, t: Triple, b: nat)
    requires cfg.Valid() && cfg'.Valid() && cfg.ns == cfg'.ns && b < cfg'.n
    ensures Stored(cfg', Run(map[], cfg, ops), t, b) ==
            if Shared(cfg, cfg', t.fqdn1, b) then Wanted(RunMap(map[], ops), t) else None
  {
    hide HashTag, IsBucketedTag, KeyFor, Run, RunMap, MetaKey;
    if Shared(cfg, cfg', t.fqdn1, b) {
      var i := if cfg.Buckets(t.fqdn1) then b else 0;
      SameKey(cfg, cfg', t.fqdn1, t.port, i, b);
      ReplicasAgree(cfg, ops, t, i, i);
    } else {
      forall p, port, i: nat | i < cfg.n
        ensures KeyFor(cfg, p, port, i) != KeyFor(cfg', t.fqdn1, t.port, b)
      {
        if KeyFor(cfg, p, port, i) == KeyFor(cfg', t.fqdn1, t.port, b) {
          KeyAcrossCounts(cfg, p, port, i, cfg', t.fqdn1, t.port, b);
          assert false;
        }
      }
      KeyIsNotMeta(cfg', t.fqdn1, t.port, b, cfg.ns);
      NeverTouched(cfg, ops, KeyFor(cfg', t.fqdn1, t.port, b), t.fqdn2);
    }
  }

  /** Every replica the reader may read is one the writers write. */
  predicate ReadsTheirs(cfg: Config, cfg': Config) {
    || (cfg.n == 1 && cfg'.n == 1)
    || (cfg.n > 1 && cfg'.n > 1 && cfg'.tokens <= cfg.tokens)
  }

  predicate AnyCatchAll(m: RuleMap) {
    exists t :: t in m && IsBucketedTag(HashTag(t.fqdn1))
  }

  lemma SharedIff(cfg: Config, cfg': Config, pattern: string)
    requires cfg.Valid() && cfg'.Valid()
    ensures (forall b: nat :: b < cfg'.n ==> Shared(cfg, cfg', pattern, b)) <==>
            ReadsTheirs(cfg, cfg') || !IsBucketedTag(HashTag(pattern))
  {
    hide IsBucketedTag, HashTag;
    if IsBucketedTag(HashTag(pattern)) {
      if cfg.n > 1 && cfg'.n > 1 {
        if forall b: nat :: b < cfg'.n ==> Shared(cfg, cfg', pattern, b) {
          assert Shared(cfg, cfg', pattern, cfg'.n - 1);
          forall b: nat | b < cfg'.n
            ensures b < cfg.n && cfg'.tokens[b] == cfg.tokens[b]
          {
            assert Shared(cfg, cfg', pattern, b);
          }
        }
      } else {
        assert Shared(cfg, cfg', pattern, 0) <==> cfg.n == cfg'.n == 1;
      }
    }
  }

  /**
   At any time, whatever was on record when it opened: a store sees every rule of the
   namespace's writers exactly when its replicas are among theirs or no catch-all rule is live.
   */
  lemma SeesAllIff(cfg: Config, cfg': Config, ops: seq<Op>)
    requires cfg.Valid() && cfg'.Valid() && cfg.ns == cfg'.ns
    ensures Represents(cfg', Run(map[], cfg, ops), RunMap(map[], ops)) <==>
            ReadsTheirs(cfg, cfg') || !AnyCatchAll(RunMap(map[], ops))
  {
    hide Run, RunMap, HashTag, IsBucketedTag, Stored, WellFormed, ReadsTheirs, Shared;
    EmptyRepresents(cfg);
    RunRefines(cfg, map[], map[], ops);
    var h, m := Run(map[], cfg, ops), RunMap(map[], ops);
    forall t, b: nat | b < cfg'.n
      ensures Stored(cfg', h, t, b) == if Shared(cfg, cfg', t.fqdn1, b) then Wanted(m, t) else None
    {
      StoredAcross(cfg, cfg', ops, t, b);
    }
    forall t: Triple
      ensures (forall b: nat :: b < cfg'.n ==> Shared(cfg, cfg', t.fqdn1, b)) <==>
              ReadsTheirs(cfg, cfg') || !IsBucketedTag(HashTag(t.fqdn1))
    {
      SharedIff(cfg, cfg', t.fqdn1);
    }
    if !ReadsTheirs(cfg, cfg') && AnyCatchAll(m) {
      var t :| t in m && IsBucketedTag(HashTag(t.fqdn1));
      var b: nat :| b < cfg'.n && !Shared(cfg, cfg', t.fqdn1, b);
      assert Stored(cfg', h, t, b) != Wanted(m, t);
    }
  }

  // ----- What an open that passes sees -----

  lemma {:induction false} AddedFrom(m: RuleMap, rules: seq<Rule>, t: Triple)
    requires t in AddAll(m, rules)
    ensures t in m || exists r :: r in rules && r.Where() == t
  {
    if rules != [] && rules[|rules| - 1].Where() != t {
      AddedFrom(m, rules[..|rules| - 1], t);
    }
  }

  /** Until a replicated write is made, the simple map holds no rule of a replicated pattern. */
  lemma {:induction false} UnclaimedMap(cfg: Config, ops: seq<Op>, t: Triple)
    requires cfg.Valid() && !AnyClaims(cfg, ops) && t in RunMap(map[], ops)
    ensures !cfg.Buckets(t.fqdn1)
  {
    if ops != [] {
      var init, last := ops[..|ops| - 1], ops[|ops| - 1];
      assert ops == init + [last];
      AnyClaimsStep(cfg, init, last);
      hide AnyClaims, IsBucketedTag, HashTag;
      if t in RunMap(map[], init) {
        UnclaimedMap(cfg, init, t);
      } else if last.PutManyOp? && Accepted(last) {
        AddedFrom(RunMap(map[], init), last.rules, t);
      }
    }
  }

  lemma OneBucketNeverClaims(cfg: Config, ops: seq<Op>)
    requires cfg.n == 1
    ensures !AnyClaims(cfg, ops)
  {
  }

  /**
   The guard's promise, exactly: a store that opens sees every rule of the namespace's
   writers unless they do not replicate, it does, and a catch-all rule is live.
   */
  lemma OpenSeesAllIff(cfg: Config, cfg': Config, ops: seq<Op>, parse: string -> Option<int>)
    requires cfg.Valid() && cfg'.Valid() && cfg.ns == cfg'.ns && parse(Decimal(cfg.n)) == Some(cfg.n)
    requires cfg.n == cfg'.n > 1 ==> cfg.tokens == cfg'.tokens
    requires OpenError(Run(map[], cfg, ops), cfg'.ns, cfg'.n, parse) == None
    ensures Represents(cfg', Run(map[], cfg, ops), RunMap(map[], ops)) <==>
            !(cfg.n == 1 && cfg'.n > 1 && AnyCatchAll(RunMap(map[], ops)))
  {
    hide AnyClaims, OpenError, Run, RunMap, HashTag, IsBucketedTag, Represents;
    OpenGuard(cfg, ops, cfg'.n, parse);
    SeesAllIff(cfg, cfg', ops);
    if cfg.n > 1 && cfg.n != cfg'.n && AnyCatchAll(RunMap(map[], ops)) {
      var t :| t in RunMap(map[], ops) && IsBucketedTag(HashTag(t.fqdn1));
      UnclaimedMap(cfg, ops, t);
      assert false;
    }
  }

  /**
   The case the guard lets pass: a store that does not replicate claims nothing, and a
   replicating reader of its namespace finds none of its catch-all rules.
   */
  lemma GuardMissesSingleWriter(cfg: Config, cfg': Config, ops: seq<Op>, parse: string -> Option<int>, t: Triple, b: nat)
    requires cfg.Valid() && cfg'.Valid() && cfg.n == 1 && cfg.ns == cfg'.ns && parse(Decimal(1)) == Some(1)
    requires cfg'.Buckets(t.fqdn1) && b < cfg'.n
    ensures OpenError(Run(map[], cfg, ops), cfg'.ns, cfg'.n, parse) == None
    ensures Stored(cfg', Run(map[], cfg, ops), t, b) == None
  {
    hide AnyClaims, OpenError, Run, HashTag, IsBucketedTag, Stored;
    OneBucketNeverClaims(cfg, ops);
    OpenGuard(cfg, ops, cfg'.n, parse);
    StoredAcross(cfg, cfg', ops, t, b);
  }

  /** A store may open before the writers' first replicated write: no later one refuses it, and it misses them. */
  lemma EarlyReaderMisses(cfg: Config, cfg': Config, before: seq<Op>, later: seq<Op>, parse: string -> Option<int>)
    requires cfg.Valid() && cfg'.Valid() && cfg.ns == cfg'.ns && parse(Decimal(cfg.n)) == Some(cfg.n)
    requires !AnyClaims(cfg, before) && !ReadsTheirs(cfg, cfg')
    ensures OpenError(Run(map[], cfg, before), cfg'.ns, cfg'.n, parse) == None
    ensures Represents(cfg', Run(map[], cfg, before + later), RunMap(map[], before + later)) <==>
            !AnyCatchAll(RunMap(map[], before + later))
  {
    hide AnyClaims, OpenError, Run, RunMap, Represents, AnyCatchAll, ReadsTheirs;
    OpenGuard(cfg, before, cfg'.n, parse);
    SeesAllIff(cfg, cfg', before + later);
  }
}
