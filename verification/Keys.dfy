/**
 The text of a rule's key, what that text determines, and the slot it hashes to.
 */
module Keys {
  import opened Text
  import opened Pattern
  import opened Slots

  /** What a store is opened with. Tokens matter only to a store that replicates. */
  datatype Config = Config(ns: string, n: nat, tokens: seq<string>) {
    predicate Valid() {
      n >= 1 && (n > 1 ==> GoodTokens(tokens, n))
    }

    predicate Buckets(pattern: string) {
      n > 1 && IsBucketedTag(HashTag(pattern))
    }
  }

  function Key(cfg: Config, tag: string, b: nat, pattern: string, port: int): string
    requires cfg.Valid() && b < cfg.n
  {
    if IsBucketedTag(tag) && cfg.n > 1 then
      "r:" + cfg.ns + ":{" + cfg.tokens[b] + "}:" + tag + ":" + Decimal(b) + ":" + pattern + ":" + Integer(port)
    else
      "r:{" + cfg.ns + ":" + tag + "}:" + pattern + ":" + Integer(port)
  }

  function KeyFor(cfg: Config, pattern: string, port: int, b: nat): string
    requires cfg.Valid() && b < cfg.n
  {
    Key(cfg, HashTag(pattern), b, pattern, port)
  }

  function MetaKey(ns: string): string {
    "r:{" + ns + ":__meta__}:bucketing"
  }

  function Replicas(cfg: Config, pattern: string): (count: nat)
    requires cfg.Valid()
    ensures 1 <= count <= cfg.n
  {
    if cfg.Buckets(pattern) then cfg.n else 1
  }

  function KeysForPattern(cfg: Config, pattern: string, port: int): (keys: seq<string>)
    requires cfg.Valid()
    ensures |keys| == Replicas(cfg, pattern)
    ensures forall b :: 0 <= b < |keys| ==> keys[b] == KeyFor(cfg, pattern, port, b)
  {
    seq(Replicas(cfg, pattern), b requires 0 <= b < cfg.n => KeyFor(cfg, pattern, port, b))
  }

  // ----- What the text of a tag and its pattern determines -----

  predicate ApexShape(pattern: string, tag: string) {
    && |tag| <= |pattern|
    && pattern[|pattern| - |tag|..] == tag
    && Count(tag, '.') == 1
    && (|tag| < |pattern| ==> pattern[|pattern| - |tag| - 1] == '.')
  }

  predicate TldShape(pattern: string, tag: string) {
    '.' !in StripStar(pattern) && tag == "__tld__:" + StripStar(pattern)
  }

  lemma OneDot(a: string, b: string)
    requires '.' !in a && '.' !in b
    ensures Count(a + "." + b, '.') == 1
  {
    CountZero(a, '.');
    CountZero(b, '.');
    assert a + "." + b == a + ("." + b);
    CountConcat(a, "." + b, '.');
  }

  lemma JoinTwo(a: string, b: string)
    ensures Join([a, b], '.') == a + "." + b
  {
    assert [a, b][1..] == [b];
  }

  /** The last two labels of a name of two labels or more. */
  lemma LastTwoLabels(s: string, labels: seq<string>, tag: string)
    requires labels == Split(s, '.') && |labels| >= 2
    requires tag == labels[|labels| - 2] + "." + labels[|labels| - 1]
    ensures ApexShape(s, tag)
  {
    var n := |labels|;
    JoinSplit(s, '.');
    SplitParts(s, '.');
    var a, b := labels[n - 2], labels[n - 1];
    assert a in labels && b in labels;
    OneDot(a, b);
    JoinTwo(a, b);
    assert labels[n - 2..] == [a, b];
    if n == 2 {
      hide Split, Join, Count;
      assert labels == [a, b];
    } else {
      var cut := JoinIsSuffix(s, '.', n - 2);
      hide Split, Join, Count;
      assert s[cut + 1..] == tag;
    }
  }

  lemma HashTagCases(pattern: string, s: string, labels: seq<string>)
    requires pattern != "*" && s == StripStar(pattern) && labels == Split(s, '.')
    ensures |labels| == 1 ==> HashTag(pattern) == "__tld__:" + labels[0]
    ensures |labels| > 1 ==> HashTag(pattern) == labels[|labels| - 2] + "." + labels[|labels| - 1]
  {
    hide Split, StripStar;
  }

  lemma ApexThroughStar(pattern: string, tag: string)
    requires ApexShape(StripStar(pattern), tag)
    ensures ApexShape(pattern, tag)
  {
    hide Count;
    var s := StripStar(pattern);
    if s != pattern {
      assert forall i :: 2 <= i < |pattern| ==> pattern[i] == s[i - 2];
    }
  }

  lemma TagShape(pattern: string)
    requires pattern != "*"
    ensures ApexShape(pattern, HashTag(pattern)) || TldShape(pattern, HashTag(pattern))
  {
    var s := StripStar(pattern);
    var labels := Split(s, '.');
    HashTagCases(pattern, s, labels);
    SplitParts(s, '.');
    CountZero(s, '.');
    JoinSplit(s, '.');
    if |labels| == 1 {
      hide HashTag, Split, Count;
    } else {
      LastTwoLabels(s, labels, HashTag(pattern));
      ApexThroughStar(pattern, HashTag(pattern));
    }
  }

  lemma GlobalNotExtended(p: string)
    requires p != "*"
    ensures !(HashTag(p) < "__global__")
  {
    hide HashTag;
    var t, u := HashTag(p), "__global__";
    TagShape(p);
    if ApexShape(p, t) {
      CountZero(t, '.');
      hide Count;
      assert '.' in t && '.' !in u;
    } else {
      assert t[2] == 't' && u[2] == 'g';
    }
  }

  lemma StripLonger(p: string, q: string)
    requires |q| < |p| && q == p[|p| - |q|..]
    ensures |StripStar(q)| <= |StripStar(p)| || '.' in StripStar(q)
  {
    if "*." <= p && |q| == |p| - 1 {
      assert q[0] == p[1];
      assert StripStar(q)[0] == '.';
    }
  }

  lemma TldNotExtended(p: string, q: string)
    requires |q| < |p| && q == p[|p| - |q|..]
    requires TldShape(q, HashTag(q))
    ensures !(HashTag(p) < HashTag(q))
  {
    if p == "*" {
      GlobalTag();
      TldAfterGlobal(StripStar(q));
    } else {
      TagShape(p);
      StripLonger(p, q);
      hide HashTag, StripStar;
      if ApexShape(p, HashTag(p)) {
        DotInApex(HashTag(p));
        NoDotInTld(StripStar(q));
      }
    }
  }

  lemma TldAfterGlobal(x: string)
    ensures !("__global__" < "__tld__:" + x)
  {
    assert "__global__"[2] == 'g' && ("__tld__:" + x)[2] == 't';
  }

  lemma DotInApex(tag: string)
    requires Count(tag, '.') == 1
    ensures '.' in tag
  {
    CountZero(tag, '.');
  }

  lemma NoDotInTld(x: string)
    requires '.' !in x
    ensures '.' !in "__tld__:" + x
  {
  }

  /** Text put before an apex pattern never shortens its tag. */
  lemma ApexNotShortened(p: string, q: string)
    requires |q| < |p| && q == p[|p| - |q|..]
    requires ApexShape(q, HashTag(q))
    ensures |HashTag(q)| <= |HashTag(p)|
  {
    var t, u := HashTag(p), HashTag(q);
    hide HashTag;
    assert |p| >= 2;
    TagShape(p);
    if ApexShape(p, t) && |t| < |u| {
      TailOf(p, q, u);
      GapBefore(p, t, u);
    }
  }

  lemma TailOf(p: string, q: string, u: string)
    requires |u| <= |q| < |p| && q == p[|p| - |q|..] && u == q[|q| - |u|..]
    ensures u == p[|p| - |u|..]
  {
  }

  lemma GapBefore(p: string, t: string, u: string)
    requires |t| < |u| < |p| && u == p[|p| - |u|..] && ApexShape(p, t)
    ensures Count(u, '.') > 1
  {
    hide Count;
    var gap := u[..|u| - |t|];
    assert u == gap + t;
    assert gap[|gap| - 1] == p[|p| - |t| - 1];
    GapCounts(gap, t);
  }

  lemma GapCounts(gap: string, t: string)
    requires gap != "" && gap[|gap| - 1] == '.'
    ensures Count(gap + t, '.') > Count(t, '.')
  {
    CountZero(gap, '.');
    CountConcat(gap, t, '.');
  }

  /** A longer pattern's tag cannot be a proper beginning of a shorter one's. */
  lemma NotExtended(p: string, q: string)
    requires |q| < |p| && q == p[|p| - |q|..]
    ensures !(HashTag(p) < HashTag(q))
  {
    hide HashTag;
    if q == "*" {
      GlobalNotExtended(p);
      assert HashTag(q) == "__global__" by { GlobalTag(); }
    } else {
      TagShape(q);
      if TldShape(q, HashTag(q)) {
        TldNotExtended(p, q);
      } else {
        ApexNotShortened(p, q);
      }
    }
  }

  lemma GlobalTag()
    ensures HashTag("*") == "__global__"
  {
  }

  lemma LongerEnd(t: string, p: string, u: string, q: string, sep: string)
    requires t + sep + p == u + sep + q && |q| < |p|
    ensures q == p[|p| - |q|..] && t < u
  {
    var z := t + sep + p;
    assert p == z[|z| - |p|..] && q == z[|z| - |q|..];
    assert t == z[..|t|] && u == z[..|u|];
  }

  /** A tag and its pattern, with any text between, determine the pattern. */
  lemma TagPatternInjective(p: string, q: string, sep: string)
    requires HashTag(p) + sep + p == HashTag(q) + sep + q
    ensures p == q
  {
    hide HashTag;
    var t, u := HashTag(p), HashTag(q);
    if |q| < |p| {
      LongerEnd(t, p, u, q, sep);
      NotExtended(p, q);
    } else if |p| < |q| {
      LongerEnd(u, q, t, p, sep);
      NotExtended(q, p);
    } else {
      var z := t + sep + p;
      assert p == z[|z| - |p|..] && q == z[|z| - |q|..];
    }
  }

  /** Exactly which patterns belong to the replicated tiers, read off their labels. */
  lemma BucketedIff(pattern: string)
    ensures var labels := Split(StripStar(pattern), '.');
            IsBucketedTag(HashTag(pattern)) <==>
              || pattern == "*"
              || |labels| == 1
              || "__tld__:" <= labels[|labels| - 2]
  {
    var s := StripStar(pattern);
    var labels := Split(s, '.');
    if pattern != "*" && |labels| > 1 {
      SplitParts(s, '.');
      HashTagCases(pattern, s, labels);
      var a, b := labels[|labels| - 2], labels[|labels| - 1];
      assert a in labels;
      hide Split, HashTag, StripStar;
      ApexBucketed(a, b);
    } else if pattern != "*" {
      HashTagCases(pattern, s, labels);
    }
  }

  lemma ApexBucketed(a: string, b: string)
    requires '.' !in a
    ensures IsBucketedTag(a + "." + b) <==> "__tld__:" <= a
  {
    var tag := a + "." + b;
    assert tag[|a|] == '.';
    var word := "__tld__:";
    assert forall i :: 0 <= i < |a| ==> tag[i] == a[i];
    if |word| <= |a| {
      assert tag[..|word|] == a[..|word|];
    } else {
      assert word[|a|] != '.';
    }
    var global := "__global__";
    if |a| < |global| {
      assert global[|a|] != '.';
    }
  }

  // ----- What key text determines -----

  /** The key up to its port, grouped so that each piece can be split off in turn. */
  function Body(cfg: Config, pattern: string, b: nat): string
    requires cfg.Valid() && b < cfg.n
  {
    if cfg.Buckets(pattern) then Replica(cfg.ns, cfg.tokens[b], HashTag(pattern), Decimal(b), pattern)
    else Single(cfg.ns, HashTag(pattern), pattern)
  }

  function Single(ns: string, tag: string, pattern: string): string {
    "r:{" + ns + ":" + (tag + "}:" + pattern)
  }

  function Replica(ns: string, token: string, tag: string, index: string, pattern: string): string {
    "r:" + ns + ":{" + (token + ['}'] + (":" + (tag + (":" + index + ":") + pattern)))
  }

  lemma ReplicaText(ns: string, token: string, tag: string, index: string, pattern: string, port: string)
    ensures "r:" + ns + ":{" + token + "}:" + tag + ":" + index + ":" + pattern + ":" + port
         == Replica(ns, token, tag, index, pattern) + [':'] + port
  {
    var pre := "r:" + ns + ":{";
    assert pre + token + "}:" + tag == pre + (token + ['}'] + (":" + tag));
    assert pre + (token + ['}'] + (":" + tag)) + ":" + index + ":" == pre + (token + ['}'] + (":" + (tag + (":" + index + ":"))));
    assert pre + (token + ['}'] + (":" + (tag + (":" + index + ":")))) + pattern == Replica(ns, token, tag, index, pattern);
  }

  lemma SingleText(ns: string, tag: string, pattern: string, port: string)
    ensures "r:{" + ns + ":" + tag + "}:" + pattern + ":" + port == Single(ns, tag, pattern) + [':'] + port
  {
    assert "r:{" + ns + ":" + tag + "}:" + pattern == Single(ns, tag, pattern);
  }

  lemma KeyIsBody(cfg: Config, pattern: string, port: int, b: nat)
    requires cfg.Valid() && b < cfg.n
    ensures KeyFor(cfg, pattern, port, b) == Body(cfg, pattern, b) + [':'] + Integer(port)
    ensures ':' !in Integer(port)
  {
    hide HashTag, Decimal, Integer, Single, Replica;
    IntegerChars(port);
    if cfg.Buckets(pattern) {
      ReplicaText(cfg.ns, cfg.tokens[b], HashTag(pattern), Decimal(b), pattern, Integer(port));
    } else {
      SingleText(cfg.ns, HashTag(pattern), pattern, Integer(port));
    }
  }

  /** No key of any store is a metadata key, whatever the namespaces and patterns. */
  lemma KeyIsNotMeta(cfg: Config, pattern: string, port: int, b: nat, ns: string)
    requires cfg.Valid() && b < cfg.n
    ensures KeyFor(cfg, pattern, port, b) != MetaKey(ns)
  {
    KeyIsBody(cfg, pattern, port, b);
    IntegerChars(port);
    var last := Integer(port)[|Integer(port)| - 1];
    assert last in Integer(port);
    hide HashTag, Body, Integer;
    assert KeyFor(cfg, pattern, port, b)[|KeyFor(cfg, pattern, port, b)| - 1] == last;
    assert MetaKey(ns)[|MetaKey(ns)| - 1] == 'g';
  }

  lemma MetaKeyInjective(ns: string, ns': string)
    requires MetaKey(ns) == MetaKey(ns')
    ensures ns == ns'
  {
    var k := MetaKey(ns);
    assert ns == k[3..|k| - 20] && ns' == k[3..|k| - 20];
  }

  /** The two key forms differ at once: moving a brace past the namespace changes its text. */
  lemma FormsDiffer(ns: string, x: string, y: string)
    ensures "r:{" + ns + ":" + x != "r:" + ns + ":{" + y
  {
    var a, b := "r:{" + ns + ":" + x, "r:" + ns + ":{" + y;
    if a == b {
      assert a[2..|ns| + 3] == "{" + ns && b[2..|ns| + 3] == ns + ":";
      CountConcat("{", ns, ':');
      CountConcat(ns, ":", ':');
    }
  }

  lemma TokenChars(cfg: Config, b: nat)
    requires cfg.Valid() && cfg.n > 1 && b < cfg.n
    ensures '}' !in cfg.tokens[b] && '{' !in cfg.tokens[b] && ':' !in cfg.tokens[b] && cfg.tokens[b] != ""
  {
  }

  lemma ReplicaInjective(ns: string, a: string, t: string, i: string, p: string,
                         b: string, u: string, j: string, q: string)
    requires Replica(ns, a, t, i, p) == Replica(ns, b, u, j, q)
    requires '}' !in a && '}' !in b
    ensures a == b && t + (":" + i + ":") + p == u + (":" + j + ":") + q
  {
    var x, y := t + (":" + i + ":") + p, u + (":" + j + ":") + q;
    DropSame("r:" + ns + ":{", a + ['}'] + (":" + x), b + ['}'] + (":" + y));
    SplitAtFirst(a, b, ":" + x, ":" + y, '}');
    DropSame(":", x, y);
  }

  lemma DropSame(pre: string, x: string, y: string)
    requires pre + x == pre + y
    ensures x == y
  {
    assert (pre + x)[|pre|..] == x && (pre + y)[|pre|..] == y;
  }

  /**
   Within one namespace key text determines the pattern, the port and the replica.
   Nothing is asked of the namespace or of the patterns.
   */
  lemma KeyInjective(cfg: Config, p: string, port: int, b: nat, q: string, port': int, c: nat)
    requires cfg.Valid() && b < cfg.n && c < cfg.n
    requires KeyFor(cfg, p, port, b) == KeyFor(cfg, q, port', c)
    ensures p == q && port == port' && (cfg.Buckets(p) ==> b == c)
  {
    hide HashTag, Decimal, Integer, KeyFor;
    KeyIsBody(cfg, p, port, b);
    KeyIsBody(cfg, q, port', c);
    SplitAtLast(Body(cfg, p, b), Body(cfg, q, c), Integer(port), Integer(port'), ':');
    IntegerInjective(port, port');
    SameBody(cfg, p, b, q, c);
  }

  /** Of two ways to read one text as tag, index and pattern, the longer tag starts past the other's index. */
  lemma LongerTag(t: string, i: string, p: string, u: string, c: string, q: string)
    requires t + (":" + i + ":") + p == u + (":" + c + ":") + q
    requires ':' !in i && |t| < |u|
    ensures |q| < |p| && q == p[|p| - |q|..] && t < u
  {
    var z := t + (":" + i + ":") + p;
    assert z[..|t|] == t && z[..|u|] == u && z[|u|] == ':';
    assert forall m :: |t| < m <= |t| + |i| ==> z[m] == i[m - |t| - 1];
    assert |u| > |t| + |i|;
    assert p == z[|z| - |p|..] && q == z[|z| - |q|..];
  }

  /** Tag, index and pattern, as a replica's key has them, determine index and pattern. */
  lemma IndexedInjective(p: string, i: nat, q: string, c: nat)
    requires HashTag(p) + (":" + Decimal(i) + ":") + p == HashTag(q) + (":" + Decimal(c) + ":") + q
    ensures p == q && i == c
  {
    hide HashTag, Decimal;
    var t, u := HashTag(p), HashTag(q);
    DecimalChars(i);
    DecimalChars(c);
    if |t| < |u| {
      LongerTag(t, Decimal(i), p, u, Decimal(c), q);
      NotExtended(p, q);
    } else if |u| < |t| {
      LongerTag(u, Decimal(c), q, t, Decimal(i), p);
      NotExtended(q, p);
    } else {
      var x, y := Decimal(i) + [':'] + p, Decimal(c) + [':'] + q;
      assert t + (":" + Decimal(i) + ":") + p == (t + ":") + x && u + (":" + Decimal(c) + ":") + q == (u + ":") + y;
      assert ((t + ":") + x)[..|t|] == t && ((u + ":") + y)[..|t|] == u;
      DropSame(t + ":", x, y);
      SplitAtFirst(Decimal(i), Decimal(c), p, q, ':');
      DecimalInjective(i, c);
    }
  }

  /** Stores of one namespace, whatever their counts, share a key only for one pattern, port, index and token. */
  lemma KeyAcrossCounts(cfg: Config, p: string, port: int, b: nat, cfg': Config, q: string, port': int, c: nat)
    requires cfg.Valid() && cfg'.Valid() && cfg.ns == cfg'.ns && b < cfg.n && c < cfg'.n
    requires KeyFor(cfg, p, port, b) == KeyFor(cfg', q, port', c)
    ensures p == q && port == port' && cfg.Buckets(p) == cfg'.Buckets(q)
    ensures cfg.Buckets(p) ==> b == c && cfg.tokens[b] == cfg'.tokens[c]
  {
    hide HashTag, Decimal, Integer, KeyFor, Single, Replica;
    KeyIsBody(cfg, p, port, b);
    KeyIsBody(cfg', q, port', c);
    SplitAtLast(Body(cfg, p, b), Body(cfg', q, c), Integer(port), Integer(port'), ':');
    IntegerInjective(port, port');
    var t, u := HashTag(p), HashTag(q);
    if cfg.Buckets(p) && cfg'.Buckets(q) {
      TokenChars(cfg, b);
      TokenChars(cfg', c);
      ReplicaInjective(cfg.ns, cfg.tokens[b], t, Decimal(b), p, cfg'.tokens[c], u, Decimal(c), q);
      IndexedInjective(p, b, q, c);
    } else if cfg'.Buckets(q) {
      SingleIsNotReplica(cfg.ns, t, p, cfg'.tokens[c], u, Decimal(c), q);
    } else if cfg.Buckets(p) {
      SingleIsNotReplica(cfg.ns, u, q, cfg.tokens[b], t, Decimal(b), p);
    } else {
      SingleInjective(cfg.ns, t, p, u, q);
      TagPatternInjective(p, q, "}:");
    }
  }

  lemma SameKey(cfg: Config, cfg': Config, p: string, port: int, b: nat, c: nat)
    requires cfg.Valid() && cfg'.Valid() && cfg.ns == cfg'.ns && b < cfg.n && c < cfg'.n
    requires cfg.Buckets(p) == cfg'.Buckets(p) && (cfg.Buckets(p) ==> b == c && cfg.tokens[b] == cfg'.tokens[c])
    ensures KeyFor(cfg, p, port, b) == KeyFor(cfg', p, port, c)
  {
    hide HashTag, Integer, Decimal;
  }

  lemma SameBody(cfg: Config, p: string, b: nat, q: string, c: nat)
    requires cfg.Valid() && b < cfg.n && c < cfg.n
    requires Body(cfg, p, b) == Body(cfg, q, c)
    ensures p == q && (cfg.Buckets(p) ==> b == c)
  {
    hide HashTag, Decimal, Single, Replica;
    var t, u := HashTag(p), HashTag(q);
    if cfg.Buckets(p) && cfg.Buckets(q) {
      TokenChars(cfg, b);
      TokenChars(cfg, c);
      ReplicaInjective(cfg.ns, cfg.tokens[b], t, Decimal(b), p, cfg.tokens[c], u, Decimal(c), q);
      TagPatternInjective(p, q, ":" + Decimal(b) + ":");
    } else if !cfg.Buckets(p) && !cfg.Buckets(q) {
      SingleInjective(cfg.ns, t, p, u, q);
      TagPatternInjective(p, q, "}:");
    } else if cfg.Buckets(p) {
      SingleIsNotReplica(cfg.ns, u, q, cfg.tokens[b], t, Decimal(b), p);
    } else {
      SingleIsNotReplica(cfg.ns, t, p, cfg.tokens[c], u, Decimal(c), q);
    }
  }

  lemma SingleInjective(ns: string, t: string, p: string, u: string, q: string)
    requires Single(ns, t, p) == Single(ns, u, q)
    ensures t + "}:" + p == u + "}:" + q
  {
    DropSame("r:{" + ns + ":", t + "}:" + p, u + "}:" + q);
  }

  lemma SingleIsNotReplica(ns: string, t: string, p: string, token: string, u: string, index: string, q: string)
    ensures Single(ns, t, p) != Replica(ns, token, u, index, q)
  {
    FormsDiffer(ns, t + "}:" + p, token + ['}'] + (":" + (u + (":" + index + ":") + q)));
  }

  // ----- Keys of different namespaces -----

  lemma SameSuffix(x: string, y: string, post: string)
    requires x + post == y + post
    ensures x == y
  {
    assert (x + post)[..|x|] == x && (y + post)[..|y|] == y;
  }

  /** The text before a colon-free pattern. */
  function Head(cfg: Config, pattern: string, b: nat): string
    requires cfg.Valid() && b < cfg.n
  {
    if cfg.Buckets(pattern)
    then "r:" + cfg.ns + ":" + ['{'] + cfg.tokens[b] + ("}:" + HashTag(pattern)) + [':'] + Decimal(b)
    else "r:{" + cfg.ns + (":" + HashTag(pattern) + "}")
  }

  lemma ReplicaHead(ns: string, token: string, t: string, i: string, pattern: string)
    ensures Replica(ns, token, t, i, pattern)
         == "r:" + ns + ":" + ['{'] + token + ("}:" + t) + [':'] + i + [':'] + pattern
  {
    var pre := "r:" + ns + ":{";
    assert "r:" + ns + ":" + ['{'] == pre;
    assert pre + token + ("}:" + t) == pre + (token + ['}'] + (":" + t));
    assert pre + (token + ['}'] + (":" + t)) + [':'] + i + [':'] == pre + (token + ['}'] + (":" + (t + (":" + i + ":"))));
    assert pre + (token + ['}'] + (":" + (t + (":" + i + ":")))) + pattern == Replica(ns, token, t, i, pattern);
  }

  lemma BodyIsHead(cfg: Config, pattern: string, b: nat)
    requires cfg.Valid() && b < cfg.n
    ensures Body(cfg, pattern, b) == Head(cfg, pattern, b) + [':'] + pattern
  {
    hide HashTag, Decimal;
    var t := HashTag(pattern);
    if cfg.Buckets(pattern) {
      hide Replica;
      ReplicaHead(cfg.ns, cfg.tokens[b], t, Decimal(b), pattern);
    } else {
      assert Single(cfg.ns, t, pattern) == "r:{" + cfg.ns + (":" + t + "}") + [':'] + pattern;
    }
  }

  /**
   Stores of different namespaces never share a key, whatever their bucket counts,
   as long as patterns have no colon.
   */
  lemma NamespacesDisjoint(cfg: Config, p: string, port: int, b: nat, cfg': Config, q: string, port': int, c: nat)
    requires cfg.Valid() && b < cfg.n && cfg'.Valid() && c < cfg'.n
    requires ':' !in p && ':' !in q
    requires KeyFor(cfg, p, port, b) == KeyFor(cfg', q, port', c)
    ensures cfg.ns == cfg'.ns && p == q && port == port'
    ensures cfg.Buckets(p) == cfg'.Buckets(q) && (cfg.Buckets(p) ==> b == c)
  {
    hide HashTag, Decimal, Integer, KeyFor, Body, Head;
    KeyIsBody(cfg, p, port, b);
    KeyIsBody(cfg', q, port', c);
    SplitAtLast(Body(cfg, p, b), Body(cfg', q, c), Integer(port), Integer(port'), ':');
    IntegerInjective(port, port');
    BodyIsHead(cfg, p, b);
    BodyIsHead(cfg', q, c);
    SplitAtLast(Head(cfg, p, b), Head(cfg', q, c), p, q, ':');
    SameHead(cfg, cfg', p, b, c);
  }

  /** The example: without that condition two namespaces can meet in one key. */
  lemma NamespacesMeet(port: int)
    ensures KeyFor(Config("x", 1, []), "W:a.b}:m.a.b", port, 0) == KeyFor(Config("x:a.b}:W", 1, []), "m.a.b", port, 0)
  {
    hide HashTag, Integer;
    LastTwo("W:a", "b}:m", "a", "b");
    LastTwo("m", "", "a", "b");
    assert "W:a" + "." + ("b}:m" + "." + ("a" + "." + "b")) == "W:a.b}:m.a.b";
    assert "m" + "." + ("a" + "." + "b") == "m.a.b";
    assert "a" + "." + "b" == "a.b";
    var a := "r:{" + "x" + ":" + "a.b" + "}:" + "W:a.b}:m.a.b";
    var b := "r:{" + "x:a.b}:W" + ":" + "a.b" + "}:" + "m.a.b";
    assert a == b;
  }

  lemma LastTwo(w: string, x: string, y: string, z: string)
    requires '.' !in w && '.' !in x && '.' !in y && '.' !in z
    requires w != "" && w[0] != '*'
    ensures HashTag(w + "." + (x + "." + (y + "." + z))) == y + "." + z
    ensures HashTag(w + "." + (y + "." + z)) == y + "." + z
  {
    hide Split, HashTag;
    SplitOne(z);
    SplitCons(y, z);
    SplitCons(x, y + "." + z);
    LabelsTag(w, x + "." + (y + "." + z), [x, y, z]);
    LabelsTag(w, y + "." + z, [y, z]);
  }

  lemma LabelsTag(w: string, s: string, labels: seq<string>)
    requires '.' !in w && w != "" && w[0] != '*' && labels == Split(s, '.') && |labels| >= 2
    ensures HashTag(w + "." + s) == labels[|labels| - 2] + "." + labels[|labels| - 1]
  {
    SplitCons(w, s);
    hide Split, HashTag;
    var p := w + "." + s;
    assert p[0] == w[0];
    HashTagCases(p, p, [w] + labels);
  }

  lemma SplitOne(z: string)
    requires '.' !in z
    ensures Split(z, '.') == [z]
  {
    FindUnique(z, '.', |z|);
  }

  /** Nothing in the namespace's text can be taken for what follows it. */
  predicate Plain(ns: string) {
    ':' !in ns && '{' !in ns
  }

  lemma BodyStart(cfg: Config, p: string, b: nat) returns (rest: string)
    requires cfg.Valid() && b < cfg.n
    ensures Body(cfg, p, b) == "r:" + ((if cfg.Buckets(p) then cfg.ns else "{" + cfg.ns) + [':'] + rest)
  {
    hide HashTag, Decimal;
    if cfg.Buckets(p) {
      rest := "{" + (cfg.tokens[b] + ['}'] + (":" + (HashTag(p) + (":" + Decimal(b) + ":") + p)));
    } else {
      rest := HashTag(p) + "}:" + p;
    }
  }

  /** Stores of two plain namespaces never share a key either, whatever their patterns. */
  lemma PlainNamespacesDisjoint(cfg: Config, p: string, port: int, b: nat, cfg': Config, q: string, port': int, c: nat)
    requires cfg.Valid() && b < cfg.n && cfg'.Valid() && c < cfg'.n
    requires Plain(cfg.ns) && Plain(cfg'.ns)
    requires KeyFor(cfg, p, port, b) == KeyFor(cfg', q, port', c)
    ensures cfg.ns == cfg'.ns
  {
    hide HashTag, Decimal, Integer, KeyFor, Body;
    KeyIsBody(cfg, p, port, b);
    KeyIsBody(cfg', q, port', c);
    SplitAtLast(Body(cfg, p, b), Body(cfg', q, c), Integer(port), Integer(port'), ':');
    var x := BodyStart(cfg, p, b);
    var y := BodyStart(cfg', q, c);
    var s := if cfg.Buckets(p) then cfg.ns else "{" + cfg.ns;
    var t := if cfg'.Buckets(q) then cfg'.ns else "{" + cfg'.ns;
    BraceFirst(cfg.ns);
    BraceFirst(cfg'.ns);
    DropSame("r:", s + [':'] + x, t + [':'] + y);
    SplitAtFirst(s, t, x, y, ':');
    if !cfg.Buckets(p) && !cfg'.Buckets(q) {
      DropSame("{", cfg.ns, cfg'.ns);
    }
  }

  lemma BraceFirst(x: string)
    ensures '{' in "{" + x
  {
    assert ("{" + x)[0] == '{';
  }

  lemma HeadEnd(cfg: Config, p: string, b: nat)
    requires cfg.Valid() && b < cfg.n
    ensures var h := Head(cfg, p, b);
            h != "" && (h[|h| - 1] == '}' <==> !cfg.Buckets(p))
  {
    hide HashTag, Decimal;
    if cfg.Buckets(p) {
      var i := Decimal(b);
      assert Head(cfg, p, b)[|Head(cfg, p, b)| - 1] == i[|i| - 1];
      assert IsDigit(i[|i| - 1]);
    }
  }

  lemma SameHead(cfg: Config, cfg': Config, p: string, b: nat, c: nat)
    requires cfg.Valid() && b < cfg.n && cfg'.Valid() && c < cfg'.n
    requires Head(cfg, p, b) == Head(cfg', p, c)
    ensures cfg.ns == cfg'.ns && cfg.Buckets(p) == cfg'.Buckets(p) && (cfg.Buckets(p) ==> b == c)
  {
    HeadEnd(cfg, p, b);
    HeadEnd(cfg', p, c);
    hide HashTag, Decimal;
    var t := HashTag(p);
    if cfg.Buckets(p) {
      TokenChars(cfg, b);
      TokenChars(cfg', c);
      DecimalChars(b);
      DecimalChars(c);
      var x, y := "r:" + cfg.ns + ":", "r:" + cfg'.ns + ":";
      SplitAtLast(x + ['{'] + cfg.tokens[b] + ("}:" + t), y + ['{'] + cfg'.tokens[c] + ("}:" + t),
                  Decimal(b), Decimal(c), ':');
      DecimalInjective(b, c);
      SameSuffix(x + ['{'] + cfg.tokens[b], y + ['{'] + cfg'.tokens[c], "}:" + t);
      SplitAtLast(x, y, cfg.tokens[b], cfg'.tokens[c], '{');
      SameSuffix("r:" + cfg.ns, "r:" + cfg'.ns, ":");
      DropSame("r:", cfg.ns, cfg'.ns);
    } else {
      SameSuffix("r:{" + cfg.ns, "r:{" + cfg'.ns, ":" + t + "}");
      DropSame("r:{", cfg.ns, cfg'.ns);
    }
  }

  lemma DecimalChars(n: nat)
    ensures ':' !in Decimal(n)
  {
  }
}
