/**
 Which replica a lookup reads: the one at the query's residue, so that the queries spread
 over all replicas of a catch-all pattern.
 */
module Spread {
  import opened Text
  import opened Results
  import opened Pattern
  import opened Slots
  import opened Keys
  import opened Database
  import opened Rules
  import opened Lookups
  import opened Store
  import opened Placement

  /** b is the residue of the query's checksum, and 0 when there is one bucket. */
  ghost predicate IsResidue(b: nat, n: nat, value: nat) {
    if n > 1 then b < n && exists q: nat :: value == q * n + b else b == 0
  }

  /** Every candidate of a query carries the query's residue. */
  lemma CandidatesCarryResidue(f: string, mode: MatchMode, n: nat, checksum: string -> nat)
    ensures forall a :: a in Candidates(f, mode, n, checksum) ==> IsResidue(a.bucketIndex, n, checksum(f))
  {
    hide FieldCandidates, HashTag;
    if n > 1 {
      var q := checksum(f) / n;
      assert checksum(f) == q * n + checksum(f) % n;
    }
  }

  lemma ResidueUnique(b: nat, c: nat, n: nat, value: nat)
    requires n > 1 && IsResidue(b, n, value) && IsResidue(c, n, value)
    ensures b == c
  {
    var q: nat :| value == q * n + b;
    var r: nat :| value == r * n + c;
    DivModUnique(value, q, b, n);
    DivModUnique(value, r, c, n);
  }

  /** The key a candidate of a replicated pattern reads is one of the pattern's keys: that of the residue and no other. */
  lemma ReadsResidue(cfg: Config, f: string, mode: MatchMode, checksum: string -> nat, port: int, i: nat, b: nat)
    requires cfg.Valid() && i < |Candidates(f, mode, cfg.n, checksum)|
    requires var a := Candidates(f, mode, cfg.n, checksum)[i]; cfg.Buckets(a.pattern) && b < cfg.n
    ensures var a := Candidates(f, mode, cfg.n, checksum)[i];
            && a.bucketIndex < cfg.n
            && (Key(cfg, a.tag, a.bucketIndex, a.pattern, port) == KeysForPattern(cfg, a.pattern, port)[b]
                <==> IsResidue(b, cfg.n, checksum(f)))
  {
    var a := Candidates(f, mode, cfg.n, checksum)[i];
    CandidatesCarryResidue(f, mode, cfg.n, checksum);
    assert a in Candidates(f, mode, cfg.n, checksum);
    assert a.tag == HashTag(a.pattern);
    hide Candidates, HashTag, IsBucketedTag, Key;
    assert KeyFor(cfg, a.pattern, port, a.bucketIndex) == Key(cfg, a.tag, a.bucketIndex, a.pattern, port);
    hide KeyFor;
    if KeyFor(cfg, a.pattern, port, a.bucketIndex) == KeyFor(cfg, a.pattern, port, b) {
      KeyInjective(cfg, a.pattern, port, a.bucketIndex, a.pattern, port, b);
    }
    if IsResidue(b, cfg.n, checksum(f)) {
      ResidueUnique(a.bucketIndex, b, cfg.n, checksum(f));
    }
  }

  // ----- Texts as they are stored -----

  /** The scope's letter and then the id. */
  lemma StoredText(id: string)
    ensures Entry(ScopeSingle, id).Encode() == "S" + id
    ensures Entry(ScopeMulti, id).Encode() == "M" + id
    ensures Entry(ScopeBoth, id).Encode() == "B" + id
  {
  }

  /** The key of a name, of the bare star, of a tld pattern, and the metadata key. */
  lemma KeyTexts(tokens: seq<string>)
    ensures KeyFor(Config("test", 1, tokens), "api.foo.com", 443, 0) == "r:{test:foo.com}:api.foo.com:443"
    ensures KeyFor(Config("test", 1, tokens), "*", 443, 0) == "r:{test:__global__}:*:443"
    ensures KeyFor(Config("test", 1, tokens), "*.com", 8443, 0) == "r:{test:__tld__:com}:*.com:8443"
    ensures MetaKey("test") == "r:{test:__meta__}:bucketing"
  {
    hide KeyFor, HashTag;
    NameKey(tokens);
    StarKey(tokens);
    TldKey(tokens);
  }

  lemma NameKey(tokens: seq<string>)
    ensures KeyFor(Config("test", 1, tokens), "api.foo.com", 443, 0) == "r:{test:foo.com}:api.foo.com:443"
  {
    NameTag();
    hide KeyFor, HashTag;
    assert "r:{test:" + "foo.com" + "}:" + "api.foo.com" + ":" + "443" == "r:{test:foo.com}:api.foo.com:443";
    SingleKeyText(tokens, "api.foo.com", 443, "foo.com", "443", "r:{test:foo.com}:api.foo.com:443");
  }

  lemma StarKey(tokens: seq<string>)
    ensures KeyFor(Config("test", 1, tokens), "*", 443, 0) == "r:{test:__global__}:*:443"
  {
    GlobalTag();
    hide KeyFor, HashTag;
    assert "r:{test:" + "__global__" + "}:" + "*" + ":" + "443" == "r:{test:__global__}:*:443";
    SingleKeyText(tokens, "*", 443, "__global__", "443", "r:{test:__global__}:*:443");
  }

  lemma TldKey(tokens: seq<string>)
    ensures KeyFor(Config("test", 1, tokens), "*.com", 8443, 0) == "r:{test:__tld__:com}:*.com:8443"
  {
    TldTagText();
    hide KeyFor, HashTag;
    assert "r:{test:" + "__tld__:com" + "}:" + "*.com" + ":" + "8443" == "r:{test:__tld__:com}:*.com:8443";
    SingleKeyText(tokens, "*.com", 8443, "__tld__:com", "8443", "r:{test:__tld__:com}:*.com:8443");
  }

  lemma SingleKeyText(tokens: seq<string>, p: string, port: int, tag: string, portText: string, text: string)
    requires tag == HashTag(p) && (port == 443 || port == 8443) && portText == (if port == 443 then "443" else "8443")
    requires text == "r:{test:" + tag + "}:" + p + ":" + portText
    ensures KeyFor(Config("test", 1, tokens), p, port, 0) == text
  {
    PortTexts();
    hide HashTag, Integer;
    assert "r:{" + "test" + ":" == "r:{test:";
  }

  lemma NameTag()
    ensures HashTag("api.foo.com") == "foo.com"
  {
    assert "foo" + "." + "com" == "foo.com" && "api" + "." + ("foo" + "." + "com") == "api.foo.com";
    assert IsLabel("api") && IsLabel("foo") && IsLabel("com");
    hide HashTag, IsLabel;
    ThreeFacts("api", "foo", "com");
  }

  lemma TldTagText()
    ensures HashTag("*.com") == "__tld__:com"
  {
    SplitOne("com");
    assert StripStar("*.com") == "com";
    hide HashTag, Split, StripStar;
    HashTagCases("*.com", "com", ["com"]);
  }

  lemma PortTexts()
    ensures Integer(443) == "443" && Integer(8443) == "8443"
  {
    assert Decimal(44) == "44" && Decimal(84) == "84" && Decimal(844) == "844";
  }

  /** The key of replica b of the bare star. */
  lemma ReplicaKeyText(tokens: seq<string>, b: nat)
    requires GoodTokens(tokens, |tokens|) && |tokens| > 1 && b < |tokens|
    ensures KeyFor(Config("buckets", |tokens|, tokens), "*", 443, b)
         == "r:buckets:{" + tokens[b] + "}:__global__:" + Decimal(b) + ":*:443"
  {
    PortTexts();
    ReplicaPieces();
    StarReplica("buckets", tokens, b);
    hide KeyFor, Decimal, GoodTokens, Integer;
    var port := Integer(443);
    Regroup("r:", "buckets", ":{", tokens[b], "}:", "__global__", ":", Decimal(b), ":", "*", ":", port);
  }

  lemma StarReplica(ns: string, tokens: seq<string>, b: nat)
    requires GoodTokens(tokens, |tokens|) && |tokens| > 1 && b < |tokens|
    ensures KeyFor(Config(ns, |tokens|, tokens), "*", 443, b)
         == "r:" + ns + ":{" + tokens[b] + "}:" + "__global__" + ":" + Decimal(b) + ":" + "*" + ":" + Integer(443)
  {
    GlobalTag();
    hide HashTag, Integer, Decimal;
  }

  lemma Regroup(a: string, b: string, c: string, d: string, e: string, f: string,
                g: string, h: string, i: string, j: string, k: string, l: string)
    ensures a + b + c + d + e + f + g + h + i + j + k + l == (a + b + c) + d + (e + f + g) + h + (i + j + k + l)
  {
    var s := a + b + c + d;
    assert s + e + f + g == s + (e + f + g);
    var t := s + (e + f + g) + h;
    assert t + i + j + k + l == t + (i + j + k + l);
  }

  lemma ReplicaPieces()
    ensures "r:" + "buckets" + ":{" == "r:buckets:{" && "}:" + "__global__" + ":" == "}:__global__:"
    ensures ":" + "*" + ":" + "443" == ":*:443"
  {
  }

  // ----- The order of a lookup's checks -----

  /** The first name's error comes before the second's, and both before the port's. */
  lemma ErrorOrder(cfg: Config, h: Hashes, checksum: string -> nat, f1: string, port: int, f2: string,
                   mode: MatchMode, r: Result<Option<Match>>)
    requires IsLookup(cfg, h, checksum, f1, port, f2, mode, r)
    ensures Normalize(f1).Failure? ==> r == Failure(Normalize(f1).error)
    ensures Normalize(f1).Success? && Normalize(f2).Failure? ==> r == Failure(Normalize(f2).error)
    ensures Normalize(f1).Success? && Normalize(f2).Success? ==>
              (r.Success? <==> 1 <= port <= 65535) && (r.Failure? ==> r.error == PortOutOfRange)
  {
    hide Normalize, Candidates, FieldCandidates;
  }
}
