/**
 Where a key's text sends it: the hash tag that is hashed, the slot, and how few
 slots a lookup can touch.
 */
module Placement {
  import opened Text
  import opened Crc16
  import opened Pattern
  import opened Slots
  import opened Keys
  import opened Script

  /** The content of the first nonempty brace span, or the whole key. */
  function HashedText(key: string): string {
    var start := Find(key, '{');
    if start == |key| then key
    else
      var rest := key[start + 1..];
      var end := Find(rest, '}');
      if end < |rest| && end != 0 then rest[..end] else key
  }

  function KeySlot(key: string): (s: nat)
    ensures s < NUM_SLOTS
  {
    Slot(Utf8(HashedText(key)))
  }

  /** go-router-service finds the braces with two loops. */
  method KeySlotService(key: string) returns (s: nat)
    ensures s == KeySlot(key)
  {
    hide Slot, Utf8;
    var start, i := -1, 0;
    while i < |key|
      invariant 0 <= i <= |key| && start == -1
      invariant forall k :: 0 <= k < i ==> key[k] != '{'
    {
      if key[i] == '{' {
        start := i;
        break;
      }
      i := i + 1;
    }
    FindUnique(key, '{', if start == -1 then |key| else start);
    if start != -1 {
      var end := -1;
      i := start + 1;
      while i < |key|
        invariant start < i <= |key| && end == -1
        invariant forall k :: start < k < i ==> key[k] != '}'
      {
        if key[i] == '}' {
          end := i;
          break;
        }
        i := i + 1;
      }
      var rest := key[start + 1..];
      FindUnique(rest, '}', if end == -1 then |rest| else end - start - 1);
      if end != -1 && end != start + 1 {
        assert key[start + 1..end] == rest[..end - start - 1];
        return Slot(Utf8(key[start + 1..end]));
      }
    }
    return Slot(Utf8(key));
  }

  /** A brace span that lies inside a beginning of the key decides, whatever follows. */
  lemma HashedTextAt(pre: string, tag: string, post: string)
    requires '{' !in pre && '}' !in tag && tag != ""
    ensures HashedText(pre + "{" + tag + "}" + post) == tag
  {
    var key := pre + "{" + tag + "}" + post;
    FindUnique(key, '{', |pre|);
    var rest := key[|pre| + 1..];
    assert rest == tag + "}" + post;
    FindUnique(rest, '}', |tag|);
  }

  /** The key has a first opening brace, a closing one after it, and t between them. */
  ghost predicate HasTag(key: string, a: string, t: string, z: string) {
    key == a + "{" + t + "}" + z && '{' !in a && '}' !in t && t != ""
  }

  /** What is hashed is the tag if the key has one, and otherwise the whole key. */
  lemma HashedTextMeans(key: string)
    ensures (exists a, t, z :: HasTag(key, a, t, z) && HashedText(key) == t)
            || (HashedText(key) == key && forall a, t, z :: !HasTag(key, a, t, z))
  {
    var start := Find(key, '{');
    if start < |key| {
      var rest := key[start + 1..];
      var end := Find(rest, '}');
      if 0 < end < |rest| {
        var a, t, z := key[..start], rest[..end], rest[end + 1..];
        assert key == a + "{" + t + "}" + z;
        assert HasTag(key, a, t, z);
      }
    }
    hide HashedText;
    forall a, t, z | HasTag(key, a, t, z)
      ensures HashedText(key) == t && t != key
    {
      HashedTextAt(a, t, z);
      assert |key| == |a| + |t| + |z| + 2;
    }
  }

  lemma HashedSpan(key: string, start: nat, rest: string)
    requires '{' in key && start == Find(key, '{') && rest == key[start + 1..]
    ensures HashedText(key) ==
            if Find(rest, '}') < |rest| && Find(rest, '}') != 0 then rest[..Find(rest, '}')] else key
  {
    hide Find;
  }

  // ----- Replicas of the catch-all tiers -----

  lemma TokenHashed(cfg: Config, tag: string, b: nat, pattern: string, port: int)
    requires cfg.Valid() && cfg.n > 1 && b < cfg.n && IsBucketedTag(tag)
    requires '{' !in cfg.ns
    ensures HashedText(Key(cfg, tag, b, pattern, port)) == cfg.tokens[b]
  {
    hide HashedText, Decimal, Integer;
    TokenChars(cfg, b);
    var pre := "r:" + cfg.ns + ":";
    var post := ":" + tag + ":" + Decimal(b) + ":" + pattern + ":" + Integer(port);
    HashedTextAt(pre, cfg.tokens[b], post);
    assert Key(cfg, tag, b, pattern, port) == pre + "{" + cfg.tokens[b] + "}" + post;
  }

  /**
   The placement guarantee, through the key text: replica b hashes into bucket b's share,
   at the slot the table lists for it.
   */
  lemma ReplicaIsPlaced(cfg: Config, t: BucketTable, tag: string, b: nat, pattern: string, port: int)
    requires cfg.n > 1 && b < cfg.n && IsTable(t, cfg.n) && cfg.tokens == t.tokens
    requires IsBucketedTag(tag) && '{' !in cfg.ns
    ensures cfg.Valid()
    ensures var s := KeySlot(Key(cfg, tag, b, pattern, port));
            && s == t.slots[b]
            && Lo(b, cfg.n, NUM_SLOTS) <= s < Lo(b + 1, cfg.n, NUM_SLOTS)
            && (t.moduloSafe ==> s % cfg.n == b)
  {
    hide HashedText, Slot, Utf8, Key;
    TokensArePlaced(t, cfg.n);
    TokenHashed(cfg, tag, b, pattern, port);
  }

  /** A namespace with a brace: what is hashed is the namespace's own tag, or text with more in it. */
  lemma TokenNotHashed(cfg: Config, tag: string, b: nat, pattern: string, port: int)
    requires cfg.Valid() && cfg.n > 1 && b < cfg.n && IsBucketedTag(tag)
    requires '{' in cfg.ns
    ensures HashedText(Key(cfg, tag, b, pattern, port)) == cfg.tokens[b] <==> HashedText(cfg.ns) == cfg.tokens[b]
  {
    hide Key, HashedText, Find;
    TokenChars(cfg, b);
    var ns, token := cfg.ns, cfg.tokens[b];
    var inner := ns[Find(ns, '{') + 1..];
    var tail := KeyTail(cfg, tag, b, pattern, port);
    BraceInNamespace(ns, token, tail);
    if Find(inner, '}') == |inner| {
      assert (inner + ":{" + token)[|inner|] == ':';
    } else if Find(inner, '}') == 0 {
      assert ("r:" + ns + tail)[1] == ':';
    }
    if Find(inner, '}') == |inner| || Find(inner, '}') == 0 {
      NamespaceNotToken(ns, inner, token);
    }
  }

  lemma KeyTail(cfg: Config, tag: string, b: nat, pattern: string, port: int) returns (tail: string)
    requires cfg.Valid() && cfg.n > 1 && b < cfg.n && IsBucketedTag(tag)
    ensures Key(cfg, tag, b, pattern, port) == "r:" + cfg.ns + tail
    ensures |tail| > |cfg.tokens[b]| + 2 && tail[..|cfg.tokens[b]| + 3] == ":{" + cfg.tokens[b] + "}"
  {
    hide Decimal, Integer;
    var post := ":" + tag + ":" + Decimal(b) + ":" + pattern + ":" + Integer(port);
    tail := ":{" + cfg.tokens[b] + "}" + post;
    assert Key(cfg, tag, b, pattern, port) == "r:" + cfg.ns + tail;
  }

  /** When the namespace's own braces hold nothing, it is hashed whole, and it is no token. */
  lemma NamespaceNotToken(ns: string, inner: string, token: string)
    requires '{' in ns && inner == ns[Find(ns, '{') + 1..] && '{' !in token
    requires Find(inner, '}') == |inner| || Find(inner, '}') == 0
    ensures HashedText(ns) != token
  {
    hide Find;
  }

  lemma PrefixBrace(ns: string)
    requires '{' in ns
    ensures '{' in "r:" + ns && Find("r:" + ns, '{') == 2 + Find(ns, '{')
    ensures ("r:" + ns)[Find(ns, '{') + 3..] == ns[Find(ns, '{') + 1..]
  {
    FindUnique("r:" + ns, '{', 2 + Find(ns, '{'));
    assert ("r:" + ns)[2 + Find(ns, '{')] == '{';
  }

  lemma FirstBrace(a: string, tail: string)
    requires '{' in a
    ensures '{' in a + tail && Find(a + tail, '{') == Find(a, '{')
    ensures (a + tail)[Find(a, '{') + 1..] == a[Find(a, '{') + 1..] + tail
  {
    FindConcat(a, tail, '{');
  }

  lemma BraceSpan(a: string, inner: string, token: string, tail: string)
    requires '{' in a && inner == a[Find(a, '{') + 1..] && '}' !in token
    requires |tail| > |token| + 2 && tail[..|token| + 3] == ":{" + token + "}"
    ensures HashedText(a + tail) ==
            if Find(inner, '}') == |inner| then inner + ":{" + token
            else if Find(inner, '}') == 0 then a + tail
            else inner[..Find(inner, '}')]
  {
    TailBrace(token, tail);
    hide Find, HashedText;
    FirstBrace(a, tail);
    FindConcat(inner, tail, '}');
    HashedSpan(a + tail, Find(a, '{'), inner + tail);
    if Find(inner, '}') == |inner| {
      assert (inner + tail)[..|inner| + 2 + |token|] == inner + tail[..|token| + 2];
      assert inner + (":{" + token) == inner + ":{" + token;
    } else {
      assert (inner + tail)[..Find(inner, '}')] == inner[..Find(inner, '}')];
    }
  }

  lemma TailBrace(token: string, tail: string)
    requires '}' !in token && |tail| > |token| + 2 && tail[..|token| + 3] == ":{" + token + "}"
    ensures Find(tail, '}') == 2 + |token| && tail[..|token| + 2] == ":{" + token
  {
    assert forall k :: 0 <= k < |token| + 3 ==> tail[k] == (":{" + token + "}")[k];
    FindUnique(tail, '}', 2 + |token|);
  }

  /** What is hashed of a key whose namespace has a brace. */
  lemma BraceInNamespace(ns: string, token: string, tail: string)
    requires '{' in ns && '}' !in token
    requires |tail| > |token| + 2 && tail[..|token| + 3] == ":{" + token + "}"
    ensures var inner := ns[Find(ns, '{') + 1..];
            HashedText("r:" + ns + tail) ==
            if Find(inner, '}') == |inner| then inner + ":{" + token
            else if Find(inner, '}') == 0 then "r:" + ns + tail
            else HashedText(ns)
    ensures HashedText(ns) == ns || '}' !in HashedText(ns)
  {
    hide Find, HashedText;
    var inner := ns[Find(ns, '{') + 1..];
    PrefixBrace(ns);
    BraceSpan("r:" + ns, inner, token, tail);
    HashedSpan(ns, Find(ns, '{'), inner);
  }

  /** Every replica of a catch-all pattern is placed by its own token exactly when the namespace has no '{'. */
  lemma PlacedIffNoBrace(cfg: Config, tag: string, pattern: string, port: int)
    requires cfg.Valid() && cfg.n > 1 && IsBucketedTag(tag)
    ensures (forall b: nat :: b < cfg.n ==> HashedText(Key(cfg, tag, b, pattern, port)) == cfg.tokens[b])
            <==> '{' !in cfg.ns
  {
    hide HashedText, Key;
    if '{' in cfg.ns {
      TokenNotHashed(cfg, tag, 0, pattern, port);
      TokenNotHashed(cfg, tag, 1, pattern, port);
      assert cfg.tokens[0] != cfg.tokens[1];
    } else {
      forall b: nat | b < cfg.n
        ensures HashedText(Key(cfg, tag, b, pattern, port)) == cfg.tokens[b]
      {
        TokenHashed(cfg, tag, b, pattern, port);
      }
    }
  }

  // ----- The slots of one lookup -----

  predicate StartsClosing(ns: string) {
    ns != "" && ns[0] == '}'
  }

  predicate HasEmptySpan(ns: string) {
    Find(ns, '{') + 1 < |ns| && ns[Find(ns, '{') + 1] == '}'
  }

  /** The namespace leaves the keys of a tag a nonempty brace span to hash. */
  predicate HasSpan(cfg: Config, tag: string) {
    if IsBucketedTag(tag) && cfg.n > 1 then !HasEmptySpan(cfg.ns) else !StartsClosing(cfg.ns)
  }

  function ReplicaSpan(cfg: Config, b: nat): string
    requires cfg.Valid() && b < cfg.n && cfg.n > 1
  {
    if '{' !in cfg.ns then cfg.tokens[b]
    else
      var inner := cfg.ns[Find(cfg.ns, '{') + 1..];
      if '}' !in inner then inner + ":{" + cfg.tokens[b] else inner[..Find(inner, '}')]
  }

  /** The text hashed for every key of one tag, in one lookup. */
  function GroupText(cfg: Config, tag: string, b: nat): string
    requires cfg.Valid() && b < cfg.n
  {
    if IsBucketedTag(tag) && cfg.n > 1 then ReplicaSpan(cfg, b)
    else var t := cfg.ns + ":" + tag; t[..Find(t, '}')]
  }

  lemma FindWithin(s: string, c: char)
    ensures Find(s, c) == |s| <==> c !in s
    ensures Find(s, c) == 0 && c in s <==> s != "" && s[0] == c
  {
  }

  lemma SingleHashed(t: string, tail: string)
    requires t != "" && t[0] != '}'
    ensures HashedText("r:{" + t + "}" + tail) == t[..Find(t, '}')]
  {
    hide HashedText;
    var end := Find(t, '}');
    var post := t[end..] + "}" + tail;
    assert post[0] == '}';
    assert end != 0;
    HashedTextAt("r:", t[..end], post[1..]);
    assert t == t[..end] + t[end..];
    assert "r:{" + t + "}" + tail == "r:" + "{" + t[..end] + post;
    assert post == "}" + post[1..];
    assert "r:" + "{" + t[..end] + post == "r:" + "{" + t[..end] + "}" + post[1..];
  }

  lemma ClosingHashed(x: string)
    requires StartsClosing(x)
    ensures HashedText("r:{" + x) == "r:{" + x
  {
    var key := "r:{" + x;
    FindUnique(key, '{', 2);
    assert key[3..] == x;
    FindUnique(x, '}', 0);
  }

  lemma ReplicaHashed(cfg: Config, tag: string, b: nat, pattern: string, port: int)
    requires cfg.Valid() && cfg.n > 1 && b < cfg.n && IsBucketedTag(tag)
    ensures HashedText(Key(cfg, tag, b, pattern, port)) ==
            if HasEmptySpan(cfg.ns) then Key(cfg, tag, b, pattern, port) else ReplicaSpan(cfg, b)
  {
    hide HashedText, Key, Find;
    TokenChars(cfg, b);
    if '{' !in cfg.ns {
      TokenHashed(cfg, tag, b, pattern, port);
      FindWithin(cfg.ns, '{');
    } else {
      var ns := cfg.ns;
      var inner := ns[Find(ns, '{') + 1..];
      var tail := KeyTail(cfg, tag, b, pattern, port);
      BraceInNamespace(ns, cfg.tokens[b], tail);
      HashedSpan(ns, Find(ns, '{'), inner);
      FindWithin(inner, '}');
      FindWithin(ns, '{');
      assert HasEmptySpan(ns) <==> inner != "" && inner[0] == '}';
    }
  }

  lemma PlainHashed(cfg: Config, tag: string, b: nat, pattern: string, port: int)
    requires cfg.Valid() && b < cfg.n && !(IsBucketedTag(tag) && cfg.n > 1)
    ensures HashedText(Key(cfg, tag, b, pattern, port)) ==
            if StartsClosing(cfg.ns) then Key(cfg, tag, b, pattern, port) else GroupText(cfg, tag, b)
  {
    hide HashedText, Integer, IsBucketedTag;
    var t := cfg.ns + ":" + tag;
    var tail := ":" + pattern + ":" + Integer(port);
    assert t[0] == if cfg.ns == "" then ':' else cfg.ns[0];
    assert Key(cfg, tag, b, pattern, port) == "r:{" + t + "}" + tail;
    if StartsClosing(cfg.ns) {
      var x := t + "}" + tail;
      assert "r:{" + t + "}" + tail == "r:{" + x;
      ClosingHashed(x);
    } else {
      SingleHashed(t, tail);
    }
  }

  /** All keys declared together hash the same text, so they share one slot; otherwise each is hashed whole. */
  lemma GroupSharesSlot(cfg: Config, tag: string, b: nat, pattern: string, port: int)
    requires cfg.Valid() && b < cfg.n
    ensures HashedText(Key(cfg, tag, b, pattern, port)) ==
            if HasSpan(cfg, tag) then GroupText(cfg, tag, b) else Key(cfg, tag, b, pattern, port)
  {
    hide HashedText, Key;
    if IsBucketedTag(tag) && cfg.n > 1 {
      ReplicaHashed(cfg, tag, b, pattern, port);
    } else {
      PlainHashed(cfg, tag, b, pattern, port);
    }
  }

  /** Every script call of every lookup declares keys that hash one text. */
  ghost predicate OneTextPerCall(cfg: Config, b: nat)
    requires cfg.Valid() && b < cfg.n
  {
    forall fqdn, mode, port, i, j | Clean(fqdn) && 0 <= i < |FieldCandidates(fqdn, mode)| && 0 <= j < |FieldCandidates(fqdn, mode)| ::
      SameText(cfg, b, FieldCandidates(fqdn, mode)[i].pattern, FieldCandidates(fqdn, mode)[j].pattern, port)
  }

  /** Keys of one tag hash one text. */
  predicate SameText(cfg: Config, b: nat, p: string, q: string, port: int)
    requires cfg.Valid() && b < cfg.n
  {
    HashTag(p) == HashTag(q) ==> HashedText(KeyFor(cfg, p, port, b)) == HashedText(KeyFor(cfg, q, port, b))
  }

  lemma ThreeLabels(x: string, y: string, z: string)
    requires '.' !in x && '.' !in y && '.' !in z
    ensures Split(y + "." + z, '.') == [y, z] && Split(x + "." + (y + "." + z), '.') == [x, y, z]
  {
    hide Split;
    OnePart(z);
    SplitCons(y, z);
    SplitCons(x, y + "." + z);
  }

  lemma ThreeClean(x: string, y: string, z: string)
    requires forall s :: s in [x, y, z] ==> s != "" && '.' !in s && '*' !in s
    ensures Clean(x + "." + (y + "." + z))
  {
    assert x in [x, y, z] && y in [x, y, z] && z in [x, y, z];
    ThreeLabels(x, y, z);
    hide Split;
    assert '*' !in y + "." + z;
    assert "" !in [x, y, z];
  }

  lemma ThreeTags(x: string, y: string, z: string)
    requires forall s :: s in [x, y, z] ==> s != "" && '.' !in s && '*' !in s
    ensures HashTag(x + "." + (y + "." + z)) == y + "." + z && HashTag("*." + (y + "." + z)) == y + "." + z
    ensures x + "." + (y + "." + z) != "*." + (y + "." + z)
  {
    assert x in [x, y, z] && y in [x, y, z] && z in [x, y, z];
    var rest := y + "." + z;
    var fqdn := x + "." + rest;
    hide Split, HashTag, Clean, StripStar;
    ThreeLabels(x, y, z);
    ThreeClean(x, y, z);
    PlainStripped(fqdn);
    StarStripped(rest);
    StarFreeName(fqdn);
    HashTagCases(fqdn, fqdn, [x, y, z]);
    HashTagCases("*." + rest, rest, [y, z]);
  }

  lemma StarFreeName(f: string)
    requires Clean(f)
    ensures forall x :: f != "*." + x
  {
    assert forall x: string :: ("*." + x)[0] == '*';
  }

  predicate IsLabel(s: string) {
    s != "" && '.' !in s && '*' !in s
  }

  lemma ThreeFacts(x: string, y: string, z: string)
    requires IsLabel(x) && IsLabel(y) && IsLabel(z)
    ensures var fqdn, wild := x + "." + (y + "." + z), "*." + (y + "." + z);
            && Clean(fqdn) && Split(fqdn, '.') == [x, y, z] && fqdn != wild
            && HashTag(fqdn) == y + "." + z == HashTag(wild)
  {
    hide Split, HashTag, Clean;
    ThreeLabels(x, y, z);
    ThreeClean(x, y, z);
    ThreeTags(x, y, z);
  }

  lemma SmallLabels()
    ensures IsLabel("a") && IsLabel("b") && IsLabel("c") && IsLabel("__tld__:b")
  {
  }

  /** Two candidates of a name of three labels share its tag. */
  lemma TwoOfOneTag(x: string, y: string, z: string) returns (fqdn: string)
    requires forall s :: s in [x, y, z] ==> s != "" && '.' !in s && '*' !in s
    ensures fqdn == x + "." + (y + "." + z)
    ensures Clean(fqdn) && HashTag(fqdn) == y + "." + z && fqdn != "*." + (y + "." + z)
    ensures |FieldCandidates(fqdn, SingleLevel)| == 3
    ensures FieldCandidates(fqdn, SingleLevel)[0].pattern == fqdn
    ensures FieldCandidates(fqdn, SingleLevel)[1].pattern == "*." + (y + "." + z)
    ensures HashTag("*." + (y + "." + z)) == y + "." + z
  {
    fqdn := x + "." + (y + "." + z);
    assert x in [x, y, z] && y in [x, y, z] && z in [x, y, z];
    ThreeLabels(x, y, z);
    ThreeClean(x, y, z);
    ThreeTags(x, y, z);
    hide Split, HashTag, Clean, FieldCandidates, Join;
    assert [x, y, z][1..] == [y, z];
    JoinTwo(y, z);
    TwoLevels(fqdn, y + "." + z);
  }

  lemma TwoLevels(fqdn: string, rest: string)
    requires |Split(fqdn, '.')| == 3 && rest == Join(Split(fqdn, '.')[1..], '.')
    ensures |FieldCandidates(fqdn, SingleLevel)| == 3
    ensures FieldCandidates(fqdn, SingleLevel)[0].pattern == fqdn
    ensures FieldCandidates(fqdn, SingleLevel)[1].pattern == "*." + rest
  {
    hide FieldCandidates, Split, Join;
    CandidateAtLevel(fqdn, SingleLevel, 0);
    CandidateAtLevel(fqdn, SingleLevel, 1);
  }

  lemma OnePart(z: string)
    requires '.' !in z
    ensures Split(z, '.') == [z]
  {
    FindUnique(z, '.', |z|);
  }

  /** Exactly which namespaces keep each script call on one text. */
  lemma OneTextPerCallIff(cfg: Config, b: nat)
    requires cfg.Valid() && b < cfg.n
    ensures OneTextPerCall(cfg, b) <==> !StartsClosing(cfg.ns) && (cfg.n > 1 ==> !HasEmptySpan(cfg.ns))
  {
    hide HashedText, HashTag, FieldCandidates, Clean, IsBucketedTag, GroupText, HasEmptySpan, StartsClosing, Key;
    if StartsClosing(cfg.ns) {
      var fqdn := TwoOfOneTag("a", "b", "c");
      PlainTag();
      TwoTexts(cfg, b, fqdn, "*." + ("b" + "." + "c"));
    } else if cfg.n > 1 && HasEmptySpan(cfg.ns) {
      var fqdn := TwoOfOneTag("a", "__tld__:b", "c");
      BucketedTag();
      TwoTexts(cfg, b, fqdn, "*." + ("__tld__:b" + "." + "c"));
    } else {
      forall fqdn, mode, port, i, j | Clean(fqdn) && 0 <= i < |FieldCandidates(fqdn, mode)| && 0 <= j < |FieldCandidates(fqdn, mode)|
        ensures SameText(cfg, b, FieldCandidates(fqdn, mode)[i].pattern, FieldCandidates(fqdn, mode)[j].pattern, port)
      {
        var p, q := FieldCandidates(fqdn, mode)[i].pattern, FieldCandidates(fqdn, mode)[j].pattern;
        GroupSharesSlot(cfg, HashTag(p), b, p, port);
        GroupSharesSlot(cfg, HashTag(q), b, q, port);
      }
    }
  }

  lemma PlainTag()
    ensures !IsBucketedTag("b" + "." + "c")
  {
    assert ("b" + "." + "c")[0] == 'b';
  }

  lemma BucketedTag()
    ensures IsBucketedTag("__tld__:b" + "." + "c")
  {
    assert "__tld__:b" + "." + "c" == "__tld__:" + ("b" + "." + "c");
  }

  lemma TwoTexts(cfg: Config, b: nat, p: string, q: string)
    requires cfg.Valid() && b < cfg.n && p != q && HashTag(p) == HashTag(q) && !HasSpan(cfg, HashTag(p))
    ensures !SameText(cfg, b, p, q, 443)
  {
    hide HashedText, HashTag, Key, HasSpan;
    GroupSharesSlot(cfg, HashTag(p), b, p, 443);
    GroupSharesSlot(cfg, HashTag(q), b, q, 443);
    if KeyFor(cfg, p, 443, b) == KeyFor(cfg, q, 443, b) {
      KeyInjective(cfg, p, 443, b, q, 443, b);
    }
  }

  /** The tags of one name: its own, its top label's, and the global one. */
  lemma CandidateTags(fqdn: string, mode: MatchMode, i: nat)
    requires Clean(fqdn) && i < |FieldCandidates(fqdn, mode)|
    ensures var labels := Split(fqdn, '.');
            HashTag(FieldCandidates(fqdn, mode)[i].pattern)
              in {HashTag(fqdn), "__tld__:" + labels[|labels| - 1], "__global__"}
  {
    var labels := Split(fqdn, '.');
    if 0 < i < Depth(fqdn, mode) {
      SplitParts(fqdn, '.');
      LevelTag(fqdn, labels, i);
    }
  }

  lemma LevelTag(fqdn: string, labels: seq<string>, k: nat)
    requires Clean(fqdn) && labels == Split(fqdn, '.') && 1 <= k < |labels|
    requires forall part :: part in labels ==> '.' !in part
    ensures HashTag("*." + Join(labels[k..], '.')) ==
            if k == |labels| - 1 then "__tld__:" + labels[|labels| - 1] else HashTag(fqdn)
  {
    hide HashTag, Split, Join;
    var suffix := Join(labels[k..], '.');
    SplitJoin(labels[k..], '.');
    StarStripped(suffix);
    HashTagCases("*." + suffix, suffix, labels[k..]);
    PlainStripped(fqdn);
    HashTagCases(fqdn, fqdn, labels);
  }

  lemma StarStripped(suffix: string)
    ensures StripStar("*." + suffix) == suffix && "*." + suffix != "*"
  {
    assert ("*." + suffix)[2..] == suffix;
    assert |"*." + suffix| >= 2;
  }

  lemma PlainStripped(fqdn: string)
    requires Clean(fqdn)
    ensures StripStar(fqdn) == fqdn && fqdn != "*"
  {
    CleanEnds(fqdn);
    hide Split;
    assert fqdn[0] in fqdn;
  }

  /** A lookup declares keys under at most three texts, two when the catch-all tiers are replicated. */
  lemma LookupSlots(cfg: Config, fqdn: string, mode: MatchMode, port: int, b: nat, i: nat)
    requires cfg.Valid() && b < cfg.n && Clean(fqdn) && i < |FieldCandidates(fqdn, mode)|
    requires OneTextPerCall(cfg, b)
    ensures var pattern := FieldCandidates(fqdn, mode)[i].pattern;
            var labels := Split(fqdn, '.');
            HashedText(KeyFor(cfg, pattern, port, b)) in
              if cfg.n > 1 then {GroupText(cfg, HashTag(fqdn), b), ReplicaSpan(cfg, b)}
              else {GroupText(cfg, HashTag(fqdn), b),
                    GroupText(cfg, "__tld__:" + labels[|labels| - 1], b),
                    GroupText(cfg, "__global__", b)}
  {
    var pattern := FieldCandidates(fqdn, mode)[i].pattern;
    CandidateTags(fqdn, mode, i);
    OneTextPerCallIff(cfg, b);
    hide HashedText, HashTag, FieldCandidates, Split, Key, ReplicaSpan, HasEmptySpan, StartsClosing, OneTextPerCall, Clean;
    GroupSharesSlot(cfg, HashTag(pattern), b, pattern, port);
  }

  lemma {:induction false} DistinctWithin(tags: seq<string>, within: set<string>)
    requires forall i, j :: 0 <= i < j < |tags| ==> tags[i] != tags[j]
    requires forall i :: 0 <= i < |tags| ==> tags[i] in within
    ensures |tags| <= |within|
  {
    if tags != [] {
      DistinctWithin(tags[1..], within - {tags[0]});
    }
  }

  /** A lookup makes at most three script calls. */
  lemma AtMostThreeGroups(fqdn: string, mode: MatchMode, n: nat, checksum: string -> nat,
                          tags: seq<string>, groups: map<string, seq<Candidate>>)
    requires Clean(fqdn) && Grouped(Candidates(fqdn, mode, n, checksum), tags, groups)
    ensures |tags| <= 3
  {
    var xs := Candidates(fqdn, mode, n, checksum);
    var labels := Split(fqdn, '.');
    var within := {HashTag(fqdn), "__tld__:" + labels[|labels| - 1], "__global__"};
    forall i | 0 <= i < |tags|
      ensures tags[i] in within
    {
      assert tags[i] in tags && GroupOf(xs, tags[i], groups[tags[i]]);
      var a := groups[tags[i]][0];
      assert a in groups[tags[i]];
      var k :| 0 <= k < |xs| && xs[k] == a;
      CandidateTags(fqdn, mode, k);
    }
    DistinctWithin(tags, within);
    SetOfThree(HashTag(fqdn), "__tld__:" + labels[|labels| - 1], "__global__");
  }

  lemma SetOfThree(a: string, b: string, c: string)
    ensures |{a, b, c}| <= 3
  {
    assert {a, b, c} == {a} + {b} + {c};
  }
}
