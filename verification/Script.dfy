/**
 The server-side script of the grouped lookup: bit lists travel as comma-joined
 text, and the script returns the first unblocked hit of the keys it was given.
 */
module Script {
  import opened Text
  import opened Pattern
  import opened Keys
  import opened Database
  import opened Lookups

  // ----- Bit lists -----

  function BitTexts(bits: seq<bool>): (r: seq<string>)
    ensures |r| == |bits|
    ensures forall i :: 0 <= i < |r| ==> r[i] == if bits[i] then "1" else "0"
  {
    seq(|bits|, i requires 0 <= i < |bits| => if bits[i] then "1" else "0")
  }

  function JoinBits(bits: seq<bool>): string {
    if bits == [] then "" else Join(BitTexts(bits), ',')
  }

  /** Lua's gmatch "[^,]+": the nonempty runs between commas. */
  function Runs(parts: seq<string>): seq<string> {
    if parts == [] then [] else (if parts[0] == "" then [] else [parts[0]]) + Runs(parts[1..])
  }

  function ParseBits(s: string): (r: seq<bool>) {
    var runs := Runs(Split(s, ','));
    seq(|runs|, i requires 0 <= i < |runs| => runs[i] == "1")
  }

  lemma {:induction false} RunsSame(parts: seq<string>)
    requires "" !in parts
    ensures Runs(parts) == parts
  {
    if parts != [] {
      assert parts[0] in parts;
      RunsSame(parts[1..]);
    }
  }

  lemma BitsRoundTrip(bits: seq<bool>)
    ensures ParseBits(JoinBits(bits)) == bits
  {
    if bits == [] {
      assert Split("", ',') == [""];
      assert Runs([""]) == Runs([""][1..]);
    } else {
      var texts := BitTexts(bits);
      SplitJoin(texts, ',');
      RunsSame(texts);
    }
  }

  /** The text on the wire. */
  lemma BitText()
    ensures JoinBits([true, false]) == "1,0" && ParseBits("1,0") == [true, false]
  {
    assert BitTexts([true, false]) == ["1", "0"];
    assert ["1", "0"][1..] == ["0"];
    assert Join(["1", "0"], ',') == "1" + [','] + "0";
    BitsRoundTrip([true, false]);
  }

  // ----- The script -----

  datatype Hit = Hit(keyIndex: nat, fieldIndex: nat, ruleId: string)

  /** Past the end of a table Lua reads nil, which counts as false. */
  predicate Flag(bits: seq<bool>, i: nat) { i < |bits| && bits[i] }

  predicate Open(h: Hashes, keys: seq<string>, kmulti: seq<bool>, kexact: seq<bool>, fmulti: seq<bool>,
                 fields: seq<string>, i: nat, j: nat)
    requires i < |keys| && j < |fields|
  {
    var v := Get(h, keys[i], fields[j]);
    v.Some? && !ScriptBlocked(Flag(kexact, i) && j == 0, Flag(kmulti, i) || Flag(fmulti, j), v.value)
  }

  predicate ScriptBlocked(exact: bool, deep: bool, v: string) {
    var scope := if v == "" then "" else v[..1];
    !exact && ((deep && scope == "S") || (!deep && scope == "M"))
  }

  /** Row by row: is pair (i, j) before pair (k, l)? */
  predicate Before(i: int, j: int, k: int, l: int) { i < k || (i == k && j < l) }

  /** The hit is the first open pair, or there is no open pair. */
  ghost predicate IsFirstOpen(h: Hashes, keys: seq<string>, kmulti: seq<bool>, kexact: seq<bool>, fmulti: seq<bool>,
                              fields: seq<string>, hit: Option<Hit>) {
    match hit
    case None => forall i, j :: 0 <= i < |keys| && 0 <= j < |fields| ==> !Open(h, keys, kmulti, kexact, fmulti, fields, i, j)
    case Some(x) =>
      && 1 <= x.keyIndex <= |keys| && 1 <= x.fieldIndex <= |fields|
      && Open(h, keys, kmulti, kexact, fmulti, fields, x.keyIndex - 1, x.fieldIndex - 1)
      && (var v := Get(h, keys[x.keyIndex - 1], fields[x.fieldIndex - 1]).value;
          x.ruleId == if v == "" then "" else v[1..])
      && forall i, j :: 0 <= i < |keys| && 0 <= j < |fields| && Before(i, j, x.keyIndex - 1, x.fieldIndex - 1) ==>
           !Open(h, keys, kmulti, kexact, fmulti, fields, i, j)
  }

  method EvalLookup(db: Db, keys: seq<string>, argv1: string, argv2: string, argv3: string, fields: seq<string>)
    returns (hit: Option<Hit>)
    ensures IsFirstOpen(db.hashes, keys, ParseBits(argv1), ParseBits(argv2), ParseBits(argv3), fields, hit)
  {
    hide ParseBits, Get;
    var kmulti, kexact, fmulti := ParseBits(argv1), ParseBits(argv2), ParseBits(argv3);
    for i := 0 to |keys|
      invariant forall k, l :: 0 <= k < i && 0 <= l < |fields| ==>
                  !Open(db.hashes, keys, kmulti, kexact, fmulti, fields, k, l)
    {
      var vals := db.HMGet(keys[i], fields);
      for j := 0 to |vals|
        invariant forall k, l :: 0 <= k <= i && 0 <= l < |fields| && Before(k, l, i, j) ==>
                    !Open(db.hashes, keys, kmulti, kexact, fmulti, fields, k, l)
      {
        if vals[j].Some? {
          var v := vals[j].value;
          var exact := Flag(kexact, i) && j == 0;
          var deep := Flag(kmulti, i) || Flag(fmulti, j);
          var scope := if v == "" then "" else v[..1];
          var blocked := !exact && ((deep && scope == "S") || (!deep && scope == "M"));
          if !blocked {
            return Some(Hit(i + 1, j + 1, if v == "" then "" else v[1..]));
          }
        }
      }
    }
    return None;
  }

  // ----- One group of candidates -----

  function MultiBits(group: seq<Candidate>): seq<bool> {
    seq(|group|, i requires 0 <= i < |group| => group[i].needsMulti)
  }

  function ExactBits(group: seq<Candidate>): seq<bool> {
    seq(|group|, i requires 0 <= i < |group| => group[i].rank == 0)
  }

  function FieldMultiBits(ys: seq<FieldCandidate>): seq<bool> {
    seq(|ys|, i requires 0 <= i < |ys| => ys[i].needsMulti)
  }

  function Patterns(ys: seq<FieldCandidate>): (r: seq<string>)
    ensures |r| == |ys| && forall i :: 0 <= i < |r| ==> r[i] == ys[i].pattern
  {
    seq(|ys|, i requires 0 <= i < |ys| => ys[i].pattern)
  }

  function GroupKeys(cfg: Config, tag: string, group: seq<Candidate>, port: int): (r: seq<string>)
    requires cfg.Valid() && forall a :: a in group ==> a.bucketIndex < cfg.n
    ensures |r| == |group|
    ensures forall i :: 0 <= i < |r| ==> r[i] == Key(cfg, tag, group[i].bucketIndex, group[i].pattern, port)
  {
    seq(|group|, i requires 0 <= i < |group| && group[i] in group => Key(cfg, tag, group[i].bucketIndex, group[i].pattern, port))
  }

  /** What the script sees through keys, bits and fields is what the scan sees. */
  lemma OpenIsVisible(cfg: Config, h: Hashes, tag: string, group: seq<Candidate>, ys: seq<FieldCandidate>, port: int,
                      i: nat, j: nat)
    requires Usable(cfg, h, group) && Ordered(group, ys)
    requires forall a :: a in group ==> a.tag == tag
    requires |ys| > 0 && ys[0].rank == 0
    requires i < |group| && j < |ys|
    ensures Open(h, GroupKeys(cfg, tag, group, port), MultiBits(group), ExactBits(group), FieldMultiBits(ys),
                 Patterns(ys), i, j)
       <==> Visible(cfg, h, group[i], ys[j], port)
  {
    hide Key, HashTag;
    assert group[i] in group;
    var raw := Raw(cfg, h, group[i], ys[j], port);
    if raw.Some? {
      StoredIsNonempty(h, Key(cfg, tag, group[i].bucketIndex, group[i].pattern, port), ys[j].pattern);
    }
    assert j > 0 ==> ys[0].rank < ys[j].rank;
  }

  lemma StoredIsNonempty(h: Hashes, k: string, f: string)
    requires WellFormed(h) && Get(h, k, f).Some?
    ensures Get(h, k, f).value != ""
  {
  }

  function HitMatch(group: seq<Candidate>, ys: seq<FieldCandidate>, port: int, hit: Option<Hit>): Option<Match>
    requires hit.Some? ==> 1 <= hit.value.keyIndex <= |group| && 1 <= hit.value.fieldIndex <= |ys|
  {
    match hit
    case None => None
    case Some(x) =>
      var a, c := group[x.keyIndex - 1], ys[x.fieldIndex - 1];
      Some(Match(x.ruleId, a.pattern, port, c.pattern, a.rank, c.rank))
  }

  /** One call of the script, turned into a match as the caller does. */
  method ScanGroup(cfg: Config, db: Db, tag: string, group: seq<Candidate>, ys: seq<FieldCandidate>, port: int)
    returns (r: Option<Match>)
    requires Usable(cfg, db.hashes, group) && Ordered(group, ys)
    requires forall a :: a in group ==> a.tag == tag
    requires |ys| > 0 && ys[0].rank == 0
    ensures IsScan(cfg, db.hashes, group, ys, port, r)
  {
    hide IsScan, JoinBits, ParseBits, ExactBits, MultiBits, FieldMultiBits, Ordered, Open;
    BitsRoundTrip(MultiBits(group));
    BitsRoundTrip(ExactBits(group));
    BitsRoundTrip(FieldMultiBits(ys));
    var hit := EvalLookup(db, GroupKeys(cfg, tag, group, port), JoinBits(MultiBits(group)), JoinBits(ExactBits(group)),
                          JoinBits(FieldMultiBits(ys)), Patterns(ys));
    r := HitMatch(group, ys, port, hit);
    HitIsScan(cfg, db.hashes, tag, group, ys, port, hit);
  }

  lemma HitIsScan(cfg: Config, h: Hashes, tag: string, group: seq<Candidate>, ys: seq<FieldCandidate>, port: int,
                  hit: Option<Hit>)
    requires Usable(cfg, h, group) && Ordered(group, ys)
    requires forall a :: a in group ==> a.tag == tag
    requires |ys| > 0 && ys[0].rank == 0
    requires IsFirstOpen(h, GroupKeys(cfg, tag, group, port), MultiBits(group), ExactBits(group), FieldMultiBits(ys),
                         Patterns(ys), hit)
    ensures IsScan(cfg, h, group, ys, port, HitMatch(group, ys, port, hit))
  {
    hide Visible, Open, WellFormed, ExactBits, MultiBits, FieldMultiBits, Ordered, Found, IsHit, NotWorse, Before, GroupKeys, Patterns;
    match hit {
      case Some(x) =>
        OpenBefore(cfg, h, tag, group, ys, port, x);
        hide IsFirstOpen;
        FirstIsLeast(cfg, h, group, ys, port, x.keyIndex - 1, x.fieldIndex - 1);
        FoundByScript(cfg, h, tag, group, ys, port, x, HitMatch(group, ys, port, hit).value);
        assert group[x.keyIndex - 1] in group && ys[x.fieldIndex - 1] in ys;
      case None =>
        forall i, j | 0 <= i < |group| && 0 <= j < |ys|
          ensures !Visible(cfg, h, group[i], ys[j], port)
        {
          OpenIsVisible(cfg, h, tag, group, ys, port, i, j);
        }
        hide IsFirstOpen;
        NoneVisible(cfg, h, group, ys, port);
    }
  }

  /** The hit is visible, nothing before it is, and its id is the text after the scope letter. */
  lemma OpenBefore(cfg: Config, h: Hashes, tag: string, group: seq<Candidate>, ys: seq<FieldCandidate>, port: int, x: Hit)
    requires Usable(cfg, h, group) && Ordered(group, ys)
    requires forall a :: a in group ==> a.tag == tag
    requires |ys| > 0 && ys[0].rank == 0
    requires IsFirstOpen(h, GroupKeys(cfg, tag, group, port), MultiBits(group), ExactBits(group), FieldMultiBits(ys),
                         Patterns(ys), Some(x))
    ensures 1 <= x.keyIndex <= |group| && 1 <= x.fieldIndex <= |ys|
    ensures Visible(cfg, h, group[x.keyIndex - 1], ys[x.fieldIndex - 1], port)
    ensures var v := Get(h, GroupKeys(cfg, tag, group, port)[x.keyIndex - 1], Patterns(ys)[x.fieldIndex - 1]);
            v.Some? ==> x.ruleId == if v.value == "" then "" else v.value[1..]
    ensures forall i, j :: 0 <= i < |group| && 0 <= j < |ys| && Before(i, j, x.keyIndex - 1, x.fieldIndex - 1) ==>
              !Visible(cfg, h, group[i], ys[j], port)
  {
    hide Visible, Open, WellFormed, ExactBits, MultiBits, FieldMultiBits, Ordered, Before, GroupKeys, Patterns;
    OpenIsVisible(cfg, h, tag, group, ys, port, x.keyIndex - 1, x.fieldIndex - 1);
    forall i, j | 0 <= i < |group| && 0 <= j < |ys| && Before(i, j, x.keyIndex - 1, x.fieldIndex - 1)
      ensures !Visible(cfg, h, group[i], ys[j], port)
    {
      OpenIsVisible(cfg, h, tag, group, ys, port, i, j);
    }
  }

  lemma NoneVisible(cfg: Config, h: Hashes, group: seq<Candidate>, ys: seq<FieldCandidate>, port: int)
    requires Usable(cfg, h, group)
    requires forall i, j :: 0 <= i < |group| && 0 <= j < |ys| ==> !Visible(cfg, h, group[i], ys[j], port)
    ensures forall a, c :: a in group && c in ys ==> !Visible(cfg, h, a, c, port)
  {
    hide Visible, WellFormed;
    forall a, c | a in group && c in ys
      ensures !Visible(cfg, h, a, c, port)
    {
      var i :| 0 <= i < |group| && group[i] == a;
      var j :| 0 <= j < |ys| && ys[j] == c;
    }
  }

  lemma FoundByScript(cfg: Config, h: Hashes, tag: string, group: seq<Candidate>, ys: seq<FieldCandidate>, port: int,
                      x: Hit, m: Match)
    requires Usable(cfg, h, group) && forall a :: a in group ==> a.tag == tag
    requires 1 <= x.keyIndex <= |group| && 1 <= x.fieldIndex <= |ys|
    requires Visible(cfg, h, group[x.keyIndex - 1], ys[x.fieldIndex - 1], port)
    requires var v := Get(h, GroupKeys(cfg, tag, group, port)[x.keyIndex - 1], Patterns(ys)[x.fieldIndex - 1]);
             v.Some? ==> x.ruleId == if v.value == "" then "" else v.value[1..]
    requires var a, c := group[x.keyIndex - 1], ys[x.fieldIndex - 1];
             m == Match(x.ruleId, a.pattern, port, c.pattern, a.rank, c.rank)
    ensures IsHit(cfg, h, group[x.keyIndex - 1], ys[x.fieldIndex - 1], port, m)
  {
    hide Key;
    assert group[x.keyIndex - 1] in group;
  }

  /** The first visible pair in row order has the least ranks. */
  lemma FirstIsLeast(cfg: Config, h: Hashes, group: seq<Candidate>, ys: seq<FieldCandidate>, port: int, k: nat, l: nat)
    requires Usable(cfg, h, group) && Ordered(group, ys) && k < |group| && l < |ys|
    requires forall i, j :: 0 <= i < |group| && 0 <= j < |ys| && Before(i, j, k, l) ==>
               !Visible(cfg, h, group[i], ys[j], port)
    ensures forall a, c :: a in group && c in ys && Visible(cfg, h, a, c, port) ==>
              NotWorse(group[k].rank, ys[l].rank, a.rank, c.rank)
  {
    hide Visible, WellFormed;
    forall a, c | a in group && c in ys && Visible(cfg, h, a, c, port)
      ensures NotWorse(group[k].rank, ys[l].rank, a.rank, c.rank)
    {
      var i :| 0 <= i < |group| && group[i] == a;
      var j :| 0 <= j < |ys| && ys[j] == c;
      assert !Before(i, j, k, l);
    }
  }

  // ----- Grouping by hash tag -----

  ghost predicate Grouped(xs: seq<Candidate>, tags: seq<string>, groups: map<string, seq<Candidate>>) {
    && (forall tag :: tag in tags <==> tag in groups)
    && (forall i, j :: 0 <= i < j < |tags| ==> tags[i] != tags[j])
    && (forall a :: a in xs ==> a.tag in groups && a in groups[a.tag])
    && (forall tag :: tag in groups ==> GroupOf(xs, tag, groups[tag]))
    && FirstSeen(tags, groups)
  }

  /** Tags come in the order of their first candidates. */
  predicate FirstSeen(tags: seq<string>, groups: map<string, seq<Candidate>>)
    requires forall tag :: tag in tags ==> tag in groups && |groups[tag]| > 0
  {
    forall i, j :: 0 <= i < j < |tags| ==> groups[tags[i]][0].rank < groups[tags[j]][0].rank
  }

  ghost predicate GroupOf(xs: seq<Candidate>, tag: string, group: seq<Candidate>) {
    && (forall a :: a in group ==> a in xs && a.tag == tag)
    && (forall i, j :: 0 <= i < j < |group| ==> group[i].rank < group[j].rank)
    && |group| > 0
  }

  method GroupByTag(xs: seq<Candidate>) returns (tags: seq<string>, groups: map<string, seq<Candidate>>)
    requires forall i, j :: 0 <= i < j < |xs| ==> xs[i].rank < xs[j].rank
    ensures Grouped(xs, tags, groups)
  {
    tags, groups := [], map[];
    assert Grouped(xs[..0], tags, groups);
    for i := 0 to |xs|
      invariant Grouped(xs[..i], tags, groups)
    {
      var c := xs[i];
      hide Grouped;
      GroupNext(xs, i, tags, groups);
      if c.tag !in groups {
        tags := tags + [c.tag];
        groups := groups[c.tag := []];
      }
      groups := groups[c.tag := groups[c.tag] + [c]];
    }
    assert xs[..|xs|] == xs;
  }

  lemma GroupNext(xs: seq<Candidate>, i: nat, tags: seq<string>, groups: map<string, seq<Candidate>>)
    requires i < |xs| && Grouped(xs[..i], tags, groups)
    requires forall k, l :: 0 <= k < l < |xs| ==> xs[k].rank < xs[l].rank
    ensures var c := xs[i];
            if c.tag in groups then Grouped(xs[..i + 1], tags, groups[c.tag := groups[c.tag] + [c]])
            else Grouped(xs[..i + 1], tags + [c.tag], groups[c.tag := []][c.tag := [] + [c]])
  {
    hide Grouped;
    GroupStep(xs[..i], tags, groups, xs[i]);
    assert xs[..i + 1] == xs[..i] + [xs[i]];
    assert groups[xs[i].tag := []][xs[i].tag := [] + [xs[i]]] == groups[xs[i].tag := [] + [xs[i]]];
  }

  lemma GroupStep(xs: seq<Candidate>, tags: seq<string>, groups: map<string, seq<Candidate>>, c: Candidate)
    requires Grouped(xs, tags, groups) && forall a :: a in xs ==> a.rank < c.rank
    ensures var tags' := if c.tag in groups then tags else tags + [c.tag];
            var group := if c.tag in groups then groups[c.tag] else [];
            Grouped(xs + [c], tags', groups[c.tag := group + [c]])
  {
    hide GroupOf, FirstSeen;
    FirstSeenStep(xs, tags, groups, c);
    var group := if c.tag in groups then groups[c.tag] else [];
    var groups' := groups[c.tag := group + [c]];
    if c.tag in groups {
      GroupOfAppend(xs, c.tag, group, c);
    } else {
      GroupOfNew(xs, c);
    }
    forall tag | tag in groups'
      ensures GroupOf(xs + [c], tag, groups'[tag])
    {
      if tag != c.tag {
        GroupOfWiden(xs, tag, groups[tag], c);
      }
    }
    forall a | a in xs + [c]
      ensures a.tag in groups' && a in groups'[a.tag]
    {
      assert a in xs || a == c;
    }
  }

  lemma FirstSeenStep(xs: seq<Candidate>, tags: seq<string>, groups: map<string, seq<Candidate>>, c: Candidate)
    requires Grouped(xs, tags, groups) && forall a :: a in xs ==> a.rank < c.rank
    ensures var tags' := if c.tag in groups then tags else tags + [c.tag];
            var group := if c.tag in groups then groups[c.tag] else [];
            var groups' := groups[c.tag := group + [c]];
            && (forall tag :: tag in tags' ==> tag in groups' && |groups'[tag]| > 0)
            && FirstSeen(tags', groups')
  {
    forall tag | tag in tags
      ensures tag in groups && |groups[tag]| > 0 && groups[tag][0].rank < c.rank
    {
      assert GroupOf(xs, tag, groups[tag]);
      assert groups[tag][0] in groups[tag];
    }
    assert c.tag in groups <==> c.tag in tags;
    hide Grouped;
    FirstSeenAdd(tags, groups, c);
  }

  lemma FirstSeenAdd(tags: seq<string>, groups: map<string, seq<Candidate>>, c: Candidate)
    requires forall tag :: tag in tags ==> tag in groups && |groups[tag]| > 0 && groups[tag][0].rank < c.rank
    requires FirstSeen(tags, groups) && (c.tag in groups <==> c.tag in tags)
    ensures var tags' := if c.tag in groups then tags else tags + [c.tag];
            var group := if c.tag in groups then groups[c.tag] else [];
            var groups' := groups[c.tag := group + [c]];
            && (forall tag :: tag in tags' ==> tag in groups' && |groups'[tag]| > 0)
            && FirstSeen(tags', groups')
  {
    if c.tag in groups {
      SameLeads(tags, groups, groups[c.tag := groups[c.tag] + [c]]);
    } else {
      SameLeads(tags, groups, groups[c.tag := [] + [c]]);
      LeadAppended(tags, groups[c.tag := [] + [c]], c);
    }
  }

  lemma SameLeads(tags: seq<string>, groups: map<string, seq<Candidate>>, groups': map<string, seq<Candidate>>)
    requires forall tag :: tag in tags ==> tag in groups && |groups[tag]| > 0
    requires forall tag :: tag in tags ==> tag in groups' && |groups'[tag]| > 0 && groups'[tag][0] == groups[tag][0]
    requires FirstSeen(tags, groups)
    ensures FirstSeen(tags, groups')
  {
    forall i, j | 0 <= i < j < |tags|
      ensures groups'[tags[i]][0].rank < groups'[tags[j]][0].rank
    {
      assert tags[i] in tags && tags[j] in tags;
    }
  }

  lemma LeadAppended(tags: seq<string>, groups: map<string, seq<Candidate>>, c: Candidate)
    requires forall tag :: tag in tags ==> tag in groups && |groups[tag]| > 0 && groups[tag][0].rank < c.rank
    requires FirstSeen(tags, groups) && c.tag in groups && groups[c.tag] == [c]
    ensures forall tag :: tag in tags + [c.tag] ==> tag in groups && |groups[tag]| > 0
    ensures FirstSeen(tags + [c.tag], groups)
  {
    var all := tags + [c.tag];
    forall i, j | 0 <= i < j < |all|
      ensures groups[all[i]][0].rank < groups[all[j]][0].rank
    {
      assert all[i] in tags;
    }
  }

  lemma GroupOfAppend(xs: seq<Candidate>, tag: string, group: seq<Candidate>, c: Candidate)
    requires GroupOf(xs, tag, group) && c.tag == tag && forall a :: a in xs ==> a.rank < c.rank
    ensures GroupOf(xs + [c], tag, group + [c])
  {
    forall i | 0 <= i < |group|
      ensures group[i].rank < c.rank
    {
      assert group[i] in group;
    }
  }

  lemma GroupOfNew(xs: seq<Candidate>, c: Candidate)
    ensures GroupOf(xs + [c], c.tag, [] + [c])
  {
    assert c in xs + [c];
  }

  lemma GroupOfWiden(xs: seq<Candidate>, tag: string, group: seq<Candidate>, c: Candidate)
    requires GroupOf(xs, tag, group)
    ensures GroupOf(xs + [c], tag, group)
  {
  }
}
