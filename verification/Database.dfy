/**
 The store behind the router: hashes of fields, the two commands that write them,
 and what a pipeline of commands leaves behind.
 */
module Database {
  import opened Text

  type Hashes = map<string, map<string, string>>

  datatype Command =
    | HSet(key: string, field: string, value: string)
    | HDel(key: string, field: string)
  {
    predicate Touches(k: string, f: string) { key == k && field == f }

    /** What the touched field holds afterwards. */
    function Leaves(): Option<string> {
      if HSet? then Some(value) else None
    }
  }

  function Get(h: Hashes, k: string, f: string): Option<string> {
    if k in h && f in h[k] then Some(h[k][f]) else None
  }

  /** A hash goes when its last field goes. */
  function Apply(h: Hashes, cmd: Command): Hashes {
    match cmd
    case HSet(k, f, v) => h[k := (if k in h then h[k] else map[])[f := v]]
    case HDel(k, f) =>
      if Get(h, k, f).None? then h
      else if h[k] - {f} == map[] then h - {k}
      else h[k := h[k] - {f}]
  }

  function ApplyAll(h: Hashes, cmds: seq<Command>): Hashes {
    if cmds == [] then h else Apply(ApplyAll(h, cmds[..|cmds| - 1]), cmds[|cmds| - 1])
  }

  /** No empty hashes, and every stored value has its scope letter. */
  predicate WellFormed(h: Hashes) {
    forall k :: k in h ==> h[k] != map[] && forall f :: f in h[k] ==> h[k][f] != ""
  }

  predicate Writable(cmd: Command) { cmd.HSet? ==> cmd.value != "" }

  lemma GetApply(h: Hashes, cmd: Command, k: string, f: string)
    ensures Get(Apply(h, cmd), k, f) == if cmd.Touches(k, f) then cmd.Leaves() else Get(h, k, f)
  {
    if cmd.HDel? && k == cmd.key && k in h && f in h[k] && f != cmd.field {
      assert f in h[k] - {cmd.field};
    }
  }

  /** A set field holds the value, a removed one nothing, and every other field what it held. */
  lemma CommandMeans(h: Hashes, k: string, f: string, v: string, k': string, f': string)
    ensures Get(Apply(h, HSet(k, f, v)), k, f) == Some(v)
    ensures Get(Apply(h, HDel(k, f)), k, f) == None
    ensures k' != k || f' != f ==> Get(Apply(h, HSet(k, f, v)), k', f') == Get(Apply(h, HDel(k, f)), k', f') == Get(h, k', f')
  {
    GetApply(h, HSet(k, f, v), k, f);
    GetApply(h, HDel(k, f), k, f);
    GetApply(h, HSet(k, f, v), k', f');
    GetApply(h, HDel(k, f), k', f');
    hide Apply, Get;
  }

  lemma WellFormedApply(h: Hashes, cmd: Command)
    requires WellFormed(h) && Writable(cmd)
    ensures WellFormed(Apply(h, cmd))
  {
    if cmd.HSet? {
      assert cmd.field in Apply(h, cmd)[cmd.key];
    }
  }

  lemma {:induction false} WellFormedApplyAll(h: Hashes, cmds: seq<Command>)
    requires WellFormed(h) && forall c :: c in cmds ==> Writable(c)
    ensures WellFormed(ApplyAll(h, cmds))
  {
    if cmds != [] {
      hide WellFormed, Apply;
      WellFormedApplyAll(h, cmds[..|cmds| - 1]);
      WellFormedApply(ApplyAll(h, cmds[..|cmds| - 1]), cmds[|cmds| - 1]);
    }
  }

  lemma {:induction false} ApplyAllConcat(h: Hashes, a: seq<Command>, b: seq<Command>)
    ensures ApplyAll(h, a + b) == ApplyAll(ApplyAll(h, a), b)
  {
    hide Apply;
    if b == [] {
      assert a + b == a;
    } else {
      assert (a + b)[..|a + b| - 1] == a + b[..|b| - 1];
      ApplyAllConcat(h, a, b[..|b| - 1]);
    }
  }

  lemma ApplyAllStep(h: Hashes, pipe: seq<Command>, i: nat)
    requires i < |pipe|
    ensures ApplyAll(h, pipe[..i + 1]) == Apply(ApplyAll(h, pipe[..i]), pipe[i])
  {
    hide Apply;
    assert pipe[..i + 1][..i] == pipe[..i];
  }

  /** A field no command touches keeps its value. */
  lemma {:induction false} Untouched(h: Hashes, cmds: seq<Command>, k: string, f: string)
    requires forall c :: c in cmds ==> !c.Touches(k, f)
    ensures Get(ApplyAll(h, cmds), k, f) == Get(h, k, f)
  {
    if cmds != [] {
      hide Apply, Get;
      Untouched(h, cmds[..|cmds| - 1], k, f);
      GetApply(ApplyAll(h, cmds[..|cmds| - 1]), cmds[|cmds| - 1], k, f);
    }
  }

  /** A touched field whose commands all agree ends as they say. */
  lemma {:induction false} Agreed(h: Hashes, cmds: seq<Command>, k: string, f: string, v: Option<string>)
    requires exists c :: c in cmds && c.Touches(k, f)
    requires forall c :: c in cmds && c.Touches(k, f) ==> c.Leaves() == v
    ensures Get(ApplyAll(h, cmds), k, f) == v
  {
    hide Apply, Get;
    var init, last := cmds[..|cmds| - 1], cmds[|cmds| - 1];
    GetApply(ApplyAll(h, init), last, k, f);
    if !last.Touches(k, f) {
      assert cmds == init + [last];
      Agreed(h, init, k, f, v);
    }
  }

  // ----- What a field holds after a list of commands -----

  predicate Touched(cmds: seq<Command>, k: string, f: string) {
    exists c :: c in cmds && c.Touches(k, f)
  }

  /** The last command that touches the field decides; v is what the first one finds. */
  function Seen(cmds: seq<Command>, k: string, f: string, v: Option<string>): Option<string> {
    if cmds == [] then v
    else
      var last := cmds[|cmds| - 1];
      if last.Touches(k, f) then last.Leaves() else Seen(cmds[..|cmds| - 1], k, f, v)
  }

  lemma {:induction false} GetApplyAll(h: Hashes, cmds: seq<Command>, k: string, f: string)
    ensures Get(ApplyAll(h, cmds), k, f) == Seen(cmds, k, f, Get(h, k, f))
  {
    if cmds != [] {
      hide Apply, Get;
      GetApplyAll(h, cmds[..|cmds| - 1], k, f);
      GetApply(ApplyAll(h, cmds[..|cmds| - 1]), cmds[|cmds| - 1], k, f);
    }
  }

  lemma TouchedAppend(cmds: seq<Command>, c: Command, k: string, f: string)
    ensures Touched(cmds + [c], k, f) <==> Touched(cmds, k, f) || c.Touches(k, f)
  {
    assert forall d :: d in cmds + [c] <==> d in cmds || d == c;
  }

  /** Commands that touch the field forget what was there, the others keep it. */
  lemma {:induction false} SeenForgets(cmds: seq<Command>, k: string, f: string, v: Option<string>, w: Option<string>)
    ensures Seen(cmds, k, f, v) == if Touched(cmds, k, f) then Seen(cmds, k, f, w) else v
    ensures Touched(cmds, k, f) ==> exists c :: c in cmds && c.Touches(k, f) && Seen(cmds, k, f, v) == c.Leaves()
  {
    if cmds != [] {
      var init, last := cmds[..|cmds| - 1], cmds[|cmds| - 1];
      assert cmds == init + [last];
      TouchedAppend(init, last, k, f);
      SeenForgets(init, k, f, v, w);
      assert last in cmds;
    }
  }

  /** Two well-formed databases with the same fields are the same. */
  lemma SameFields(h: Hashes, h': Hashes)
    requires WellFormed(h) && WellFormed(h')
    requires forall k, f :: Get(h, k, f) == Get(h', k, f)
    ensures h == h'
  {
    forall k
      ensures k in h <==> k in h'
      ensures k in h && k in h' ==> h[k] == h'[k]
    {
      if k in h {
        var f :| f in h[k];
        assert Get(h, k, f) == Get(h', k, f);
      }
      if k in h' {
        var f :| f in h'[k];
        assert Get(h, k, f) == Get(h', k, f);
      }
      if k in h && k in h' {
        forall f
          ensures f in h[k] <==> f in h'[k]
          ensures f in h[k] && f in h'[k] ==> h[k][f] == h'[k][f]
        {
          assert Get(h, k, f) == Get(h', k, f);
        }
      }
    }
  }

  // ----- The connection -----

  class Db {
    var hashes: Hashes

    constructor ()
      ensures hashes == map[]
    {
      hashes := map[];
    }

    method HGet(k: string, f: string) returns (v: Option<string>)
      ensures v == Get(hashes, k, f)
    {
      v := if k in hashes && f in hashes[k] then Some(hashes[k][f]) else None;
    }

    method HMGet(k: string, fields: seq<string>) returns (vals: seq<Option<string>>)
      ensures |vals| == |fields| && forall j :: 0 <= j < |fields| ==> vals[j] == Get(hashes, k, fields[j])
    {
      vals := seq(|fields|, j requires 0 <= j < |fields| reads this => Get(hashes, k, fields[j]));
    }

    /** A pipeline: commands in order, one reply each; a removal replies whether it removed. */
    method Execute(pipe: seq<Command>) returns (replies: seq<bool>)
      modifies this
      ensures hashes == ApplyAll(old(hashes), pipe)
      ensures |replies| == |pipe|
      ensures forall i :: 0 <= i < |pipe| ==>
                replies[i] == (pipe[i].HDel? && Get(ApplyAll(old(hashes), pipe[..i]), pipe[i].key, pipe[i].field).Some?)
    {
      hide Apply, Get;
      replies := [];
      for i := 0 to |pipe|
        invariant hashes == ApplyAll(old(hashes), pipe[..i])
        invariant |replies| == i
        invariant forall j :: 0 <= j < i ==>
                    replies[j] == (pipe[j].HDel? && Get(ApplyAll(old(hashes), pipe[..j]), pipe[j].key, pipe[j].field).Some?)
      {
        var cmd := pipe[i];
        replies := replies + [cmd.HDel? && Get(hashes, cmd.key, cmd.field).Some?];
        hashes := Apply(hashes, cmd);
        ApplyAllStep(old(hashes), pipe, i);
      }
      assert pipe[..|pipe|] == pipe;
    }
  }
}
