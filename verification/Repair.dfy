/**
 * Chain repair: renumbering nested loser chains onto the flat numbering of
 * their base (homedrive/internal/syncer/repair.go). The existence sets come
 * from the two listings and change as the pass goes.
 */
module Repair {
  import opened Keys
  import opened Naming
  import opened Journal
  import opened World

  datatype Candidate = Candidate(path: string, base: string, depth: nat, side: Side)
  datatype RepairedLink = RepairedLink(oldPath: string, newPath: string, side: Side)

  datatype RepairState = RepairState(
    local: Tree,
    remote: Tree,
    localSet: set<string>,
    remoteSet: set<string>,
    journal: Bucket,
    links: seq<RepairedLink>)

  function SetOf(s: RepairState, side: Side): set<string> {
    if side == Local then s.localSet else s.remoteSet
  }

  function TreeOf(s: RepairState, side: Side): Tree {
    if side == Local then s.local else s.remote
  }

  // ---------------------------------------------------------------------
  // Candidates
  // ---------------------------------------------------------------------

  function CandidateOf(names: Scheme, p: string, side: Side): Candidate {
    Candidate(p, Base(names, p).base, Base(names, p).depth, side)
  }

  /** A nested link whose stripped base is present on the same side. */
  predicate IsNested(names: Scheme, present: set<string>, p: string) {
    p in present && Base(names, p).depth >= 2 && Base(names, p).base in present
  }

  function CandidatesIn(names: Scheme, present: set<string>, side: Side): set<Candidate> {
    set p | p in present && IsNested(names, present, p) :: CandidateOf(names, p, side)
  }

  /** The order of the pass: deepest first, then by path. */
  predicate Earlier(a: Candidate, b: Candidate) {
    a.depth > b.depth || (a.depth == b.depth && Less(a.path, b.path))
  }

  ghost predicate InOrder(cs: seq<Candidate>) {
    forall i, j :: 0 <= i < j < |cs| ==> !Earlier(cs[j], cs[i])
  }

  function Members(cs: seq<Candidate>): set<Candidate> {
    if cs == [] then {} else {cs[0]} + Members(cs[1..])
  }

  predicate NoRepeats(cs: seq<Candidate>) {
    cs != [] ==> cs[0] !in Members(cs[1..]) && NoRepeats(cs[1..])
  }

  lemma {:induction false} MembersSnoc(cs: seq<Candidate>, c: Candidate)
    ensures Members(cs + [c]) == Members(cs) + {c}
    ensures NoRepeats(cs) && c !in Members(cs) ==> NoRepeats(cs + [c])
  {
    if cs == [] {
      assert [c][1..] == [];
    } else {
      assert (cs + [c])[0] == cs[0] && (cs + [c])[1..] == cs[1..] + [c];
      MembersSnoc(cs[1..], c);
    }
  }

  lemma {:induction false} MemberAt(cs: seq<Candidate>, c: Candidate)
    ensures c in cs <==> c in Members(cs)
  {
    if cs != [] {
      assert cs == [cs[0]] + cs[1..];
      MemberAt(cs[1..], c);
    }
  }

  lemma EarlierTransitive(a: Candidate, b: Candidate, c: Candidate)
    requires Earlier(a, b) && Earlier(b, c)
    ensures Earlier(a, c)
  {
    if a.depth == b.depth == c.depth { Transitive(a.path, b.path, c.path); }
  }

  lemma {:induction false} FirstExists(pool: set<Candidate>) returns (c: Candidate)
    requires pool != {}
    ensures c in pool && forall d :: d in pool ==> !Earlier(d, c)
    decreases |pool|
  {
    c :| c in pool;
    Irreflexive(c.path);
    if pool != {c} {
      var best := FirstExists(pool - {c});
      if Earlier(best, c) {
        Irreflexive(best.path);
        if Earlier(c, best) { EarlierTransitive(c, best, c); }
        c := best;
      } else {
        forall d | d in pool
          ensures !Earlier(d, c)
        {
          if d != c && Earlier(d, c) { LaterOrTied(d, best, c); }
        }
      }
    }
  }

  lemma LaterOrTied(d: Candidate, best: Candidate, c: Candidate)
    requires !Earlier(d, best) && !Earlier(best, c)
    ensures !Earlier(d, c)
  {
    if d.depth == best.depth == c.depth {
      Trichotomy(best.path, d.path);
      Trichotomy(c.path, best.path);
      if Less(best.path, d.path) && Less(c.path, best.path) { Transitive(c.path, best.path, d.path); }
      if Less(c.path, d.path) { Asymmetric(c.path, d.path); }
      Irreflexive(c.path);
      if Less(best.path, d.path) { Asymmetric(best.path, d.path); }
      if Less(c.path, best.path) { Asymmetric(c.path, best.path); }
    }
  }

  // ---------------------------------------------------------------------
  // One link, and the loop
  // ---------------------------------------------------------------------

  /** The name a link moves to: the number is computed for whatever base
      NextOldN settles on, the name is printed from the candidate's base. */
  function TargetOf(names: Scheme, s: RepairState, c: Candidate): string {
    names.format(c.base, NextOldN(names, c.base, SetOf(s, c.side)).n)
  }

  function Carried(j: Bucket, path: string, target: string): Bucket {
    if path in j then (j - {path})[target := j[path].(path := target)] else j - {path}
  }

  /** What goes wrong with one link: its rename fails, or the write of its entry
      under the new path. */
  datatype Fate = Moves | RenameFails | PutFails

  /** Renames the file, updates the live set, carries the journal entry. A
      rename that fails, for its own reasons or because of the tree, changes
      nothing. An entry that cannot be written is gone: it is deleted first. */
  function RepairOne(s: RepairState, c: Candidate, target: string, fate: Fate): RepairState {
    if fate.RenameFails? then s
    else
      var renamed :=
        if c.side == Local then RenameLocal(s.local, c.path, target) else MoveFile(s.remote, c.path, target);
      match renamed
      case FsErr => s
      case FsOk(tree) =>
        var live := SetOf(s, c.side) - {c.path} + {target};
        var lost := fate.PutFails? && c.path in s.journal;
        var journal := if lost then s.journal - {c.path} else Carried(s.journal, c.path, target);
        var links := if lost then s.links else s.links + [RepairedLink(c.path, target, c.side)];
        if c.side == Local then s.(local := tree, localSet := live, journal := journal, links := links)
        else s.(remote := tree, remoteSet := live, journal := journal, links := links)
  }

  function RepairRun(names: Scheme, s: RepairState, cs: seq<Candidate>, fate: Candidate -> Fate): RepairState
    decreases |cs|
  {
    if cs == [] then s
    else RepairRun(names, RepairOne(s, cs[0], TargetOf(names, s, cs[0]), fate(cs[0])), cs[1..], fate)
  }

  /** The two trees and the journal the pass works on. */
  class Repairer {
    const names: Scheme
    var local: Tree
    var remote: Tree
    var journal: Bucket

    constructor (names: Scheme, local: Tree, remote: Tree, journal: Bucket)
      ensures this.names == names && this.local == local && this.remote == remote && this.journal == journal
    {
      this.names, this.local, this.remote, this.journal := names, local, remote, journal;
    }

    /** Walks one side, in map order. */
    method Collect(present: set<string>, side: Side, found: set<Candidate>) returns (pool: set<Candidate>)
      ensures pool == found + CandidatesIn(names, present, side)
    {
      hide Strip;
      pool := found;
      var todo := present;
      ghost var done: set<string> := {};
      while todo != {}
        invariant todo + done == present && todo !! done
        invariant pool == found + set p | p in done && IsNested(names, present, p) :: CandidateOf(names, p, side)
        decreases todo
      {
        var p :| p in todo;
        todo, done := todo - {p}, done + {p};
        var base, depth := ComputeBase(names, p);
        if depth >= 2 && base in present {
          pool := pool + {Candidate(p, base, depth, side)};
        }
      }
      assert done == present;
    }

    /** Every nested link of both sides once, deepest first. */
    method FindCandidates(localSet: set<string>, remoteSet: set<string>) returns (cs: seq<Candidate>)
      ensures Members(cs) == CandidatesIn(names, localSet, Local) + CandidatesIn(names, remoteSet, Remote)
      ensures NoRepeats(cs) && InOrder(cs)
    {
      hide Earlier, CandidatesIn;
      var pool := Collect(localSet, Local, {});
      pool := Collect(remoteSet, Remote, pool);
      ghost var all := pool;
      cs := [];
      while pool != {}
        invariant NoRepeats(cs) && InOrder(cs)
        invariant pool !! Members(cs) && pool + Members(cs) == all
        invariant forall i, d :: 0 <= i < |cs| && d in pool ==> !Earlier(d, cs[i])
        decreases pool
      {
        ghost var first := FirstExists(pool);
        var c :| c in pool && forall d :: d in pool ==> !Earlier(d, c);
        MembersSnoc(cs, c);
        cs := cs + [c];
        pool := pool - {c};
      }
    }

    /** The pass. fate says which renames and entries fail. */
    method RepairChains(locals: set<string>, remotes: set<string>, fate: Candidate -> Fate)
      returns (scanned: nat, links: seq<RepairedLink>, ghost cs: seq<Candidate>)
      modifies this
      ensures Members(cs) == CandidatesIn(names, locals, Local) + CandidatesIn(names, remotes, Remote)
      ensures NoRepeats(cs) && InOrder(cs) && scanned == |cs|
      ensures var r := RepairRun(names, old(RepairState(local, remote, locals, remotes, journal, [])), cs, fate);
              local == r.local && remote == r.remote && journal == r.journal && links == r.links
    {
      hide NextOldN;
      var localSet, remoteSet := locals, remotes;
      var candidates := FindCandidates(localSet, remoteSet);
      cs := candidates;
      scanned := |candidates|;
      links := [];
      ghost var final := RepairRun(names, RepairState(local, remote, localSet, remoteSet, journal, links), cs, fate);
      for i := 0 to |candidates|
        invariant final ==
          RepairRun(names, RepairState(local, remote, localSet, remoteSet, journal, links), cs[i..], fate)
      {
        var c := candidates[i];
        ghost var s := RepairState(local, remote, localSet, remoteSet, journal, links);
        var live := if c.side == Remote then remoteSet else localSet;
        var _, n := ProbeNextOldN(names, c.base, live);
        var target := names.format(c.base, n);
        if !fate(c).RenameFails? {
          var renamed :=
            if c.side == Local then RenameLocal(local, c.path, target) else MoveFile(remote, c.path, target);
          if renamed.FsOk? {
            if c.side == Local {
              local, localSet := renamed.tree, localSet - {c.path} + {target};
            } else {
              remote, remoteSet := renamed.tree, remoteSet - {c.path} + {target};
            }
            var entry := Lookup(journal, c.path);
            journal := journal - {c.path};
            if entry.Some? && !fate(c).PutFails? {
              journal := journal[target := entry.value.(path := target)];
            }
            if entry.None? || !fate(c).PutFails? {
              links := links + [RepairedLink(c.path, target, c.side)];
            }
          }
        }
        assert cs[i..][1..] == cs[i + 1..];
        assert RepairState(local, remote, localSet, remoteSet, journal, links) == RepairOne(s, c, target, fate(c));
      }
    }
  }
}
