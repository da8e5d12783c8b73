/**
 * What a bisync pass guarantees, for every start in which suffix-named files
 * are journaled: no version is lost, whatever the order of the diffs and
 * wherever the pass is cut short; and two complete passes reach a fixed point.
 */
module BisyncProofs {
  import opened Text
  import opened Naming
  import opened Journal
  import opened World
  import opened Bisync

  function Files(s: State): set<string> { s.local.Keys + s.remote.Keys }

  /** What the three stores hold under one path. */
  datatype View = View(local: Option<File>, remote: Option<File>, entry: Option<JournalEntry>)

  function At(s: State, p: string): View {
    View(if p in s.local then Some(s.local[p]) else None,
         if p in s.remote then Some(s.remote[p]) else None,
         Lookup(s.journal, p))
  }

  predicate Present(v: View) { v.local.Some? || v.remote.Some? }

  predicate OneSided(v: View) { v.local.Some? != v.remote.Some? }

  /** On both sides, and as the journal last recorded it. */
  predicate Settled(env: Env, v: View) {
    && v.local.Some? && v.remote.Some?
    && (v.entry.None? ==> v.local.value.mtime == v.remote.value.mtime)
    && (v.entry.Some? ==>
          && v.local.value.mtime == v.entry.value.localMtime
          && env.md5(v.remote.value.content) == v.entry.value.remoteMD5
          && v.remote.value.mtime == v.entry.value.remoteMtime)
  }

  /** The diff still describes the two trees. */
  predicate Accurate(env: Env, v: View, d: FileDiff) {
    match d
    case LocalOnly(_, lm) => v.local.Some? && v.remote.None? && v.local.value.mtime == lm
    case RemoteOnly(_, rm, md5) =>
      v.remote.Some? && v.local.None? && v.remote.value.mtime == rm && env.md5(v.remote.value.content) == md5
    case Conflict(_, lm, rm, md5) =>
      v.local.Some? && v.remote.Some? && v.local.value.mtime == lm && v.remote.value.mtime == rm &&
      env.md5(v.remote.value.content) == md5
  }

  /** Some of the diffs of s, in any order, each path at most once. */
  predicate Workable(env: Env, s: State, ds: seq<FileDiff>) {
    ds != [] ==>
      && Accurate(env, At(s, ds[0].path), ds[0])
      && ds[0].path !in PathsOf(ds[1..])
      && Workable(env, s, ds[1..])
  }

  function PathsOf(ds: seq<FileDiff>): set<string> {
    if ds == [] then {} else {ds[0].path} + PathsOf(ds[1..])
  }

  /** A loser of p can hang off b: off p itself or off its stripped base. */
  predicate Hits(names: Scheme, p: string, b: string) {
    p == b || Base(names, p).base == b
  }

  /** How many numbers of b working through d can take. */
  function Charge(names: Scheme, d: FileDiff, b: string): nat {
    if d.Conflict? && Hits(names, d.path, b) then 1 else 0
  }

  function Charges(names: Scheme, ds: seq<FileDiff>, b: string): nat {
    if ds == [] then 0 else Charge(names, ds[0], b) + Charges(names, ds[1..], b)
  }

  /** Each base that conflicts of ds can hang losers off has numbers left for
      those conflicts. Nothing is asked of any other base. */
  ghost predicate RoomFor(env: Env, journal: Bucket, ds: seq<FileDiff>) {
    forall b :: b != "" && Charges(env.names, ds, b) > 0 ==>
      |TakenNumbers(env.names, b, journal.Keys)| + Charges(env.names, ds, b) <= env.names.maxProbe
  }

  function ConflictCount(ds: seq<FileDiff>): nat {
    if ds == [] then 0 else (if ds[0].Conflict? then 1 else 0) + ConflictCount(ds[1..])
  }

  function LocalOnlyCount(ds: seq<FileDiff>): nat {
    if ds == [] then 0 else (if ds[0].LocalOnly? then 1 else 0) + LocalOnlyCount(ds[1..])
  }

  function RemoteOnlyCount(ds: seq<FileDiff>): nat {
    if ds == [] then 0 else (if ds[0].RemoteOnly? then 1 else 0) + RemoteOnlyCount(ds[1..])
  }

  predicate Pulls(d: FileDiff) {
    d.RemoteOnly? || (d.Conflict? && d.remoteMtime > d.localMtime)
  }

  /** The versions the local side gains: the remote-only files and the remote
      winners. Every other diff is a gain of the remote side. */
  ghost function PulledVersions(s: State, ds: seq<FileDiff>): multiset<File> {
    if ds == [] then multiset{}
    else PulledVersions(s, ds[1..]) +
         (if Pulls(ds[0]) && ds[0].path in s.remote then multiset{s.remote[ds[0].path]} else multiset{})
  }

  ghost function PushedVersions(s: State, ds: seq<FileDiff>): multiset<File> {
    if ds == [] then multiset{}
    else PushedVersions(s, ds[1..]) +
         (if !Pulls(ds[0]) && ds[0].path in s.local then multiset{s.local[ds[0].path]} else multiset{})
  }

  /** What working through diffs of these paths, n of them conflicts, may do
      and must do: leave every other file alone, settle each path, and add n
      files with loser names, each on one side only. */
  ghost predicate PassEffect(env: Env, s: State, paths: set<string>, n: nat, t: State) {
    && (forall p :: p in Files(s) && p !in paths ==> At(t, p) == At(s, p))
    && (forall p :: p in paths ==> Settled(env, At(t, p)))
    && (forall p :: p in Files(t) && p !in Files(s) ==> IsOld(env.names, p) && OneSided(At(t, p)))
    && Files(s) <= Files(t) && |Files(t)| == |Files(s)| + n
  }

  // ---------------------------------------------------------------------
  // One diff
  // ---------------------------------------------------------------------

  /** The transfer of a one-sided file. */
  ghost predicate Transferred(env: Env, s: State, d: FileDiff, t: State) {
    && (if d.LocalOnly? then
          d.path in s.local && d.path !in s.remote &&
          t.local == s.local && t.remote == s.remote[d.path := s.local[d.path]]
        else
          d.path in s.remote && d.path !in s.local &&
          t.remote == s.remote && t.local == s.local[d.path := s.remote[d.path]])
    && d.path in t.journal && t.journal == s.journal[d.path := t.journal[d.path]]
    && Settled(env, At(t, d.path))
  }

  /** The loser goes to q, a name no file and no entry has; the winner is then
      on both sides. */
  ghost predicate Resolved(env: Env, s: State, d: FileDiff, q: string, t: State) {
    && d.path in s.local && d.path in s.remote
    && IsOld(env.names, q) && q != "" && q != d.path && q !in s.local && q !in s.remote && q !in s.journal
    && (if Pulls(d) then
          t.remote == s.remote && t.local == s.local[q := s.local[d.path]][d.path := s.remote[d.path]]
        else
          t.local == s.local && t.remote == s.remote[q := s.remote[d.path]][d.path := s.local[d.path]])
    && d.path in t.journal && q in t.journal
    && t.journal == s.journal[d.path := t.journal[d.path]][q := t.journal[q]]
    && Settled(env, At(t, d.path))
  }

  lemma TransferStep(env: Env, s: State, d: FileDiff)
    requires Accurate(env, At(s, d.path), d) && !d.Conflict?
    ensures Step(env, s, d).ok && Transferred(env, s, d, Step(env, s, d).state)
  {
  }

  lemma ConflictStep(env: Env, s: State, d: FileDiff)
    requires Lawful(env.names) && Tracked(env, s) && HasFree(env.names, d.path, s.journal.Keys)
    requires Accurate(env, At(s, d.path), d) && d.Conflict?
    ensures Step(env, s, d).ok
    ensures Resolved(env, s, d, NextOldPath(env.names, d.path, s.journal.Keys), Step(env, s, d).state)
  {
    FreshLoser(env, s, d.path);
    hide NextOldN;
    var q := NextOldPath(env.names, d.path, s.journal.Keys);
    assert q == env.names.format(NextOldN(env.names, d.path, s.journal.Keys).base, NextOldN(env.names, d.path, s.journal.Keys).n);
    var t := Step(env, s, d).state;
    assert t.journal == s.journal[d.path := t.journal[d.path]][q := t.journal[q]];
    if Pulls(d) {
      assert t.local == s.local[q := s.local[d.path]][d.path := s.remote[d.path]];
    } else {
      assert t.remote == s.remote[q := s.remote[d.path]][d.path := s.local[d.path]];
    }
  }

  lemma TransferRoom(env: Env, s: State, d: FileDiff, t: State, b: string)
    requires Lawful(env.names) && Tracked(env, s) && Transferred(env, s, d, t) && b != ""
    ensures TakenNumbers(env.names, b, t.journal.Keys) == TakenNumbers(env.names, b, s.journal.Keys)
  {
    TakenGrows(env.names, s.journal.Keys, d.path, b);
    assert t.journal.Keys == s.journal.Keys + {d.path};
  }

  lemma ResolveRoom(env: Env, s: State, d: FileDiff, q: string, t: State, b: string)
    requires Lawful(env.names) && Tracked(env, s) && Resolved(env, s, d, q, t) && b != ""
    requires q == NextOldPath(env.names, d.path, s.journal.Keys)
    ensures |TakenNumbers(env.names, b, t.journal.Keys)| <=
            |TakenNumbers(env.names, b, s.journal.Keys)| + (if Hits(env.names, d.path, b) then 1 else 0)
  {
    var before := s.journal.Keys;
    var l := NextOldN(env.names, d.path, before);
    TakenGrows(env.names, before, d.path, b);
    TakenGrows(env.names, before + {d.path}, q, b);
    assert t.journal.Keys == before + {d.path} + {q};
    BaseNonEmpty(env.names, d.path, env.names.maxDepth);
    NextIsFree(env.names, d.path, before);
    assert env.names.trim(q) == Suffixed(l.base, l.n);
  }

  lemma TransferElsewhere(env: Env, s: State, d: FileDiff, t: State)
    requires Transferred(env, s, d, t)
    ensures Files(t) == Files(s)
    ensures forall p :: p != d.path ==> At(t, p) == At(s, p)
  {
    hide Settled;
  }

  lemma TransferTracked(env: Env, s: State, d: FileDiff, t: State)
    requires Tracked(env, s) && Transferred(env, s, d, t)
    ensures Tracked(env, t)
  {
    hide Settled, At;
  }

  lemma TransferEffect(env: Env, s: State, d: FileDiff, t: State)
    requires Transferred(env, s, d, t)
    ensures PassEffect(env, s, {d.path}, 0, t)
  {
    assert Settled(env, At(t, d.path));
    TransferElsewhere(env, s, d, t);
    hide Transferred, Settled, At, Files;
  }

  lemma ResolveElsewhere(env: Env, s: State, d: FileDiff, q: string, t: State)
    requires Resolved(env, s, d, q, t)
    ensures Files(t) == Files(s) + {q} && q !in Files(s)
    ensures forall p :: p != d.path && p != q ==> At(t, p) == At(s, p)
    ensures OneSided(At(t, q))
  {
    hide Settled;
  }

  lemma ResolveTracked(env: Env, s: State, d: FileDiff, q: string, t: State)
    requires Tracked(env, s) && Resolved(env, s, d, q, t)
    ensures Tracked(env, t)
  {
    hide Settled, At;
  }

  lemma ResolveEffect(env: Env, s: State, d: FileDiff, q: string, t: State)
    requires Resolved(env, s, d, q, t)
    ensures PassEffect(env, s, {d.path}, 1, t)
  {
    assert Settled(env, At(t, d.path)) && IsOld(env.names, q);
    ResolveElsewhere(env, s, d, q, t);
    hide Resolved, Settled, At, Files, OneSided;
  }

  lemma TransferVersions(env: Env, s: State, d: FileDiff, t: State)
    requires Transferred(env, s, d, t) && !d.Conflict?
    ensures Values(t.local) == Values(s.local) + PulledVersions(s, [d])
    ensures Values(t.remote) == Values(s.remote) + PushedVersions(s, [d])
  {
    hide Values, Settled;
    OneDiff(s, d);
    if d.LocalOnly? {
      ValuesAdd(s.remote, d.path, s.local[d.path]);
    } else {
      ValuesAdd(s.local, d.path, s.remote[d.path]);
    }
  }

  lemma ResolveVersions(env: Env, s: State, d: FileDiff, q: string, t: State)
    requires Resolved(env, s, d, q, t) && d.Conflict?
    ensures Values(t.local) == Values(s.local) + PulledVersions(s, [d])
    ensures Values(t.remote) == Values(s.remote) + PushedVersions(s, [d])
  {
    hide Values, Settled;
    OneDiff(s, d);
    if Pulls(d) {
      VersionsReplace(s.local, q, d.path, s.remote[d.path]);
    } else {
      VersionsReplace(s.remote, q, d.path, s.local[d.path]);
    }
  }

  lemma OneDiff(s: State, d: FileDiff)
    ensures PulledVersions(s, [d]) ==
            if Pulls(d) && d.path in s.remote then multiset{s.remote[d.path]} else multiset{}
    ensures PushedVersions(s, [d]) ==
            if !Pulls(d) && d.path in s.local then multiset{s.local[d.path]} else multiset{}
  {
    assert PulledVersions(s, []) == multiset{} && PushedVersions(s, []) == multiset{};
    assert [d][1..] == [];
  }

  /** Every diff succeeds, keeps the invariant and all versions, uses up at
      most one number, of a base the loser can hang off, and touches nothing
      but its path and a name that was free everywhere. */
  lemma StepKeeps(env: Env, s: State, d: FileDiff)
    requires Lawful(env.names) && Tracked(env, s) && Accurate(env, At(s, d.path), d)
    requires d.Conflict? ==> HasFree(env.names, d.path, s.journal.Keys)
    ensures var t := Step(env, s, d).state;
            && Step(env, s, d).ok && Tracked(env, t)
            && PassEffect(env, s, {d.path}, Uses(d), t)
            && Values(t.local) == Values(s.local) + PulledVersions(s, [d])
            && Values(t.remote) == Values(s.remote) + PushedVersions(s, [d])
  {
    hide Values, PassEffect, PulledVersions, PushedVersions;
    var t := Step(env, s, d).state;
    if d.Conflict? {
      ConflictStep(env, s, d);
      hide NextOldPath, Step, Resolved;
      var q := NextOldPath(env.names, d.path, s.journal.Keys);
      ResolveTracked(env, s, d, q, t);
      ResolveEffect(env, s, d, q, t);
      ResolveVersions(env, s, d, q, t);
    } else {
      TransferStep(env, s, d);
      hide Step, Transferred;
      TransferTracked(env, s, d, t);
      TransferEffect(env, s, d, t);
      TransferVersions(env, s, d, t);
    }
  }

  /** One diff takes no number but, for a conflict, one of a base it hits. */
  lemma StepTakes(env: Env, s: State, d: FileDiff, b: string)
    requires Lawful(env.names) && Tracked(env, s) && Accurate(env, At(s, d.path), d) && b != ""
    requires d.Conflict? ==> HasFree(env.names, d.path, s.journal.Keys)
    ensures |TakenNumbers(env.names, b, Step(env, s, d).state.journal.Keys)| <=
            |TakenNumbers(env.names, b, s.journal.Keys)| + Charge(env.names, d, b)
  {
    if d.Conflict? {
      ConflictStep(env, s, d);
      hide NextOldPath, Step, Resolved, TakenNumbers;
      ResolveRoom(env, s, d, NextOldPath(env.names, d.path, s.journal.Keys), Step(env, s, d).state, b);
    } else {
      TransferStep(env, s, d);
      hide Step, Transferred, TakenNumbers;
      TransferRoom(env, s, d, Step(env, s, d).state, b);
    }
  }

  /** How many loser numbers working through d takes. */
  function Uses(d: FileDiff): nat { if d.Conflict? then 1 else 0 }

  /** Keeping the old version under q while p takes f adds f and loses nothing. */
  lemma VersionsReplace(t: Tree, q: string, p: string, f: File)
    requires p in t && q !in t
    ensures Values(t[q := t[p]][p := f]) == Values(t) + multiset{f}
  {
    hide Values;
    ValuesMove(t, p, q);
    ValuesAdd((t - {p})[q := t[p]], p, f);
    assert t[q := t[p]][p := f] == (t - {p})[q := t[p]][p := f];
  }

  /** What journaling every suffix-named file is for. A remote winner renames
      the local loser without looking: a local file already under the loser's
      name is replaced, and the local side then ends with one version less.
      For a suffix-named path without an entry the loser's name can be the path
      itself; the rename then does nothing, and the version that is lost is the
      loser. */
  lemma RemoteWinKeepsAllIff(env: Env, s: State, d: FileDiff)
    requires d.Conflict? && Pulls(d) && d.path in s.local && d.path in s.remote
    ensures var q, t := NextOldPath(env.names, d.path, s.journal.Keys), Step(env, s, d).state;
            && (q !in s.local <==> Values(t.local) == Values(s.local) + multiset{s.remote[d.path]})
            && (q in s.local ==> Values(t.local) + multiset{s.local[q]} == Values(s.local) + multiset{s.remote[d.path]})
  {
    hide Values, NextOldN;
    var q := NextOldPath(env.names, d.path, s.journal.Keys);
    var f := s.remote[d.path];
    var t := Step(env, s, d).state;
    assert q == env.names.format(NextOldN(env.names, d.path, s.journal.Keys).base, NextOldN(env.names, d.path, s.journal.Keys).n);
    if q == d.path {
      var rest := s.local - {q};
      assert t.local == rest[q := f];
      ValuesRemove(s.local, q);
      ValuesAdd(rest, q, f);
    } else {
      var rest := s.local - {q};
      assert t.local == rest[q := s.local[d.path]][d.path := f];
      VersionsReplace(rest, q, d.path, f);
      if q in s.local {
        ValuesRemove(s.local, q);
      } else {
        assert rest == s.local;
      }
    }
  }

  // ---------------------------------------------------------------------
  // A diff that fails
  // ---------------------------------------------------------------------

  /** A diff fails exactly when a file it needs is gone, or the remote already
      has a file under the loser's name. Then nothing is journaled or marked,
      and the only thing it can have done is to move the loser aside. */
  lemma FailedStep(env: Env, s: State, d: FileDiff)
    ensures var p, q := d.path, NextOldPath(env.names, d.path, s.journal.Keys);
            var r, wins := Step(env, s, d), d.Conflict? && d.remoteMtime > d.localMtime;
            && (r.ok <==> (if d.LocalOnly? then p in s.local else if d.RemoteOnly? then p in s.remote
                           else p in s.local && p in s.remote && (wins || q !in s.remote)))
            && (!r.ok ==>
                  r.state == s ||
                  (wins && p in s.local && r.state == s.(local := (s.local - {p})[q := s.local[p]])) ||
                  (d.Conflict? && !wins && p in s.remote && q !in s.remote && r.state == s.(remote := (s.remote - {p})[q := s.remote[p]])))
  {
    hide NextOldN;
  }

  /** So a failing diff loses no version either, unless a local file has the
      loser's name. */
  lemma FailedStepKeeps(env: Env, s: State, d: FileDiff)
    requires !Step(env, s, d).ok && NextOldPath(env.names, d.path, s.journal.Keys) !in s.local
    ensures var t := Step(env, s, d).state;
            Values(t.local) == Values(s.local) && Values(t.remote) == Values(s.remote)
  {
    FailedStep(env, s, d);
    var p, q, t := d.path, NextOldPath(env.names, d.path, s.journal.Keys), Step(env, s, d).state;
    hide Values, Step, NextOldPath;
    if t.local != s.local {
      ValuesMove(s.local, p, q);
    } else if t.remote != s.remote {
      ValuesMove(s.remote, p, q);
    }
  }

  /** What one diff counts for: a transfer if it succeeded, a conflict always. */
  lemma RunOne(env: Env, s: State, d: FileDiff)
    ensures Run(env, s, [d]) ==
            PassResult(Step(env, s, d).state,
              if d.LocalOnly? && d.path in s.local then 1 else 0,
              if d.RemoteOnly? && d.path in s.remote then 1 else 0,
              if d.Conflict? then 1 else 0)
  {
    assert [d][1..] == [];
    assert Run(env, Step(env, s, d).state, []) == PassResult(Step(env, s, d).state, 0, 0, 0);
  }

  /** Where the loop is cut makes no difference to what is done, and the counts
      add up. */
  lemma {:induction false} RunAppend(env: Env, s: State, a: seq<FileDiff>, b: seq<FileDiff>)
    ensures var first := Run(env, s, a);
            var rest := Run(env, first.state, b);
            Run(env, s, a + b) ==
            PassResult(rest.state, first.pushed + rest.pushed, first.pulled + rest.pulled, first.conflicts + rest.conflicts)
    decreases |a|
  {
    hide Step;
    if a == [] {
      assert a + b == b;
    } else {
      assert (a + b)[0] == a[0] && (a + b)[1..] == a[1..] + b;
      RunAppend(env, Step(env, s, a[0]).state, a[1..], b);
    }
  }

  // ---------------------------------------------------------------------
  // A whole pass
  // ---------------------------------------------------------------------

  /** Diffs whose paths are untouched stay workable, for the same versions. */
  lemma {:induction false} WorkableFrame(env: Env, s: State, t: State, ds: seq<FileDiff>)
    requires Workable(env, s, ds) && forall p :: p in PathsOf(ds) ==> At(t, p) == At(s, p)
    ensures Workable(env, t, ds)
    ensures PulledVersions(s, ds) == PulledVersions(t, ds) && PushedVersions(s, ds) == PushedVersions(t, ds)
  {
    if ds != [] {
      assert At(t, ds[0].path) == At(s, ds[0].path);
      WorkableFrame(env, s, t, ds[1..]);
    }
  }

  lemma {:induction false} WorkablePaths(env: Env, s: State, ds: seq<FileDiff>)
    requires Workable(env, s, ds)
    ensures PathsOf(ds) <= Files(s)
  {
    if ds != [] { WorkablePaths(env, s, ds[1..]); }
  }

  /** Everything a pass over ds promises about its result. */
  ghost predicate PassKeeps(env: Env, s: State, ds: seq<FileDiff>, r: PassResult) {
    && Tracked(env, r.state)
    && PassEffect(env, s, PathsOf(ds), ConflictCount(ds), r.state)
    && Values(r.state.local) == Values(s.local) + PulledVersions(s, ds)
    && Values(r.state.remote) == Values(s.remote) + PushedVersions(s, ds)
    && r.pushed == LocalOnlyCount(ds) && r.pulled == RemoteOnlyCount(ds) && r.conflicts == ConflictCount(ds)
  }

  /** No version is lost. For any accurate diffs, in any order and any number
      of them: each side ends with all the versions it had plus exactly the
      transferred ones, every operation succeeds, the invariant still holds,
      and whatever was not worked through is as it was. */
  lemma {:induction false} PassLosesNothing(env: Env, s: State, ds: seq<FileDiff>)
    requires Lawful(env.names) && Tracked(env, s) && Workable(env, s, ds)
    requires RoomFor(env, s.journal, ds)
    ensures PassKeeps(env, s, ds, Run(env, s, ds))
    decreases |ds|
  {
    if ds == [] {
      NothingToDo(env, s);
    } else {
      var d, rest := ds[0], ds[1..];
      var t := Step(env, s, d).state;
      PassUnfold(s, ds);
      assert Workable(env, s, rest);
      assert d.path != "" by { WorkablePaths(env, s, ds); }
      hide Run, Step, Values, Tracked, RoomFor, HasFree, At, Accurate, PulledVersions, PushedVersions, PathsOf, ConflictCount;
      RoomNow(env, s, ds);
      StepKeeps(env, s, d);
      RoomLater(env, s, ds);
      StepFrame(env, s, ds, Uses(d), t);
      WorkableFrame(env, s, t, rest);
      hide PassEffect, Workable, PassKeeps;
      PassLosesNothing(env, t, rest);
      KeepsComposes(env, s, ds, t);
    }
  }

  /** There is a number for the first conflict. */
  lemma RoomNow(env: Env, s: State, ds: seq<FileDiff>)
    requires Lawful(env.names) && ds != [] && ds[0].path != "" && RoomFor(env, s.journal, ds)
    ensures ds[0].Conflict? ==> HasFree(env.names, ds[0].path, s.journal.Keys)
  {
    var b := NextOldN(env.names, ds[0].path, s.journal.Keys).base;
    BaseNonEmpty(env.names, ds[0].path, env.names.maxDepth);
    hide TakenNumbers;
    assert ds[0].Conflict? ==> Charges(env.names, ds, b) > 0;
  }

  /** And, after it, for the others. */
  lemma RoomLater(env: Env, s: State, ds: seq<FileDiff>)
    requires Lawful(env.names) && Tracked(env, s) && ds != [] && Accurate(env, At(s, ds[0].path), ds[0])
    requires RoomFor(env, s.journal, ds) && (ds[0].Conflict? ==> HasFree(env.names, ds[0].path, s.journal.Keys))
    ensures RoomFor(env, Step(env, s, ds[0]).state.journal, ds[1..])
  {
    hide Step, TakenNumbers, HasFree, Charge, At, Accurate, Tracked, Lawful;
    forall b | b != "" && Charges(env.names, ds[1..], b) > 0
      ensures |TakenNumbers(env.names, b, Step(env, s, ds[0]).state.journal.Keys)| + Charges(env.names, ds[1..], b) <= env.names.maxProbe
    {
      StepTakes(env, s, ds[0], b);
      assert Charges(env.names, ds, b) == Charge(env.names, ds[0], b) + Charges(env.names, ds[1..], b);
    }
  }

  lemma NothingToDo(env: Env, s: State)
    requires Tracked(env, s)
    ensures PassKeeps(env, s, [], Run(env, s, []))
  {
  }

  lemma RunUnfold(env: Env, s: State, ds: seq<FileDiff>)
    requires ds != [] && Step(env, s, ds[0]).ok
    ensures var rest := Run(env, Step(env, s, ds[0]).state, ds[1..]);
            Run(env, s, ds) ==
            PassResult(rest.state,
              rest.pushed + (if ds[0].LocalOnly? then 1 else 0),
              rest.pulled + (if ds[0].RemoteOnly? then 1 else 0),
              rest.conflicts + (if ds[0].Conflict? then 1 else 0))
  {
    hide Step;
  }

  lemma PassUnfold(s: State, ds: seq<FileDiff>)
    requires ds != []
    ensures PulledVersions(s, ds) == PulledVersions(s, ds[1..]) + PulledVersions(s, [ds[0]])
    ensures PushedVersions(s, ds) == PushedVersions(s, ds[1..]) + PushedVersions(s, [ds[0]])
    ensures ConflictCount(ds) == Uses(ds[0]) + ConflictCount(ds[1..])
    ensures PathsOf(ds) == {ds[0].path} + PathsOf(ds[1..])
    ensures LocalOnlyCount(ds) == LocalOnlyCount(ds[1..]) + if ds[0].LocalOnly? then 1 else 0
    ensures RemoteOnlyCount(ds) == RemoteOnlyCount(ds[1..]) + if ds[0].RemoteOnly? then 1 else 0
  {
    OneDiff(s, ds[0]);
  }

  lemma StepFrame(env: Env, s: State, ds: seq<FileDiff>, n: nat, t: State)
    requires ds != [] && Workable(env, s, ds) && PassEffect(env, s, {ds[0].path}, n, t)
    ensures forall p :: p in PathsOf(ds[1..]) ==> At(t, p) == At(s, p)
  {
    assert Workable(env, s, ds[1..]) && ds[0].path !in PathsOf(ds[1..]);
    WorkablePaths(env, s, ds[1..]);
    hide At, Workable, PathsOf, Files;
  }

  lemma FirstPath(env: Env, s: State, ds: seq<FileDiff>)
    requires ds != [] && Workable(env, s, ds)
    ensures ds[0].path in Files(s) && ds[0].path !in PathsOf(ds[1..]) && PathsOf(ds[1..]) <= Files(s)
  {
    WorkablePaths(env, s, ds[1..]);
  }

  /** The first diff's result and the rest's result add up. */
  lemma KeepsComposes(env: Env, s: State, ds: seq<FileDiff>, t: State)
    requires ds != [] && Workable(env, s, ds)
    requires Step(env, s, ds[0]).ok && t == Step(env, s, ds[0]).state
    requires PassEffect(env, s, {ds[0].path}, Uses(ds[0]), t)
    requires Values(t.local) == Values(s.local) + PulledVersions(s, [ds[0]])
    requires Values(t.remote) == Values(s.remote) + PushedVersions(s, [ds[0]])
    requires PassKeeps(env, t, ds[1..], Run(env, t, ds[1..]))
    requires PulledVersions(t, ds[1..]) == PulledVersions(s, ds[1..])
    requires PushedVersions(t, ds[1..]) == PushedVersions(s, ds[1..])
    ensures PassKeeps(env, s, ds, Run(env, s, ds))
  {
    hide Run, Step, Values, Tracked, At, PulledVersions, PushedVersions, PathsOf, PassEffect, Workable, Files;
    hide ConflictCount, LocalOnlyCount, RemoteOnlyCount;
    var rest := ds[1..];
    FirstPath(env, s, ds);
    RunUnfold(env, s, ds);
    PassUnfold(s, ds);
    EffectComposes(env, s, ds[0].path, Uses(ds[0]), t, PathsOf(rest), ConflictCount(rest), Run(env, t, rest).state);
  }

  lemma EffectComposes(env: Env, s: State, p: string, m: nat, t: State, paths: set<string>, n: nat, u: State)
    requires PassEffect(env, s, {p}, m, t) && PassEffect(env, t, paths, n, u)
    requires p in Files(s) && p !in paths && paths <= Files(s)
    ensures PassEffect(env, s, {p} + paths, m + n, u)
  {
    hide Settled, At, Files, OneSided;
    assert At(u, p) == At(t, p);
  }

  // ---------------------------------------------------------------------
  // Convergence
  // ---------------------------------------------------------------------

  /** The diff of a path, as a property of what the stores hold under it. */
  lemma DiffOfView(env: Env, s: State, p: string)
    ensures DiffAt(env, s, p).NoDiff? <==> !Present(At(s, p)) || Settled(env, At(s, p))
    ensures DiffAt(env, s, p).Differs? ==>
              DiffAt(env, s, p).d.path == p && Accurate(env, At(s, p), DiffAt(env, s, p).d)
    ensures DiffAt(env, s, p).Differs? ==> (DiffAt(env, s, p).d.Conflict? <==> !OneSided(At(s, p)))
  {
  }

  lemma {:induction false} PathsMember(ds: seq<FileDiff>, p: string)
    ensures p in PathsOf(ds) <==> exists i :: 0 <= i < |ds| && ds[i].path == p
  {
    if ds != [] {
      PathsMember(ds[1..], p);
      assert forall i :: 0 <= i < |ds| ==> i == 0 || ds[i] == ds[1..][i - 1];
      assert forall i :: 0 <= i < |ds[1..]| ==> ds[i + 1] == ds[1..][i];
    }
  }

  /** A complete diff is workable, and names exactly the unsettled files. */
  lemma SnapshotWorkable(env: Env, s: State, ds: seq<FileDiff>)
    requires IsSnapshot(env, s, ds)
    ensures Workable(env, s, ds)
    ensures forall p :: p in PathsOf(ds) <==> Present(At(s, p)) && !Settled(env, At(s, p))
  {
    forall i | 0 <= i < |ds|
      ensures Accurate(env, At(s, ds[i].path), ds[i])
    {
      DiffOfView(env, s, ds[i].path);
    }
    DistinctWorkable(env, s, ds);
    forall p
      ensures p in PathsOf(ds) <==> Present(At(s, p)) && !Settled(env, At(s, p))
    {
      PathsMember(ds, p);
      DiffOfView(env, s, p);
    }
  }

  lemma {:induction false} DistinctWorkable(env: Env, s: State, ds: seq<FileDiff>)
    requires DistinctPaths(ds) && forall i :: 0 <= i < |ds| ==> Accurate(env, At(s, ds[i].path), ds[i])
    ensures Workable(env, s, ds)
  {
    if ds != [] {
      PathsMember(ds[1..], ds[0].path);
      DistinctWorkable(env, s, ds[1..]);
    }
  }

  /** The state a pass leaves: the bases marked for retention are dealt with
      at its end (with retention off, nothing is evicted). */
  function AfterPass(env: Env, s: State, ds: seq<FileDiff>): State {
    Run(env, s, ds).state.(pending := {})
  }

  /** Every old file is settled, and whatever is new is a one-sided loser. */
  ghost predicate AllSettled(env: Env, s: State, n: nat, t: State) {
    && Tracked(env, t) && Files(s) <= Files(t) && |Files(t)| == |Files(s)| + n
    && (forall p :: p in Files(s) ==> Settled(env, At(t, p)))
    && (forall p :: p in Files(t) && p !in Files(s) ==> IsOld(env.names, p) && OneSided(At(t, p)))
  }

  lemma PassSettles(env: Env, s: State, ds: seq<FileDiff>)
    requires Lawful(env.names) && Tracked(env, s) && IsSnapshot(env, s, ds)
    requires RoomFor(env, s.journal, ds)
    ensures AllSettled(env, s, ConflictCount(ds), AfterPass(env, s, ds))
  {
    SnapshotWorkable(env, s, ds);
    PassLosesNothing(env, s, ds);
    hide Run, Settled, OneSided, Values;
    SettlesAll(env, s, PathsOf(ds), ConflictCount(ds), Run(env, s, ds).state);
    SettledCopies(env, s, ConflictCount(ds), Run(env, s, ds).state, AfterPass(env, s, ds));
  }

  lemma SettlesAll(env: Env, s: State, paths: set<string>, n: nat, t: State)
    requires Tracked(env, t) && PassEffect(env, s, paths, n, t)
    requires forall p :: p in paths <==> Present(At(s, p)) && !Settled(env, At(s, p))
    ensures AllSettled(env, s, n, t)
  {
    hide Settled;
    forall p | p in Files(s)
      ensures Settled(env, At(t, p))
    {
      assert Present(At(s, p));
    }
  }

  /** Retention marks and clock readings do not matter. */
  lemma SettledCopies(env: Env, s: State, n: nat, t: State, u: State)
    requires AllSettled(env, s, n, t)
    requires t.local == u.local && t.remote == u.remote && t.journal == u.journal
    ensures AllSettled(env, s, n, u)
  {
    hide Settled, OneSided, At, Files, Tracked;
    SameStores(env, t, u);
  }

  lemma SameStores(env: Env, t: State, u: State)
    requires t.local == u.local && t.remote == u.remote && t.journal == u.journal
    ensures Files(u) == Files(t) && (Tracked(env, t) ==> Tracked(env, u))
    ensures forall p :: At(u, p) == At(t, p)
  {
  }

  /** Bisync converges. The second pass finds exactly the losers the first one
      made: as many as it had conflicts, each new, on one side only, and none a
      conflict. After it nothing differs: the third pass finds no diff. */
  lemma {:induction false} Converges(env: Env, s: State, first: seq<FileDiff>, second: seq<FileDiff>, third: seq<FileDiff>)
    requires Lawful(env.names) && Tracked(env, s) && RoomFor(env, s.journal, first)
    requires IsSnapshot(env, s, first)
    requires IsSnapshot(env, AfterPass(env, s, first), second)
    requires IsSnapshot(env, AfterPass(env, AfterPass(env, s, first), second), third)
    ensures var t := AfterPass(env, s, first);
            && (forall p :: p in PathsOf(second) <==> p in Files(t) && p !in Files(s))
            && (forall i :: 0 <= i < |second| ==> IsOld(env.names, second[i].path) && !second[i].Conflict?)
            && |second| == ConflictCount(first)
    ensures third == []
  {
    hide AfterPass, Settled, OneSided, At, RoomFor, Tracked, Files;
    var t := AfterPass(env, s, first);
    var u := AfterPass(env, t, second);
    PassSettles(env, s, first);
    SecondDiff(env, s, t, second);
    RoomForNone(env, t, second);
    PassSettles(env, t, second);
    NothingDiffers(env, t, u, third);
    hide IsSnapshot;
    SecondCount(s, t, second);
  }

  lemma SecondCount(s: State, t: State, second: seq<FileDiff>)
    requires DistinctPaths(second) && Files(s) <= Files(t)
    requires forall p :: p in PathsOf(second) <==> p in Files(t) && p !in Files(s)
    ensures |second| == |Files(t)| - |Files(s)|
  {
    DistinctCount(second);
    assert PathsOf(second) == Files(t) - Files(s);
  }

  lemma SecondDiff(env: Env, s: State, t: State, second: seq<FileDiff>)
    requires IsSnapshot(env, t, second) && Files(s) <= Files(t)
    requires forall p :: p in Files(s) ==> Settled(env, At(t, p))
    requires forall p :: p in Files(t) && p !in Files(s) ==> IsOld(env.names, p) && OneSided(At(t, p))
    ensures forall p :: p in PathsOf(second) <==> p in Files(t) && p !in Files(s)
    ensures forall i :: 0 <= i < |second| ==> IsOld(env.names, second[i].path) && !second[i].Conflict?
  {
    SnapshotWorkable(env, t, second);
    forall p
      ensures p in PathsOf(second) <==> p in Files(t) && p !in Files(s)
    {
      assert Present(At(t, p)) <==> p in Files(t);
    }
    forall i | 0 <= i < |second|
      ensures IsOld(env.names, second[i].path) && !second[i].Conflict?
    {
      PathsMember(second, second[i].path);
      DiffOfView(env, t, second[i].path);
    }
  }

  /** A pass without conflicts needs no loser names. */
  lemma {:induction false} NoCharges(names: Scheme, ds: seq<FileDiff>, b: string)
    requires forall i :: 0 <= i < |ds| ==> !ds[i].Conflict?
    ensures ConflictCount(ds) == 0 && Charges(names, ds, b) == 0
  {
    if ds != [] { NoCharges(names, ds[1..], b); }
  }

  lemma RoomForNone(env: Env, t: State, ds: seq<FileDiff>)
    requires forall i :: 0 <= i < |ds| ==> !ds[i].Conflict?
    ensures ConflictCount(ds) == 0 && RoomFor(env, t.journal, ds)
  {
    NoCharges(env.names, ds, "");
    forall b
      ensures Charges(env.names, ds, b) == 0
    {
      NoCharges(env.names, ds, b);
    }
  }

  lemma NothingDiffers(env: Env, t: State, u: State, third: seq<FileDiff>)
    requires IsSnapshot(env, u, third)
    requires Files(t) <= Files(u) && |Files(u)| == |Files(t)|
    requires forall p :: p in Files(t) ==> Settled(env, At(u, p))
    ensures third == []
  {
    SubsetSize(Files(t), Files(u));
    SnapshotWorkable(env, u, third);
    assert PathsOf(third) == {} by {
      forall p ensures p !in PathsOf(third) {
        assert Present(At(u, p)) <==> p in Files(u);
      }
    }
  }

  lemma {:induction false} DistinctCount(ds: seq<FileDiff>)
    requires DistinctPaths(ds)
    ensures |PathsOf(ds)| == |ds|
  {
    if ds != [] {
      PathsMember(ds[1..], ds[0].path);
      DistinctCount(ds[1..]);
    }
  }

  /** The conflicts a diff of s would find whose losers can hang off b. */
  function ConflictsOn(env: Env, s: State, b: string): set<string> {
    set p | p in s.local && p in s.remote && HasDivergence(env, s.journal, p, s.local[p], s.remote[p]) && Hits(env.names, p, b)
  }

  /** Room for the conflicts there are, base by base. */
  ghost predicate RoomForConflicts(env: Env, s: State) {
    forall b :: b != "" && ConflictsOn(env, s, b) != {} ==>
      |TakenNumbers(env.names, b, s.journal.Keys)| + |ConflictsOn(env, s, b)| <= env.names.maxProbe
  }

  /** Three passes of the runner, from any tracked state: the third one has
      nothing to do. */
  method ThreePasses(b: Runner) returns (pushed: nat, pulled: nat, conflicts: nat)
    requires Lawful(b.env.names) && Tracked(b.env, b.State())
    requires RoomForConflicts(b.env, b.State())
    modifies b
    ensures pushed == pulled == conflicts == 0
  {
    ghost var env, s := b.env, b.State();
    var first, _, _, _ := b.Execute();
    ghost var t := b.State();
    var second, _, _, _ := b.Execute();
    ghost var third: seq<FileDiff>;
    third, pushed, pulled, conflicts := b.Execute();
    ConflictsAreCounted(env, s, first);
    Converges(env, s, first, second, third);
  }

  lemma ConflictsAreCounted(env: Env, s: State, ds: seq<FileDiff>)
    requires IsSnapshot(env, s, ds) && RoomForConflicts(env, s)
    ensures RoomFor(env, s.journal, ds)
  {
    forall b | b != "" && Charges(env.names, ds, b) > 0
      ensures |TakenNumbers(env.names, b, s.journal.Keys)| + Charges(env.names, ds, b) <= env.names.maxProbe
    {
      SnapshotWorkable(env, s, ds);
      ChargedPaths(env, s, ds, ds, b);
      SubsetSize(ChargedPathsOf(env.names, ds, b), ConflictsOn(env, s, b));
    }
  }

  function ChargedPathsOf(names: Scheme, ds: seq<FileDiff>, b: string): set<string> {
    if ds == [] then {}
    else (if Charge(names, ds[0], b) == 1 then {ds[0].path} else {}) + ChargedPathsOf(names, ds[1..], b)
  }

  lemma {:induction false} ChargedPaths(env: Env, s: State, all: seq<FileDiff>, ds: seq<FileDiff>, b: string)
    requires IsSnapshot(env, s, all) && Workable(env, s, ds) && forall d :: d in ds ==> d in all
    ensures |ChargedPathsOf(env.names, ds, b)| == Charges(env.names, ds, b)
    ensures ChargedPathsOf(env.names, ds, b) <= PathsOf(ds) && ChargedPathsOf(env.names, ds, b) <= ConflictsOn(env, s, b)
  {
    if ds != [] {
      assert ds[0] in all;
      assert DiffAt(env, s, ds[0].path) == Differs(ds[0]);
      hide IsSnapshot, Accurate, At, Base;
      ChargedPaths(env, s, all, ds[1..], b);
    }
  }
}
