/**
 * One bisync pass: the diff of the two trees, and the loop that works through
 * a diff snapshot while it changes both trees and the journal
 * (homedrive/internal/syncer/bisync.go, bisync_ops.go). The exclusive lock
 * makes a pass sequential.
 */
module Bisync {
  import opened Naming
  import opened Journal
  import opened World

  /** A difference, with the file metadata seen when the diff was taken. */
  datatype FileDiff =
    | LocalOnly(path: string, localMtime: Time)
    | RemoteOnly(path: string, remoteMtime: Time, remoteMD5: string)
    | Conflict(path: string, localMtime: Time, remoteMtime: Time, remoteMD5: string)

  datatype DiffResult = NoDiff | Differs(d: FileDiff)

  // ---------------------------------------------------------------------
  // Diff
  // ---------------------------------------------------------------------

  predicate HasDivergence(env: Env, journal: Bucket, path: string, local: File, remote: File) {
    if path !in journal then local.mtime != remote.mtime
    else
      var e := journal[path];
      local.mtime != e.localMtime || env.md5(remote.content) != e.remoteMD5 || remote.mtime != e.remoteMtime
  }

  function DiffAt(env: Env, s: State, p: string): DiffResult {
    if p in s.local then
      if p !in s.remote then Differs(LocalOnly(p, s.local[p].mtime))
      else if HasDivergence(env, s.journal, p, s.local[p], s.remote[p]) then
        Differs(Conflict(p, s.local[p].mtime, s.remote[p].mtime, env.md5(s.remote[p].content)))
      else NoDiff
    else if p in s.remote then Differs(RemoteOnly(p, s.remote[p].mtime, env.md5(s.remote[p].content)))
    else NoDiff
  }

  ghost predicate DistinctPaths(ds: seq<FileDiff>) {
    forall i, j :: 0 <= i < j < |ds| ==> ds[i].path != ds[j].path
  }

  /** ds is the complete diff of s, in some order, each path once. */
  ghost predicate IsSnapshot(env: Env, s: State, ds: seq<FileDiff>) {
    && DistinctPaths(ds)
    && (forall i :: 0 <= i < |ds| ==> DiffAt(env, s, ds[i].path) == Differs(ds[i]))
    && (forall p :: DiffAt(env, s, p).Differs? ==> DiffAt(env, s, p).d in ds)
  }

  // ---------------------------------------------------------------------
  // Sync operations
  // ---------------------------------------------------------------------

  datatype StepResult = StepResult(state: State, ok: bool)

  function PushedEntry(env: Env, p: string, localMtime: Time, obj: File, now: Time): JournalEntry {
    JournalEntry(p, localMtime, obj.mtime, env.md5(obj.content), now, Local)
  }

  function PulledEntry(p: string, remoteMtime: Time, remoteMD5: string, now: Time): JournalEntry {
    JournalEntry(p, remoteMtime, remoteMtime, remoteMD5, now, Remote)
  }

  function RemoteLoserEntry(oldPath: string, remoteMtime: Time, remoteMD5: string, now: Time): JournalEntry {
    JournalEntry(oldPath, 0, remoteMtime, remoteMD5, now, Remote)
  }

  function LocalLoserEntry(oldPath: string, localMtime: Time, now: Time): JournalEntry {
    JournalEntry(oldPath, localMtime, 0, "", now, Local)
  }

  function SyncLocalToRemote(env: Env, s: State, p: string, localMtime: Time): StepResult {
    match Transfer(s.local, s.remote, p)
    case FsErr => StepResult(s, false)
    case FsOk(remote) =>
      var e := PushedEntry(env, p, localMtime, remote[p], env.clock(s.ticks));
      StepResult(s.(remote := remote, journal := s.journal[p := e], ticks := s.ticks + 1), true)
  }

  function SyncRemoteToLocal(env: Env, s: State, p: string, remoteMtime: Time, remoteMD5: string): StepResult {
    match Transfer(s.remote, s.local, p)
    case FsErr => StepResult(s, false)
    case FsOk(local) =>
      var e := PulledEntry(p, remoteMtime, remoteMD5, env.clock(s.ticks));
      StepResult(s.(local := local, journal := s.journal[p := e], ticks := s.ticks + 1), true)
  }

  // ---------------------------------------------------------------------
  // Conflict resolution
  // ---------------------------------------------------------------------

  /** Newer wins; equal mtimes go to the local side. */
  function BisyncWinner(localMtime: Time, remoteMtime: Time): Side {
    if localMtime > remoteMtime then Local
    else if remoteMtime > localMtime then Remote
    else Local
  }

  /** The remote loser moves aside, the local version is uploaded. */
  function ResolveLocalWins(env: Env, s: State, d: FileDiff): StepResult
    requires d.Conflict?
  {
    var loser := NextOldN(env.names, d.path, s.journal.Keys);
    var oldPath := env.names.format(loser.base, loser.n);
    match MoveFile(s.remote, d.path, oldPath)
    case FsErr => StepResult(s, false)
    case FsOk(moved) =>
      match Transfer(s.local, moved, d.path)
      case FsErr => StepResult(s.(remote := moved), false)
      case FsOk(remote) =>
        var e := PushedEntry(env, d.path, d.localMtime, remote[d.path], env.clock(s.ticks));
        var kept := RemoteLoserEntry(oldPath, d.remoteMtime, d.remoteMD5, env.clock(s.ticks + 1));
        StepResult(s.(remote := remote, journal := s.journal[d.path := e][oldPath := kept],
                      pending := s.pending + {loser.base}, ticks := s.ticks + 2), true)
  }

  /** The local loser moves aside, the remote version is downloaded. */
  function ResolveRemoteWins(env: Env, s: State, d: FileDiff): StepResult
    requires d.Conflict?
  {
    var loser := NextOldN(env.names, d.path, s.journal.Keys);
    var oldPath := env.names.format(loser.base, loser.n);
    match RenameLocal(s.local, d.path, oldPath)
    case FsErr => StepResult(s, false)
    case FsOk(moved) =>
      match Transfer(s.remote, moved, d.path)
      case FsErr => StepResult(s.(local := moved), false)
      case FsOk(local) =>
        var e := PulledEntry(d.path, d.remoteMtime, d.remoteMD5, env.clock(s.ticks));
        var kept := LocalLoserEntry(oldPath, d.localMtime, env.clock(s.ticks + 1));
        StepResult(s.(local := local, journal := s.journal[d.path := e][oldPath := kept],
                      pending := s.pending + {loser.base}, ticks := s.ticks + 2), true)
  }

  function Step(env: Env, s: State, d: FileDiff): StepResult {
    match d
    case LocalOnly(p, lm) => SyncLocalToRemote(env, s, p, lm)
    case RemoteOnly(p, rm, md5) => SyncRemoteToLocal(env, s, p, rm, md5)
    case Conflict(_, lm, rm, _) =>
      if BisyncWinner(lm, rm) == Local then ResolveLocalWins(env, s, d) else ResolveRemoteWins(env, s, d)
  }

  datatype PassResult = PassResult(state: State, pushed: nat, pulled: nat, conflicts: nat)

  /** Working through ds in order. A failed operation is logged and skipped;
      a conflict is counted whether or not it was resolved. */
  function Run(env: Env, s: State, ds: seq<FileDiff>): PassResult
    decreases |ds|
  {
    if ds == [] then PassResult(s, 0, 0, 0)
    else
      var d := ds[0];
      var r := Step(env, s, d);
      var rest := Run(env, r.state, ds[1..]);
      PassResult(rest.state,
        rest.pushed + (if d.LocalOnly? && r.ok then 1 else 0),
        rest.pulled + (if d.RemoteOnly? && r.ok then 1 else 0),
        rest.conflicts + (if d.Conflict? then 1 else 0))
  }

  /** The runner. Its fields are the stores; a pass changes them in place. */
  class Runner {
    const env: Env
    var local: Tree
    var remote: Tree
    var journal: Bucket
    var pendingPrune: set<string>
    var ticks: nat

    function State(): State reads this {
      World.State(local, remote, journal, pendingPrune, ticks)
    }

    constructor (env: Env, local: Tree, remote: Tree, journal: Bucket)
      ensures this.env == env && State() == World.State(local, remote, journal, {}, 0)
    {
      this.env, this.local, this.remote, this.journal := env, local, remote, journal;
      pendingPrune, ticks := {}, 0;
    }

    /** Walks the local tree, then the remote one, each in map order. */
    method Diff() returns (ds: seq<FileDiff>)
      ensures IsSnapshot(env, State(), ds)
    {
      ds := [];
      var todo := local.Keys;
      while todo != {}
        invariant todo <= local.Keys
        invariant DistinctPaths(ds)
        invariant forall i :: 0 <= i < |ds| ==>
                    ds[i].path in local.Keys - todo && DiffAt(env, State(), ds[i].path) == Differs(ds[i])
        invariant forall p :: p in local.Keys - todo && DiffAt(env, State(), p).Differs? ==>
                    DiffAt(env, State(), p).d in ds
        decreases todo
      {
        var p :| p in todo;
        todo := todo - {p};
        if p !in remote {
          ds := ds + [LocalOnly(p, local[p].mtime)];
        } else if HasDivergence(env, journal, p, local[p], remote[p]) {
          ds := ds + [Conflict(p, local[p].mtime, remote[p].mtime, env.md5(remote[p].content))];
        }
      }
      todo := remote.Keys;
      while todo != {}
        invariant todo <= remote.Keys
        invariant DistinctPaths(ds)
        invariant forall i :: 0 <= i < |ds| ==>
                    (ds[i].path in local || ds[i].path in remote.Keys - todo) &&
                    DiffAt(env, State(), ds[i].path) == Differs(ds[i])
        invariant forall p :: (p in local || p in remote.Keys - todo) && DiffAt(env, State(), p).Differs? ==>
                    DiffAt(env, State(), p).d in ds
        decreases todo
      {
        var p :| p in todo;
        todo := todo - {p};
        if p !in local {
          ds := ds + [RemoteOnly(p, remote[p].mtime, env.md5(remote[p].content))];
        }
      }
    }

    /** Cancelled before diff number cancelAt, if there is one. */
    method SyncDiffs(ds: seq<FileDiff>, cancelAt: nat) returns (pushed: nat, pulled: nat, conflicts: nat)
      modifies this
      ensures var n := if cancelAt < |ds| then cancelAt else |ds|;
              PassResult(State(), pushed, pulled, conflicts) == Run(env, old(State()), ds[..n])
    {
      pushed, pulled, conflicts := 0, 0, 0;
      ghost var n := if cancelAt < |ds| then cancelAt else |ds|;
      ghost var whole := Run(env, State(), ds[..n]);
      var i := 0;
      while i < |ds|
        invariant 0 <= i <= n
        invariant var rest := Run(env, State(), ds[i..n]);
                  whole == PassResult(rest.state, pushed + rest.pushed, pulled + rest.pulled, conflicts + rest.conflicts)
        decreases |ds| - i
      {
        if i == cancelAt {
          break;
        }
        assert ds[i..n][0] == ds[i] && ds[i..n][1..] == ds[i + 1..n];
        var d := ds[i];
        match d {
          case LocalOnly(_, _) =>
            var ok := DoSyncLocalToRemote(d);
            if ok { pushed := pushed + 1; }
          case RemoteOnly(_, _, _) =>
            var ok := DoSyncRemoteToLocal(d);
            if ok { pulled := pulled + 1; }
          case Conflict(_, _, _, _) =>
            var _ := DoResolveConflict(d);
            conflicts := conflicts + 1;
        }
        i := i + 1;
      }
    }

    /** One pass, uncancelled, with chain repair not due and retention off:
        no base marked for retention has anything to evict. */
    method Execute() returns (ghost diffs: seq<FileDiff>, pushed: nat, pulled: nat, conflicts: nat)
      modifies this
      ensures IsSnapshot(env, old(State()), diffs)
      ensures var r := Run(env, old(State()), diffs);
              State() == r.state.(pending := {}) && pushed == r.pushed && pulled == r.pulled && conflicts == r.conflicts
    {
      var ds := Diff();
      diffs := ds;
      pushed, pulled, conflicts := SyncDiffs(ds, |ds|);
      assert ds[..|ds|] == ds;
      pendingPrune := {};
    }

    method DoSyncLocalToRemote(d: FileDiff) returns (ok: bool)
      requires d.LocalOnly?
      modifies this
      ensures StepResult(State(), ok) == Step(env, old(State()), d)
    {
      var uploaded := Transfer(local, remote, d.path);
      if uploaded.FsErr? {
        return false;
      }
      remote := uploaded.tree;
      journal := journal[d.path := PushedEntry(env, d.path, d.localMtime, remote[d.path], env.clock(ticks))];
      ticks := ticks + 1;
      ok := true;
    }

    method DoSyncRemoteToLocal(d: FileDiff) returns (ok: bool)
      requires d.RemoteOnly?
      modifies this
      ensures StepResult(State(), ok) == Step(env, old(State()), d)
    {
      var downloaded := Transfer(remote, local, d.path);
      if downloaded.FsErr? {
        return false;
      }
      local := downloaded.tree;
      journal := journal[d.path := PulledEntry(d.path, d.remoteMtime, d.remoteMD5, env.clock(ticks))];
      ticks := ticks + 1;
      ok := true;
    }

    method DoResolveConflict(d: FileDiff) returns (ok: bool)
      requires d.Conflict?
      modifies this
      ensures StepResult(State(), ok) == Step(env, old(State()), d)
    {
      if d.localMtime > d.remoteMtime {
        ok := DoResolveLocalWins(d);
      } else if d.remoteMtime > d.localMtime {
        ok := DoResolveRemoteWins(d);
      } else {
        ok := DoResolveLocalWins(d);
      }
    }

    method DoResolveLocalWins(d: FileDiff) returns (ok: bool)
      requires d.Conflict?
      modifies this
      ensures StepResult(State(), ok) == ResolveLocalWins(env, old(State()), d)
    {
      hide NextOldN, PushedEntry, PulledEntry, RemoteLoserEntry, LocalLoserEntry;
      var base, n := ProbeNextOldN(env.names, d.path, journal.Keys);
      var oldPath := env.names.format(base, n);
      var moved := MoveFile(remote, d.path, oldPath);
      if moved.FsErr? {
        return false;
      }
      remote := moved.tree;
      var uploaded := Transfer(local, remote, d.path);
      if uploaded.FsErr? {
        return false;
      }
      remote := uploaded.tree;
      journal := journal[d.path := PushedEntry(env, d.path, d.localMtime, remote[d.path], env.clock(ticks))];
      ticks := ticks + 1;
      journal := journal[oldPath := RemoteLoserEntry(oldPath, d.remoteMtime, d.remoteMD5, env.clock(ticks))];
      ticks := ticks + 1;
      pendingPrune := pendingPrune + {base};
      ok := true;
    }

    method DoResolveRemoteWins(d: FileDiff) returns (ok: bool)
      requires d.Conflict?
      modifies this
      ensures StepResult(State(), ok) == ResolveRemoteWins(env, old(State()), d)
    {
      hide NextOldN, PushedEntry, PulledEntry, RemoteLoserEntry, LocalLoserEntry;
      var base, n := ProbeNextOldN(env.names, d.path, journal.Keys);
      var oldPath := env.names.format(base, n);
      var moved := RenameLocal(local, d.path, oldPath);
      if moved.FsErr? {
        return false;
      }
      local := moved.tree;
      var downloaded := Transfer(remote, local, d.path);
      if downloaded.FsErr? {
        return false;
      }
      local := downloaded.tree;
      journal := journal[d.path := PulledEntry(d.path, d.remoteMtime, d.remoteMD5, env.clock(ticks))];
      ticks := ticks + 1;
      journal := journal[oldPath := LocalLoserEntry(oldPath, d.localMtime, env.clock(ticks))];
      ticks := ticks + 1;
      pendingPrune := pendingPrune + {base};
      ok := true;
    }
  }
}
