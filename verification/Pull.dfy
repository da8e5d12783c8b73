/**
 * The other two ways a file moves: a remote change is processed (download,
 * delete, conflict; homedrive/internal/syncer/pull_process.go, conflict.go) and
 * a watcher event is pushed (push_journal.go, syncer.go). The store package has
 * a third resolver of conflicts (homedrive/internal/store/conflict.go).
 */
module Pull {
  import opened Text
  import opened Naming
  import opened Journal
  import opened World
  import opened Retention
  import opened Pruning
  import opened Bisync

  const SECOND: int := 1_000_000_000

  /** The tolerance test of the loop-prevention checks. Negating the least
      duration overflows to itself and passes. */
  predicate WithinSecond(a: Time, b: Time) {
    var d := Since(a, b);
    var abs := if d < 0 && d != MIN_DURATION then -d else d;
    abs <= SECOND
  }

  datatype ConflictPolicy = NewerWins | LocalWins | RemoteWins | OtherPolicy

  /** faults says which removals of a file and which deletions of an entry
      fail, unreadable which local files cannot be examined. */
  datatype Config = Config(
    env: Env,
    policy: ConflictPolicy,
    retention: RetentionPolicy,
    faults: Faults,
    unreadable: string -> bool)

  /** A change reported by the remote. */
  datatype Change =
    | Deleted(path: string)
    | DirChange(path: string)
    | FileChange(path: string, modTime: Time, md5: string)

  // ---------------------------------------------------------------------
  // Three resolvers
  // ---------------------------------------------------------------------

  function PullWinner(localMtime: Time, remoteMtime: Time, policy: ConflictPolicy): Side {
    match policy
    case LocalWins => Local
    case RemoteWins => Remote
    case _ =>
      if localMtime > remoteMtime then Local
      else if remoteMtime > localMtime then Remote
      else Local
  }

  /** None is ErrUnknownPolicy. */
  function StoreWinner(localMtime: Time, remoteMtime: Time, policy: ConflictPolicy): Option<Side> {
    match policy
    case LocalWins => Some(Local)
    case RemoteWins => Some(Remote)
    case NewerWins =>
      if localMtime > remoteMtime then Some(Local)
      else if remoteMtime > localMtime then Some(Remote)
      else Some(Local)
    case OtherPolicy => None
  }

  datatype StoreResult = Refused | Resolution(winner: Side, oldPath: string, journal: Bucket)

  /** Decides, names the loser and journals it; moves no file. */
  function StoreResolve(names: Scheme, j: Bucket, policy: ConflictPolicy,
                        path: string, localMtime: Time, remoteMtime: Time, remoteMD5: string, now: Time): StoreResult {
    match StoreWinner(localMtime, remoteMtime, policy)
    case None => Refused
    case Some(winner) =>
      var oldPath := NextOldPath(names, path, j.Keys);
      var e := if winner == Remote
               then JournalEntry(oldPath, localMtime, 0, "", now, Local)
               else JournalEntry(oldPath, 0, remoteMtime, remoteMD5, now, Remote);
      Resolution(winner, oldPath, j[oldPath := e])
  }

  /** The inline retention run for one base. */
  function PruneBase(cfg: Config, s: State, base: string): State {
    var stores := Stores(s.local, s.remote, s.journal);
    var out := Evict(stores, EvictedPaths(cfg.env.names, s.journal, base, cfg.retention, cfg.env.clock(s.ticks)), cfg.faults);
    s.(local := out.local, remote := out.remote, journal := out.journal, ticks := s.ticks + 1)
  }

  /** The conflict branch of a pull: rename the loser, journal it, prune its
      base, transfer the winner, and journal the path. */
  function PullResolve(cfg: Config, s: State, ch: Change, localMtime: Time): StepResult
    requires ch.FileChange?
  {
    var p := ch.path;
    var winner := PullWinner(localMtime, ch.modTime, cfg.policy);
    var loser := NextOldN(cfg.env.names, p, s.journal.Keys);
    var oldPath := cfg.env.names.format(loser.base, loser.n);
    if winner == Remote then
      match RenameLocal(s.local, p, oldPath)
      case FsErr => StepResult(s, false)
      case FsOk(moved) =>
        var kept := LocalLoserEntry(oldPath, localMtime, cfg.env.clock(s.ticks));
        var t := PruneBase(cfg, s.(local := moved, journal := s.journal[oldPath := kept], ticks := s.ticks + 1), loser.base);
        match Transfer(t.remote, t.local, p)
        case FsErr => StepResult(t, false)
        case FsOk(local) =>
          var e := JournalEntry(p, ch.modTime, ch.modTime, ch.md5, cfg.env.clock(t.ticks), Remote);
          StepResult(t.(local := local, journal := t.journal[p := e], ticks := t.ticks + 1), true)
    else
      match MoveFile(s.remote, p, oldPath)
      case FsErr => StepResult(s, false)
      case FsOk(moved) =>
        var kept := RemoteLoserEntry(oldPath, ch.modTime, ch.md5, cfg.env.clock(s.ticks));
        var t := PruneBase(cfg, s.(remote := moved, journal := s.journal[oldPath := kept], ticks := s.ticks + 1), loser.base);
        match Transfer(t.local, t.remote, p)
        case FsErr => StepResult(t, false)
        case FsOk(remote) =>
          // The entry records the losing remote object.
          var e := JournalEntry(p, localMtime, ch.modTime, ch.md5, cfg.env.clock(t.ticks), Remote);
          StepResult(t.(remote := remote, journal := t.journal[p := e], ticks := t.ticks + 1), true)
  }

  // ---------------------------------------------------------------------
  // Processing one change
  // ---------------------------------------------------------------------

  /** An entry without a baseline, for a local file equal to the remote one. */
  predicate Adopts(cfg: Config, s: State, ch: Change)
    requires ch.FileChange? && ch.path in s.journal
  {
    var e := s.journal[ch.path];
    e.remoteMD5 == "" && e.localMtime == 0 && ch.md5 != "" &&
    ch.path in s.local && cfg.env.md5(s.local[ch.path].content) == ch.md5
  }

  predicate DetectConflict(s: State, ch: Change)
    requires ch.FileChange? && ch.path in s.journal
  {
    var e := s.journal[ch.path];
    ch.path in s.local && ch.md5 != e.remoteMD5 && !WithinSecond(s.local[ch.path].mtime, e.localMtime)
  }

  function DownloadFile(cfg: Config, s: State, ch: Change): StepResult
    requires ch.FileChange?
  {
    match Transfer(s.remote, s.local, ch.path)
    case FsErr => StepResult(s, false)
    case FsOk(local) =>
      if cfg.unreadable(ch.path) then StepResult(s.(local := local), false)
      else
        var e := JournalEntry(ch.path, local[ch.path].mtime, ch.modTime, ch.md5, cfg.env.clock(s.ticks), Remote);
        StepResult(s.(local := local, journal := s.journal[ch.path := e], ticks := s.ticks + 1), true)
  }

  function ProcessFileChange(cfg: Config, s: State, ch: Change): StepResult
    requires ch.FileChange?
  {
    var p := ch.path;
    if p !in s.journal then DownloadFile(cfg, s, ch)
    else if p in s.local && cfg.unreadable(p) then StepResult(s, false)
    else if Adopts(cfg, s, ch) then
      var e := JournalEntry(p, s.local[p].mtime, ch.modTime, ch.md5, cfg.env.clock(s.ticks), s.journal[p].lastOrigin);
      StepResult(s.(journal := s.journal[p := e], ticks := s.ticks + 1), true)
    else if DetectConflict(s, ch) then PullResolve(cfg, s, ch, s.local[p].mtime)
    else if WithinSecond(ch.modTime, s.journal[p].remoteMtime) then StepResult(s, true)
    else DownloadFile(cfg, s, ch)
  }

  /** A missing local file counts as deleted; a file that cannot be removed
      keeps its entry. Folders are skipped. */
  function ProcessChange(cfg: Config, s: State, ch: Change): StepResult {
    match ch
    case Deleted(p) =>
      if p in s.local && cfg.faults.remove(p) then StepResult(s, false)
      else if cfg.faults.delete(p) then StepResult(s.(local := s.local - {p}), false)
      else StepResult(s.(local := s.local - {p}, journal := s.journal - {p}), true)
    case DirChange(_) => StepResult(s, true)
    case FileChange(_, _, _) => ProcessFileChange(cfg, s, ch)
  }

  // ---------------------------------------------------------------------
  // Watcher events
  // ---------------------------------------------------------------------

  datatype Op = Create | Write | Remove

  /** A create or write of a file whose mtime is the journaled one, within a
      second, is an echo of the engine's own transfer. */
  predicate SelfInduced(s: State, p: string) {
    p in s.journal && p in s.local && WithinSecond(s.local[p].mtime, s.journal[p].localMtime)
  }

  /** The push of one event that was not suppressed. */
  function Push(cfg: Config, s: State, p: string, op: Op): StepResult {
    match op
    case Remove =>
      var e := JournalEntry(p, 0, 0, "", cfg.env.clock(s.ticks), Local);
      StepResult(s.(remote := s.remote - {p}, journal := s.journal[p := e], ticks := s.ticks + 1), true)
    case _ =>
      match Transfer(s.local, s.remote, p)
      case FsErr => StepResult(s, false)
      case FsOk(remote) =>
        var e := PushedEntry(cfg.env, p, s.local[p].mtime, remote[p], cfg.env.clock(s.ticks));
        StepResult(s.(remote := remote, journal := s.journal[p := e], ticks := s.ticks + 1), true)
  }

  function WatchEvent(cfg: Config, s: State, p: string, op: Op): StepResult {
    if op != Remove && SelfInduced(s, p) then StepResult(s, true) else Push(cfg, s, p, op)
  }

  /** The pull side and the push side over the shared stores. */
  class Engine {
    const cfg: Config
    var local: Tree
    var remote: Tree
    var journal: Bucket
    var pending: set<string>
    var ticks: nat

    function State(): State reads this {
      World.State(local, remote, journal, pending, ticks)
    }

    constructor (cfg: Config, s: State)
      ensures this.cfg == cfg && State() == s
    {
      this.cfg := cfg;
      local, remote, journal, pending, ticks := s.local, s.remote, s.journal, s.pending, s.ticks;
    }

    method Process(ch: Change) returns (ok: bool)
      modifies this
      ensures StepResult(State(), ok) == ProcessChange(cfg, old(State()), ch)
    {
      match ch {
        case Deleted(p) =>
          if p in local {
            if cfg.faults.remove(p) {
              return false;
            }
            local := local - {p};
          }
          assert local == old(local) - {p};
          if cfg.faults.delete(p) {
            return false;
          }
          journal := journal - {p};
          ok := true;
        case DirChange(_) =>
          ok := true;
        case FileChange(p, modTime, md5) =>
          if p in journal {
            if p in local && cfg.unreadable(p) {
              return false;
            }
            if Adopts(cfg, State(), ch) {
              journal := journal[p := JournalEntry(p, local[p].mtime, modTime, md5, cfg.env.clock(ticks), journal[p].lastOrigin)];
              ticks := ticks + 1;
              return true;
            }
            if DetectConflict(State(), ch) {
              ok := HandleConflict(ch, local[p].mtime);
              return;
            }
            if WithinSecond(modTime, journal[p].remoteMtime) {
              return true;
            }
          }
          ok := Download(ch);
      }
    }

    method Download(ch: Change) returns (ok: bool)
      requires ch.FileChange?
      modifies this
      ensures StepResult(State(), ok) == DownloadFile(cfg, old(State()), ch)
    {
      var downloaded := Transfer(remote, local, ch.path);
      if downloaded.FsErr? {
        return false;
      }
      local := downloaded.tree;
      if cfg.unreadable(ch.path) {
        return false;
      }
      journal := journal[ch.path := JournalEntry(ch.path, local[ch.path].mtime, ch.modTime, ch.md5, cfg.env.clock(ticks), Remote)];
      ticks := ticks + 1;
      ok := true;
    }

    method PruneAfterConflict(base: string)
      modifies this
      ensures State() == PruneBase(cfg, old(State()), base)
    {
      var paths := EvictedPaths(cfg.env.names, journal, base, cfg.retention, cfg.env.clock(ticks));
      var out := Evict(Stores(local, remote, journal), paths, cfg.faults);
      local, remote, journal := out.local, out.remote, out.journal;
      ticks := ticks + 1;
    }

    method HandleConflict(ch: Change, localMtime: Time) returns (ok: bool)
      requires ch.FileChange?
      modifies this
      ensures StepResult(State(), ok) == PullResolve(cfg, old(State()), ch, localMtime)
    {
      hide NextOldN, PruneBase, LocalLoserEntry, RemoteLoserEntry;
      var p := ch.path;
      var winner := PullWinner(localMtime, ch.modTime, cfg.policy);
      var base, n := ProbeNextOldN(cfg.env.names, p, journal.Keys);
      var oldPath := cfg.env.names.format(base, n);
      if winner == Remote {
        var moved := RenameLocal(local, p, oldPath);
        if moved.FsErr? {
          return false;
        }
        local := moved.tree;
        journal := journal[oldPath := LocalLoserEntry(oldPath, localMtime, cfg.env.clock(ticks))];
        ticks := ticks + 1;
        PruneAfterConflict(base);
        var downloaded := Transfer(remote, local, p);
        if downloaded.FsErr? {
          return false;
        }
        local := downloaded.tree;
        journal := journal[p := JournalEntry(p, ch.modTime, ch.modTime, ch.md5, cfg.env.clock(ticks), Remote)];
      } else {
        var moved := MoveFile(remote, p, oldPath);
        if moved.FsErr? {
          return false;
        }
        remote := moved.tree;
        journal := journal[oldPath := RemoteLoserEntry(oldPath, ch.modTime, ch.md5, cfg.env.clock(ticks))];
        ticks := ticks + 1;
        PruneAfterConflict(base);
        var uploaded := Transfer(local, remote, p);
        if uploaded.FsErr? {
          return false;
        }
        remote := uploaded.tree;
        journal := journal[p := JournalEntry(p, localMtime, ch.modTime, ch.md5, cfg.env.clock(ticks), Remote)];
      }
      ticks := ticks + 1;
      ok := true;
    }

    method HandleEvent(p: string, op: Op) returns (ok: bool)
      modifies this
      ensures StepResult(State(), ok) == WatchEvent(cfg, old(State()), p, op)
    {
      if op != Remove && SelfInduced(State(), p) {
        return true;
      }
      if op == Remove {
        remote := remote - {p};
        journal := journal[p := JournalEntry(p, 0, 0, "", cfg.env.clock(ticks), Local)];
        ticks := ticks + 1;
        return true;
      }
      var uploaded := Transfer(local, remote, p);
      if uploaded.FsErr? {
        return false;
      }
      remote := uploaded.tree;
      journal := journal[p := PushedEntry(cfg.env, p, local[p].mtime, remote[p], cfg.env.clock(ticks))];
      ticks := ticks + 1;
      ok := true;
    }
  }
}
