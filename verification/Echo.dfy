/**
 * Echo quiescence: every successful transfer leaves a baseline (one content on
 * both sides, as the journal recorded it), and from a baseline no watcher
 * event, no re-reported change and no bisync pass moves, renames or journals
 * the file again, whatever happens to other files.
 */
module Echo {
  import opened Text
  import opened Naming
  import opened Journal
  import opened World
  import opened Bisync
  import opened BisyncProofs
  import opened Pull
  import opened Resolvers

  predicate Baseline(env: Env, v: View) {
    && v.local.Some? && v.remote.Some? && v.entry.Some?
    && v.local.value.content == v.remote.value.content
    && v.local.value.mtime == v.entry.value.localMtime
    && v.remote.value.mtime == v.entry.value.remoteMtime
    && env.md5(v.remote.value.content) == v.entry.value.remoteMD5
  }

  // ---------------------------------------------------------------------
  // Transfers establish the baseline
  // ---------------------------------------------------------------------

  lemma PushEstablishes(cfg: Config, s: State, p: string, op: Op)
    requires op != Remove && Push(cfg, s, p, op).ok
    ensures Baseline(cfg.env, At(Push(cfg, s, p, op).state, p))
  {
  }

  /** A download establishes it exactly when the change still describes the
      remote file. */
  lemma DownloadEstablishes(cfg: Config, s: State, ch: Change)
    requires ch.FileChange? && DownloadFile(cfg, s, ch).ok
    ensures Baseline(cfg.env, At(DownloadFile(cfg, s, ch).state, ch.path)) <==>
            ch.modTime == s.remote[ch.path].mtime && ch.md5 == cfg.env.md5(s.remote[ch.path].content)
  {
  }

  lemma BisyncEstablishes(env: Env, s: State, d: FileDiff)
    requires Lawful(env.names) && Tracked(env, s) && Accurate(env, At(s, d.path), d)
    requires d.Conflict? ==> HasFree(env.names, d.path, s.journal.Keys)
    ensures Step(env, s, d).ok && Baseline(env, At(Step(env, s, d).state, d.path))
  {
    if d.Conflict? {
      ConflictStep(env, s, d);
    } else {
      TransferStep(env, s, d);
    }
  }

  // ---------------------------------------------------------------------
  // Runs
  // ---------------------------------------------------------------------

  datatype Event =
    | Watched(path: string, op: Op)
    | Reported(ch: Change)
    | Diffed(path: string)
    | Edited(path: string, local: Option<File>, remote: Option<File>)

  /** One event: the watcher or the pull loop handles it, bisync looks at one
      path, or a user changes one path on either side. */
  function Apply(cfg: Config, s: State, ev: Event): State {
    match ev
    case Watched(p, op) => WatchEvent(cfg, s, p, op).state
    case Reported(ch) => ProcessChange(cfg, s, ch).state
    case Diffed(p) =>
      (match DiffAt(cfg.env, s, p)
       case NoDiff => s
       case Differs(d) => Step(cfg.env, s, d).state)
    case Edited(p, local, remote) => s.(local := SetAt(s.local, p, local), remote := SetAt(s.remote, p, remote))
  }

  function ApplyAll(cfg: Config, s: State, evs: seq<Event>): State
    decreases |evs|
  {
    if evs == [] then s else ApplyAll(cfg, Apply(cfg, s, evs[0]), evs[1..])
  }

  /** No user edit of p, no remove event for it, and reports about it describe
      the remote object v holds. Any other event is free. */
  predicate QuietFor(env: Env, p: string, v: View, ev: Event)
    requires v.remote.Some?
  {
    match ev
    case Watched(q, op) => q == p ==> op != Remove
    case Reported(Deleted(q)) => q != p
    case Reported(DirChange(_)) => true
    case Reported(FileChange(q, modTime, md5)) =>
      q == p ==> modTime == v.remote.value.mtime && md5 == env.md5(v.remote.value.content)
    case Diffed(_) => true
    case Edited(q, _, _) => q != p
  }

  /** Nothing at all happens to a file at its baseline. */
  lemma BaselineIsQuiet(cfg: Config, s: State, p: string, ev: Event)
    requires Baseline(cfg.env, At(s, p)) && QuietFor(cfg.env, p, At(s, p), ev)
    requires PathOf(ev) == p && !ev.Edited?
    requires ev.Reported? ==> ev.ch.path == p
    ensures Apply(cfg, s, ev) == s
  {
    match ev
    case Watched(_, _) => assert SelfInduced(s, p);
    case Reported(_) =>
    case Diffed(_) => DiffOfView(cfg.env, s, p);
  }

  function PathOf(ev: Event): string {
    match ev
    case Reported(ch) => ch.path
    case _ => ev.path
  }

  /** The event renames a loser aside. */
  predicate RenamesLoser(cfg: Config, s: State, ev: Event) {
    match ev
    case Reported(ch) =>
      ch.FileChange? && ch.path in s.journal && !(ch.path in s.local && cfg.unreadable(ch.path)) && !Adopts(cfg, s, ch) && DetectConflict(s, ch)
    case Diffed(p) => DiffAt(cfg.env, s, p).Differs? && DiffAt(cfg.env, s, p).d.Conflict?
    case _ => false
  }

  /** The event renames no loser onto p. */
  predicate SparesName(cfg: Config, s: State, p: string, ev: Event) {
    RenamesLoser(cfg, s, ev) ==> NextOldPath(cfg.env.names, PathOf(ev), s.journal.Keys) != p
  }

  /** A path without a suffix is never a loser's name, and neither is a
      journaled path while the conflict finds a free number. */
  lemma NameIsSpared(cfg: Config, s: State, p: string, ev: Event)
    requires Lawful(cfg.env.names) && PathOf(ev) != ""
    requires !IsOld(cfg.env.names, p) ||
             (p in s.journal && (RenamesLoser(cfg, s, ev) ==> HasFree(cfg.env.names, PathOf(ev), s.journal.Keys)))
    ensures SparesName(cfg, s, p, ev)
  {
    hide NextOldN;
    LoserIsOld(cfg.env.names, PathOf(ev), s.journal.Keys);
    if RenamesLoser(cfg, s, ev) && IsOld(cfg.env.names, p) {
      FreeName(cfg.env.names, PathOf(ev), s.journal.Keys);
    }
  }

  lemma PushFrame(cfg: Config, s: State, q: string, op: Op, p: string)
    requires q != p
    ensures At(WatchEvent(cfg, s, q, op).state, p) == At(s, p)
  {
  }

  /** A pull conflict elsewhere touches its path and the loser's name only. */
  lemma PullResolveFrame(cfg: Config, s: State, ch: Change, lm: Time, p: string)
    requires RetentionOff(cfg.retention) && ch.FileChange? && ch.path != p
    requires NextOldPath(cfg.env.names, ch.path, s.journal.Keys) != p
    ensures At(PullResolve(cfg, s, ch, lm).state, p) == At(s, p)
  {
    hide NextOldN, PruneBase, LocalLoserEntry, RemoteLoserEntry;
    var q := NextOldPath(cfg.env.names, ch.path, s.journal.Keys);
    var loser := NextOldN(cfg.env.names, ch.path, s.journal.Keys);
    var now := cfg.env.clock(s.ticks);
    assert q == cfg.env.names.format(loser.base, loser.n);
    if PullWinner(lm, ch.modTime, cfg.policy) == Remote {
      if ch.path in s.local {
        var moved := (s.local - {ch.path})[q := s.local[ch.path]];
        PruneOff(cfg, s.(local := moved, journal := s.journal[q := LocalLoserEntry(q, lm, now)], ticks := s.ticks + 1), loser.base);
      }
    } else if ch.path in s.remote {
      var moved := (s.remote - {ch.path})[q := s.remote[ch.path]];
      PruneOff(cfg, s.(remote := moved, journal := s.journal[q := RemoteLoserEntry(q, ch.modTime, ch.md5, now)], ticks := s.ticks + 1), loser.base);
    }
  }

  lemma ProcessFrame(cfg: Config, s: State, ch: Change, p: string)
    requires RetentionOff(cfg.retention) && ch.path != p && SparesName(cfg, s, p, Reported(ch))
    ensures At(ProcessChange(cfg, s, ch).state, p) == At(s, p)
  {
    hide PullResolve, NextOldPath;
    if RenamesLoser(cfg, s, Reported(ch)) {
      PullResolveFrame(cfg, s, ch, s.local[ch.path].mtime, p);
    }
  }

  lemma StepFrameAt(env: Env, s: State, d: FileDiff, p: string)
    requires d.path != p && (d.Conflict? ==> NextOldPath(env.names, d.path, s.journal.Keys) != p)
    ensures At(Step(env, s, d).state, p) == At(s, p)
  {
    hide NextOldN;
    assert NextOldPath(env.names, d.path, s.journal.Keys) ==
           env.names.format(NextOldN(env.names, d.path, s.journal.Keys).base, NextOldN(env.names, d.path, s.journal.Keys).n);
  }

  /** One event leaves a file at its baseline alone, unless it renames a loser
      onto it. */
  lemma EventKeeps(cfg: Config, s: State, p: string, ev: Event)
    requires RetentionOff(cfg.retention)
    requires Baseline(cfg.env, At(s, p)) && QuietFor(cfg.env, p, At(s, p), ev) && SparesName(cfg, s, p, ev)
    ensures At(Apply(cfg, s, ev), p) == At(s, p)
  {
    match ev
    case Watched(q, op) =>
      if q == p {
        BaselineIsQuiet(cfg, s, p, ev);
      } else {
        PushFrame(cfg, s, q, op, p);
      }
    case Reported(ch) =>
      hide NextOldPath;
      if ch.path == p {
        BaselineIsQuiet(cfg, s, p, ev);
      } else {
        hide ProcessChange, SparesName;
        ProcessFrame(cfg, s, ch, p);
      }
    case Diffed(q) =>
      hide NextOldPath, Step;
      if q == p {
        BaselineIsQuiet(cfg, s, p, ev);
      } else {
        DiffOfView(cfg.env, s, q);
        if DiffAt(cfg.env, s, q).Differs? {
          StepFrameAt(cfg.env, s, DiffAt(cfg.env, s, q).d, p);
        }
      }
    case Edited(_, _, _) =>
  }

  /** Along the run no event renames a loser onto p. */
  ghost predicate NameSpared(cfg: Config, s: State, p: string, evs: seq<Event>)
    decreases |evs|
  {
    evs != [] ==> SparesName(cfg, s, p, evs[0]) && NameSpared(cfg, Apply(cfg, s, evs[0]), p, evs[1..])
  }

  /** A path without a suffix is spared in every run. */
  lemma {:induction false} PlainNameSpared(cfg: Config, s: State, p: string, evs: seq<Event>)
    requires Lawful(cfg.env.names) && !IsOld(cfg.env.names, p)
    requires forall i :: 0 <= i < |evs| ==> PathOf(evs[i]) != ""
    ensures NameSpared(cfg, s, p, evs)
    decreases |evs|
  {
    if evs != [] {
      NameIsSpared(cfg, s, p, evs[0]);
      hide Apply, SparesName, Lawful;
      PlainNameSpared(cfg, Apply(cfg, s, evs[0]), p, evs[1..]);
    }
  }

  /** Echo quiescence. Over any run, however long, in which p itself is left
      to the engine, both copies and the entry of p stay exactly as they are.
      Only a p that is itself a loser's name needs a condition: that no
      conflict of the run, out of numbers, renames its loser onto p. */
  lemma {:induction false} EchoQuiescence(cfg: Config, s: State, p: string, evs: seq<Event>)
    requires Lawful(cfg.env.names) && RetentionOff(cfg.retention) && Baseline(cfg.env, At(s, p))
    requires forall i :: 0 <= i < |evs| ==> PathOf(evs[i]) != "" && QuietFor(cfg.env, p, At(s, p), evs[i])
    requires IsOld(cfg.env.names, p) ==> NameSpared(cfg, s, p, evs)
    ensures At(ApplyAll(cfg, s, evs), p) == At(s, p)
    decreases |evs|
  {
    if evs != [] {
      if !IsOld(cfg.env.names, p) {
        PlainNameSpared(cfg, s, p, evs);
      }
      EventKeeps(cfg, s, p, evs[0]);
      hide Apply, At, Baseline, QuietFor, SparesName, Lawful;
      EchoQuiescence(cfg, Apply(cfg, s, evs[0]), p, evs[1..]);
    }
  }
}
