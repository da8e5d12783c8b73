/**
 * The three conflict resolvers make one decision: the store's, the pull's and
 * bisync's.
 */
module Resolvers {
  import opened Text
  import opened Naming
  import opened Journal
  import opened World
  import opened Retention
  import opened Pruning
  import opened Bisync
  import opened BisyncProofs
  import opened Pull

  /** The pull side decides like bisync for all mtimes exactly when its policy
      is not one of the two one-sided ones; the store decides like the pull
      side exactly when it knows the policy. */
  lemma WinnersAgree(policy: ConflictPolicy)
    ensures (forall lm: Time, rm: Time :: PullWinner(lm, rm, policy) == BisyncWinner(lm, rm)) <==>
            policy == NewerWins || policy == OtherPolicy
    ensures (forall lm: Time, rm: Time :: StoreWinner(lm, rm, policy) == Some(PullWinner(lm, rm, policy))) <==>
            policy != OtherPolicy
  {
    if policy == LocalWins {
      assert PullWinner(0, 1, policy) != BisyncWinner(0, 1);
    } else if policy == RemoteWins {
      assert PullWinner(1, 0, policy) != BisyncWinner(1, 0);
    } else if policy == OtherPolicy {
      assert StoreWinner(0, 0, policy) != Some(PullWinner(0, 0, policy));
    }
  }

  predicate RetentionOff(policy: RetentionPolicy) {
    policy.maxPerFile <= 0 && policy.maxAge <= 0
  }

  /** With retention off the inline run only reads the clock. */
  lemma PruneOff(cfg: Config, s: State, base: string)
    requires RetentionOff(cfg.retention)
    ensures PruneBase(cfg, s, base) == s.(ticks := s.ticks + 1)
  {
    var now := cfg.env.clock(s.ticks);
    assert Evicted(cfg.env.names, Siblings(cfg.env.names, s.journal, base), cfg.retention, now) == {};
    assert EvictedPaths(cfg.env.names, s.journal, base, cfg.retention, now) == {};
    EvictNothing(Stores(s.local, s.remote, s.journal), cfg.faults);
  }

  /** The effect of a pull conflict under retention off and a free loser name:
      exactly the trees bisync would leave. */
  lemma PullEffect(cfg: Config, s: State, ch: Change, q: string)
    requires RetentionOff(cfg.retention) && ch.FileChange?
    requires ch.path in s.local && ch.path in s.remote
    requires q == NextOldPath(cfg.env.names, ch.path, s.journal.Keys) && q != ch.path && q !in s.remote
    ensures var r, p := PullResolve(cfg, s, ch, s.local[ch.path].mtime), ch.path;
            && r.ok && p in r.state.journal && q in r.state.journal
            && r.state.journal == s.journal[q := r.state.journal[q]][p := r.state.journal[p]]
            && r.state.pending == s.pending
            && (if PullWinner(s.local[p].mtime, ch.modTime, cfg.policy) == Remote then
                  r.state.remote == s.remote && r.state.local == s.local[q := s.local[p]][p := s.remote[p]] &&
                  r.state.journal[q] == LocalLoserEntry(q, s.local[p].mtime, cfg.env.clock(s.ticks))
                else
                  r.state.local == s.local && r.state.remote == s.remote[q := s.remote[p]][p := s.local[p]] &&
                  r.state.journal[q] == RemoteLoserEntry(q, ch.modTime, ch.md5, cfg.env.clock(s.ticks)))
  {
    hide NextOldN, PruneBase;
    var p := ch.path;
    var loser := NextOldN(cfg.env.names, p, s.journal.Keys);
    var now := cfg.env.clock(s.ticks);
    if PullWinner(s.local[p].mtime, ch.modTime, cfg.policy) == Remote {
      var moved := (s.local - {p})[q := s.local[p]];
      var kept := LocalLoserEntry(q, s.local[p].mtime, now);
      PruneOff(cfg, s.(local := moved, journal := s.journal[q := kept], ticks := s.ticks + 1), loser.base);
      assert moved[p := s.remote[p]] == s.local[q := s.local[p]][p := s.remote[p]];
    } else {
      var moved := (s.remote - {p})[q := s.remote[p]];
      var kept := RemoteLoserEntry(q, ch.modTime, ch.md5, now);
      PruneOff(cfg, s.(remote := moved, journal := s.journal[q := kept], ticks := s.ticks + 1), loser.base);
      assert moved[p := s.local[p]] == s.remote[q := s.remote[p]][p := s.local[p]];
    }
  }

  predicate SameButStamp(a: JournalEntry, b: JournalEntry) {
    a.(lastSyncedAt := 0) == b.(lastSyncedAt := 0)
  }

  /** The diff and the change that report the same conflict. */
  function ConflictAt(env: Env, s: State, p: string): FileDiff
    requires p in s.local && p in s.remote
  {
    Conflict(p, s.local[p].mtime, s.remote[p].mtime, env.md5(s.remote[p].content))
  }

  function ChangeAt(env: Env, s: State, p: string): Change
    requires p in s.remote
  {
    FileChange(p, s.remote[p].mtime, env.md5(s.remote[p].content))
  }

  /** For one conflict, the pull side and bisync succeed and leave the same
      two trees and the same journal keys: the path's and one loser's. */
  lemma PullMatchesBisync(cfg: Config, s: State, p: string)
    requires Lawful(cfg.env.names) && Tracked(cfg.env, s) && HasFree(cfg.env.names, p, s.journal.Keys)
    requires cfg.policy == NewerWins && RetentionOff(cfg.retention)
    requires p in s.local && p in s.remote
    ensures var bisync := Step(cfg.env, s, ConflictAt(cfg.env, s, p));
            var pull := PullResolve(cfg, s, ChangeAt(cfg.env, s, p), s.local[p].mtime);
            && bisync.ok && pull.ok
            && pull.state.local == bisync.state.local && pull.state.remote == bisync.state.remote
            && pull.state.journal.Keys == bisync.state.journal.Keys ==
               s.journal.Keys + {p, NextOldPath(cfg.env.names, p, s.journal.Keys)}
  {
    var d, ch, q := ConflictAt(cfg.env, s, p), ChangeAt(cfg.env, s, p), NextOldPath(cfg.env.names, p, s.journal.Keys);
    assert Accurate(cfg.env, At(s, p), d);
    hide NextOldPath, Step, PullResolve, At, Accurate, Settled, HasFree, Lawful, Tracked;
    ConflictStep(cfg.env, s, d);
    PullEffect(cfg, s, ch, q);
    KeysAfter(s.journal, Step(cfg.env, s, d).state.journal, p, q);
    KeysAfter(s.journal, PullResolve(cfg, s, ch, s.local[p].mtime).state.journal, p, q);
  }

  lemma KeysAfter(j: Bucket, k: Bucket, p: string, q: string)
    requires p in k && q in k && (k == j[p := k[p]][q := k[q]] || k == j[q := k[q]][p := k[p]])
    ensures k.Keys == j.Keys + {p, q}
  {
  }

  /** The same two trees and the same journal keys: all that decides how a
      later conflict is resolved. */
  predicate SameFiles(s: State, t: State) {
    s.local == t.local && s.remote == t.remote && s.journal.Keys == t.journal.Keys
  }

  function ChangeFor(d: FileDiff): Change
    requires d.Conflict?
  {
    FileChange(d.path, d.remoteMtime, d.remoteMD5)
  }

  /** The pull side resolves conflicts one after the other. */
  function PullAll(cfg: Config, s: State, ds: seq<FileDiff>): State
    requires forall d :: d in ds ==> d.Conflict?
    decreases |ds|
  {
    if ds == [] then s
    else PullAll(cfg, PullResolve(cfg, s, ChangeFor(ds[0]), ds[0].localMtime).state, ds[1..])
  }

  /** One conflict, resolved by bisync from s and by pull from t. */
  lemma StepsMatch(cfg: Config, s: State, t: State, d: FileDiff)
    requires Lawful(cfg.env.names) && Tracked(cfg.env, s) && HasFree(cfg.env.names, d.path, s.journal.Keys)
    requires cfg.policy == NewerWins && RetentionOff(cfg.retention)
    requires d.Conflict? && Accurate(cfg.env, At(s, d.path), d) && SameFiles(s, t)
    ensures var pull := PullResolve(cfg, t, ChangeFor(d), d.localMtime);
            pull.ok && SameFiles(Step(cfg.env, s, d).state, pull.state)
  {
    var q := NextOldPath(cfg.env.names, d.path, s.journal.Keys);
    hide NextOldPath, Step, PullResolve, Settled, HasFree, Lawful, Tracked;
    ConflictStep(cfg.env, s, d);
    PullEffect(cfg, t, ChangeFor(d), q);
    hide At, Accurate;
    KeysAfter(s.journal, Step(cfg.env, s, d).state.journal, d.path, q);
    KeysAfter(t.journal, PullResolve(cfg, t, ChangeFor(d), d.localMtime).state.journal, d.path, q);
  }

  /** Over any list of conflicts, bisync and pull take the same starting trees
      to the same two trees, with the same journal keys. */
  lemma {:induction false} RunsMatch(cfg: Config, s: State, t: State, ds: seq<FileDiff>)
    requires Lawful(cfg.env.names) && Tracked(cfg.env, s) && cfg.policy == NewerWins && RetentionOff(cfg.retention)
    requires forall d :: d in ds ==> d.Conflict?
    requires Workable(cfg.env, s, ds) && RoomFor(cfg.env, s.journal, ds) && SameFiles(s, t)
    ensures SameFiles(Run(cfg.env, s, ds).state, PullAll(cfg, t, ds))
    decreases |ds|
  {
    if ds != [] {
      var d, rest := ds[0], ds[1..];
      var u := Step(cfg.env, s, d).state;
      WorkablePaths(cfg.env, s, ds);
      assert Workable(cfg.env, s, rest) && d.path in PathsOf(ds);
      hide Step, PullResolve, Tracked, RoomFor, HasFree, At, Accurate, PassEffect, Values;
      assert d.path != "" by { TrackedNonEmpty(cfg.env, s, d.path); }
      RoomNow(cfg.env, s, ds);
      StepsMatch(cfg, s, t, d);
      StepKeeps(cfg.env, s, d);
      RoomLater(cfg.env, s, ds);
      StepFrame(cfg.env, s, ds, 1, u);
      WorkableFrame(cfg.env, s, u, rest);
      hide Workable, SameFiles;
      RunsMatch(cfg, u, PullResolve(cfg, t, ChangeFor(d), d.localMtime).state, rest);
    }
  }

  lemma TrackedNonEmpty(env: Env, s: State, p: string)
    requires Tracked(env, s) && p in Files(s)
    ensures p != ""
  {
  }

  /** For one conflict, all three resolvers pick the same winner and the same
      loser name, and journal the loser alike up to its stamp. */
  lemma ResolversAgree(cfg: Config, s: State, p: string, now: Time)
    requires Lawful(cfg.env.names) && Tracked(cfg.env, s) && HasFree(cfg.env.names, p, s.journal.Keys)
    requires cfg.policy == NewerWins && RetentionOff(cfg.retention)
    requires p in s.local && p in s.remote
    ensures var d, ch, q := ConflictAt(cfg.env, s, p), ChangeAt(cfg.env, s, p), NextOldPath(cfg.env.names, p, s.journal.Keys);
            var store := StoreResolve(cfg.env.names, s.journal, cfg.policy, p, d.localMtime, ch.modTime, ch.md5, now);
            var bisync, pull := Step(cfg.env, s, d).state.journal, PullResolve(cfg, s, ch, d.localMtime).state.journal;
            && store.Resolution? && store.oldPath == q && q in store.journal && q in bisync && q in pull
            && store.winner == BisyncWinner(d.localMtime, d.remoteMtime) == PullWinner(d.localMtime, ch.modTime, cfg.policy)
            && SameButStamp(bisync[q], store.journal[q]) && SameButStamp(pull[q], store.journal[q])
  {
    assert Accurate(cfg.env, At(s, p), ConflictAt(cfg.env, s, p));
    hide NextOldPath, Step, PullResolve, At, Accurate, Settled;
    var q := NextOldPath(cfg.env.names, p, s.journal.Keys);
    ConflictStep(cfg.env, s, ConflictAt(cfg.env, s, p));
    BisyncLoserEntry(cfg.env, s, ConflictAt(cfg.env, s, p), q);
    PullEffect(cfg, s, ChangeAt(cfg.env, s, p), q);
  }

  lemma BisyncLoserEntry(env: Env, s: State, d: FileDiff, q: string)
    requires d.Conflict? && Step(env, s, d).ok && q == NextOldPath(env.names, d.path, s.journal.Keys)
    ensures var j := Step(env, s, d).state.journal;
            && q in j
            && j[q] == if Pulls(d) then LocalLoserEntry(q, d.localMtime, env.clock(s.ticks + 1))
                       else RemoteLoserEntry(q, d.remoteMtime, d.remoteMD5, env.clock(s.ticks + 1))
  {
    hide NextOldN;
  }

  /** The two resolvers differ in one record. After a local win the pull side
      journals the remote object that lost, so the next bisync pass sees the
      path as a conflict again, unless winner and loser have the same mtime
      and digest; after bisync's own resolution it never does. */
  lemma LocalWinIsSeenAgain(cfg: Config, s: State, p: string)
    requires Lawful(cfg.env.names) && Tracked(cfg.env, s) && HasFree(cfg.env.names, p, s.journal.Keys)
    requires cfg.policy == NewerWins && RetentionOff(cfg.retention)
    requires p in s.local && p in s.remote && s.local[p].mtime >= s.remote[p].mtime
    ensures var pull := PullResolve(cfg, s, ChangeAt(cfg.env, s, p), s.local[p].mtime).state;
            var bisync := Step(cfg.env, s, ConflictAt(cfg.env, s, p)).state;
            && (DiffAt(cfg.env, pull, p).NoDiff? <==>
                  s.local[p].mtime == s.remote[p].mtime &&
                  cfg.env.md5(s.local[p].content) == cfg.env.md5(s.remote[p].content))
            && DiffAt(cfg.env, bisync, p).NoDiff?
  {
    var ch := ChangeAt(cfg.env, s, p);
    var q := NextOldPath(cfg.env.names, p, s.journal.Keys);
    assert Accurate(cfg.env, At(s, p), ConflictAt(cfg.env, s, p));
    hide NextOldPath;
    ConflictStep(cfg.env, s, ConflictAt(cfg.env, s, p));
    PullEffect(cfg, s, ch, q);
    PullLocalWinEntry(cfg, s, ch, s.local[p].mtime);
    DiffOfView(cfg.env, Step(cfg.env, s, ConflictAt(cfg.env, s, p)).state, p);
    DiffOfView(cfg.env, PullResolve(cfg, s, ch, s.local[p].mtime).state, p);
    hide Step, PullResolve, Lawful, Tracked, HasFree;
  }

  lemma PullLocalWinEntry(cfg: Config, s: State, ch: Change, lm: Time)
    requires ch.FileChange? && PullWinner(lm, ch.modTime, cfg.policy) == Local && PullResolve(cfg, s, ch, lm).ok
    ensures var j := PullResolve(cfg, s, ch, lm).state.journal;
            && ch.path in j && j[ch.path].localMtime == lm
            && j[ch.path].remoteMtime == ch.modTime && j[ch.path].remoteMD5 == ch.md5
  {
    hide NextOldN, PruneBase;
  }
}
