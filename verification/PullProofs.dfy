/**
 * What the pull side and the push side do to a user's files, said without the
 * functions that decide it: an edited local file is kept, an unedited one takes
 * the remote version, a deletion is carried over and an edit reaches the
 * remote.
 */
module PullProofs {
  import opened Text
  import opened Naming
  import opened Journal
  import opened World
  import opened Retention
  import opened Pruning
  import opened Bisync
  import opened BisyncProofs
  import opened Pull
  import opened Resolvers
  import opened Echo

  // ---------------------------------------------------------------------
  // Deciding by time
  // ---------------------------------------------------------------------

  /** More than a second apart, either way, by a difference that a duration can
      hold: a time earlier by the least duration or more counts as equal. */
  predicate Apart(a: Time, b: Time) {
    a - b > 1_000_000_000 || -0x8000_0000_0000_0000 < a - b < -1_000_000_000
  }

  lemma WithinSecondIff(a: Time, b: Time)
    ensures WithinSecond(a, b) <==> !Apart(a, b)
  {
  }

  /** What each policy means for two versions of a file. */
  lemma PolicyDecides(policy: ConflictPolicy, localMtime: Time, remoteMtime: Time)
    ensures PullWinner(localMtime, remoteMtime, policy) == Remote <==>
            policy == RemoteWins || (policy != LocalWins && remoteMtime > localMtime)
    ensures StoreWinner(localMtime, remoteMtime, policy) == Some(Remote) <==>
            policy == RemoteWins || (policy == NewerWins && remoteMtime > localMtime)
    ensures StoreWinner(localMtime, remoteMtime, policy).None? <==> policy == OtherPolicy
    ensures BisyncWinner(localMtime, remoteMtime) == Remote <==> remoteMtime > localMtime
  {
  }

  // ---------------------------------------------------------------------
  // Remote changes
  // ---------------------------------------------------------------------

  /** The local file was edited since the journaled sync, and the remote content
      is another than the journaled one. */
  predicate EditedBoth(s: State, ch: Change)
    requires ch.FileChange? && ch.path in s.journal && ch.path in s.local
  {
    ch.md5 != s.journal[ch.path].remoteMD5 && Apart(s.local[ch.path].mtime, s.journal[ch.path].localMtime)
  }

  /** A remote change never overwrites an edited local file: the local version
      is afterwards under its path or under the loser's name, and so is, on
      either side, the remote version. */
  lemma EditIsKept(cfg: Config, s: State, ch: Change)
    requires Lawful(cfg.env.names) && Tracked(cfg.env, s) && RetentionOff(cfg.retention)
    requires ch.FileChange? && ch.path in s.journal && ch.path in s.local && ch.path in s.remote
    requires HasFree(cfg.env.names, ch.path, s.journal.Keys) && !cfg.unreadable(ch.path) && EditedBoth(s, ch)
    ensures var p, q := ch.path, NextOldPath(cfg.env.names, ch.path, s.journal.Keys);
            var r := ProcessChange(cfg, s, ch);
            && r.ok
            && ((p in r.state.local && r.state.local[p] == s.local[p]) || (q in r.state.local && r.state.local[q] == s.local[p]))
            && ((p in r.state.remote && r.state.remote[p] == s.remote[p]) || (q in r.state.remote && r.state.remote[q] == s.remote[p]))
  {
    FreshLoser(cfg.env, s, ch.path);
    WithinSecondIff(s.local[ch.path].mtime, s.journal[ch.path].localMtime);
    hide NextOldPath, PullResolve, WithinSecond, HasFree, Tracked, Lawful;
    if !Adopts(cfg, s, ch) {
      PullEffect(cfg, s, ch, NextOldPath(cfg.env.names, ch.path, s.journal.Keys));
    }
  }

  /** The entry was written without a baseline, and the local file is the remote
      one already. */
  predicate AlreadySame(cfg: Config, s: State, ch: Change)
    requires ch.FileChange? && ch.path in s.journal && ch.path in s.local
  {
    var e := s.journal[ch.path];
    e.remoteMD5 == "" && e.localMtime == 0 && ch.md5 != "" && ch.md5 == cfg.env.md5(s.local[ch.path].content)
  }

  /** Of two edited versions the newer one, or the one the policy names, is
      afterwards at the path on both sides, and the other under the loser's
      name on the side it came from. Both entries say so. */
  lemma WinnerTakesPath(cfg: Config, s: State, ch: Change)
    requires Lawful(cfg.env.names) && Tracked(cfg.env, s) && RetentionOff(cfg.retention)
    requires ch.FileChange? && ch.path in s.journal && ch.path in s.local && ch.path in s.remote
    requires HasFree(cfg.env.names, ch.path, s.journal.Keys) && !cfg.unreadable(ch.path)
    requires EditedBoth(s, ch) && !AlreadySame(cfg, s, ch)
    ensures var p, q, now := ch.path, NextOldPath(cfg.env.names, ch.path, s.journal.Keys), cfg.env.clock(s.ticks);
            var t := ProcessChange(cfg, s, ch).state;
            if cfg.policy == RemoteWins || (cfg.policy != LocalWins && ch.modTime > s.local[p].mtime) then
              && t.local == s.local[q := s.local[p]][p := s.remote[p]] && t.remote == s.remote
              && t.journal == s.journal[q := JournalEntry(q, s.local[p].mtime, 0, "", now, Local)]
                                      [p := JournalEntry(p, ch.modTime, ch.modTime, ch.md5, cfg.env.clock(s.ticks + 2), Remote)]
            else
              && t.remote == s.remote[q := s.remote[p]][p := s.local[p]] && t.local == s.local
              && t.journal == s.journal[q := JournalEntry(q, 0, ch.modTime, ch.md5, now, Remote)]
                                      [p := JournalEntry(p, s.local[p].mtime, ch.modTime, ch.md5, cfg.env.clock(s.ticks + 2), Remote)]
  {
    var p, q := ch.path, NextOldPath(cfg.env.names, ch.path, s.journal.Keys);
    FreshLoser(cfg.env, s, p);
    WithinSecondIff(s.local[p].mtime, s.journal[p].localMtime);
    PolicyDecides(cfg.policy, s.local[p].mtime, ch.modTime);
    hide NextOldPath, PullResolve, WithinSecond, HasFree, Tracked, Lawful, PullWinner, StoreWinner, BisyncWinner;
    PullEffect(cfg, s, ch, q);
    WinnerEntry(cfg, s, ch, q);
  }

  /** The entry a pull conflict writes for the path itself. */
  lemma WinnerEntry(cfg: Config, s: State, ch: Change, q: string)
    requires RetentionOff(cfg.retention) && ch.FileChange? && ch.path in s.local && ch.path in s.remote
    requires q == NextOldPath(cfg.env.names, ch.path, s.journal.Keys) && q != ch.path && q !in s.remote
    ensures var p, t := ch.path, PullResolve(cfg, s, ch, s.local[ch.path].mtime).state;
            && p in t.journal
            && t.journal[p] == JournalEntry(p,
                 if PullWinner(s.local[p].mtime, ch.modTime, cfg.policy) == Remote then ch.modTime else s.local[p].mtime,
                 ch.modTime, ch.md5, cfg.env.clock(s.ticks + 2), Remote)
  {
    hide NextOldN, PruneBase;
    var p, now := ch.path, cfg.env.clock(s.ticks);
    var loser := NextOldN(cfg.env.names, p, s.journal.Keys);
    if PullWinner(s.local[p].mtime, ch.modTime, cfg.policy) == Remote {
      var moved := (s.local - {p})[q := s.local[p]];
      PruneOff(cfg, s.(local := moved, journal := s.journal[q := LocalLoserEntry(q, s.local[p].mtime, now)], ticks := s.ticks + 1), loser.base);
    } else {
      var moved := (s.remote - {p})[q := s.remote[p]];
      PruneOff(cfg, s.(remote := moved, journal := s.journal[q := RemoteLoserEntry(q, ch.modTime, ch.md5, now)], ticks := s.ticks + 1), loser.base);
    }
  }

  /** With retention off, a resolution fails exactly when a version is gone or
      the remote has a file under the loser's name; the loser, if it was moved
      aside by then, is journaled, and no version that was there is lost unless
      a local file had its name. */
  lemma FailedResolution(cfg: Config, s: State, ch: Change, localMtime: Time)
    requires RetentionOff(cfg.retention) && ch.FileChange?
    requires NextOldPath(cfg.env.names, ch.path, s.journal.Keys) != ch.path
    ensures var p, q := ch.path, NextOldPath(cfg.env.names, ch.path, s.journal.Keys);
            var r, wins := PullResolve(cfg, s, ch, localMtime), PullWinner(localMtime, ch.modTime, cfg.policy) == Remote;
            && (r.ok <==> p in s.local && p in s.remote && (wins || q !in s.remote))
            && (!r.ok ==>
                  (r.state == s && (if wins then p !in s.local else p !in s.remote || q in s.remote)) ||
                  (wins && p in s.local && r.state.remote == s.remote && r.state.local == (s.local - {p})[q := s.local[p]]
                     && r.state.journal == s.journal[q := JournalEntry(q, localMtime, 0, "", cfg.env.clock(s.ticks), Local)]) ||
                  (!wins && p in s.remote && q !in s.remote && r.state.local == s.local && r.state.remote == (s.remote - {p})[q := s.remote[p]]
                     && r.state.journal == s.journal[q := JournalEntry(q, 0, ch.modTime, ch.md5, cfg.env.clock(s.ticks), Remote)]))
  {
    hide NextOldN, PruneBase, PullWinner;
    var p, q, now := ch.path, NextOldPath(cfg.env.names, ch.path, s.journal.Keys), cfg.env.clock(s.ticks);
    var b := NextOldN(cfg.env.names, p, s.journal.Keys).base;
    if PullWinner(localMtime, ch.modTime, cfg.policy) == Remote {
      if p in s.local {
        PruneOff(cfg, s.(local := (s.local - {p})[q := s.local[p]], journal := s.journal[q := LocalLoserEntry(q, localMtime, now)], ticks := s.ticks + 1), b);
      }
    } else if p in s.remote && q !in s.remote {
      PruneOff(cfg, s.(remote := (s.remote - {p})[q := s.remote[p]], journal := s.journal[q := RemoteLoserEntry(q, ch.modTime, ch.md5, now)], ticks := s.ticks + 1), b);
    }
  }

  /** A file that is new, missing locally or not edited on both sides takes the
      remote version, unless the remote reports the state already journaled. */
  lemma UneditedTakesRemote(cfg: Config, s: State, ch: Change)
    requires ch.FileChange? && ch.path in s.remote && !cfg.unreadable(ch.path)
    requires ch.path in s.journal && ch.path in s.local ==> !EditedBoth(s, ch) && !AlreadySame(cfg, s, ch)
    requires ch.path in s.journal ==> Apart(ch.modTime, s.journal[ch.path].remoteMtime)
    ensures var p, r := ch.path, ProcessChange(cfg, s, ch);
            && r.ok && r.state.local == s.local[p := s.remote[p]] && r.state.remote == s.remote
            && r.state.journal == s.journal[p := JournalEntry(p, s.remote[p].mtime, ch.modTime, ch.md5, cfg.env.clock(s.ticks), Remote)]
  {
    if ch.path in s.journal {
      WithinSecondIff(ch.modTime, s.journal[ch.path].remoteMtime);
      if ch.path in s.local {
        WithinSecondIff(s.local[ch.path].mtime, s.journal[ch.path].localMtime);
      }
    }
    hide WithinSecond, PullResolve;
  }

  /** A report of the journaled state changes nothing, and neither does a local
      file that cannot be examined; an identical local file only gets its
      entry. */
  lemma NothingToFetch(cfg: Config, s: State, ch: Change)
    requires ch.FileChange? && ch.path in s.journal
    ensures var p, r, e := ch.path, ProcessChange(cfg, s, ch), s.journal[ch.path];
            && (p in s.local && cfg.unreadable(p) ==> r == StepResult(s, false))
            && (p in s.local && !cfg.unreadable(p) && AlreadySame(cfg, s, ch) ==>
                  && r.ok && r.state.local == s.local && r.state.remote == s.remote
                  && r.state.journal == s.journal[p := JournalEntry(p, s.local[p].mtime, ch.modTime, ch.md5, cfg.env.clock(s.ticks), e.lastOrigin)])
            && (var examined := p in s.local ==> !cfg.unreadable(p) && !AlreadySame(cfg, s, ch) && !EditedBoth(s, ch);
                !Apart(ch.modTime, e.remoteMtime) && examined ==> r == StepResult(s, true))
  {
    WithinSecondIff(ch.modTime, s.journal[ch.path].remoteMtime);
    if ch.path in s.local {
      WithinSecondIff(s.local[ch.path].mtime, s.journal[ch.path].localMtime);
    }
    hide WithinSecond, PullResolve;
  }

  /** When a change of a file that is not edited on both sides fails: exactly
      when the file has to be fetched and cannot be, or cannot be examined.
      Then its entry is as it was, so that a later report is not taken for one
      already seen; after a success the file has an entry. */
  lemma FailedFetchIsNotRecorded(cfg: Config, s: State, ch: Change)
    requires ch.FileChange? && (ch.path in s.journal && ch.path in s.local ==> !EditedBoth(s, ch))
    ensures var p, r := ch.path, ProcessChange(cfg, s, ch);
            var known := p in s.journal && (p in s.local ==> !cfg.unreadable(p)) &&
                         (!Apart(ch.modTime, s.journal[p].remoteMtime) || (p in s.local && AlreadySame(cfg, s, ch)));
            && (r.ok <==> known || (p in s.remote && !cfg.unreadable(p)))
            && (r.ok ==> p in r.state.journal) && (!r.ok ==> r.state.journal == s.journal)
            && r.state.remote == s.remote && (forall k :: k != p ==> At(r.state, k) == At(s, k))
            && (r.state.local == s.local || (p in s.remote && r.state.local == s.local[p := s.remote[p]]))
  {
    if ch.path in s.journal {
      WithinSecondIff(ch.modTime, s.journal[ch.path].remoteMtime);
      if ch.path in s.local {
        WithinSecondIff(s.local[ch.path].mtime, s.journal[ch.path].localMtime);
      }
    }
    hide WithinSecond, PullResolve;
  }

  /** A remote deletion takes the local file and its entry, and nothing else. A
      file that cannot be removed keeps its entry; an entry that cannot be
      deleted stays, and the deletion is reported as failed either way. */
  lemma DeletionIsCarried(cfg: Config, s: State, p: string)
    ensures var r := ProcessChange(cfg, s, Deleted(p));
            && r.state.remote == s.remote
            && (r.ok ==> r.state.local == s.local - {p} && r.state.journal == s.journal - {p})
            && (!r.ok ==> r.state.journal == s.journal)
            && (p !in r.state.local <==> p !in s.local || !cfg.faults.remove(p))
            && (forall k :: k != p ==> At(r.state, k) == At(s, k))
            && (r.ok <==> (p in s.local ==> !cfg.faults.remove(p)) && !cfg.faults.delete(p))
  {
  }

  // ---------------------------------------------------------------------
  // Local events
  // ---------------------------------------------------------------------

  /** An edit reaches the remote: a create or write of a file that is not
      journaled, or was changed since, is pushed and leaves the baseline; of a
      file that was not, it is dropped, and of one that is gone it fails. */
  lemma EditIsPushed(cfg: Config, s: State, p: string, op: Op)
    requires op != Remove
    ensures var r := WatchEvent(cfg, s, p, op);
            if p !in s.local then r == StepResult(s, false)
            else if p in s.journal && !Apart(s.local[p].mtime, s.journal[p].localMtime) then r == StepResult(s, true)
            else
              && r.ok && r.state.local == s.local && r.state.remote == s.remote[p := s.local[p]]
              && Baseline(cfg.env, At(r.state, p))
              && r.state.journal == s.journal[p := r.state.journal[p]]
              && r.state.journal[p].lastOrigin == Local && r.state.journal[p].lastSyncedAt == cfg.env.clock(s.ticks)
  {
    if p in s.journal && p in s.local { WithinSecondIff(s.local[p].mtime, s.journal[p].localMtime); }
    hide WithinSecond;
  }

  /** A removed file goes from the remote too, whatever the journal says, and
      its entry no longer describes any version. */
  lemma RemovalIsPushed(cfg: Config, s: State, p: string)
    ensures var r := WatchEvent(cfg, s, p, Op.Remove);
            && r.ok && r.state.local == s.local && r.state.remote == s.remote - {p}
            && r.state.journal == s.journal[p := JournalEntry(p, 0, 0, "", cfg.env.clock(s.ticks), Local)]
  {
  }
}
