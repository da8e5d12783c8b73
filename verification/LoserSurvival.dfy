/**
 * With retention on, a version that a conflict has just renamed aside is still
 * there afterwards: on its side, with its content and its entry. For a pull
 * that is after the inline run that follows the rename, for bisync after the
 * prunes and the sweep that end the pass.
 */
module LoserSurvival {
  import opened Text
  import opened Naming
  import opened Journal
  import opened World
  import opened Retention
  import opened Pruning
  import opened Bisync
  import opened BisyncProofs
  import opened Repair
  import opened RepairProofs
  import opened Pull
  import opened Resolvers
  import opened FullPass

  // ---------------------------------------------------------------------
  // What any retention run keeps
  // ---------------------------------------------------------------------

  /** The siblings of b, other than the one under q, stamped no earlier. */
  function NoEarlier(names: Scheme, j: Bucket, b: string, q: string): set<JournalEntry>
    requires q in j
  {
    set f | f in Siblings(names, j, b) && f != j[q] && f.lastSyncedAt >= j[q].lastSyncedAt
  }

  /** q is among the siblings of b that the count rule keeps. */
  ghost predicate Recent(cfg: Config, j: Bucket, b: string, q: string) {
    && q in j && IsSibling(cfg.env.names, b, q) && j[q].path == q
    && (cfg.retention.maxPerFile > 0 ==> |NoEarlier(cfg.env.names, j, b, q)| < cfg.retention.maxPerFile)
  }

  predicate Young(cfg: Config, stamp: Time, tick: nat) {
    cfg.retention.maxAge > 0 ==> Since(cfg.env.clock(tick), stamp) <= cfg.retention.maxAge
  }

  ghost predicate YoungUntil(cfg: Config, stamp: Time, first: nat, last: nat) {
    forall k: nat :: first <= k <= last ==> Young(cfg, stamp, k)
  }

  lemma RecentIsKept(cfg: Config, j: Bucket, b: string, q: string, tick: nat)
    requires Keyed(j) && Recent(cfg, j, b, q) && Young(cfg, j[q].lastSyncedAt, tick)
    ensures forall base :: q !in EvictedPaths(cfg.env.names, j, base, cfg.retention, cfg.env.clock(tick))
  {
    var names, sibs := cfg.env.names, Siblings(cfg.env.names, j, b);
    SubsetSize(NewerThan(names, sibs, j[q]), NoEarlier(names, j, b, q));
    assert j[q] !in Evicted(names, sibs, cfg.retention, cfg.env.clock(tick));
    hide Evicted, Siblings;
  }

  /** What is left of s after some evictions. */
  ghost predicate JournalPart(s: State, t: State) {
    Keyed(t.journal) && t.journal.Keys <= s.journal.Keys && forall k :: k in t.journal ==> t.journal[k] == s.journal[k]
  }

  lemma EvictSpares(s: State, paths: set<string>, f: Faults, q: string, t: State)
    requires Keyed(s.journal) && q !in paths
    requires var out := Evict(Stores(s.local, s.remote, s.journal), paths, f);
             t.local == out.local && t.remote == out.remote && t.journal == out.journal
    ensures At(t, q) == At(s, q) && JournalPart(s, t)
  {
  }

  lemma StaysRecent(cfg: Config, s: State, t: State, b: string, q: string)
    requires Recent(cfg, s.journal, b, q) && At(t, q) == At(s, q) && JournalPart(s, t)
    ensures Recent(cfg, t.journal, b, q)
  {
    SubsetSize(NoEarlier(cfg.env.names, t.journal, b, q), NoEarlier(cfg.env.names, s.journal, b, q));
  }

  /** One retention run, of any base and whatever fails. */
  lemma PruneKeepsRecent(cfg: Config, s: State, base: string, b: string, q: string)
    requires Keyed(s.journal) && Recent(cfg, s.journal, b, q) && Young(cfg, s.journal[q].lastSyncedAt, s.ticks)
    ensures var t := PruneBase(cfg, s, base);
            && At(t, q) == At(s, q) && Keyed(t.journal) && Recent(cfg, t.journal, b, q)
            && t.ticks == s.ticks + 1 && t.pending == s.pending
  {
    RecentIsKept(cfg, s.journal, b, q, s.ticks);
    hide EvictedPaths, Evict, Recent, Young, At;
    var paths := EvictedPaths(cfg.env.names, s.journal, base, cfg.retention, cfg.env.clock(s.ticks));
    EvictSpares(s, paths, cfg.faults, q, PruneBase(cfg, s, base));
    StaysRecent(cfg, s, PruneBase(cfg, s, base), b, q);
  }

  lemma {:induction false} PrunesKeepRecent(cfg: Config, s: State, bases: seq<string>, b: string, q: string)
    requires Keyed(s.journal) && Recent(cfg, s.journal, b, q)
    requires forall i :: s.ticks <= i < s.ticks + |bases| ==> Young(cfg, s.journal[q].lastSyncedAt, i)
    ensures var t := PruneBases(cfg, s, bases);
            && At(t, q) == At(s, q) && Keyed(t.journal) && Recent(cfg, t.journal, b, q)
            && t.ticks == s.ticks + |bases|
    decreases |bases|
  {
    if bases != [] {
      PruneKeepsRecent(cfg, s, bases[0], b, q);
      hide PruneBase, Keyed, Young;
      PrunesKeepRecent(cfg, PruneBase(cfg, s, bases[0]), bases[1..], b, q);
    }
  }

  lemma SweepKeepsRecent(cfg: Config, interval: int, last: Time, s: State, b: string, q: string)
    requires Keyed(s.journal) && Recent(cfg, s.journal, b, q) && Young(cfg, s.journal[q].lastSyncedAt, s.ticks + 1)
    ensures At(MaybeSweep(cfg, interval, last, s).state, q) == At(s, q)
  {
    var paths := AllEvicted(cfg.env.names, s.journal, cfg.retention, cfg.env.clock(s.ticks + 1));
    RecentIsKept(cfg, s.journal, b, q, s.ticks + 1);
    hide EvictedPaths, Evict, Recent, Young;
    EvictSpares(s, paths, cfg.faults, q, Sweep(cfg, s.(ticks := s.ticks + 1)));
  }

  /** The end of a pass leaves every loser alone that is recent enough when the
      loop ends and does not expire by then, whatever fails. */
  lemma PassEndKeepsRecent(cfg: Config, interval: int, last: Time, s: State, tr: Trace, b: string, q: string)
    requires tr.n <= |tr.diffs|
    requires var r := Synced(cfg, s, tr).state;
             && Keyed(r.journal) && Recent(cfg, r.journal, b, q)
             && YoungUntil(cfg, r.journal[q].lastSyncedAt, r.ticks, r.ticks + |tr.bases| + 1)
    ensures At(PassEnd(cfg, interval, last, s, tr).state, q) == At(Synced(cfg, s, tr).state, q)
  {
    hide Run, AfterRepair, PruneBases, MaybeSweep, Keyed, Young;
    var r := Synced(cfg, s, tr).state;
    PrunesKeepRecent(cfg, r, tr.bases, b, q);
    var u := PruneBases(cfg, r, tr.bases).(pending := {});
    assert At(u, q).entry == At(r, q).entry;
    SweepKeepsRecent(cfg, interval, last, u, b, q);
  }

  lemma EndKeepsCounted(cfg: Config, interval: int, last: Time, s: State, tr: Trace, b: string, q: string, later: nat)
    requires tr.n <= |tr.diffs|
    requires var r := Synced(cfg, s, tr).state;
             && Keyed(r.journal) && q in r.journal && IsSibling(cfg.env.names, b, q) && r.journal[q].path == q
             && |NoEarlier(cfg.env.names, r.journal, b, q)| <= later
             && (cfg.retention.maxPerFile > 0 ==> later < cfg.retention.maxPerFile)
             && YoungUntil(cfg, r.journal[q].lastSyncedAt, r.ticks, r.ticks + |tr.bases| + 1)
    ensures At(PassEnd(cfg, interval, last, s, tr).state, q) == At(Synced(cfg, s, tr).state, q)
  {
    hide PassEnd, Synced, NoEarlier, Keyed, IsSibling, YoungUntil, At;
    PassEndKeepsRecent(cfg, interval, last, s, tr, b, q);
  }

  // ---------------------------------------------------------------------
  // A pull conflict
  // ---------------------------------------------------------------------

  /** No entry is stamped as late as the coming clock reading. */
  ghost predicate Stamped(env: Env, s: State) {
    forall k :: k in s.journal ==> s.journal[k].lastSyncedAt < env.clock(s.ticks)
  }

  lemma LoserHangsOff(names: Scheme, p: string, taken: set<string>)
    requires Lawful(names) && p != ""
    ensures IsSibling(names, NextOldN(names, p, taken).base, NextOldPath(names, p, taken))
  {
    var l := NextOldN(names, p, taken);
    BaseNonEmpty(names, p, names.maxDepth);
    NextIsFree(names, p, taken);
    assert names.trim(names.format(l.base, l.n)) == Suffixed(l.base, l.n);
  }

  /** An entry stamped later than all others has no sibling as late. */
  lemma LatestIsRecent(cfg: Config, j: Bucket, b: string, q: string)
    requires q in j && IsSibling(cfg.env.names, b, q) && j[q].path == q
    requires forall k :: k in j && k != q ==> j[k].lastSyncedAt < j[q].lastSyncedAt
    ensures NoEarlier(cfg.env.names, j, b, q) == {} && Recent(cfg, j, b, q)
  {
    assert NoEarlier(cfg.env.names, j, b, q) == {};
  }

  /** The losing version is there. */
  predicate HasLoser(cfg: Config, s: State, ch: Change, localMtime: Time)
    requires ch.FileChange?
  {
    if PullWinner(localMtime, ch.modTime, cfg.policy) == Remote then ch.path in s.local else ch.path in s.remote
  }

  /** The state in which the inline run of a pull conflict starts. */
  function Renamed(cfg: Config, s: State, ch: Change, localMtime: Time): State
    requires ch.FileChange? && HasLoser(cfg, s, ch, localMtime)
  {
    var p, q, now := ch.path, NextOldPath(cfg.env.names, ch.path, s.journal.Keys), cfg.env.clock(s.ticks);
    if PullWinner(localMtime, ch.modTime, cfg.policy) == Remote then
      s.(local := (s.local - {p})[q := s.local[p]],
         journal := s.journal[q := JournalEntry(q, localMtime, 0, "", now, Local)], ticks := s.ticks + 1)
    else
      s.(remote := (s.remote - {p})[q := s.remote[p]],
         journal := s.journal[q := JournalEntry(q, 0, ch.modTime, ch.md5, now, Remote)], ticks := s.ticks + 1)
  }

  lemma PullAfterPrune(cfg: Config, s: State, ch: Change, localMtime: Time)
    requires ch.FileChange? && HasLoser(cfg, s, ch, localMtime)
    requires var q := NextOldPath(cfg.env.names, ch.path, s.journal.Keys);
             q != ch.path && q !in s.remote
    ensures var q := NextOldPath(cfg.env.names, ch.path, s.journal.Keys);
            At(PullResolve(cfg, s, ch, localMtime).state, q) ==
            At(PruneBase(cfg, Renamed(cfg, s, ch, localMtime), NextOldN(cfg.env.names, ch.path, s.journal.Keys).base), q)
  {
    hide NextOldN, PruneBase;
  }

  lemma PruneAfterRename(cfg: Config, s: State, ch: Change, localMtime: Time)
    requires Lawful(cfg.env.names) && Keyed(s.journal) && Stamped(cfg.env, s)
    requires ch.FileChange? && HasLoser(cfg, s, ch, localMtime) && ch.path != ""
    requires Young(cfg, cfg.env.clock(s.ticks), s.ticks + 1)
    ensures var q, u := NextOldPath(cfg.env.names, ch.path, s.journal.Keys), Renamed(cfg, s, ch, localMtime);
            At(PruneBase(cfg, u, NextOldN(cfg.env.names, ch.path, s.journal.Keys).base), q) == At(u, q)
  {
    var names, taken := cfg.env.names, s.journal.Keys;
    var b, q, u := NextOldN(names, ch.path, taken).base, NextOldPath(names, ch.path, taken), Renamed(cfg, s, ch, localMtime);
    LoserHangsOff(names, ch.path, taken);
    hide NextOldPath, NextOldN, PruneBase, Lawful, Recent, At;
    LatestIsRecent(cfg, u.journal, b, q);
    PruneKeepsRecent(cfg, u, b, b, q);
  }

  /** A loser that a pull conflict has just renamed aside survives the
      retention that runs right after, if every entry is older than it and it
      has not expired by then, whether or not the winner can be transferred. */
  lemma PullKeepsLoser(cfg: Config, s: State, ch: Change, localMtime: Time)
    requires Lawful(cfg.env.names) && Tracked(cfg.env, s) && Keyed(s.journal) && Stamped(cfg.env, s)
    requires ch.FileChange? && HasLoser(cfg, s, ch, localMtime) && HasFree(cfg.env.names, ch.path, s.journal.Keys)
    requires Young(cfg, cfg.env.clock(s.ticks), s.ticks + 1)
    ensures var p, q, now := ch.path, NextOldPath(cfg.env.names, ch.path, s.journal.Keys), cfg.env.clock(s.ticks);
            At(PullResolve(cfg, s, ch, localMtime).state, q) ==
            if PullWinner(localMtime, ch.modTime, cfg.policy) == Remote then
              View(Some(s.local[p]), None, Some(JournalEntry(q, localMtime, 0, "", now, Local)))
            else
              View(None, Some(s.remote[p]), Some(JournalEntry(q, 0, ch.modTime, ch.md5, now, Remote)))
  {
    FreshLoser(cfg.env, s, ch.path);
    assert ch.path != "";
    hide NextOldN, NextOldPath, PruneBase, PullResolve, Lawful, HasFree, Tracked, Stamped, Young, Keyed;
    PullAfterPrune(cfg, s, ch, localMtime);
    PruneAfterRename(cfg, s, ch, localMtime);
  }

  /** The store's resolver stamps the loser with the time it is given. */
  lemma StoreStampsLoser(names: Scheme, j: Bucket, policy: ConflictPolicy, path: string,
                         localMtime: Time, remoteMtime: Time, remoteMD5: string, now: Time)
    ensures var r, q := StoreResolve(names, j, policy, path, localMtime, remoteMtime, remoteMD5, now), NextOldPath(names, path, j.Keys);
            && (r.Refused? <==> policy == OtherPolicy)
            && (r.Resolution? ==>
                  && r.oldPath == q && r.journal.Keys == j.Keys + {q}
                  && (forall k :: k in j && k != q ==> r.journal[k] == j[k])
                  && (if policy == RemoteWins || (policy == NewerWins && remoteMtime > localMtime) then
                        r.winner == Remote && r.journal[q] == JournalEntry(q, localMtime, 0, "", now, Local)
                      else
                        r.winner == Local && r.journal[q] == JournalEntry(q, 0, remoteMtime, remoteMD5, now, Remote)))
  {
  }

  // ---------------------------------------------------------------------
  // A conflict of a bisync pass
  // ---------------------------------------------------------------------

  ghost predicate ClockMoves(env: Env) {
    forall i, j :: i < j ==> env.clock(i) < env.clock(j)
  }

  /** The two entries a conflict of a pass writes, and the mark it leaves. */
  lemma StepRecords(env: Env, s: State, d: FileDiff)
    requires Lawful(env.names) && Tracked(env, s) && HasFree(env.names, d.path, s.journal.Keys)
    requires d.Conflict? && Accurate(env, At(s, d.path), d)
    ensures var p, q, t := d.path, NextOldPath(env.names, d.path, s.journal.Keys), Step(env, s, d).state;
            var b, now, after := NextOldN(env.names, p, s.journal.Keys).base, env.clock(s.ticks), env.clock(s.ticks + 1);
            && t.ticks == s.ticks + 2 && t.pending == s.pending + {b} && IsSibling(env.names, b, q)
            && (if d.remoteMtime > d.localMtime then
                  && At(t, q) == View(Some(s.local[p]), None, Some(JournalEntry(q, d.localMtime, 0, "", after, Local)))
                  && At(t, p) == View(Some(s.remote[p]), Some(s.remote[p]),
                                      Some(JournalEntry(p, d.remoteMtime, d.remoteMtime, d.remoteMD5, now, Remote)))
                else
                  && At(t, q) == View(None, Some(s.remote[p]), Some(JournalEntry(q, 0, d.remoteMtime, d.remoteMD5, after, Remote)))
                  && At(t, p) == View(Some(s.local[p]), Some(s.local[p]),
                                      Some(JournalEntry(p, d.localMtime, d.localMtime, env.md5(s.local[p].content), now, Local))))
  {
    FreshLoser(env, s, d.path);
    LoserHangsOff(env.names, d.path, s.journal.Keys);
    hide NextOldN, Lawful, HasFree, Tracked;
  }

  /** A transfer of a pass stamps the entry it writes, and nothing else. */
  lemma TransferRecords(env: Env, s: State, d: FileDiff)
    requires !d.Conflict? && Accurate(env, At(s, d.path), d)
    ensures var p, t, now := d.path, Step(env, s, d).state, env.clock(s.ticks);
            && t.ticks == s.ticks + 1 && t.pending == s.pending
            && (if d.LocalOnly? then
                  t.journal == s.journal[p := JournalEntry(p, d.localMtime, d.localMtime, env.md5(s.local[p].content), now, Local)]
                else
                  t.journal == s.journal[p := JournalEntry(p, d.remoteMtime, d.remoteMtime, d.remoteMD5, now, Remote)])
  {
  }

  /** The journal after a conflict, up to the two entries it writes. */
  lemma ConflictJournal(env: Env, s: State, d: FileDiff)
    requires Lawful(env.names) && Tracked(env, s) && HasFree(env.names, d.path, s.journal.Keys)
    requires d.Conflict? && Accurate(env, At(s, d.path), d)
    ensures var p, q, t := d.path, NextOldPath(env.names, d.path, s.journal.Keys), Step(env, s, d).state;
            && p in t.journal && q in t.journal && t.journal == s.journal[p := t.journal[p]][q := t.journal[q]]
            && t.journal[p].lastSyncedAt == env.clock(s.ticks) && t.journal[q].lastSyncedAt == env.clock(s.ticks + 1)
            && t.journal[q].path == q && t.ticks == s.ticks + 2
  {
    ConflictStep(env, s, d);
    StepRecords(env, s, d);
    hide NextOldPath, Step, Lawful, HasFree, Tracked, Settled, Accurate;
  }

  /** Every step leaves every stamp before the clock. */
  lemma StepStamps(env: Env, s: State, d: FileDiff)
    requires Lawful(env.names) && Tracked(env, s) && Accurate(env, At(s, d.path), d) && ClockMoves(env) && Stamped(env, s)
    requires d.Conflict? ==> HasFree(env.names, d.path, s.journal.Keys)
    ensures Stamped(env, Step(env, s, d).state)
  {
    if d.Conflict? {
      ConflictJournal(env, s, d);
    } else {
      TransferRecords(env, s, d);
    }
    hide Step, Lawful, HasFree, Tracked, Accurate, NextOldPath;
  }

  /** How many siblings of b working through d can write. */
  function Writes(names: Scheme, d: FileDiff, b: string): nat {
    Charge(names, d, b) + if IsSibling(names, b, d.path) then 1 else 0
  }

  function AllWrites(names: Scheme, ds: seq<FileDiff>, b: string): nat {
    if ds == [] then 0 else Writes(names, ds[0], b) + AllWrites(names, ds[1..], b)
  }

  lemma WrittenSiblings(names: Scheme, j: Bucket, k: Bucket, p: string, b: string, q: string)
    requires q in j && p in k && p != q && k == j[p := k[p]]
    ensures |NoEarlier(names, k, b, q)| <= |NoEarlier(names, j, b, q)| + if IsSibling(names, b, p) then 1 else 0
  {
    var more := if IsSibling(names, b, p) then {k[p]} else {};
    SubsetSize(NoEarlier(names, k, b, q), NoEarlier(names, j, b, q) + more);
  }

  /** A later diff leaves the entry of q alone and writes few siblings of b. */
  lemma StepWrites(env: Env, s: State, d: FileDiff, b: string, q: string)
    requires Lawful(env.names) && Tracked(env, s) && Accurate(env, At(s, d.path), d)
    requires d.Conflict? ==> HasFree(env.names, d.path, s.journal.Keys)
    requires q in s.journal && q != d.path
    ensures var t := Step(env, s, d).state;
            && q in t.journal && t.journal[q] == s.journal[q]
            && |NoEarlier(env.names, t.journal, b, q)| <= |NoEarlier(env.names, s.journal, b, q)| + Writes(env.names, d, b)
  {
    var t, p := Step(env, s, d).state, d.path;
    if d.Conflict? {
      var l := NextOldPath(env.names, p, s.journal.Keys);
      ConflictJournal(env, s, d);
      LoserHangsOff(env.names, p, s.journal.Keys);
      FreshLoser(env, s, p);
      var mid := s.journal[p := t.journal[p]];
      assert IsSibling(env.names, b, l) ==> Hits(env.names, p, b);
      hide NextOldPath, NextOldN, Step, Lawful, HasFree, Tracked, Accurate, IsSibling, NoEarlier, Hits;
      WrittenSiblings(env.names, s.journal, mid, p, b, q);
      WrittenSiblings(env.names, mid, t.journal, l, b, q);
    } else {
      TransferRecords(env, s, d);
      hide Step, Lawful, HasFree, Tracked, Accurate, IsSibling, NoEarlier;
      WrittenSiblings(env.names, s.journal, t.journal, p, b, q);
    }
  }

  /** What working through further diffs leaves of q. */
  lemma {:induction false} RunWrites(env: Env, s: State, ds: seq<FileDiff>, b: string, q: string)
    requires Lawful(env.names) && Tracked(env, s) && Workable(env, s, ds) && RoomFor(env, s.journal, ds)
    requires q in s.journal && q in Files(s) && q !in PathsOf(ds)
    ensures var t := Run(env, s, ds).state;
            && q in t.journal && At(t, q) == At(s, q)
            && |NoEarlier(env.names, t.journal, b, q)| <= |NoEarlier(env.names, s.journal, b, q)| + AllWrites(env.names, ds, b)
    decreases |ds|
  {
    if ds != [] {
      var d, rest := ds[0], ds[1..];
      var t := Step(env, s, d).state;
      WorkablePaths(env, s, ds);
      assert Workable(env, s, rest) && d.path in PathsOf(ds) && PathsOf(ds) == {d.path} + PathsOf(rest);
      assert d.path != "" by { TrackedNonEmpty(env, s, d.path); }
      hide Run, Step, Tracked, RoomFor, HasFree, Accurate, Writes, NoEarlier, Values, PathsOf, Lawful;
      RoomNow(env, s, ds);
      StepKeeps(env, s, d);
      StepWrites(env, s, d, b, q);
      RoomLater(env, s, ds);
      StepFrame(env, s, ds, Uses(d), t);
      WorkableFrame(env, s, t, rest);
      assert At(t, q) == At(s, q);
      hide Workable, PassEffect;
      RunWrites(env, t, rest, b, q);
      RunFirst(env, s, ds);
    }
  }

  lemma RunFirst(env: Env, s: State, ds: seq<FileDiff>)
    requires ds != []
    ensures Run(env, s, ds).state == Run(env, Step(env, s, ds[0]).state, ds[1..]).state
  {
    hide Step;
  }

  /** What holds when the loop comes to a diff, and still does at the next. */
  ghost predicate OnTheWay(env: Env, s: State, ds: seq<FileDiff>) {
    && Lawful(env.names) && Tracked(env, s) && Workable(env, s, ds) && RoomFor(env, s.journal, ds)
    && ClockMoves(env) && Stamped(env, s)
  }

  lemma NextOnTheWay(env: Env, s: State, ds: seq<FileDiff>)
    requires OnTheWay(env, s, ds) && ds != []
    ensures var t := Step(env, s, ds[0]).state;
            OnTheWay(env, t, ds[1..]) && forall p :: p in PathsOf(ds[1..]) ==> At(t, p) == At(s, p)
  {
    var d, rest := ds[0], ds[1..];
    var t := Step(env, s, d).state;
    WorkablePaths(env, s, ds);
    assert Workable(env, s, rest) && d.path in PathsOf(ds) && PathsOf(ds) == {d.path} + PathsOf(rest);
    TrackedNonEmpty(env, s, d.path);
    hide Run, Step, Tracked, RoomFor, HasFree, Accurate, Values, PathsOf, Lawful, ClockMoves, Stamped, At;
    RoomNow(env, s, ds);
    StepKeeps(env, s, d);
    StepStamps(env, s, d);
    RoomLater(env, s, ds);
    StepFrame(env, s, ds, Uses(d), t);
    WorkableFrame(env, s, t, rest);
  }

  /** Each diff of the loop is reached in a state like that. */
  lemma {:induction false} ReachDiff(env: Env, s: State, ds: seq<FileDiff>, i: nat)
    requires OnTheWay(env, s, ds) && i <= |ds|
    ensures var u := Run(env, s, ds[..i]).state;
            && OnTheWay(env, u, ds[i..]) && Run(env, s, ds).state == Run(env, u, ds[i..]).state
            && forall p :: p in PathsOf(ds[i..]) ==> At(u, p) == At(s, p)
    decreases i
  {
    if i == 0 {
      assert ds[..0] == [] && ds[0..] == ds;
    } else {
      var t := Step(env, s, ds[0]).state;
      NextOnTheWay(env, s, ds);
      hide OnTheWay, Step, At, PathsOf;
      CutLater(ds, i);
      LaterPaths(ds[1..], i - 1);
      RunFirst(env, s, ds);
      RunFirst(env, s, ds[..i]);
      hide Run;
      ReachDiff(env, t, ds[1..], i - 1);
    }
  }

  lemma CutLater(ds: seq<FileDiff>, i: nat)
    requires 0 < i <= |ds|
    ensures ds[..i][0] == ds[0] && ds[..i][1..] == ds[1..][..i - 1] && ds[i..] == ds[1..][i - 1..]
  {
  }

  lemma {:induction false} LaterPaths(ds: seq<FileDiff>, i: nat)
    requires i <= |ds|
    ensures PathsOf(ds[i..]) <= PathsOf(ds)
  {
    if i == 0 {
      assert ds[0..] == ds;
    } else {
      LaterPaths(ds[1..], i - 1);
      assert ds[1..][i - 1..] == ds[i..];
    }
  }

  /** The loser of a conflict is recent right after it, and no later diff of
      the pass names it. */
  lemma NewLoserIsRecent(cfg: Config, s: State, ds: seq<FileDiff>)
    requires OnTheWay(cfg.env, s, ds) && ds != [] && ds[0].Conflict?
    ensures var p, q := ds[0].path, NextOldPath(cfg.env.names, ds[0].path, s.journal.Keys);
            var b, t := NextOldN(cfg.env.names, p, s.journal.Keys).base, Step(cfg.env, s, ds[0]).state;
            && q in t.journal && q in Files(t) && q !in PathsOf(ds[1..])
            && t.journal[q].path == q && IsSibling(cfg.env.names, b, q)
            && NoEarlier(cfg.env.names, t.journal, b, q) == {}
  {
    var d, env := ds[0], cfg.env;
    var p, q := d.path, NextOldPath(env.names, d.path, s.journal.Keys);
    var b, t := NextOldN(env.names, p, s.journal.Keys).base, Step(env, s, d).state;
    WorkablePaths(env, s, ds);
    assert Workable(env, s, ds[1..]) && p in PathsOf(ds) && PathsOf(ds[1..]) <= PathsOf(ds);
    TrackedNonEmpty(env, s, p);
    RoomNow(env, s, ds);
    FreshLoser(env, s, p);
    LoserHangsOff(env.names, p, s.journal.Keys);
    ConflictJournal(env, s, d);
    StepRecords(env, s, d);
    assert env.clock(s.ticks) < env.clock(s.ticks + 1);
    assert PathsOf(ds) == {p} + PathsOf(ds[1..]);
    hide NextOldPath, NextOldN, Step, Lawful, HasFree, Tracked, Accurate, Workable, PathsOf, RoomFor, IsSibling;
    LatestIsRecent(cfg, t.journal, b, q);
  }

  /** The loser of the conflict that the loop comes to first, when it ends. */
  lemma LoopKeepsLoser(cfg: Config, s: State, ds: seq<FileDiff>)
    requires OnTheWay(cfg.env, s, ds) && ds != [] && ds[0].Conflict?
    ensures var d, q := ds[0], NextOldPath(cfg.env.names, ds[0].path, s.journal.Keys);
            var b, r, after := NextOldN(cfg.env.names, d.path, s.journal.Keys).base, Run(cfg.env, s, ds).state, cfg.env.clock(s.ticks + 1);
            && d.path in s.local && d.path in s.remote
            && At(r, q) == LoserView(d, q, s.local[d.path], s.remote[d.path], after)
            && q in r.journal && r.journal[q].lastSyncedAt == after && r.journal[q].path == q && IsSibling(cfg.env.names, b, q)
            && |NoEarlier(cfg.env.names, r.journal, b, q)| <= AllWrites(cfg.env.names, ds[1..], b)
  {
    var d, env := ds[0], cfg.env;
    var q := NextOldPath(env.names, d.path, s.journal.Keys);
    var b, t := NextOldN(env.names, d.path, s.journal.Keys).base, Step(env, s, d).state;
    NewLoserIsRecent(cfg, s, ds);
    NextOnTheWay(env, s, ds);
    ConflictView(env, s, ds);
    hide NextOldPath, NextOldN, Step, Lawful, HasFree, Tracked, Accurate, Workable, PathsOf, RoomFor, IsSibling, AllWrites, Stamped, ClockMoves, Run, NoEarlier;
    RunWrites(env, t, ds[1..], b, q);
    RunFirst(env, s, ds);
    assert At(t, q).entry == At(Run(env, s, ds).state, q).entry;
  }

  /** What the stores hold under the loser's name: its version on its own side,
      and an entry that says so, stamped with the second clock reading. */
  function LoserView(d: FileDiff, q: string, local: File, remote: File, stamp: Time): View
    requires d.Conflict?
  {
    if d.remoteMtime > d.localMtime then
      View(Some(local), None, Some(JournalEntry(q, d.localMtime, 0, "", stamp, Local)))
    else
      View(None, Some(remote), Some(JournalEntry(q, 0, d.remoteMtime, d.remoteMD5, stamp, Remote)))
  }

  lemma ConflictView(env: Env, s: State, ds: seq<FileDiff>)
    requires OnTheWay(env, s, ds) && ds != [] && ds[0].Conflict?
    ensures var d, q := ds[0], NextOldPath(env.names, ds[0].path, s.journal.Keys);
            && d.path in s.local && d.path in s.remote
            && At(Step(env, s, d).state, q) == LoserView(d, q, s.local[d.path], s.remote[d.path], env.clock(s.ticks + 1))
  {
    var d := ds[0];
    WorkablePaths(env, s, ds);
    assert d.path in PathsOf(ds);
    TrackedNonEmpty(env, s, d.path);
    RoomNow(env, s, ds);
    StepRecords(env, s, d);
    hide NextOldPath, NextOldN, Step, Lawful, HasFree, Tracked, PathsOf, RoomFor;
  }

  lemma LoopIsOnTheWay(cfg: Config, s: State, due: bool, tr: Trace)
    requires Lawful(cfg.env.names) && ClockMoves(cfg.env) && Keyed(s.journal) && IsPass(cfg, s, due, tr)
    requires var start := AfterRepair(cfg.env.names, s, tr.links, tr.fate);
             Tracked(cfg.env, start) && Stamped(cfg.env, start) && RoomFor(cfg.env, start.journal, tr.diffs[..tr.n])
    ensures OnTheWay(cfg.env, AfterRepair(cfg.env.names, s, tr.links, tr.fate), tr.diffs[..tr.n])
    ensures Keyed(Synced(cfg, s, tr).state.journal)
  {
    var start := AfterRepair(cfg.env.names, s, tr.links, tr.fate);
    RepairKeyed(cfg.env.names, ToRepair(s), tr.links, tr.fate);
    assert Keyed(start.journal);
    hide AfterRepair, Run, Tracked, RoomFor, Stamped, ClockMoves, Lawful, Keyed, IsOrderOf, IsQueue;
    SnapshotWorkable(cfg.env, start, tr.diffs);
    hide IsSnapshot;
    WorkablePrefix(cfg.env, start, tr.diffs, tr.n);
    RunKeyed(cfg.env, start, tr.diffs[..tr.n]);
  }

  /** And of any conflict. */
  lemma LoopKeepsLosers(cfg: Config, s: State, ds: seq<FileDiff>, i: nat)
    requires OnTheWay(cfg.env, s, ds) && i < |ds| && ds[i].Conflict?
    ensures var d, u, r := ds[i], Run(cfg.env, s, ds[..i]).state, Run(cfg.env, s, ds).state;
            var b, q := NextOldN(cfg.env.names, d.path, u.journal.Keys).base, NextOldPath(cfg.env.names, d.path, u.journal.Keys);
            var after := cfg.env.clock(u.ticks + 1);
            && d.path in s.local && d.path in s.remote
            && At(r, q) == LoserView(d, q, s.local[d.path], s.remote[d.path], after)
            && q in r.journal && r.journal[q].lastSyncedAt == after && r.journal[q].path == q && IsSibling(cfg.env.names, b, q)
            && |NoEarlier(cfg.env.names, r.journal, b, q)| <= AllWrites(cfg.env.names, ds[i..][1..], b)
  {
    hide OnTheWay, Run, LoserView, NextOldN, NextOldPath, NoEarlier, AllWrites, IsSibling;
    ReachDiff(cfg.env, s, ds, i);
    var u := Run(cfg.env, s, ds[..i]).state;
    assert ds[i..][0] == ds[i] && ds[i].path in PathsOf(ds[i..]);
    LoopKeepsLoser(cfg, u, ds[i..]);
    assert At(u, ds[i].path) == At(s, ds[i].path);
  }

  /** Where a pass stands when its loop comes to diff number i. */
  function Before(cfg: Config, s: State, tr: Trace, i: nat): State
    requires i <= |tr.diffs|
  {
    Run(cfg.env, AfterRepair(cfg.env.names, s, tr.links, tr.fate), tr.diffs[..i]).state
  }

  lemma LoopCut(ds: seq<FileDiff>, n: nat, i: nat)
    requires i < n <= |ds|
    ensures ds[..n][..i] == ds[..i] && ds[..n][i..][1..] == ds[i + 1..n] && ds[..n][i] == ds[i]
  {
  }

  /** With retention on, the loser of every conflict of a pass outlives the
      pass: if its base gets fewer further writes in the pass than the policy
      keeps per file, and it does not expire by the clock readings that end the
      pass, it is afterwards on its side with its version and its entry. No
      failure of an eviction changes that. */
  lemma PassKeepsLoser(cfg: Config, interval: int, last: Time, s: State, due: bool, tr: Trace, i: nat)
    requires Lawful(cfg.env.names) && ClockMoves(cfg.env) && Keyed(s.journal) && IsPass(cfg, s, due, tr)
    requires var start := AfterRepair(cfg.env.names, s, tr.links, tr.fate);
             Tracked(cfg.env, start) && Stamped(cfg.env, start) && RoomFor(cfg.env, start.journal, tr.diffs[..tr.n])
    requires i < tr.n && tr.diffs[i].Conflict?
    requires var u, end := Before(cfg, s, tr, i), Synced(cfg, s, tr).state.ticks;
             var b := NextOldN(cfg.env.names, tr.diffs[i].path, u.journal.Keys).base;
             && (cfg.retention.maxPerFile > 0 ==> AllWrites(cfg.env.names, tr.diffs[i + 1..tr.n], b) < cfg.retention.maxPerFile)
             && YoungUntil(cfg, cfg.env.clock(u.ticks + 1), end, end + |tr.bases| + 1)
    ensures var start, d, u := AfterRepair(cfg.env.names, s, tr.links, tr.fate), tr.diffs[i], Before(cfg, s, tr, i);
            var q := NextOldPath(cfg.env.names, d.path, u.journal.Keys);
            && d.path in start.local && d.path in start.remote
            && At(PassEnd(cfg, interval, last, s, tr).state, q) ==
               LoserView(d, q, start.local[d.path], start.remote[d.path], cfg.env.clock(u.ticks + 1))
  {
    hide IsSnapshot, IsQueue, IsOrderOf, Tracked, RoomFor, Stamped, ClockMoves, Lawful;
    hide AfterRepair, Run, OnTheWay, PassEnd, LoserView, YoungUntil, NextOldN, NextOldPath, AllWrites, NoEarlier, IsSibling, Keyed, At;
    var start, ds, d := AfterRepair(cfg.env.names, s, tr.links, tr.fate), tr.diffs[..tr.n], tr.diffs[i];
    LoopIsOnTheWay(cfg, s, due, tr);
    LoopCut(tr.diffs, tr.n, i);
    LoopKeepsLosers(cfg, start, ds, i);
    var u := Before(cfg, s, tr, i);
    var b, q := NextOldN(cfg.env.names, d.path, u.journal.Keys).base, NextOldPath(cfg.env.names, d.path, u.journal.Keys);
    EndKeepsCounted(cfg, interval, last, s, tr, b, q, AllWrites(cfg.env.names, tr.diffs[i + 1..tr.n], b));
  }
}
