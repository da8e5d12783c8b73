/**
 * Losers over whole runs: conflicts on ordinary paths, whose rename and journal
 * entry are two steps, evictions whose two steps can fail or be cut apart by a
 * crash, and arbitrary changes of ordinary files. While losers stay on one side
 * and no crash separates a loser from its entry, no loser is ever renamed over
 * another, however long the run.
 */
module LoserRuns {
  import opened Text
  import opened Naming
  import opened Journal
  import opened World
  import opened Pruning
  import opened Bisync

  /** A loser that has been renamed aside and has no entry yet. */
  datatype InFlight = NoConflict | Renamed(loser: string, side: Side, mtime: Time)

  /** halfDone: losers whose file an eviction has removed and whose entry it
      has not deleted yet. It is lost in a crash, and so is the conflict in
      flight. */
  datatype RunState = RunState(local: Tree, remote: Tree, journal: Bucket, halfDone: set<string>, conflict: InFlight)

  datatype RunEvent =
    | LoserRenamed(path: string, side: Side)
    | LoserJournaled(md5: string, now: Time)
    | FileRemoved(path: string)
    | EntryDeleted(path: string)
    | EntryKept(path: string)
    | Crashed
    | Ordinary(path: string, localFile: Option<File>, remoteFile: Option<File>, entry: Option<JournalEntry>)

  /** The first step of a conflict: the loser moves aside. A rename that fails
      ends the conflict and is no event. */
  function RenameLoser(names: Scheme, r: RunState, p: string, side: Side): RunState
    requires p in (if side == Local then r.local else r.remote)
  {
    var q := NextOldPath(names, p, r.journal.Keys);
    if side == Local then
      match RenameLocal(r.local, p, q)
      case FsErr => r
      case FsOk(tree) => r.(local := tree, conflict := Renamed(q, Local, r.local[p].mtime))
    else
      match MoveFile(r.remote, p, q)
      case FsErr => r
      case FsOk(tree) => r.(remote := tree, conflict := Renamed(q, Remote, r.remote[p].mtime))
  }

  /** The second step: its entry. */
  function JournalLoser(r: RunState, md5: string, now: Time): RunState
    requires r.conflict.Renamed?
  {
    var c := r.conflict;
    var e := if c.side == Local then LocalLoserEntry(c.loser, c.mtime, now) else RemoteLoserEntry(c.loser, c.mtime, md5, now);
    r.(journal := r.journal[c.loser := e], conflict := NoConflict)
  }

  /** One conflict at a time, on a file without a suffix, which finds a number
      left. Evictions act on journaled losers, and the entry goes only after
      the file. Changes by others are at paths without a suffix. */
  predicate Enabled(names: Scheme, r: RunState, ev: RunEvent) {
    match ev
    case LoserRenamed(p, side) =>
      && r.conflict.NoConflict? && p != "" && !IsOld(names, p) && HasFree(names, p, r.journal.Keys)
      && p in (if side == Local then r.local else r.remote)
    case LoserJournaled(_, _) => r.conflict.Renamed?
    case FileRemoved(k) => k in r.journal && IsOld(names, k)
    case EntryDeleted(k) => k in r.halfDone
    case EntryKept(_) => true
    case Crashed => true
    case Ordinary(p, _, _, _) => !IsOld(names, p)
  }

  /** A removal that fails is no event at all; EntryKept is a deletion of an
      entry that fails. Crashed is also the failing journal write of a
      conflict. */
  function Next(names: Scheme, r: RunState, ev: RunEvent): RunState
    requires Enabled(names, r, ev)
  {
    match ev
    case LoserRenamed(p, side) => RenameLoser(names, r, p, side)
    case LoserJournaled(md5, now) => JournalLoser(r, md5, now)
    case FileRemoved(k) =>
      if r.journal[k].lastOrigin == Remote then r.(remote := r.remote - {k}, halfDone := r.halfDone + {k})
      else r.(local := r.local - {k}, halfDone := r.halfDone + {k})
    case EntryDeleted(k) => r.(journal := r.journal - {k}, halfDone := r.halfDone - {k})
    case EntryKept(k) => r.(halfDone := r.halfDone - {k})
    case Crashed => r.(halfDone := {}, conflict := NoConflict)
    case Ordinary(p, lf, rf, e) =>
      r.(local := SetAt(r.local, p, lf), remote := SetAt(r.remote, p, rf), journal := SetAt(r.journal, p, e))
  }

  /** The loser of a conflict in flight on the given side. */
  predicate Flies(r: RunState, k: string, side: Side) {
    r.conflict.Renamed? && r.conflict.loser == k && r.conflict.side == side
  }

  /** Every loser file is on the one side its journal entry names, but for one
      whose entry is still to come. */
  ghost predicate OneHome(names: Scheme, r: RunState) {
    && (forall k :: k in r.local && IsOld(names, k) ==> Flies(r, k, Local) || (k in r.journal && r.journal[k].lastOrigin == Local))
    && (forall k :: k in r.remote && IsOld(names, k) ==> Flies(r, k, Remote) || (k in r.journal && r.journal[k].lastOrigin == Remote))
  }

  ghost predicate Sound(names: Scheme, r: RunState) {
    && OneHome(names, r)
    && (forall k :: k in r.halfDone ==> IsOld(names, k) && k in r.journal && k !in r.local && k !in r.remote)
    && (r.conflict.Renamed? ==>
          && IsOld(names, r.conflict.loser) && r.conflict.loser !in r.journal
          && r.conflict.loser in (if r.conflict.side == Local then r.local else r.remote)
          && r.conflict.loser !in (if r.conflict.side == Local then r.remote else r.local))
  }

  /** Where the next loser of p would land, no file is in the way. */
  predicate LandsFree(names: Scheme, r: RunState, p: string) {
    var q := NextOldPath(names, p, r.journal.Keys);
    q !in r.local && q !in r.remote && q !in r.journal
  }

  lemma RenameKeeps(names: Scheme, r: RunState, ev: RunEvent)
    requires Lawful(names) && Sound(names, r) && Enabled(names, r, ev) && ev.LoserRenamed?
    ensures LandsFree(names, r, ev.path) && Sound(names, Next(names, r, ev)) && Next(names, r, ev).conflict.Renamed?
  {
    FreeName(names, ev.path, r.journal.Keys);
    LoserIsOld(names, ev.path, r.journal.Keys);
    hide NextOldPath, HasFree, Lawful;
  }

  lemma OtherKeeps(names: Scheme, r: RunState, ev: RunEvent)
    requires Sound(names, r) && !ev.LoserRenamed? && !ev.Crashed? && Enabled(names, r, ev)
    ensures Sound(names, Next(names, r, ev))
  {
  }

  /** A crash is harmless exactly while no loser waits for its entry. */
  lemma CrashKeepsSoundIff(names: Scheme, r: RunState)
    requires Sound(names, r)
    ensures Sound(names, Next(names, r, Crashed)) <==> r.conflict.NoConflict?
  {
  }

  /** A user rewrites p locally; the rest of what the stores hold under p is
      as it was. */
  function Rewrite(r: RunState, p: string, f: File): RunEvent {
    Ordinary(p, Some(f), if p in r.remote then Some(r.remote[p]) else None, Lookup(r.journal, p))
  }

  /** What the other crash leads to: the loser is left without an entry, the
      next conflict of the same path finds the same name free in the journal,
      and renames over it. */
  lemma CrashInWindowLoses(names: Scheme, r: RunState, p: string, f: File)
    requires Lawful(names) && Sound(names, r) && Enabled(names, r, LoserRenamed(p, Local))
    ensures var q, evs := NextOldPath(names, p, r.journal.Keys),
                          [LoserRenamed(p, Local), Crashed, Rewrite(r, p, f), LoserRenamed(p, Local)];
            && EnabledRun(names, r, evs) && EnabledRun(names, r, evs[..2])
            && RunEvents(names, r, evs[..2]).local == (r.local - {p})[q := r.local[p]]
            && RunEvents(names, r, evs).local == (r.local - {p})[q := f]
  {
    RenameKeeps(names, r, LoserRenamed(p, Local));
    LoserIsOld(names, p, r.journal.Keys);
    hide NextOldPath, HasFree, Lawful, Sound;
    var q := NextOldPath(names, p, r.journal.Keys);
    var evs := [LoserRenamed(p, Local), Crashed, Rewrite(r, p, f), LoserRenamed(p, Local)];
    var r1 := Next(names, r, evs[0]);
    var r2 := Next(names, r1, evs[1]);
    var r3 := Next(names, r2, evs[2]);
    assert r3.journal == r.journal;
    assert (r2.local[p := f] - {p})[q := f] == (r.local - {p})[q := f];
    hide Next;
    RunsOne(names, r3, evs[3]);
    assert evs[3..] == [evs[3]] && evs[2..] == [evs[2]] + evs[3..] && evs[1..] == [evs[1]] + evs[2..] && evs == [evs[0]] + evs[1..];
    RunsMore(names, r2, evs[2], evs[3..]);
    RunsMore(names, r1, evs[1], evs[2..]);
    RunsMore(names, r, evs[0], evs[1..]);
    RunsOne(names, r1, evs[1]);
    RunsMore(names, r, evs[0], [evs[1]]);
    assert evs[..2] == [evs[0]] + [evs[1]];
  }

  lemma RunsOne(names: Scheme, r: RunState, ev: RunEvent)
    requires Enabled(names, r, ev)
    ensures EnabledRun(names, r, [ev]) && RunEvents(names, r, [ev]) == Next(names, r, ev)
  {
    assert EnabledRun(names, Next(names, r, ev), []);
  }

  lemma RunsMore(names: Scheme, r: RunState, ev: RunEvent, evs: seq<RunEvent>)
    requires Enabled(names, r, ev) && EnabledRun(names, Next(names, r, ev), evs)
    ensures EnabledRun(names, r, [ev] + evs) && RunEvents(names, r, [ev] + evs) == RunEvents(names, Next(names, r, ev), evs)
  {
    assert ([ev] + evs)[1..] == evs;
  }

  predicate EnabledRun(names: Scheme, r: RunState, evs: seq<RunEvent>)
    decreases |evs|
  {
    evs != [] ==> Enabled(names, r, evs[0]) && EnabledRun(names, Next(names, r, evs[0]), evs[1..])
  }

  function RunEvents(names: Scheme, r: RunState, evs: seq<RunEvent>): RunState
    requires EnabledRun(names, r, evs)
    decreases |evs|
  {
    if evs == [] then r else RunEvents(names, Next(names, r, evs[0]), evs[1..])
  }

  /** No crash of the run comes between a loser's rename and its entry. */
  predicate CrashesOutside(names: Scheme, r: RunState, evs: seq<RunEvent>)
    requires EnabledRun(names, r, evs)
    decreases |evs|
  {
    evs != [] ==>
      (evs[0].Crashed? ==> r.conflict.NoConflict?) && CrashesOutside(names, Next(names, r, evs[0]), evs[1..])
  }

  /** Each conflict's loser lands where no file is. */
  ghost predicate NothingOverwritten(names: Scheme, r: RunState, evs: seq<RunEvent>)
    requires EnabledRun(names, r, evs)
    decreases |evs|
  {
    evs != [] ==>
      && (evs[0].LoserRenamed? ==> LandsFree(names, r, evs[0].path))
      && NothingOverwritten(names, Next(names, r, evs[0]), evs[1..])
  }

  predicate EverRemoved(evs: seq<RunEvent>, k: string) {
    evs != [] && (evs[0] == FileRemoved(k) || EverRemoved(evs[1..], k))
  }

  lemma EventKeepsSound(names: Scheme, r: RunState, ev: RunEvent)
    requires Lawful(names) && Sound(names, r) && Enabled(names, r, ev)
    requires ev.Crashed? ==> r.conflict.NoConflict?
    ensures Sound(names, Next(names, r, ev))
    ensures ev.LoserRenamed? ==> LandsFree(names, r, ev.path)
  {
    hide Next, Sound, Lawful;
    match ev
    case LoserRenamed(_, _) => RenameKeeps(names, r, ev);
    case Crashed => CrashKeepsSoundIff(names, r);
    case _ => OtherKeeps(names, r, ev);
  }

  /** No loser is renamed over another, in any run of conflicts, evictions,
      failures, crashes outside that window and ordinary changes, numbers freed
      by evictions being used again; every loser file keeps a journal entry
      naming its side, and goes only by its own eviction. */
  lemma {:induction false} NoLoserOverwritten(names: Scheme, r: RunState, evs: seq<RunEvent>)
    requires Lawful(names) && Sound(names, r) && EnabledRun(names, r, evs) && CrashesOutside(names, r, evs)
    ensures NothingOverwritten(names, r, evs) && Sound(names, RunEvents(names, r, evs))
    ensures forall k :: k in r.local && IsOld(names, k) && !EverRemoved(evs, k) ==>
              k in RunEvents(names, r, evs).local && RunEvents(names, r, evs).local[k] == r.local[k]
    ensures forall k :: k in r.remote && IsOld(names, k) && !EverRemoved(evs, k) ==>
              k in RunEvents(names, r, evs).remote && RunEvents(names, r, evs).remote[k] == r.remote[k]
    decreases |evs|
  {
    if evs != [] {
      EventKeepsSound(names, r, evs[0]);
      LosersStay(names, r, evs[0]);
      hide Next, Enabled, Sound, Lawful, LandsFree;
      NoLoserOverwritten(names, Next(names, r, evs[0]), evs[1..]);
    }
  }

  /** One event takes a loser file away only by removing it. */
  lemma LosersStay(names: Scheme, r: RunState, ev: RunEvent)
    requires Enabled(names, r, ev) && (ev.LoserRenamed? ==> LandsFree(names, r, ev.path))
    ensures var t := Next(names, r, ev);
            && (forall k :: k in r.local && IsOld(names, k) && ev != FileRemoved(k) ==> k in t.local && t.local[k] == r.local[k])
            && (forall k :: k in r.remote && IsOld(names, k) && ev != FileRemoved(k) ==> k in t.remote && t.remote[k] == r.remote[k])
  {
    hide NextOldPath;
  }

  // ---------------------------------------------------------------------
  // Losers on both sides
  // ---------------------------------------------------------------------

  /** An eviction keeps every suffix-named file journaled exactly when the loser was not on the side its
      entry does not name. Bisync copies losers to both sides, so the copy on
      the other side is left behind without an entry. */
  lemma EvictionKeepsJournaled(names: Scheme, s: Stores, k: string)
    requires Journaled(names, s.local, s.remote, s.journal) && k in s.journal && IsOld(names, k)
    ensures var t := Evict(s, {k}, NO_FAULTS);
            Journaled(names, t.local, t.remote, t.journal) <==>
            k !in (if s.journal[k].lastOrigin == Remote then s.local else s.remote)
  {
    EvictOne(s, k, NO_FAULTS);
    hide Evict;
  }

  /** One eviction of a sweep or a prune is two events of a run, or none. */
  lemma EvictionIsTwoEvents(names: Scheme, r: RunState, k: string, f: Faults)
    requires k in r.journal && IsOld(names, k) && r.halfDone == {} && r.conflict == NoConflict
    ensures var out := Evict(Stores(r.local, r.remote, r.journal), {k}, f);
            var evs := if f.remove(k) then [] else [FileRemoved(k), if f.delete(k) then EntryKept(k) else EntryDeleted(k)];
            && EnabledRun(names, r, evs)
            && RunEvents(names, r, evs) == RunState(out.local, out.remote, out.journal, {}, NoConflict)
  {
    EvictOne(Stores(r.local, r.remote, r.journal), k, f);
    hide Evict;
    if !f.remove(k) {
      var ev := if f.delete(k) then EntryKept(k) else EntryDeleted(k);
      var mid := Next(names, r, FileRemoved(k));
      assert [FileRemoved(k), ev][1..] == [ev] && [ev][1..] == [];
      assert EnabledRun(names, Next(names, mid, ev), []) && EnabledRun(names, mid, [ev]);
      assert RunEvents(names, r, [FileRemoved(k), ev]) == RunEvents(names, mid, [ev]) == Next(names, mid, ev);
    }
  }
}
