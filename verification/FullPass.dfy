/**
 * A whole bisync pass as the agent runs it (homedrive/internal/syncer/
 * bisync.go): chain repair if it is due, the diff, the loop over the diff,
 * then retention for the bases that got a new loser, then the periodic sweep.
 * Repair comes before the diff and retention after the loop, so that nothing
 * renames or deletes a file the diff still names.
 */
module FullPass {
  import opened Naming
  import opened Journal
  import opened World
  import opened Retention
  import opened Pruning
  import opened Bisync
  import opened BisyncProofs
  import opened Repair
  import opened RepairProofs
  import opened RepairTracked
  import opened Pull
  import opened Resolvers

  // ---------------------------------------------------------------------
  // The parts of a pass
  // ---------------------------------------------------------------------

  function ToRepair(s: State): RepairState {
    RepairState(s.local, s.remote, s.local.Keys, s.remote.Keys, s.journal, [])
  }

  function AfterRepair(names: Scheme, s: State, cs: seq<Candidate>, fate: Candidate -> Fate): State {
    var u := RepairRun(names, ToRepair(s), cs, fate);
    s.(local := u.local, remote := u.remote, journal := u.journal)
  }

  /** cs is what a repair of s works through. */
  ghost predicate IsQueue(names: Scheme, s: State, cs: seq<Candidate>) {
    && Members(cs) == CandidatesIn(names, s.local.Keys, Local) + CandidatesIn(names, s.remote.Keys, Remote)
    && NoRepeats(cs) && InOrder(cs)
  }

  /** bases are the marked ones that are not left, once each, in some order. */
  ghost predicate IsOrderOf(bases: seq<string>, marked: set<string>, left: set<string>)
    decreases |bases|
  {
    if bases == [] then left == marked
    else bases[0] in marked - left && IsOrderOf(bases[1..], marked - {bases[0]}, left)
  }

  function PruneBases(cfg: Config, s: State, bases: seq<string>): State
    decreases |bases|
  {
    if bases == [] then s else PruneBases(cfg, PruneBase(cfg, s, bases[0]), bases[1..])
  }

  function Sweep(cfg: Config, s: State): State {
    var stores := Stores(s.local, s.remote, s.journal);
    var out := Evict(stores, AllEvicted(cfg.env.names, s.journal, cfg.retention, cfg.env.clock(s.ticks)), cfg.faults);
    s.(local := out.local, remote := out.remote, journal := out.journal, ticks := s.ticks + 1)
  }

  /** The periodic sweep: read the clock, sweep if the interval has passed,
      stamp the sweep. */
  datatype Swept = Swept(state: State, last: Time)

  function MaybeSweep(cfg: Config, interval: int, last: Time, s: State): Swept {
    if interval <= 0 then Swept(s, last)
    else
      var t := s.(ticks := s.ticks + 1);
      if Since(cfg.env.clock(s.ticks), last) < interval then Swept(t, last)
      else
        var u := Sweep(cfg, t);
        Swept(u.(ticks := u.ticks + 1), cfg.env.clock(u.ticks))
  }

  /** A sweep is due once the interval has passed since the last one; then, if
      nothing fails, the journal loses exactly what retention selects at the
      second clock reading, and the sweep is stamped with the third. A sweep
      that is not due changes no store and keeps the stamp; with no interval it
      does not even read the clock. */
  lemma SweepsWhenDue(cfg: Config, interval: int, last: Time, s: State)
    requires interval <= MAX_DURATION
    ensures var r, gone := MaybeSweep(cfg, interval, last, s), AllEvicted(cfg.env.names, s.journal, cfg.retention, cfg.env.clock(s.ticks + 1));
            if 0 < interval <= cfg.env.clock(s.ticks) - last then
              && r.last == cfg.env.clock(s.ticks + 2) && r.state.ticks == s.ticks + 3 && r.state.pending == s.pending
              && (cfg.faults == NO_FAULTS ==>
                    && r.state.journal == s.journal - gone
                    && r.state.local == s.local - (set p | p in gone && s.journal[p].lastOrigin == Local)
                    && r.state.remote == s.remote - (set p | p in gone && s.journal[p].lastOrigin == Remote))
            else r == Swept(s.(ticks := if interval > 0 then s.ticks + 1 else s.ticks), last)
  {
    hide EvictedPaths;
    var gone := AllEvicted(cfg.env.names, s.journal, cfg.retention, cfg.env.clock(s.ticks + 1));
    assert (set p | p in gone && !NO_FAULTS.remove(p) && !NO_FAULTS.delete(p)) == gone;
    var stores := Stores(s.local, s.remote, s.journal);
    assert forall side :: Removed(stores, gone, side, NO_FAULTS) == set p | p in gone && s.journal[p].lastOrigin == side;
  }

  /** How one pass went: the links repaired (none if repair was not due), the
      diff, how far the loop came, the order in which bases were pruned. */
  datatype Trace = Trace(links: seq<Candidate>, fate: Candidate -> Fate, diffs: seq<FileDiff>, n: nat, bases: seq<string>)

  /** What goes wrong around the loop: a listing of the repair, the write of its
      mark, the diff. */
  datatype PassFaults = PassFaults(listing: bool, mark: bool, diff: bool)

  function Synced(cfg: Config, s: State, tr: Trace): PassResult
    requires tr.n <= |tr.diffs|
  {
    Run(cfg.env, AfterRepair(cfg.env.names, s, tr.links, tr.fate), tr.diffs[..tr.n])
  }

  ghost predicate IsPass(cfg: Config, s: State, due: bool, tr: Trace) {
    && (if due then IsQueue(cfg.env.names, s, tr.links) else tr.links == [])
    && IsSnapshot(cfg.env, AfterRepair(cfg.env.names, s, tr.links, tr.fate), tr.diffs)
    && tr.n <= |tr.diffs|
    && IsOrderOf(tr.bases, Synced(cfg, s, tr).state.pending, {})
  }

  function PassEnd(cfg: Config, interval: int, last: Time, s: State, tr: Trace): Swept
    requires tr.n <= |tr.diffs|
  {
    MaybeSweep(cfg, interval, last, PruneBases(cfg, Synced(cfg, s, tr).state, tr.bases).(pending := {}))
  }

  // ---------------------------------------------------------------------
  // The agent's bisync object
  // ---------------------------------------------------------------------

  class Agent {
    const cfg: Config
    const repairChains: bool
    const sweepInterval: int
    const runner: Runner
    var chainsRepaired: bool
    var lastSweep: Time

    constructor (cfg: Config, repairChains: bool, sweepInterval: int, runner: Runner, chainsRepaired: bool, lastSweep: Time)
      ensures this.cfg == cfg && this.repairChains == repairChains && this.sweepInterval == sweepInterval
      ensures this.runner == runner && this.chainsRepaired == chainsRepaired && this.lastSweep == lastSweep
    {
      this.cfg, this.repairChains, this.sweepInterval, this.runner := cfg, repairChains, sweepInterval, runner;
      this.chainsRepaired, this.lastSweep := chainsRepaired, lastSweep;
    }

    /** Repairs both sides from complete listings, and records that it did: a
        link that fails does not fail the pass. A listing that fails ends the
        repair before it starts; a mark that cannot be written is tried again
        by the next pass. */
    method RunChainRepair(markDone: bool, fate: Candidate -> Fate, faults: PassFaults)
      returns (ok: bool, links: seq<RepairedLink>, ghost cs: seq<Candidate>)
      requires runner.env == cfg.env
      modifies this`chainsRepaired, runner
      ensures ok == !faults.listing
      ensures ok ==> IsQueue(cfg.env.names, old(runner.State()), cs)
      ensures !ok ==> cs == [] && links == []
      ensures runner.State() == AfterRepair(cfg.env.names, old(runner.State()), cs, fate)
      ensures chainsRepaired == (old(chainsRepaired) || (ok && markDone && !faults.mark))
    {
      hide CandidatesIn, InOrder;
      if faults.listing {
        links, cs := [], [];
        NoRepair(cfg.env.names, runner.State(), fate);
        return false, links, cs;
      }
      hide RepairRun;
      var repairer := new Repairer(cfg.env.names, runner.local, runner.remote, runner.journal);
      var _, repaired, queue := repairer.RepairChains(runner.local.Keys, runner.remote.Keys, fate);
      links, cs := repaired, queue;
      runner.local, runner.remote, runner.journal := repairer.local, repairer.remote, repairer.journal;
      if markDone && !faults.mark {
        chainsRepaired := true;
      }
      ok := true;
    }

    method PruneAfterConflict(base: string)
      modifies runner
      ensures runner.State() == PruneBase(cfg, old(runner.State()), base)
    {
      hide EvictedPaths, Evict;
      var r := runner;
      var paths := EvictedPaths(cfg.env.names, r.journal, base, cfg.retention, cfg.env.clock(r.ticks));
      var out := Evict(Stores(r.local, r.remote, r.journal), paths, cfg.faults);
      r.local, r.remote, r.journal, r.ticks := out.local, out.remote, out.journal, r.ticks + 1;
    }

    method SweepIfDue()
      modifies this`lastSweep, runner
      ensures Swept(runner.State(), lastSweep) == MaybeSweep(cfg, sweepInterval, old(lastSweep), old(runner.State()))
    {
      hide AllEvicted, Evict;
      var r := runner;
      if sweepInterval <= 0 {
        return;
      }
      var now := cfg.env.clock(r.ticks);
      r.ticks := r.ticks + 1;
      if Since(now, lastSweep) < sweepInterval {
        return;
      }
      var paths := AllEvicted(cfg.env.names, r.journal, cfg.retention, cfg.env.clock(r.ticks));
      var out := Evict(Stores(r.local, r.remote, r.journal), paths, cfg.faults);
      r.local, r.remote, r.journal, r.ticks := out.local, out.remote, out.journal, r.ticks + 1;
      lastSweep := cfg.env.clock(r.ticks);
      r.ticks := r.ticks + 1;
    }

    /** Prunes the marked bases in map order, then forgets the marks. */
    method PrunePending() returns (ghost bases: seq<string>)
      modifies runner
      ensures IsOrderOf(bases, old(runner.pendingPrune), {})
      ensures runner.State() == PruneBases(cfg, old(runner.State()), bases).(pending := {})
    {
      hide PruneBase;
      var todo := runner.pendingPrune;
      ghost var s := runner.State();
      bases := [];
      while todo != {}
        invariant todo <= s.pending && IsOrderOf(bases, s.pending, todo)
        invariant runner.State() == PruneBases(cfg, s, bases)
        decreases todo
      {
        var base :| base in todo;
        OneMoreBase(cfg, s, bases, base, s.pending, todo);
        PruneAfterConflict(base);
        bases := bases + [base];
        todo := todo - {base};
      }
      runner.pendingPrune := {};
    }

    /** One pass, cancelled before diff number cancelAt if there is one. A
        repair that fails is skipped; a diff that fails ends the pass, with the
        repair done, the marks kept and nothing pruned or swept. */
    method Execute(fate: Candidate -> Fate, faults: PassFaults, cancelAt: nat)
      returns (completed: bool, pushed: nat, pulled: nat, conflicts: nat, ghost tr: Trace)
      requires runner.env == cfg.env
      modifies this, runner
      ensures completed == !faults.diff
      ensures var s, runs := old(runner.State()), repairChains && !old(chainsRepaired) && !faults.listing;
              && (chainsRepaired == (old(chainsRepaired) || (runs && !faults.mark)))
              && (completed ==>
                    && IsPass(cfg, s, runs, tr) && tr.n == (if cancelAt < |tr.diffs| then cancelAt else |tr.diffs|)
                    && Synced(cfg, s, tr) == PassResult(Synced(cfg, s, tr).state, pushed, pulled, conflicts)
                    && Swept(runner.State(), lastSweep) == PassEnd(cfg, sweepInterval, old(lastSweep), s, tr))
              && (!completed ==>
                    && (if runs then IsQueue(cfg.env.names, s, tr.links) else tr.links == [])
                    && runner.State() == AfterRepair(cfg.env.names, s, tr.links, tr.fate)
                    && lastSweep == old(lastSweep) && pushed == pulled == conflicts == 0)
    {
      hide Run, PruneBases, MaybeSweep, IsQueue, IsSnapshot, IsOrderOf, RepairRun;
      ghost var s := runner.State();
      ghost var links: seq<Candidate> := [];
      NoRepair(cfg.env.names, s, fate);
      if repairChains && !chainsRepaired {
        var _, _, cs := RunChainRepair(true, fate, faults);
        links := cs;
      }
      if faults.diff {
        tr := Trace(links, fate, [], 0, []);
        return false, 0, 0, 0, tr;
      }
      var diffs := runner.Diff();
      pushed, pulled, conflicts := runner.SyncDiffs(diffs, cancelAt);
      ghost var n := if cancelAt < |diffs| then cancelAt else |diffs|;
      ghost var bases := PrunePending();
      SweepIfDue();
      tr := Trace(links, fate, diffs, n, bases);
      completed := true;
    }
  }

  lemma NoRepair(names: Scheme, s: State, fate: Candidate -> Fate)
    ensures AfterRepair(names, s, [], fate) == s
  {
  }

  lemma {:induction false} OneMoreBase(cfg: Config, s: State, bases: seq<string>, base: string, marked: set<string>, left: set<string>)
    requires IsOrderOf(bases, marked, left) && base in left && left <= marked
    ensures IsOrderOf(bases + [base], marked, left - {base})
    ensures PruneBases(cfg, s, bases + [base]) == PruneBase(cfg, PruneBases(cfg, s, bases), base)
    decreases |bases|
  {
    hide PruneBase;
    if bases == [] {
      assert [base][1..] == [];
      assert marked - {base} == left - {base};
    } else {
      assert (bases + [base])[0] == bases[0] && (bases + [base])[1..] == bases[1..] + [base];
      assert bases[0] !in left;
      OneMoreBase(cfg, PruneBase(cfg, s, bases[0]), bases[1..], base, marked - {bases[0]}, left);
    }
  }

  // ---------------------------------------------------------------------
  // With retention off, a whole pass loses no version
  // ---------------------------------------------------------------------

  /** Repair cannot leave a file without its entry: for each base with links,
      no link has a copy on the other side, or both sides hold the same links
      and flat siblings of it and none of its links fails. */
  ghost predicate RepairIsSafe(names: Scheme, s: State, cs: seq<Candidate>, fate: Candidate -> Fate)
    requires Lawful(names)
  {
    && WithinCap(names, ToRepair(s))
    && QueueRoom(names, ToRepair(s), cs)
    && QueueSafe(names, ToRepair(s), cs, fate)
  }

  lemma RepairLosesNothing(names: Scheme, s: State, cs: seq<Candidate>, fate: Candidate -> Fate)
    requires Ready(names, ToRepair(s), cs)
    ensures var t := AfterRepair(names, s, cs, fate);
            Values(t.local) == Values(s.local) && Values(t.remote) == Values(s.remote)
  {
    NeverClobbers(names, ToRepair(s), cs, fate, Local);
    NeverClobbers(names, ToRepair(s), cs, fate, Remote);
    hide RepairRun, Ready, Values;
  }

  lemma RepairStaysTracked(env: Env, s: State, cs: seq<Candidate>, fate: Candidate -> Fate)
    requires Ready(env.names, ToRepair(s), cs) && Tracked(env, s) && IsQueue(env.names, s, cs)
    requires QueueSafe(env.names, ToRepair(s), cs, fate)
    ensures Tracked(env, AfterRepair(env.names, s, cs, fate))
  {
    var r := ToRepair(s);
    hide RepairRun, Ready, CandidatesIn, InOrder, QueueSafe;
    assert AllTracked(env.names, r);
    SafeRepairKeepsTracked(env.names, r, cs, fate);
  }

  lemma RepairFirst(env: Env, s: State, cs: seq<Candidate>, fate: Candidate -> Fate)
    requires Lawful(env.names) && Tracked(env, s) && IsQueue(env.names, s, cs)
    requires RepairIsSafe(env.names, s, cs, fate)
    ensures var t := AfterRepair(env.names, s, cs, fate);
            && Tracked(env, t)
            && Values(t.local) == Values(s.local) && Values(t.remote) == Values(s.remote)
  {
    var r := ToRepair(s);
    hide RepairRun, CandidatesIn, InOrder, QueueSafe, WithinCap, Tracked, QueueRoom, Values;
    ReadyToStart(env.names, r, cs);
    hide Ready;
    RepairLosesNothing(env.names, s, cs, fate);
    RepairStaysTracked(env, s, cs, fate);
  }

  lemma {:induction false} WorkablePrefix(env: Env, s: State, ds: seq<FileDiff>, n: nat)
    requires Workable(env, s, ds) && n <= |ds|
    ensures Workable(env, s, ds[..n]) && PathsOf(ds[..n]) <= PathsOf(ds)
    decreases |ds|
  {
    if n > 0 {
      assert ds[..n][1..] == ds[1..][..n - 1];
      hide Accurate, At;
      WorkablePrefix(env, s, ds[1..], n - 1);
    } else {
      assert ds[..0] == [];
    }
  }

  lemma {:induction false} PruneBasesOff(cfg: Config, s: State, bases: seq<string>)
    requires RetentionOff(cfg.retention)
    ensures PruneBases(cfg, s, bases) == s.(ticks := PruneBases(cfg, s, bases).ticks)
    decreases |bases|
  {
    if bases != [] {
      PruneOff(cfg, s, bases[0]);
      PruneBasesOff(cfg, PruneBase(cfg, s, bases[0]), bases[1..]);
    }
  }

  lemma SweepOff(cfg: Config, interval: int, last: Time, s: State)
    requires RetentionOff(cfg.retention)
    ensures var t := MaybeSweep(cfg, interval, last, s).state;
            t == s.(ticks := t.ticks)
  {
    var r := s.(ticks := s.ticks + 1);
    assert AllEvicted(cfg.env.names, r.journal, cfg.retention, cfg.env.clock(r.ticks)) == {};
    EvictNothing(Stores(r.local, r.remote, r.journal), cfg.faults);
    hide Evict;
  }

  /** What a pass must leave. */
  ghost predicate PassIsSafe(cfg: Config, s: State, tr: Trace, t: State)
    requires tr.n <= |tr.diffs|
  {
    var repaired, ds := AfterRepair(cfg.env.names, s, tr.links, tr.fate), tr.diffs[..tr.n];
    && Tracked(cfg.env, t)
    && Values(t.local) == Values(s.local) + PulledVersions(repaired, ds)
    && Values(t.remote) == Values(s.remote) + PushedVersions(repaired, ds)
    && (forall p :: p in PathsOf(ds) ==> Settled(cfg.env, At(t, p)))
  }

  lemma AfterRepairSafe(cfg: Config, s: State, due: bool, tr: Trace)
    requires Lawful(cfg.env.names) && Tracked(cfg.env, s) && IsPass(cfg, s, due, tr)
    requires due ==> RepairIsSafe(cfg.env.names, s, tr.links, tr.fate)
    ensures var t := AfterRepair(cfg.env.names, s, tr.links, tr.fate);
            && Tracked(cfg.env, t)
            && Values(t.local) == Values(s.local) && Values(t.remote) == Values(s.remote)
  {
    hide AfterRepair, RepairIsSafe, Tracked, Values, IsSnapshot, IsQueue;
    if due {
      RepairFirst(cfg.env, s, tr.links, tr.fate);
    } else {
      NoRepair(cfg.env.names, s, tr.fate);
    }
  }

  /** With retention off, what follows the loop changes no store. */
  lemma NothingPruned(cfg: Config, interval: int, last: Time, s: State, tr: Trace)
    requires RetentionOff(cfg.retention) && tr.n <= |tr.diffs|
    ensures var r, t := Synced(cfg, s, tr).state, PassEnd(cfg, interval, last, s, tr).state;
            r.local == t.local && r.remote == t.remote && r.journal == t.journal
  {
    hide Run, AfterRepair, PruneBases, MaybeSweep;
    var r := Synced(cfg, s, tr).state;
    PruneBasesOff(cfg, r, tr.bases);
    SweepOff(cfg, interval, last, PruneBases(cfg, r, tr.bases).(pending := {}));
  }

  lemma LoopLosesNothing(env: Env, s: State, ds: seq<FileDiff>, n: nat)
    requires Lawful(env.names) && Tracked(env, s) && IsSnapshot(env, s, ds) && n <= |ds|
    requires RoomFor(env, s.journal, ds[..n])
    ensures PassKeeps(env, s, ds[..n], Run(env, s, ds[..n]))
  {
    hide Tracked, RoomFor, Run, PassKeeps;
    SnapshotWorkable(env, s, ds);
    hide IsSnapshot;
    WorkablePrefix(env, s, ds, n);
    hide Workable;
    PassLosesNothing(env, s, ds[..n]);
  }

  lemma KeepsIsSafe(cfg: Config, s: State, tr: Trace, t: State)
    requires tr.n <= |tr.diffs|
    requires var r, repaired := Synced(cfg, s, tr), AfterRepair(cfg.env.names, s, tr.links, tr.fate);
             && PassKeeps(cfg.env, repaired, tr.diffs[..tr.n], r)
             && Values(repaired.local) == Values(s.local) && Values(repaired.remote) == Values(s.remote)
             && r.state.local == t.local && r.state.remote == t.remote && r.state.journal == t.journal
    ensures PassIsSafe(cfg, s, tr, t)
  {
    hide AfterRepair, Run, Tracked, Values, Settled, At, Files, PathsOf, PulledVersions, PushedVersions, ConflictCount;
    SameStores(cfg.env, Synced(cfg, s, tr).state, t);
  }

  /** With retention off, a whole pass loses no version: repair included, and
      cut short anywhere in the diff, each side ends with every version it had
      plus the transferred ones, every diff worked through is settled, and
      every suffix-named file is journaled for the next pass. */
  lemma FullPassLosesNothing(cfg: Config, interval: int, last: Time, s: State, due: bool, tr: Trace)
    requires Lawful(cfg.env.names) && Tracked(cfg.env, s) && RetentionOff(cfg.retention)
    requires IsPass(cfg, s, due, tr)
    requires due ==> RepairIsSafe(cfg.env.names, s, tr.links, tr.fate)
    requires RoomFor(cfg.env, AfterRepair(cfg.env.names, s, tr.links, tr.fate).journal, tr.diffs[..tr.n])
    ensures PassIsSafe(cfg, s, tr, PassEnd(cfg, interval, last, s, tr).state)
  {
    hide AfterRepair, RepairIsSafe, IsOrderOf, IsQueue, RoomFor, Tracked, Values, IsSnapshot, Run, PassKeeps, PassIsSafe, PassEnd;
    var repaired := AfterRepair(cfg.env.names, s, tr.links, tr.fate);
    AfterRepairSafe(cfg, s, due, tr);
    LoopLosesNothing(cfg.env, repaired, tr.diffs, tr.n);
    NothingPruned(cfg, interval, last, s, tr);
    KeepsIsSafe(cfg, s, tr, PassEnd(cfg, interval, last, s, tr).state);
  }

  // ---------------------------------------------------------------------
  // With retention off, passes converge, a due repair included
  // ---------------------------------------------------------------------

  /** A complete pass settles every file there was after its repair. */
  lemma AgentPassSettles(cfg: Config, interval: int, last: Time, s: State, due: bool, tr: Trace)
    requires Lawful(cfg.env.names) && RetentionOff(cfg.retention) && IsPass(cfg, s, due, tr) && tr.n == |tr.diffs|
    requires var r := AfterRepair(cfg.env.names, s, tr.links, tr.fate);
             Tracked(cfg.env, r) && RoomFor(cfg.env, r.journal, tr.diffs)
    ensures AllSettled(cfg.env, AfterRepair(cfg.env.names, s, tr.links, tr.fate), ConflictCount(tr.diffs),
                       PassEnd(cfg, interval, last, s, tr).state)
  {
    var r := AfterRepair(cfg.env.names, s, tr.links, tr.fate);
    hide AfterRepair, Run, PassEnd, Tracked, RoomFor, IsSnapshot, AllSettled, IsOrderOf, IsQueue;
    assert tr.diffs[..tr.n] == tr.diffs;
    PassSettles(cfg.env, r, tr.diffs);
    NothingPruned(cfg, interval, last, s, tr);
    SettledCopies(cfg.env, r, ConflictCount(tr.diffs), BisyncProofs.AfterPass(cfg.env, r, tr.diffs), PassEnd(cfg, interval, last, s, tr).state);
  }

  /** Three complete passes of the agent, the first with its repair if that is
      due: the second pass finds exactly the losers the first one made, none of
      them a conflict, and the third finds nothing. */
  lemma AgentConverges(cfg: Config, interval: int, last: Time, s: State, due: bool, first: Trace,
                       last1: Time, second: Trace, last2: Time, third: Trace)
    requires Lawful(cfg.env.names) && Tracked(cfg.env, s) && RetentionOff(cfg.retention)
    requires IsPass(cfg, s, due, first) && first.n == |first.diffs|
    requires due ==> RepairIsSafe(cfg.env.names, s, first.links, first.fate)
    requires RoomFor(cfg.env, AfterRepair(cfg.env.names, s, first.links, first.fate).journal, first.diffs)
    requires var s1 := PassEnd(cfg, interval, last, s, first).state;
             IsPass(cfg, s1, false, second) && second.n == |second.diffs| &&
             IsPass(cfg, PassEnd(cfg, interval, last1, s1, second).state, false, third)
    ensures var repaired := AfterRepair(cfg.env.names, s, first.links, first.fate);
            var s1 := PassEnd(cfg, interval, last, s, first).state;
            && (forall p :: p in PathsOf(second.diffs) <==> p in Files(s1) && p !in Files(repaired))
            && (forall i :: 0 <= i < |second.diffs| ==> IsOld(cfg.env.names, second.diffs[i].path) && !second.diffs[i].Conflict?)
            && |second.diffs| == ConflictCount(first.diffs)
    ensures third.diffs == []
  {
    var repaired := AfterRepair(cfg.env.names, s, first.links, first.fate);
    var s1 := PassEnd(cfg, interval, last, s, first).state;
    var s2 := PassEnd(cfg, interval, last1, s1, second).state;
    AfterRepairSafe(cfg, s, due, first);
    AgentPassSettles(cfg, interval, last, s, due, first);
    NoRepair(cfg.env.names, s1, second.fate);
    NoRepair(cfg.env.names, s2, third.fate);
    hide AfterRepair, PassEnd, RepairIsSafe, Settled, OneSided, At, Tracked, RoomFor, Files, Run, IsOrderOf, IsQueue;
    SecondDiff(cfg.env, repaired, s1, second.diffs);
    RoomForNone(cfg.env, s1, second.diffs);
    AgentPassSettles(cfg, interval, last1, s1, false, second);
    NothingDiffers(cfg.env, s1, s2, third.diffs);
    hide IsSnapshot;
    SecondCount(repaired, s1, second.diffs);
  }

  // ---------------------------------------------------------------------
  // With retention on, a pass removes only journaled losers
  // ---------------------------------------------------------------------

  /** From s to t, a tree lost nothing but losers its own side's entries name,
      and the rest is as it was. */
  ghost predicate TreeShrank(names: Scheme, s: Tree, t: Tree, j: Bucket, side: Side) {
    && t.Keys <= s.Keys && (forall p :: p in t ==> t[p] == s[p])
    && forall p :: p in s && p !in t ==> IsOld(names, p) && p in j && j[p].lastOrigin == side
  }

  ghost predicate JournalShrank(names: Scheme, j: Bucket, k: Bucket) {
    && k.Keys <= j.Keys && (forall p :: p in k ==> k[p] == j[p])
    && forall p :: p in j && p !in k ==> IsOld(names, p)
  }

  ghost predicate OnlyLosersGone(names: Scheme, s: State, t: State) {
    && TreeShrank(names, s.local, t.local, s.journal, Local)
    && TreeShrank(names, s.remote, t.remote, s.journal, Remote)
    && JournalShrank(names, s.journal, t.journal)
  }

  lemma ShrinksCompose(names: Scheme, s: State, t: State, u: State)
    requires OnlyLosersGone(names, s, t) && OnlyLosersGone(names, t, u)
    ensures OnlyLosersGone(names, s, u)
  {
  }

  /** Any eviction of suffix-named journal keys, whatever fails. */
  lemma EvictShrinks(names: Scheme, s: State, paths: set<string>, f: Faults, t: State)
    requires forall p :: p in paths ==> IsOld(names, p)
    requires var out := Evict(Stores(s.local, s.remote, s.journal), paths, f);
             t.local == out.local && t.remote == out.remote && t.journal == out.journal
    ensures OnlyLosersGone(names, s, t)
  {
  }

  lemma PruneBaseShrinks(cfg: Config, s: State, base: string)
    ensures OnlyLosersGone(cfg.env.names, s, PruneBase(cfg, s, base))
  {
    hide Evict, Evicted;
    var paths := EvictedPaths(cfg.env.names, s.journal, base, cfg.retention, cfg.env.clock(s.ticks));
    EvictShrinks(cfg.env.names, s, paths, cfg.faults, PruneBase(cfg, s, base));
  }

  lemma {:induction false} PruneBasesShrink(cfg: Config, s: State, bases: seq<string>)
    ensures OnlyLosersGone(cfg.env.names, s, PruneBases(cfg, s, bases))
    decreases |bases|
  {
    if bases != [] {
      var t := PruneBase(cfg, s, bases[0]);
      PruneBaseShrinks(cfg, s, bases[0]);
      PruneBasesShrink(cfg, t, bases[1..]);
      hide PruneBase, OnlyLosersGone;
      ShrinksCompose(cfg.env.names, s, t, PruneBases(cfg, t, bases[1..]));
    }
  }

  lemma SweepShrinks(cfg: Config, interval: int, last: Time, s: State)
    ensures OnlyLosersGone(cfg.env.names, s, MaybeSweep(cfg, interval, last, s).state)
  {
    hide Evict, EvictedPaths;
    var now := cfg.env.clock(s.ticks + 1);
    var paths := AllEvicted(cfg.env.names, s.journal, cfg.retention, now);
    var r := s.(ticks := s.ticks + 1);
    EvictShrinks(cfg.env.names, s, paths, cfg.faults, Sweep(cfg, r));
  }

  /** After the loop a pass deletes no file but journaled losers, each from
      the side its entry names, and no entry but those of losers. */
  lemma PassEndRemovesOnlyLosers(cfg: Config, interval: int, last: Time, s: State, tr: Trace)
    requires tr.n <= |tr.diffs|
    ensures OnlyLosersGone(cfg.env.names, Synced(cfg, s, tr).state, PassEnd(cfg, interval, last, s, tr).state)
  {
    hide Run, AfterRepair, MaybeSweep, PruneBases;
    var r := Synced(cfg, s, tr).state;
    var t := PruneBases(cfg, r, tr.bases);
    PruneBasesShrink(cfg, r, tr.bases);
    SweepShrinks(cfg, interval, last, t.(pending := {}));
    var u := PassEnd(cfg, interval, last, s, tr).state;
    assert OnlyLosersGone(cfg.env.names, t, u);
    ShrinksCompose(cfg.env.names, r, t, u);
  }

  predicate WithinLimit(cfg: Config, j: Bucket, base: string) {
    |Siblings(cfg.env.names, j, base)| <= cfg.retention.maxPerFile
  }

  lemma PrunedJournalIs(cfg: Config, s: State, base: string)
    requires cfg.faults == NO_FAULTS
    ensures PruneBase(cfg, s, base).journal ==
            s.journal - EvictedPaths(cfg.env.names, s.journal, base, cfg.retention, cfg.env.clock(s.ticks))
  {
    hide EvictedPaths;
    var paths := EvictedPaths(cfg.env.names, s.journal, base, cfg.retention, cfg.env.clock(s.ticks));
    assert (set p | p in paths && !NO_FAULTS.remove(p) && !NO_FAULTS.delete(p)) == paths;
  }

  lemma SurvivingSiblings(names: Scheme, j: Bucket, base: string, policy: RetentionPolicy, now: Time)
    requires Keyed(j)
    ensures Siblings(names, j - EvictedPaths(names, j, base, policy, now), base) ==
            Siblings(names, j, base) - Evicted(names, Siblings(names, j, base), policy, now)
  {
    var paths := EvictedPaths(names, j, base, policy, now);
    hide Evicted, Siblings;
    SiblingsLeft(names, j, paths, base, paths, Evicted(names, Siblings(names, j, base), policy, now));
  }

  lemma SiblingsAreOnes(names: Scheme, j: Bucket, base: string)
    requires Keyed(j)
    ensures SiblingSet(names, base, Siblings(names, j, base))
  {
  }

  lemma KeyedAfterPrune(cfg: Config, s: State, base: string)
    requires Keyed(s.journal) && cfg.faults == NO_FAULTS
    ensures Keyed(PruneBase(cfg, s, base).journal)
  {
    PrunedJournalIs(cfg, s, base);
    hide EvictedPaths, PruneBase;
  }

  lemma PruneBaseBounds(cfg: Config, s: State, base: string)
    requires Lawful(cfg.env.names) && Keyed(s.journal) && cfg.retention.maxPerFile > 0 && cfg.faults == NO_FAULTS
    ensures WithinLimit(cfg, PruneBase(cfg, s, base).journal, base)
  {
    hide Evicted, EvictedPaths, PruneBase, Siblings, Lawful, SiblingSet, Unexpired;
    var names, now := cfg.env.names, cfg.env.clock(s.ticks);
    PrunedJournalIs(cfg, s, base);
    SurvivingSiblings(names, s.journal, base, cfg.retention, now);
    SiblingsAreOnes(names, s.journal, base);
    SurvivorCount(names, base, Siblings(names, s.journal, base), cfg.retention, now);
  }

  lemma ShrinkKeepsLimit(cfg: Config, j: Bucket, k: Bucket, base: string)
    requires JournalShrank(cfg.env.names, j, k) && WithinLimit(cfg, j, base)
    ensures WithinLimit(cfg, k, base)
  {
    SubsetSize(Siblings(cfg.env.names, k, base), Siblings(cfg.env.names, j, base));
  }

  lemma {:induction false} MarkedWithinLimit(cfg: Config, s: State, bases: seq<string>, marked: set<string>, base: string)
    requires Lawful(cfg.env.names) && Keyed(s.journal) && cfg.retention.maxPerFile > 0 && cfg.faults == NO_FAULTS
    requires IsOrderOf(bases, marked, {}) && base in marked
    ensures WithinLimit(cfg, PruneBases(cfg, s, bases).journal, base)
    decreases |bases|
  {
    var t := PruneBase(cfg, s, bases[0]);
    PruneBaseBounds(cfg, s, bases[0]);
    KeyedAfterPrune(cfg, s, bases[0]);
    hide PruneBase, WithinLimit;
    if base == bases[0] {
      PruneBasesShrink(cfg, t, bases[1..]);
      ShrinkKeepsLimit(cfg, t.journal, PruneBases(cfg, t, bases[1..]).journal, base);
    } else {
      MarkedWithinLimit(cfg, t, bases[1..], marked - {bases[0]}, base);
    }
  }

  lemma {:induction false} RepairKeyed(names: Scheme, s: RepairState, cs: seq<Candidate>, fate: Candidate -> Fate)
    requires Keyed(s.journal)
    ensures Keyed(RepairRun(names, s, cs, fate).journal)
    decreases |cs|
  {
    if cs != [] {
      hide TargetOf;
      var u := RepairOne(s, cs[0], TargetOf(names, s, cs[0]), fate(cs[0]));
      assert Keyed(u.journal);
      hide RepairOne, Keyed;
      RepairKeyed(names, u, cs[1..], fate);
    }
  }

  lemma StepKeyed(env: Env, s: State, d: FileDiff)
    requires Keyed(s.journal)
    ensures Keyed(Step(env, s, d).state.journal)
  {
    hide NextOldN;
  }

  lemma {:induction false} RunKeyed(env: Env, s: State, ds: seq<FileDiff>)
    requires Keyed(s.journal)
    ensures Keyed(Run(env, s, ds).state.journal)
    decreases |ds|
  {
    if ds != [] {
      StepKeyed(env, s, ds[0]);
      hide Step, Keyed;
      RunKeyed(env, Step(env, s, ds[0]).state, ds[1..]);
    }
  }

  lemma ForgetsMarks(cfg: Config, interval: int, last: Time, s: State, tr: Trace)
    requires tr.n <= |tr.diffs|
    ensures PassEnd(cfg, interval, last, s, tr).state.pending == {}
  {
    hide Run, AfterRepair, PruneBases, Evict, AllEvicted;
  }

  /** A base that got a new loser ends the pass with no more journaled losers
      than the policy allows, if no eviction fails, and no base is left
      marked. */
  lemma PassEndWithinLimit(cfg: Config, interval: int, last: Time, s: State, due: bool, tr: Trace, base: string)
    requires Lawful(cfg.env.names) && cfg.retention.maxPerFile > 0 && cfg.faults == NO_FAULTS && IsPass(cfg, s, due, tr)
    requires Keyed(s.journal) && base in Synced(cfg, s, tr).state.pending
    ensures WithinLimit(cfg, PassEnd(cfg, interval, last, s, tr).state.journal, base)
    ensures PassEnd(cfg, interval, last, s, tr).state.pending == {}
  {
    ForgetsMarks(cfg, interval, last, s, tr);
    RepairKeyed(cfg.env.names, ToRepair(s), tr.links, tr.fate);
    hide RepairRun, MaybeSweep, PruneBases, WithinLimit, IsQueue, IsSnapshot;
    RunKeyed(cfg.env, AfterRepair(cfg.env.names, s, tr.links, tr.fate), tr.diffs[..tr.n]);
    hide Run, AfterRepair, Keyed;
    var r := Synced(cfg, s, tr).state;
    var t := PruneBases(cfg, r, tr.bases);
    MarkedWithinLimit(cfg, r, tr.bases, r.pending, base);
    SweepShrinks(cfg, interval, last, t.(pending := {}));
    ShrinkKeepsLimit(cfg, t.journal, PassEnd(cfg, interval, last, s, tr).state.journal, base);
  }
}
