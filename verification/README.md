# homedrive sync engine: a verified model

This project models the part of homedrive that can lose a user's file: the
naming of conflict losers, the bisync pass with its chain repair and retention,
the journal operations under it, the pull side's conflict handling, the
page-token protocol with the remote walk that feeds it, and the watcher's
debouncer. Verify everything with `dafny verify dfyconfig.toml`.

The main results are statements over all inputs, all orders or all runs:

- no version is lost by a bisync pass, in any order of its diffs and cut short
  anywhere, and two passes reach a fixed point (`BisyncProofs`, `FullPass`);
- chain repair never renames onto a file, flattens exactly, and carries the
  journal (`RepairProofs`, `RepairTracked`);
- no loser is renamed over another in runs of any length with failures, and with
  crashes anywhere but between a rename and its entry (`LoserRuns`), and
  retention is canonical and independent of order (`Retention`, `Pruning`);
- a persisted page token never overtakes the changes handed on, and always can
  catch up (`PageToken`), with the walk and the polling behind it (`Drive`,
  `Puller`);
- a prefix rewrite of the journal is a renaming exactly when its targets are
  clear, and can be undone (`Journal`);
- an edited file is kept against a remote change and reaches the remote
  (`PullProofs`), and with retention on the version a conflict has just renamed
  aside is still there afterwards (`LoserSurvival`);
- three conflict resolvers agree (`Resolvers`), the engine's own transfers do not
  echo (`Echo`), and no debounced event is lost or emitted twice (`Debouncer`).

## How it is built

Code that changes state step by step is a class with the source's fields, and
each method is proved equal to a function of the old state; the theorems are
about those functions. Engine modules take the naming scheme as a value
(`Naming.Scheme`) and use only its laws; `OldSuffix` proves the laws of the real
matcher over byte strings. Concurrency and crashes are state machines over
single steps (`LoserRuns`, `PageToken`, `Debouncer`); a bisync pass is sequential
because it holds the exclusive lock.

Inputs of the model, instead of code: the clock's readings, MD5 as some function
of content, which file operations fail, where a context is cancelled, the order
in which Go maps are walked, the remote's answers, and `excluded`, the path
filter.

What the proofs assume of the surroundings, because the code does not give the
results without it: a remote move onto an existing name is an error, as in the
in-memory remote (`homedrive/internal/rcloneclient/memfs.go:156-171`); the
remote listing is complete and carries MD5 and exact mtimes; the suffix literal
has a non-digit; no path carries more than the capped number of suffixes; a
conflict or a link finds a number left on the base it hangs off; every
suffix-named file is journaled when a pass starts. Each of these is a `requires`,
a law or the way an operation is modelled. What goes wrong without it is shown
for the literal (`OldSuffix.DigitLiteralFails`), the cap
(`RepairProofs.PastTheCapClobbers`), the numbers left (`Naming.NextIsFree`) and the
journaled losers (`BisyncProofs.RemoteWinKeepsAllIff`); for the remote's move,
listing and mtimes it is not.

## What the proofs found

- A format whose literal is digits only is accepted, and up to 18 digits printing
  is then not always inverted (`OldSuffix.DigitLiteralFails`); for any literal and
  number, `OldSuffix.RoundTrip` has the exact condition.
- `RewritePrefix("a", "ab")` loses an entry (`Journal.SiblingPrefixLoses`);
  the exact condition is in `Journal.RewriteIsRenaming`.
- A remote win overwrites a local file that has the loser's name but no journal
  entry; that file can be the conflicting one itself
  (`BisyncProofs.RemoteWinKeepsAllIff`).
- Past the suffix cap, and only there, chain repair can rename onto an existing
  local file (`RepairProofs.TargetIsFreeIff`, `RepairProofs.PastTheCapClobbers`).
- A crash between a loser's rename and its journal entry leaves it without one,
  and the next conflict of the path renames over it
  (`LoserRuns.CrashKeepsSoundIff`, `LoserRuns.CrashInWindowLoses`).
- A restart empties the path cache but keeps the page token. Of what
  changed, the next poll hands on what lies at the root, or in a folder whose own
  change it has resolved earlier in the same poll; all else is skipped, and the
  token passes it (`PageToken.RestartHandsExactly`).
- Chain repair of a link that has a copy on the other side leaves the copy
  without an entry (`RepairTracked.OneRepairKeepsTracked`), unless both copies are
  repaired and get the same name; when they get different ones, an entry can be
  overwritten as well (`RepairTracked.TwoNamesUntrack`).
- Bisync copies losers to both sides, but an eviction deletes only the side its
  entry names; the other copy is then not journaled
  (`LoserRuns.EvictionKeepsJournaled`).
- After a local win the pull side journals the losing remote object, so the next
  bisync pass reports the path as a conflict again
  (`Resolvers.LocalWinIsSeenAgain`).
- An edited local file is kept against a remote change, but not against a remote
  deletion, which asks nothing (`PullProofs.EditIsKept`,
  `PullProofs.DeletionIsCarried`).
- An edit that leaves the mtime within a second of the journaled one is taken for
  an echo and not pushed (`PullProofs.EditIsPushed`). The guard's size test does
  not help: the adapter fills the recorded size from the file itself
  (`homedrive/cmd/homedrive/adapters.go:81-91`), so the model has no such test.
- The tolerance of a second also holds for a time earlier by the least duration or
  more, whose negation overflows (`PullProofs.WithinSecondIff`).
- An unknown policy is refused by the store's resolver and treated as newer-wins
  by the pull side (`Resolvers.WinnersAgree`).
- The OAuth back-off makes the next poll come sooner when the configured interval
  exceeds the cap (`Puller.BackoffSlowsDown`).
- After a folder is renamed, changes below its subfolders resolve to stale paths
  (`Drive.ChildAfterRename`).
- The debouncer's comments promise a quiet window and the latest event. The window
  holds exactly for the callback of the path's current timer, which the code does
  not check (`Debouncer.QuietWindowIff`; `Debouncer.StaleCallbackEmitsEarly` is
  the shortest such run), and a Create keeps its own time when it absorbs Writes
  (`Debouncer.FoldPicks`).

## Model

| member | source | states |
|---|---|---|
| `OldSuffix.CompileExactly` | homedrive/internal/oldsuffix/oldsuffix.go:48-63 | New accepts a format if and only if it is pre + "%d" + post with a non-empty pre and no other percent sign, and compiling keeps exactly those two parts |
| `OldSuffix.RoundTrip` | homedrive/internal/oldsuffix/oldsuffix.go:66-109 | For every base and number, parsing the printed name gives both back if and only if the literal does not recur inside literal + number |
| `OldSuffix.ParseOfPrint` | homedrive/internal/oldsuffix/oldsuffix.go:66-109 | A literal with at least one non-digit inverts printing on every non-empty base and every positive int |
| `OldSuffix.PrintOfParse` | homedrive/internal/oldsuffix/oldsuffix.go:78-109 | Whatever TrimOne accepts is printed back byte for byte |
| `OldSuffix.DigitLiteralFails` | homedrive/internal/oldsuffix/oldsuffix.go:48-109 | A digits-only literal, which New accepts, is a counterexample for every base while the number "1" followed by the literal fits an int, that is up to 18 digits; OldSuffix.RoundTrip says which numbers fail for any literal |
| `OldSuffix.TrimOne` | homedrive/internal/oldsuffix/oldsuffix.go:78-109 | A recognized suffix has a non-empty base, a number in 1..MaxInt, and the base is strictly shorter, so stripping ends |
| `OldSuffix.MatcherIsLawful` | homedrive/internal/oldsuffix/oldsuffix.go:48-138 | Every compiled matcher whose literal has a non-digit satisfies all the naming laws the engine proofs use |
| `OldSuffix.DefaultIsLawful` | homedrive/internal/oldsuffix/oldsuffix.go:48-63 | The empty format and ".old.%d" compile to the same matcher, and that one is lawful |
| `Naming.ComputeBase` | homedrive/internal/oldsuffix/oldsuffix.go:114-125 | The stripping loop computes the capped iterated parse |
| `Naming.StripDepth` | homedrive/internal/oldsuffix/oldsuffix.go:114-125 | With budget k the loop strips min(k, real depth) suffixes, and what is left still has one exactly if the real depth exceeds k |
| `Naming.BaseComplete` | homedrive/internal/oldsuffix/oldsuffix.go:114-131 | Base strips completely exactly on paths within the cap; IsOld and a positive depth coincide |
| `Naming.BaseOfFormat` | homedrive/internal/oldsuffix/oldsuffix.go:66-125 | One more suffix adds one level on the same base if and only if the path was below the cap |
| `Naming.ProbeNextOldN` | homedrive/internal/oldsuffix/oldsuffix.go:151-162 | The probing loop computes the allocator for any set of existing names |
| `Naming.ProbeIsLeast` | homedrive/internal/oldsuffix/oldsuffix.go:151-162 | The probed number is the least free one, or the cap when every number is taken |
| `Naming.NextIsFree` | homedrive/internal/oldsuffix/oldsuffix.go:151-162 | Pigeonhole: the name is free if and only if some number up to the cap is unused; then it is the least unused one and at most one more than the count of used ones |
| `Naming.SmallSetLeavesFree` | homedrive/internal/oldsuffix/oldsuffix.go:151-162 | Fewer than maxProbe names in all always leaves a free name |
| `Naming.LoserDepth` | homedrive/internal/oldsuffix/oldsuffix.go:140-162 | A conflict on a loser collapses to depth 1 exactly if its stripped base exists; otherwise the new loser nests one level deeper |
| `Keys.PrefixContiguous` | homedrive/internal/store/journal.go:125-142 | In byte order, once a walk from the prefix leaves the keys with that prefix, none follows |
| `Keys.LessIff` | homedrive/internal/store/journal.go:125-142 | The key order is byte order: a key comes before another if and only if it is a proper prefix of it or has the smaller byte where they first differ |
| `Keys.ListingUnique` | homedrive/internal/store/journal.go:125-142 | A set of keys has one sorted listing, so what a cursor walk returns is determined |
| `Keys.Seek` | homedrive/internal/store/journal.go:125-142 | The first key at or above the target, or none if there is none |
| `Journal.Journal.Put` | homedrive/internal/store/journal.go:79-88 | Stores an entry under its own path and changes nothing else; an empty path is refused |
| `Journal.Journal.Delete` | homedrive/internal/store/journal.go:117-121 | Removes one key, and changes nothing else |
| `Journal.Journal.ListByPrefix` | homedrive/internal/store/journal.go:125-142 | Seek, then Next while the prefix holds, returns exactly the entries with that prefix, once each, in key order |
| `Journal.Journal.ForEach` | homedrive/internal/store/journal.go:233-247 | The full walk visits every entry once, in key order |
| `Journal.Journal.RewritePrefix` | homedrive/internal/store/rename.go:18-97 | The buffered delete-and-put loop ends in the pointwise specification of the rewrite and counts the keys under the old prefix; it fails, and changes nothing, exactly when a key would become empty |
| `Journal.RewriteIsRenaming` | homedrive/internal/store/rename.go:18-74 | The loop is a simultaneous renaming of the journal (entries conserved, no two share a key, the rest untouched) if and only if no new key is taken other than by a key renamed away earlier |
| `Journal.RewriteToUnused` | homedrive/internal/store/rename.go:18-74 | If no key starts with the new prefix, every rewrite is such a renaming |
| `Journal.RewriteThereAndBack` | homedrive/internal/store/rename.go:18-74 | Rewriting to an unused prefix and back restores the journal exactly, also when one prefix extends the other |
| `Journal.SiblingPrefixLoses` | homedrive/internal/store/rename.go:36-74 | Rewriting "a" to "ab" without a separator loses the entry of "a" when "ab" is journaled |
| `World.FreshLoser` | homedrive/internal/oldsuffix/oldsuffix.go:151-162 | While every suffix-named file is journaled and the base the loser hangs off has a number left, the next loser of a file is named after no file and no entry |
| `Bisync.Runner.Diff` | homedrive/internal/syncer/bisync_ops.go:19-111 | The two map walks yield every difference of the two trees exactly once, in some order, and nothing else |
| `Bisync.Runner.SyncDiffs` | homedrive/internal/syncer/bisync.go:280-316 | The loop over a stale snapshot, cancelled before any diff, has the effect of the specified prefix of steps, and its three counts; a failed operation is skipped |
| `Bisync.Runner.Execute` | homedrive/internal/syncer/bisync.go:228-247 | A pass with repair not due and retention off: diff, loop, marks forgotten |
| `Bisync.Runner.DoSyncLocalToRemote` | homedrive/internal/syncer/bisync_ops.go:167-198 | Upload and journal entry, or no change at all when the source is gone |
| `Bisync.Runner.DoSyncRemoteToLocal` | homedrive/internal/syncer/bisync_ops.go:201-231 | Download and journal entry, or no change at all |
| `Bisync.Runner.DoResolveConflict` | homedrive/internal/syncer/bisync_ops.go:238-266 | Newer wins, ties go to the local side, with the partial effects of each failing step |
| `Bisync.Runner.DoResolveLocalWins` | homedrive/internal/syncer/bisync_ops.go:269-317 | The whole new state when the local side wins, including a move or an upload that fails half way |
| `Bisync.Runner.DoResolveRemoteWins` | homedrive/internal/syncer/bisync_ops.go:320-370 | The whole new state when the remote side wins, including a rename or a download that fails half way |
| `BisyncProofs.PassLosesNothing` | homedrive/internal/syncer/bisync_ops.go:167-370 | No version is lost: for accurate diffs in any order and number, each side ends with all the versions it had plus exactly the transferred ones, all operations succeed, processed paths are settled, new files are one-sided losers, unprocessed files are untouched, and every suffix-named file is still journaled; room is asked only of the bases the conflicts can hang losers off |
| `BisyncProofs.StepKeeps` | homedrive/internal/syncer/bisync_ops.go:167-370 | The same for one diff: the loser lands on a name no file and no entry had |
| `BisyncProofs.StepTakes` | homedrive/internal/syncer/bisync_ops.go:238-370 | One diff takes at most one loser number, and only of the base of its own path or of its stripped base |
| `BisyncProofs.FailedStep` | homedrive/internal/syncer/bisync_ops.go:167-370 | Exactly when a diff fails; then nothing is journaled or marked, and the only change there can be is that the loser was moved aside |
| `BisyncProofs.FailedStepKeeps` | homedrive/internal/syncer/bisync_ops.go:269-370 | A failing diff leaves each side the versions it had, unless a local file already has the loser name |
| `BisyncProofs.RunAppend` | homedrive/internal/syncer/bisync.go:280-316 | Cutting the loop in two makes no difference to what is done, and the counts add up |
| `BisyncProofs.WorkableFrame` | homedrive/internal/syncer/bisync.go:280-316 | Diffs not yet processed still describe the trees after others were processed |
| `BisyncProofs.SnapshotWorkable` | homedrive/internal/syncer/bisync_ops.go:19-111 | A complete diff names exactly the files that are not settled, each accurately |
| `BisyncProofs.RemoteWinKeepsAllIff` | homedrive/internal/syncer/bisync_ops.go:320-352 | Why losers must be journaled: a remote win keeps all local versions if and only if no local file already has the loser name |
| `BisyncProofs.PassSettles` | homedrive/internal/syncer/bisync_ops.go:167-370 | After a complete pass every old file is on both sides as journaled, and whatever is new is a one-sided loser |
| `BisyncProofs.Converges` | homedrive/internal/syncer/bisync_ops.go:19-111 | The second pass finds exactly the losers of the first, one per conflict, none a conflict; the third finds no difference |
| `BisyncProofs.ThreePasses` | homedrive/internal/syncer/bisync.go:187-277 | Run on the object: from any state whose suffix-named files are journaled, with numbers left for the conflicts there are, the third pass pushes, pulls and resolves nothing |
| `Repair.Repairer.FindCandidates` | homedrive/internal/syncer/repair.go:146-176 | Every link of depth 2 or more whose base is on its side, once, deepest first and then by path |
| `Repair.Repairer.RepairChains` | homedrive/internal/syncer/repair.go:105-141 | The loop with its live existence sets has the specified effect on trees, journal and report, whatever renames and whatever writes of an entry fail |
| `RepairProofs.ReadyToStart` | homedrive/internal/syncer/repair.go:146-176 | Complete listings within the suffix cap give a queue whose bases carry no suffix |
| `RepairProofs.TargetIsFree` | homedrive/internal/syncer/repair.go:117-124 | Each target is absent on its side, has one suffix, and carries the least free number of its base |
| `RepairProofs.NeverClobbers` | homedrive/internal/syncer/repair.go:105-211 | Each side keeps exactly its versions, only candidates move, new names are flat, whatever renames and entries fail |
| `RepairProofs.FlattensExactly` | homedrive/internal/syncer/repair.go:117-138 | For every base, the numbers in use become the old flat ones plus the least free ones, one per link |
| `RepairProofs.FillUnique` | homedrive/internal/syncer/repair.go:117-138 | Only one set of numbers fits that description, so the order of processing cannot matter |
| `RepairProofs.LinksGone` | homedrive/internal/syncer/repair.go:117-138 | After an error-free pass no link is where it was |
| `RepairProofs.SecondPassIsIdle` | homedrive/internal/syncer/repair.go:105-176 | After an error-free pass no candidate remains, so a second pass renames nothing |
| `RepairProofs.NoChainLeft` | homedrive/internal/syncer/repair.go:105-176 | After an error-free pass no file carries two or more suffixes while the fully stripped file exists on its side |
| `RepairProofs.DeepestFirst` | homedrive/internal/syncer/repair.go:102-104 | The queue goes from the deepest links up, and through those of one depth in byte order |
| `RepairProofs.CarriesJournal` | homedrive/internal/syncer/repair.go:213-221 | With all links on one side and their journaled flat siblings listed there, no entry is lost or overwritten, untouched keys keep theirs, and each link's entry is under its new path with all other fields, whatever renames fail |
| `RepairProofs.TargetIsFreeIff` | homedrive/internal/syncer/repair.go:117-124 | For every path: its target is absent from every listing that leaves the allocator a number if and only if the path carries no more suffixes than the cap |
| `RepairProofs.PastTheCapClobbers` | homedrive/internal/syncer/repair.go:123-124 | For every path past the cap a listing is given on which the number is computed for one base and printed on another, onto a file that exists: the rename replaces it and the side ends with one file less |
| `RepairTracked.OneRepairKeepsTracked` | homedrive/internal/syncer/repair.go:195-221 | One repair keeps every suffix-named file journaled if and only if the link has no copy on the other side |
| `RepairTracked.LostEntryUntracks` | homedrive/internal/syncer/repair.go:213-221 | A failed write of its entry leaves a journaled link without one, unless the entry of the new name was there already and the link had no copy |
| `RepairTracked.SafeRepairKeepsTracked` | homedrive/internal/syncer/repair.go:105-221 | A pass keeps every suffix-named file journaled when each base with links is of one of two kinds: its links have no copies, whatever renames fail, or both sides hold the same links and flat siblings of it and none of its links fails |
| `RepairTracked.RepairKeepsTracked` | homedrive/internal/syncer/repair.go:105-221 | A pass over links without copies keeps every suffix-named file journaled, whatever renames fail |
| `RepairTracked.TwoNamesUntrack` | homedrive/internal/syncer/repair.go:117-221 | Repairing both copies is not enough: on a lopsided start the copies get different names, one entry is overwritten and one file is left without one, with no failure at all |
| `RepairTracked.PassIsPaired` | homedrive/internal/syncer/repair.go:169-174 | In the sort order of the pass, a link and its copy on the other side are processed one right after the other |
| `RepairTracked.MirroredRepairKeepsTracked` | homedrive/internal/syncer/repair.go:105-221 | Over two sides with the same paths, an error-free pass keeps every suffix-named file journaled and the two sides alike |
| `RepairTracked.RepairLeavesRoom` | homedrive/internal/syncer/repair.go:213-221 | A pass uses up at most one journaled number per link, of the link's own base |
| `FullPass.Agent.Execute` | homedrive/internal/syncer/bisync.go:187-277 | Repair if due, diff, loop, retention for the marked bases in map order, sweep if due: the whole new state, the counts, the persisted repair mark and the time of the last sweep; a repair that cannot list is skipped, a diff that fails ends the pass with the marks kept |
| `FullPass.Agent.RunChainRepair` | homedrive/internal/syncer/bisync.go:488-532 | Repair from complete listings of both sides, and the completion mark; a failing listing leaves everything as it was, a failing mark leaves the repair due |
| `FullPass.Agent.PrunePending` | homedrive/internal/syncer/bisync.go:244-247 | Every marked base is pruned exactly once, in some order, and the marks are forgotten |
| `FullPass.Agent.SweepIfDue` | homedrive/internal/syncer/bisync.go:383-448 | The sweep runs and is stamped exactly if an interval is set and has passed |
| `FullPass.SweepsWhenDue` | homedrive/internal/syncer/bisync.go:383-448 | Due, that is an interval is set and has passed, and without failures, the journal and both trees lose exactly what retention selects at the second clock reading, and the third is the stamp; not due, stores and stamp stay |
| `FullPass.FullPassLosesNothing` | homedrive/internal/syncer/bisync.go:187-277 | With retention off, a whole pass with its repair, cut short anywhere in the diff, loses no version, settles what it processed, and leaves every suffix-named file journaled |
| `FullPass.AgentConverges` | homedrive/internal/syncer/bisync.go:187-277 | With retention off, over three complete passes, the first with its repair if due: the second diff is exactly the losers of the first, none a conflict, and the third is empty |
| `FullPass.PassEndRemovesOnlyLosers` | homedrive/internal/syncer/bisync.go:244-256 | With retention on, what follows the loop deletes no file but journaled losers, each from the side its entry names, and no entry but those of losers, whatever evictions fail |
| `FullPass.PassEndWithinLimit` | homedrive/internal/syncer/bisync.go:244-256 | A base that got a new loser ends the pass with at most maxPerFile journaled losers if no eviction fails, and no base is left marked |
| `LoserSurvival.PassKeepsLoser` | homedrive/internal/syncer/bisync.go:187-277 | With retention on: the loser of any conflict of a pass ends the pass on its own side with its version and an entry with exactly the source's fields, whatever evictions fail, if later diffs of the pass write fewer siblings of its base than are kept per file and it has not expired at the clock readings that end the pass |
| `LoserSurvival.PassEndKeepsRecent` | homedrive/internal/syncer/bisync.go:244-256 | Prunes and sweep leave every loser alone, file and entry, that has fewer than maxPerFile siblings stamped as late and does not expire meanwhile |
| `LoserSurvival.StepRecords` | homedrive/internal/syncer/bisync_ops.go:269-370 | The two entries a bisync conflict writes, field by field with their clock readings, what both sides hold at both names, and the mark on the base the loser hangs off |
| `LoserSurvival.TransferRecords` | homedrive/internal/syncer/bisync_ops.go:167-231 | The one entry an upload or a download of a pass writes, field by field with its clock reading |
| `LoserSurvival.PullKeepsLoser` | homedrive/internal/syncer/conflict.go:170-217 | With retention on: the loser a pull conflict has renamed aside, local or remote, survives the inline prune, on its side with its content and an entry stamped with the clock, if every entry is older and it has not expired by the prune's reading, whether or not the winner can then be transferred |
| `LoserSurvival.StoreStampsLoser` | homedrive/internal/store/conflict.go:79-155 | The store refuses exactly an unknown policy; otherwise it adds one entry, the loser's, with the side, mtime, digest and the time it was given, and changes no other |
| `Retention.SelectEvictions` | homedrive/internal/store/prune.go:184-217 | The loop evicts exactly the siblings that the rank and age specification names, each once, with the right rule; other bases and nested chains in the scan are ignored |
| `Retention.SortNewest` | homedrive/internal/store/prune.go:197-203 | Sorting puts every sibling at the position that is its rank by (stamp, number) |
| `Retention.SurvivorsAreNewest` | homedrive/internal/store/prune.go:184-217 | The survivors are the prefix of the recency order of length min(maxPerFile if positive, number unexpired), independent of input order |
| `Retention.SurvivorCount` | homedrive/internal/store/prune.go:184-217 | Exactly that many survive |
| `Retention.RanksAreDense` | homedrive/internal/store/prune.go:197-203 | Ranks are 0, 1, 2, ... without gaps or ties |
| `Retention.PruneIsIdempotent` | homedrive/internal/store/prune.go:184-217 | A second prune at the same clock removes nothing |
| `Retention.JustRecordedSurvives` | homedrive/internal/syncer/conflict.go:96-100 | A loser stamped later than all others survives the inline prune if and only if it has not expired |
| `Retention.EvictedIff` | homedrive/internal/store/prune.go:184-217 | A sibling goes if and only if it is older than the age limit, or at least maxPerFile siblings carry a later stamp, or the same stamp and a higher number |
| `Pruning.Pruner.EvictEntry` | homedrive/internal/store/prune.go:230-279 | File first, entry after; a file that cannot be removed keeps its entry, an entry whose deletion fails stays |
| `Pruning.Pruner.PruneOldSiblings` | homedrive/internal/store/prune.go:117-132 | The bounded scan removes exactly what retention selects among all direct siblings in the journal, under any failures |
| `Pruning.Pruner.SweepOldFiles` | homedrive/internal/store/prune.go:144-168 | The full walk, grouped by base and evicted in map order, removes exactly the union over all bases |
| `Pruning.ScanHoldsSiblings` | homedrive/internal/store/prune.go:117-123 | The keys under base + literal include every direct sibling of the base |
| `Pruning.PrunesInAnyOrder` | homedrive/internal/store/prune.go:117-168 | At one clock and without failures, pruning base by base in any order, with repetitions, removes exactly what a sweep removes |
| `LoserRuns.NoLoserOverwritten` | homedrive/internal/syncer/conflict.go:108-217 | Over runs of any length of conflicts, evictions crashed between their steps, failing removals and ordinary changes, numbers freed by evictions being used again: each new loser lands on a free name, every loser file keeps an entry naming its side, and goes only by its own eviction |
| `LoserRuns.RenameKeeps` | homedrive/internal/syncer/conflict.go:141-165 | The rename of a loser lands on a name no file and no entry has, and keeps the invariant |
| `LoserRuns.CrashKeepsSoundIff` | homedrive/internal/syncer/conflict.go:148-165 | A crash keeps the invariant if and only if no loser has been renamed and not yet journaled |
| `LoserRuns.CrashInWindowLoses` | homedrive/internal/syncer/conflict.go:148-165 | After a crash in that window, the next conflict of the same path renames over the loser |
| `LoserRuns.EvictionKeepsJournaled` | homedrive/internal/store/prune.go:230-279 | An eviction leaves every suffix-named file journaled if and only if the loser has no copy on the side its entry does not name |
| `LoserRuns.EvictionIsTwoEvents` | homedrive/internal/store/prune.go:230-279 | What the pruner does to one loser, under any failure, is none or two of the events of a run |
| `Pull.Engine.Process` | homedrive/internal/syncer/pull_process.go:13-139 | The whole new state for every change: deletion with its failing steps, folder, unknown path, local file that cannot be examined, adopted duplicate, conflict, echo within a second, download |
| `Pull.Engine.Download` | homedrive/internal/syncer/pull_process.go:223-327 | Download and journal entry, or no change |
| `Pull.Engine.HandleConflict` | homedrive/internal/syncer/conflict.go:108-237 | Rename the loser, journal it, prune its base with whatever evictions fail, transfer the winner, journal the path, with the partial effects of failing steps |
| `Pull.Engine.HandleEvent` | homedrive/internal/syncer/push_journal.go:21-41 | A create or write at the journaled mtime is dropped, any other event is pushed and journaled |
| `PullProofs.WithinSecondIff` | homedrive/internal/syncer/pull_process.go:127-135 | Two times count as equal exactly when they differ by at most a second, or the first is earlier by the least duration or more |
| `PullProofs.PolicyDecides` | homedrive/internal/syncer/conflict.go:241-257 | Remote wins exactly under remote_wins, or when its mtime is later and the policy is not local_wins |
| `PullProofs.EditIsKept` | homedrive/internal/syncer/pull_process.go:105-139 | A remote change never overwrites an edited local file: if the digest is not the journaled one and the local mtime is more than a second from the journaled one, both versions are afterwards under the path or the loser's name, each on its side |
| `PullProofs.WinnerTakesPath` | homedrive/internal/syncer/conflict.go:108-237 | The policy's winner is then on both sides under the path, the other version under the loser's name on its own side, and the two entries have exactly the source's fields |
| `PullProofs.UneditedTakesRemote` | homedrive/internal/syncer/pull_process.go:75-103 | Conversely, a file that is unknown, missing or not edited on both sides takes the remote version and its entry, unless the remote reports the journaled state |
| `PullProofs.NothingToFetch` | homedrive/internal/syncer/pull_process.go:75-103 | A report of the journaled state and a file that cannot be examined change nothing; an identical file without a baseline only gets its entry |
| `PullProofs.FailedFetchIsNotRecorded` | homedrive/internal/syncer/pull_process.go:75-103 | Exactly when a change that is no conflict fails, and that its entry is then as it was |
| `PullProofs.FailedResolution` | homedrive/internal/syncer/conflict.go:170-223 | With retention off: exactly when a pull resolution fails, and that it is then all as it was, or the loser is under its own name and journaled |
| `PullProofs.DeletionIsCarried` | homedrive/internal/syncer/pull_process.go:27-72 | A remote deletion takes the local file, edited or not, and its entry; it fails exactly if the file cannot be removed or the entry cannot be deleted, and then the entry stays |
| `PullProofs.EditIsPushed` | homedrive/internal/watcher/watcher.go:264-309 | A create or write of a file that is not journaled, or whose mtime is more than a second from the journaled one, puts the file on the remote with its baseline; at that mtime it is dropped; for a missing file it fails |
| `PullProofs.RemovalIsPushed` | homedrive/internal/syncer/push_remove.go:14-31 | A remove event takes the remote copy away, and the entry then describes no version |
| `Resolvers.WinnersAgree` | homedrive/internal/store/conflict.go:144-186 | The pull side decides like bisync for all mtimes exactly under newer_wins or an unknown policy; the store decides like the pull side exactly when the policy is known |
| `Resolvers.PullMatchesBisync` | homedrive/internal/syncer/conflict.go:108-237 | For one conflict with retention off, pull and bisync leave the same two trees and the same journal keys |
| `Resolvers.RunsMatch` | homedrive/internal/syncer/conflict.go:108-237 | Over any list of conflicts, from equal trees and equal journal keys, pull and bisync end in equal trees and equal journal keys |
| `Resolvers.ResolversAgree` | homedrive/internal/store/conflict.go:79-210 | All three resolvers pick the same winner and loser name, and journal the loser alike up to its stamp |
| `Resolvers.LocalWinIsSeenAgain` | homedrive/internal/syncer/pull_process.go:199-219 | After a local win, the pull side's entry makes the next bisync diff report the path again unless winner and loser agree in mtime and digest; bisync's own entry never does |
| `Echo.PushEstablishes` | homedrive/internal/syncer/push_journal.go:21-41 | A successful push leaves the baseline: both copies equal and the entry describing them |
| `Echo.DownloadEstablishes` | homedrive/internal/syncer/pull_process.go:290-327 | A download leaves the baseline if and only if the change still describes the remote file |
| `Echo.BisyncEstablishes` | homedrive/internal/syncer/bisync_ops.go:167-370 | Every bisync step succeeds and leaves the baseline at its path |
| `Echo.EventKeeps` | homedrive/internal/watcher/watcher.go:264-309 | One event of any kind, at this path or any other, leaves both copies and the entry of a file at its baseline alone, unless it renames a loser onto it |
| `Echo.NameIsSpared` | homedrive/internal/oldsuffix/oldsuffix.go:151-162 | No event renames a loser onto a path without a suffix, nor onto a journaled path while its conflict finds a number left |
| `Echo.EchoQuiescence` | homedrive/internal/syncer/pull_process.go:75-139 | Over runs of any length of watcher events, re-reported changes, bisync steps and edits elsewhere, a file at its baseline is never transferred, renamed or re-journaled; only a suffix-named file needs that no conflict of the run renames its loser onto it |
| `PageToken.StepSafe` | homedrive/internal/syncer/puller.go:210-373 | Every step, with the remote changing, tokens refused, cycles cancelled or crashed anywhere, keeps the cursor invariant |
| `PageToken.TokenNeverOvertakes` | homedrive/internal/syncer/puller.go:210-373 | Over all runs: when the persisted token is a position t, every existing, not excluded file whose newest change lies before t was handed on in that state, or skipped by a poll that did not know its parent folder |
| `PageToken.TokenMoves` | homedrive/internal/syncer/puller.go:210-373 | The persisted token moves only to a start token the cycle minted, or to the position read up to once every listed item was handed on; nothing handed on is taken back |
| `PageToken.TokenMovesLast` | homedrive/internal/syncer/puller.go:240-257 | Over all runs, a cycle about to move the token past its listing has handed on everything it listed |
| `PageToken.RunSkips` | homedrive/internal/rcloneclient/driveapi.go:292-343 | Until the process ends the cache only grows, and a poll skips only what lies below a folder that was not in it |
| `PageToken.WalkedFolderSkipsNothing` | homedrive/internal/rcloneclient/rclonefs.go:305-330 | A file is skipped only if its parent folder was not visited by a walk earlier in the same process |
| `PageToken.ReportedIsKnown` | homedrive/internal/rcloneclient/driveapi.go:317-326 | Whatever a page hands on is in the cache after it |
| `PageToken.HandedIffReachable` | homedrive/internal/rcloneclient/driveapi.go:271-343 | A poll hands an existing object in its newest state on if and only if the path of its parent is known by the time that change is read: the sync root, cached before, or a folder changed earlier in the poll that exists, is not excluded and has a parent known in the same way; otherwise it is skipped |
| `PageToken.RestartHandsExactly` | homedrive/internal/rcloneclient/idpathcache.go:17-25 | After a restart with a stored position, which empties the cache, the next undisturbed poll passes everything, and of what changed since has handed on exactly what had been before and what it could resolve from its own earlier changes |
| `PageToken.CatchesUp` | homedrive/internal/syncer/puller.go:210-373 | From every reachable state between cycles, undisturbed cycles bring the token to the end of the change log |
| `Puller.Puller.Poll` | homedrive/internal/syncer/puller.go:210-373 | One cycle: the four outcomes, what was handed on, the persisted token and the failure streak, for every answer of the remote and every point of cancellation |
| `Puller.Puller.NextPollInterval` | homedrive/internal/syncer/puller.go:190-202 | The capped doubling loop equals interval * 2^(streak-1), capped |
| `Puller.DelayDoubles` | homedrive/internal/syncer/puller.go:190-202 | The interval without a failure and after one, capped; then twice the previous delay, capped |
| `Puller.BackoffSlowsDown` | homedrive/internal/syncer/puller.go:190-202 | A longer streak never polls sooner if and only if the configured interval is within the cap |
| `Drive.DriveClient.ListRecursive` | homedrive/internal/rcloneclient/rclonefs.go:305-330 | The recursive walk appends the specified listing and leaves the specified cache, and fails exactly if a folder it must list fails |
| `Drive.EveryFileListed` | homedrive/internal/rcloneclient/rclonefs.go:305-330 | Every file that is not excluded and has no excluded ancestor folder is listed at its true path |
| `Drive.OnlyFilesListed` | homedrive/internal/rcloneclient/rclonefs.go:305-330 | Nothing else is listed |
| `Drive.ListedOnce` | homedrive/internal/rcloneclient/rclonefs.go:305-330 | With distinct ids no file is listed twice |
| `Drive.ListableIff` | homedrive/internal/rcloneclient/rclonefs.go:305-330 | The walk fails if and only if it meets a folder it cannot list: the start, or one that is not excluded and lies below no excluded folder |
| `Drive.VisitedCached` | homedrive/internal/rcloneclient/rclonefs.go:310-328 | After the walk, every visited folder and every listed file is cached at its true path |
| `Drive.ChildResolves` | homedrive/internal/rcloneclient/driveapi.go:331-343 | After a walk and any changes to other objects, a change in a visited folder resolves to its place in the tree that was walked |
| `Drive.ChildAfterRename` | homedrive/internal/rcloneclient/driveapi.go:292-343 | After a reported rename of one folder on the way to the visited folder, a change in it resolves to its path in the renamed tree if and only if the name is the old one, or the renamed folder is that folder itself and its new path is not excluded |
| `Drive.FolderThenChild` | homedrive/internal/rcloneclient/driveapi.go:292-343 | A folder reported before its contents makes them resolvable |
| `Drive.PagingIsInvisible` | homedrive/internal/rcloneclient/driveapi.go:227-286 | A successful poll yields what its pages' changes yield as one list, and the last page's new start token or the token that page was asked with |
| `Drive.TranslateConcat` | homedrive/internal/rcloneclient/driveapi.go:271-275 | Translating two batches one after the other equals translating them as one |
| `Drive.PollAsWalk` | homedrive/internal/rcloneclient/driveapi.go:292-327 | A poll that reports a whole tree, each folder before its contents, hands on exactly the files that the walk of that tree lists, with the same paths, mtimes and digests |
| `Drive.FileAsWalked` | homedrive/internal/rcloneclient/driveapi.go:303-326 | A reported file in a cached folder becomes exactly the item, and the cache, that the walk of that folder gives |
| `Drive.FolderAsFolder` | homedrive/internal/rcloneclient/driveapi.go:303-326 | A reported folder is handed on as a folder at its path and cached, unless it is excluded |
| `Drive.GoneAsDeleted` | homedrive/internal/rcloneclient/driveapi.go:293-315 | A trashed object is a deletion at its resolved path, a removed one at its cached path, unless that path is excluded |
| `Drive.PollFails` | homedrive/internal/rcloneclient/driveapi.go:227-286 | A failing poll has read only pages that named a next one, and answers with the failure it then met, or as cancelled when the answers end |
| `Drive.PathIsNames` | homedrive/internal/rcloneclient/rclonefs.go:305-330 | The path of a trail is its names joined by slashes |
| `Drive.DriveClient.Translate` | homedrive/internal/rcloneclient/driveapi.go:292-327 | One change: removed, unresolved, excluded, trashed, folder or file, with the cache it leaves |
| `Drive.DriveClient.PollChanges` | homedrive/internal/rcloneclient/driveapi.go:227-286 | The page loop has the effect of the specified poll from the cache seeded with the sync root |
| `Drive.DriveClient.EnsureRootId` | homedrive/internal/rcloneclient/rootid.go:21-39 | The sync root is cached at the empty path once, and a failure is not remembered |
| `Drive.DriveClient.FullWalkThenResume` | homedrive/internal/rcloneclient/rclonefs.go:281-299 | A successful walk answers with its listing and the token minted before it |
| `Drive.DriveClient.ListChanges` | homedrive/internal/rcloneclient/rclonefs.go:270-275 | A start token, or none, owes a full walk; any other is polled |
| `Drive.Cycle` | homedrive/internal/syncer/puller.go:210-373 | A cycle that owes a walk (no token, a start token, or a token refused with 410 or 400) hands on exactly the walked files and then stores the position minted before the walk; cancelled or with a failed walk, it stores a start token and keeps owing it. Any other cycle polls from the stored position: it hands on exactly what the poll reports, or the part before a cancellation, and moves the token only when all of it was handed on; a failing poll changes nothing |
| `Debouncer.Debouncer.Add` | homedrive/internal/watcher/debouncer.go:34-64 | The whole new state of one added event, whether or not Stop came in time |
| `Debouncer.Debouncer.RunCallback` | homedrive/internal/watcher/debouncer.go:51-58 | The critical section of a callback, stale ones included |
| `Debouncer.Debouncer.Emit` | homedrive/internal/watcher/debouncer.go:60-62 | The emission after the lock is released |
| `Debouncer.Debouncer.Suppress` | homedrive/internal/watcher/debouncer.go:68-77 | Drops one waiting path |
| `Debouncer.Debouncer.SuppressPrefix` | homedrive/internal/watcher/debouncer.go:82-93 | The loop in map order drops exactly the waiting paths with the prefix |
| `Debouncer.Debouncer.Stop` | homedrive/internal/watcher/debouncer.go:96-105 | Drops everything that waits |
| `Debouncer.StepKeeps` | homedrive/internal/watcher/debouncer.go:34-105 | Every step keeps the invariant of the next row |
| `Debouncer.EveryInterleaving` | homedrive/internal/watcher/debouncer.go:34-105 | Under every interleaving: equal key sets, an unfinished callback for each waiting path, pending is the fold of the open batch, each taken batch is emitted as one event, and the batches partition the events added |
| `Debouncer.FoldPicks` | homedrive/internal/watcher/debouncer.go:42-44 | The event handed on is the last of its batch, or the Create that only Writes follow |
| `Debouncer.SuppressionDrops` | homedrive/internal/watcher/debouncer.go:66-105 | A suppression of a path or a prefix, or Stop, drops exactly what waits under the paths it is meant for, stops their timers where that still works, emits nothing, and leaves every other path as it was |
| `Debouncer.SuppressedIsSilent` | homedrive/internal/watcher/debouncer.go:66-105 | After a suppression no interleaving emits an event of the path until one is added for it, but for events a callback had already taken |
| `Debouncer.DrainEmitsEachOnce` | homedrive/internal/watcher/debouncer.go:51-63 | Once the timers have run out, exactly what was waiting or in flight has been emitted, each once, whichever callback did it |
| `Debouncer.TimersRunOut` | homedrive/internal/watcher/debouncer.go:51-63 | Without new events the callbacks take boundedly many steps, and are never stuck before they are done |
| `Debouncer.QuietWindowIff` | homedrive/internal/watcher/debouncer.go:46-63 | In every reachable state, a callback about to take a batch finds that no event of its path was added since its timer was started if and only if its timer is the path's current one; it takes the batch in either case |

## Left out

- Bisync.Runner.Execute: the pass without chain repair and retention; the whole pass is `FullPass.Agent.Execute`.
- BisyncProofs.PassLosesNothing: for operations that succeed; the journal is written last in a conflict, so a failure half way leaves a loser without an entry (`BisyncProofs.FailedStep`), and the theorem says nothing after one.
- BisyncProofs.Converges: with retention off and chain repair not due; `FullPass.AgentConverges` has the due repair.
- FullPass.FullPassLosesNothing: a due repair is covered when each base with links has no copies of them or has the same links and flat siblings on both sides; for other mixes `RepairTracked.OneRepairKeepsTracked` and `RepairTracked.TwoNamesUntrack` show what goes wrong.
- LoserRuns.NoLoserOverwritten: one conflict at a time, each on a file without a suffix and with a number left on its base; crashes between a rename and its entry are the subject of `LoserRuns.CrashKeepsSoundIff`; losers are on one side only; bisync's copies to the other side are the subject of `LoserRuns.EvictionKeepsJournaled`.
- RepairProofs.CarriesJournal: for links on one side whose entries can be written; two links with the same path on both sides share one entry.
- Repair.Repairer.RepairChains: a journal read or delete that fails, which the code ignores.
- Echo.EchoQuiescence: with retention off and no remove event for the file; a file that is itself a loser could be renamed over by a conflict that has run out of numbers, and the condition along the run excludes that; watcher operations other than create, write and remove are not part of the push model.
- PageToken.TokenNeverOvertakes: changes below a folder that is not cached are skipped by a poll, as the code does; no folder is moved while a walk is under way; deletions are not counted among the states handed on.
- Drive.ListedOnce: ids are distinct and non-empty; names are clean, so that joining two paths is concatenation.
- Drive.DriveClient.PollChanges: the answers of the remote are a finite list, after which the call counts as cancelled; building the client cannot fail.
- Drive.Cycle: the remote does not change during one cycle; `PageToken` covers a remote that does.
- Drive.ChildAfterRename: one rename under the same parent; a folder moved to another parent is not followed.
- OldSuffix.DigitLiteralFails: for literals of more than 18 digits whether some number fails depends on the literal's periods; `OldSuffix.RoundTrip` decides each number.
- RepairTracked.SafeRepairKeepsTracked: sufficient for a whole pass; the exact condition is given for one rename, in `RepairTracked.OneRepairKeepsTracked`.
- Puller.Puller.Poll: reading or writing the persisted token cannot fail; the handling of each change is `Pull.Engine.Process`.
- Pull.Engine.Process: reading a local file for its digest and reading or writing the journal cannot fail, deletions of entries apart; digests are compared exactly, not ignoring case.
- Pull.Engine.HandleConflict: the writes of the two entries cannot fail.
- Repair.Repairer.FindCandidates, Retention.SortNewest: sort.Slice is modelled as repeated extraction of a first element, which fixes the same order up to ties.
- PullProofs.EditIsKept: with retention off; `LoserSurvival.PullKeepsLoser` says what an inline prune keeps.
- LoserSurvival.PassKeepsLoser: later diffs that could write a sibling of the same base are counted, whether or not they do; the clock is strictly increasing.
- RemoteID is not a field of journal entries or changes; no decision reads it.
- The non-recursive remote listing without MD5 of the production client; the model takes a complete listing.
- Directories as such: creating parents, renaming folders, and the call of `RewritePrefix` on a folder rename.
- Dry runs, including the preview of chain repair, which reports two links of one base with the same target.
- Bolt, JSON and file locks: the journal is a sorted map, and each method one transaction; Bolt's limits on the size of keys and values, and metadata keys, are not modelled.
- Clock readings that only go into logs and audit lines.
- Dangling shortcuts, which the loop skips like any failed pull.
- The rename pairer, quota, retries, metrics, logging, MQTT, audit, HTTP control, command line, configuration and OAuth: plumbing or heuristics.
- The `running` flag of a pass and the locks of the push and pull workers: a pass holds the exclusive lock.
