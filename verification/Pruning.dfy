/**
 * Carrying retention out on the two trees and the journal: one base by a
 * bounded prefix scan, or every base by a full walk
 * (homedrive/internal/store/prune.go).
 */
module Pruning {
  import opened Keys
  import opened Naming
  import opened Journal
  import opened World
  import opened Retention

  datatype Stores = Stores(local: Tree, remote: Tree, journal: Bucket)

  /** Which removals of a file and which deletions of an entry fail. */
  datatype Faults = Faults(remove: string -> bool, delete: string -> bool)

  const NO_FAULTS := Faults(_ => false, _ => false)

  function Siblings(names: Scheme, j: Bucket, base: string): set<JournalEntry> {
    set k | k in j && IsSibling(names, base, k) :: j[k]
  }

  /** The paths retention removes for one base, and for all bases. */
  function EvictedPaths(names: Scheme, j: Bucket, base: string, policy: RetentionPolicy, now: Time): set<string> {
    set k | k in j && IsSibling(names, base, k) && j[k] in Evicted(names, Siblings(names, j, base), policy, now)
  }

  function AllEvicted(names: Scheme, j: Bucket, policy: RetentionPolicy, now: Time): set<string> {
    set k | k in j && IsOld(names, k) && k in EvictedPaths(names, j, names.trim(k).base, policy, now)
  }

  /** The paths whose file goes from the given side. */
  function Removed(s: Stores, paths: set<string>, side: Side, f: Faults): set<string> {
    set p | p in paths && p in s.journal && s.journal[p].lastOrigin == side && !f.remove(p)
  }

  /** Evicting a set of journaled paths: each file goes from the side its entry
      names, and the entry goes after it; a file that cannot be removed keeps
      its entry. */
  function Evict(s: Stores, paths: set<string>, f: Faults): Stores {
    Stores(
      s.local - Removed(s, paths, Local, f),
      s.remote - Removed(s, paths, Remote, f),
      s.journal - (set p | p in paths && !f.remove(p) && !f.delete(p)))
  }

  lemma EvictComposes(s: Stores, a: set<string>, b: set<string>, f: Faults)
    requires a !! b
    ensures Evict(Evict(s, a, f), b, f) == Evict(s, a + b, f)
  {
    var t := Evict(s, a, f);
    RemovedLater(s, a, b, Local, f);
    RemovedLater(s, a, b, Remote, f);
    hide Removed;
    assert t.local - Removed(t, b, Local, f) == s.local - Removed(s, a + b, Local, f);
    assert t.remote - Removed(t, b, Remote, f) == s.remote - Removed(s, a + b, Remote, f);
    assert Evict(t, b, f).journal == Evict(s, a + b, f).journal;
  }

  lemma RemovedLater(s: Stores, a: set<string>, b: set<string>, side: Side, f: Faults)
    requires a !! b
    ensures Removed(s, a, side, f) + Removed(Evict(s, a, f), b, side, f) == Removed(s, a + b, side, f)
  {
    var t := Evict(s, a, f);
    forall p | p in b
      ensures p in t.journal <==> p in s.journal
      ensures p in s.journal ==> t.journal[p] == s.journal[p]
    {
    }
  }

  lemma EvictNothing(s: Stores, f: Faults)
    ensures Evict(s, {}, f) == s
  {
    var t := Evict(s, {}, f);
    assert t.local == s.local && t.remote == s.remote && t.journal == s.journal;
  }

  /** The eviction of one loser, spelled out. */
  lemma EvictOne(s: Stores, k: string, f: Faults)
    requires k in s.journal
    ensures Evict(s, {k}, f) ==
            if f.remove(k) then s
            else Stores(
              if s.journal[k].lastOrigin == Local then s.local - {k} else s.local,
              if s.journal[k].lastOrigin == Remote then s.remote - {k} else s.remote,
              if f.delete(k) then s.journal else s.journal - {k})
  {
    var out := Evict(s, {k}, f);
    var origin := s.journal[k].lastOrigin;
    assert Removed(s, {k}, origin, f) == if f.remove(k) then {} else {k};
    assert Removed(s, {k}, if origin == Local then Remote else Local, f) == {};
    assert (set p | p in {k} && !f.remove(p) && !f.delete(p)) == if f.remove(k) || f.delete(k) then {} else {k};
    hide Removed;
    assert s.local - {} == s.local && s.remote - {} == s.remote && s.journal - {} == s.journal;
  }

  lemma EvictKeyed(s: Stores, a: set<string>, f: Faults)
    requires Keyed(s.journal)
    ensures Keyed(Evict(s, a, f).journal)
    ensures forall k :: k in s.journal && k !in a ==>
              k in Evict(s, a, f).journal && Evict(s, a, f).journal[k] == s.journal[k]
  {
  }

  class Pruner {
    const names: Scheme
    const policy: RetentionPolicy
    const store: Journal
    var local: Tree
    var remote: Tree

    constructor (names: Scheme, policy: RetentionPolicy, store: Journal, local: Tree, remote: Tree)
      ensures this.names == names && this.policy == policy && this.store == store
      ensures this.local == local && this.remote == remote
    {
      this.names, this.policy, this.store, this.local, this.remote := names, policy, store, local, remote;
    }

    function Contents(): Stores reads this, store {
      Stores(local, remote, store.bucket)
    }

    /** Removes the file, then the entry; true if the file is gone. A missing
        file counts as removed. */
    method EvictEntry(entry: JournalEntry, f: Faults) returns (gone: bool)
      requires store.Valid() && entry.path in store.bucket && store.bucket[entry.path] == entry
      modifies this, store
      ensures store.Valid()
      ensures Contents() == Evict(old(Contents()), {entry.path}, f)
      ensures gone <==> !f.remove(entry.path)
    {
      EvictOne(Contents(), entry.path, f);
      hide Evict;
      if f.remove(entry.path) {
        return false;
      }
      if entry.lastOrigin == Remote {
        remote := remote - {entry.path};
      } else {
        local := local - {entry.path};
      }
      if !f.delete(entry.path) {
        store.Delete(entry.path);
      }
      gone := true;
    }

    /** Works through one selection. */
    method EvictAll(evictions: seq<Eviction>, f: Faults) returns (removed: seq<string>)
      requires store.Valid()
      requires forall e :: e in EntriesOf(evictions) ==> e.path in store.bucket && store.bucket[e.path] == e
      requires forall i, j :: 0 <= i < j < |evictions| ==> evictions[i].entry != evictions[j].entry
      modifies this, store
      ensures store.Valid()
      ensures var paths := set e | e in EntriesOf(evictions) :: e.path;
              && Contents() == Evict(old(Contents()), paths, f)
              && forall p :: p in removed <==> p in paths && !f.remove(p)
    {
      removed := [];
      ghost var s := Contents();
      ghost var done: set<string> := {};
      EvictNothing(s, f);
      hide Evict;
      for i := 0 to |evictions|
        invariant store.Valid()
        invariant done == set k | 0 <= k < i :: evictions[k].entry.path
        invariant Contents() == Evict(s, done, f)
        invariant forall p :: p in removed <==> p in done && !f.remove(p)
      {
        var e := evictions[i].entry;
        assert e in EntriesOf(evictions);
        EvictKeyed(s, done, f);
        assert e.path !in done;
        EvictComposes(s, done, {e.path}, f);
        var gone := EvictEntry(e, f);
        if gone {
          removed := removed + [e.path];
        }
        done := done + {e.path};
      }
      assert done == set e | e in EntriesOf(evictions) :: e.path;
    }

    /** Prunes one base, from a scan of the keys under base + literal. */
    method PruneOldSiblings(base: string, now: Time, f: Faults) returns (removed: seq<string>)
      requires Lawful(names) && store.Valid()
      modifies this, store
      ensures store.Valid()
      ensures var paths := EvictedPaths(names, old(store.bucket), base, policy, now);
              && Contents() == Evict(old(Contents()), paths, f)
              && forall p :: p in removed <==> p in paths && !f.remove(p)
    {
      var candidates := store.ListByPrefix(base + names.pre);
      ghost var j := store.bucket;
      ListedDistinct(candidates, j, WithPrefix(j, base + names.pre));
      ScanHoldsSiblings(names, j, base, candidates);
      var evictions := SelectEvictions(names, base, candidates, policy, now);
      SelectionPaths(names, j, base, policy, now, evictions);
      removed := EvictAll(evictions, f);
    }

    /** Sweeps every base: one full walk into groups, then group by group, in
        map order, at one clock reading. */
    method SweepOldFiles(now: Time, f: Faults) returns (removed: seq<string>)
      requires Lawful(names) && store.Valid()
      modifies this, store
      ensures store.Valid()
      ensures var paths := AllEvicted(names, old(store.bucket), policy, now);
              && Contents() == Evict(old(Contents()), paths, f)
              && forall p :: p in removed <==> p in paths && !f.remove(p)
    {
      var entries := store.ForEach();
      var groups := GroupByBase(names, entries);
      ghost var s := Contents();
      ghost var j := store.bucket;
      ListedDistinct(entries, j, j.Keys);
      removed := [];
      var todo := groups.Keys;
      ghost var done: set<string> := {};
      ghost var gone: set<string> := {};
      EvictNothing(s, f);
      hide Evict, Lists, EvictedPaths, AllEvicted;
      while todo != {}
        invariant todo + done == groups.Keys && todo !! done
        invariant store.Valid()
        invariant Keyed(j) && Lists(entries, j, j.Keys) && DistinctEntries(entries)
        invariant gone == EvictedOfBases(names, j, done, policy, now)
        invariant Contents() == Evict(s, gone, f)
        invariant forall p :: p in removed <==> p in gone && !f.remove(p)
        decreases todo
      {
        var base :| base in todo;
        todo := todo - {base};
        OfBaseDistinct(names, base, entries);
        WalkHoldsSiblings(names, j, base, entries);
        var evictions := SelectEvictions(names, base, groups[base], policy, now);
        SelectionPaths(names, j, base, policy, now, evictions);
        ghost var more := EvictedPaths(names, j, base, policy, now);
        BasesAreDisjoint(names, j, done, base, policy, now);
        EvictKeyed(s, gone, f);
        StillThere(names, j, base, policy, now, evictions, s, gone, f);
        var out := EvictAll(evictions, f);
        EvictComposes(s, gone, more, f);
        removed := removed + out;
        gone := gone + more;
        done := done + {base};
      }
      AllBases(names, j, entries, groups, policy, now);
    }
  }

  // ---------------------------------------------------------------------
  // Grouping a full walk by base
  // ---------------------------------------------------------------------

  /** The entries of one base, in walk order. */
  function OfBase(names: Scheme, base: string, es: seq<JournalEntry>): seq<JournalEntry> {
    if es == [] then []
    else
      var init := OfBase(names, base, es[..|es| - 1]);
      if IsSibling(names, base, es[|es| - 1].path) then init + [es[|es| - 1]] else init
  }

  method GroupByBase(names: Scheme, es: seq<JournalEntry>) returns (groups: map<string, seq<JournalEntry>>)
    ensures forall b :: b in groups <==> OfBase(names, b, es) != []
    ensures forall b :: b in groups ==> groups[b] == OfBase(names, b, es)
  {
    groups := map[];
    for i := 0 to |es|
      invariant forall b :: b in groups <==> OfBase(names, b, es[..i]) != []
      invariant forall b :: b in groups ==> groups[b] == OfBase(names, b, es[..i])
    {
      assert es[..i + 1][..i] == es[..i];
      match names.trim(es[i].path) {
        case Plain =>
        case Suffixed(base, _) =>
          groups := groups[base := (if base in groups then groups[base] else []) + [es[i]]];
      }
    }
    assert es[..|es|] == es;
  }

  lemma {:induction false} OfBaseMembers(names: Scheme, base: string, es: seq<JournalEntry>)
    ensures forall e :: e in OfBase(names, base, es) <==> e in es && IsSibling(names, base, e.path)
    ensures SiblingsAmong(names, base, OfBase(names, base, es)) == SiblingsAmong(names, base, es)
  {
    if es != [] {
      var init := es[..|es| - 1];
      OfBaseMembers(names, base, init);
      assert es == init + [es[|es| - 1]];
    }
  }

  lemma {:induction false} OfBaseDistinct(names: Scheme, base: string, es: seq<JournalEntry>)
    requires DistinctEntries(es)
    ensures DistinctEntries(OfBase(names, base, es))
  {
    if es != [] {
      var init := es[..|es| - 1];
      OfBaseDistinct(names, base, init);
      OfBaseMembers(names, base, init);
      var last := es[|es| - 1];
      var out := OfBase(names, base, init);
      forall i | 0 <= i < |out|
        ensures out[i].path != last.path
      {
        assert out[i] in init;
      }
    }
  }

  lemma WalkHoldsSiblings(names: Scheme, j: Bucket, base: string, es: seq<JournalEntry>)
    requires Keyed(j) && Lists(es, j, j.Keys)
    ensures SiblingsAmong(names, base, OfBase(names, base, es)) == Siblings(names, j, base)
  {
    OfBaseMembers(names, base, es);
    forall k | k in j
      ensures j[k] in es
    {
      assert k in Paths(es);
      var i :| 0 <= i < |es| && Paths(es)[i] == k;
      assert es[i] == j[k];
    }
  }

  /** What pruning a set of bases removes, each looked at on its own. */
  function EvictedOfBases(names: Scheme, j: Bucket, bases: set<string>, policy: RetentionPolicy, now: Time): set<string> {
    set k | k in j && IsOld(names, k) && names.trim(k).base in bases &&
            k in EvictedPaths(names, j, names.trim(k).base, policy, now)
  }

  lemma BasesAreDisjoint(names: Scheme, j: Bucket, done: set<string>, base: string, policy: RetentionPolicy, now: Time)
    requires base !in done
    ensures EvictedOfBases(names, j, done, policy, now) !! EvictedPaths(names, j, base, policy, now)
    ensures EvictedOfBases(names, j, done + {base}, policy, now) ==
            EvictedOfBases(names, j, done, policy, now) + EvictedPaths(names, j, base, policy, now)
  {
    hide Evicted, Siblings;
  }

  lemma StillThere(names: Scheme, j: Bucket, base: string, policy: RetentionPolicy, now: Time, evs: seq<Eviction>,
                   s: Stores, gone: set<string>, f: Faults)
    requires s.journal == j && gone !! EvictedPaths(names, j, base, policy, now)
    requires (set e | e in EntriesOf(evs) :: e.path) == EvictedPaths(names, j, base, policy, now)
    requires forall e :: e in EntriesOf(evs) ==> e.path in j && j[e.path] == e
    ensures forall e :: e in EntriesOf(evs) ==>
              e.path in Evict(s, gone, f).journal && Evict(s, gone, f).journal[e.path] == e
  {
    hide EvictedPaths;
    forall e | e in EntriesOf(evs)
      ensures e.path !in gone
    {
      assert e.path in (set d | d in EntriesOf(evs) :: d.path);
    }
  }

  lemma AllBases(names: Scheme, j: Bucket, es: seq<JournalEntry>, groups: map<string, seq<JournalEntry>>,
                 policy: RetentionPolicy, now: Time)
    requires Keyed(j) && Lists(es, j, j.Keys)
    requires forall b :: b in groups <==> OfBase(names, b, es) != []
    ensures EvictedOfBases(names, j, groups.Keys, policy, now) == AllEvicted(names, j, policy, now)
  {
    hide EvictedPaths;
    forall k | k in j && IsOld(names, k)
      ensures names.trim(k).base in groups
    {
      var base := names.trim(k).base;
      OfBaseMembers(names, base, es);
      assert k in Paths(es);
      var i :| 0 <= i < |es| && Paths(es)[i] == k;
      assert es[i] in SiblingsAmong(names, base, es);
    }
  }

  lemma ListedDistinct(es: seq<JournalEntry>, j: Bucket, keys: set<string>)
    requires Lists(es, j, keys)
    ensures DistinctEntries(es)
  {
    forall i, k | 0 <= i < k < |es|
      ensures es[i].path != es[k].path
    {
      assert Less(Paths(es)[i], Paths(es)[k]);
      Irreflexive(es[i].path);
    }
  }

  /** The bounded scan holds every direct sibling of the base. */
  lemma ScanHoldsSiblings(names: Scheme, j: Bucket, base: string, es: seq<JournalEntry>)
    requires Lawful(names) && Keyed(j) && Lists(es, j, WithPrefix(j, base + names.pre))
    ensures SiblingsAmong(names, base, es) == Siblings(names, j, base)
  {
    forall k | k in j && IsSibling(names, base, k)
      ensures j[k] in es
    {
      assert names.format(base, names.trim(k).n) == k;
      assert k in Paths(es);
      var i :| 0 <= i < |es| && Paths(es)[i] == k;
      assert es[i] == j[k];
    }
    forall e | e in es
      ensures e.path in j && j[e.path] == e
    {
    }
  }

  lemma SelectionPaths(names: Scheme, j: Bucket, base: string, policy: RetentionPolicy, now: Time, evs: seq<Eviction>)
    requires Keyed(j) && EntriesOf(evs) == Evicted(names, Siblings(names, j, base), policy, now)
    ensures (set e | e in EntriesOf(evs) :: e.path) == EvictedPaths(names, j, base, policy, now)
    ensures forall e :: e in EntriesOf(evs) ==> e.path in j && j[e.path] == e
  {
    hide Expired, Surplus;
  }

  // ---------------------------------------------------------------------
  // The bounded scans agree with the full walk
  // ---------------------------------------------------------------------

  /** Pruning bases one after another, each time from the journal as it is. */
  function PruneEach(names: Scheme, s: Stores, bases: seq<string>, policy: RetentionPolicy, now: Time): Stores {
    if bases == [] then s
    else
      var t := PruneEach(names, s, bases[..|bases| - 1], policy, now);
      Evict(t, EvictedPaths(names, t.journal, bases[|bases| - 1], policy, now), NO_FAULTS)
  }

  /** Pruning some bases leaves the decision for another base as it was, and
      leaves nothing to do for a base already pruned. */
  lemma PrunedJournal(names: Scheme, s: Stores, done: set<string>, base: string, policy: RetentionPolicy, now: Time)
    requires Keyed(s.journal)
    ensures var t := Evict(s, EvictedOfBases(names, s.journal, done, policy, now), NO_FAULTS);
            EvictedPaths(names, t.journal, base, policy, now) ==
            if base in done then {} else EvictedPaths(names, s.journal, base, policy, now)
  {
    var j := s.journal;
    var gone := EvictedOfBases(names, j, done, policy, now);
    var t := Evict(s, gone, NO_FAULTS);
    assert t.journal == j - gone by { assert (set p | p in gone && !NO_FAULTS.remove(p) && !NO_FAULTS.delete(p)) == gone; }
    hide Evict;
    if base in done {
      var sibs := Siblings(names, j, base);
      SiblingsLeft(names, j, gone, base, EvictedPaths(names, j, base, policy, now), Evicted(names, sibs, policy, now));
      PruneIsIdempotent(names, sibs, policy, now);
    } else {
      SiblingsLeft(names, j, gone, base, {}, {});
      assert Siblings(names, t.journal, base) == Siblings(names, j, base);
    }
  }

  /** Removing paths of a base removes their entries from its siblings. */
  lemma SiblingsLeft(names: Scheme, j: Bucket, gone: set<string>, base: string, paths: set<string>, out: set<JournalEntry>)
    requires Keyed(j)
    requires forall k :: k in j && IsSibling(names, base, k) ==> (k in gone <==> k in paths)
    requires forall k :: k in j && IsSibling(names, base, k) ==> (k in paths <==> j[k] in out)
    ensures Siblings(names, j - gone, base) == Siblings(names, j, base) - out
  {
  }

  /** The distinct bases in a list. */
  function Distinct(bases: seq<string>): set<string> {
    set i | 0 <= i < |bases| :: bases[i]
  }

  lemma DistinctSnoc(bases: seq<string>)
    requires bases != []
    ensures Distinct(bases) == Distinct(bases[..|bases| - 1]) + {bases[|bases| - 1]}
  {
    var init, base := bases[..|bases| - 1], bases[|bases| - 1];
    assert forall i :: 0 <= i < |bases| ==> bases[i] == if i < |init| then init[i] else base;
  }

  lemma {:induction false} PruneEachIs(names: Scheme, s: Stores, bases: seq<string>, policy: RetentionPolicy, now: Time)
    requires Keyed(s.journal)
    ensures PruneEach(names, s, bases, policy, now) ==
            Evict(s, EvictedOfBases(names, s.journal, Distinct(bases), policy, now), NO_FAULTS)
    decreases |bases|
  {
    if bases == [] {
      assert EvictedOfBases(names, s.journal, Distinct(bases), policy, now) == {};
      EvictNothing(s, NO_FAULTS);
    } else {
      hide Evict, EvictedPaths, EvictedOfBases, Distinct;
      var init, base := bases[..|bases| - 1], bases[|bases| - 1];
      var gone := EvictedOfBases(names, s.journal, Distinct(init), policy, now);
      PruneEachIs(names, s, init, policy, now);
      PrunedJournal(names, s, Distinct(init), base, policy, now);
      DistinctSnoc(bases);
      if base in Distinct(init) {
        assert Distinct(init) + {base} == Distinct(init);
        EvictNothing(Evict(s, gone, NO_FAULTS), NO_FAULTS);
      } else {
        BasesAreDisjoint(names, s.journal, Distinct(init), base, policy, now);
        EvictComposes(s, gone, EvictedPaths(names, s.journal, base, policy, now), NO_FAULTS);
      }
    }
  }

  lemma EveryBase(names: Scheme, j: Bucket, done: set<string>, policy: RetentionPolicy, now: Time)
    requires forall k :: k in j && IsOld(names, k) ==> names.trim(k).base in done
    ensures EvictedOfBases(names, j, done, policy, now) == AllEvicted(names, j, policy, now)
  {
    hide EvictedPaths;
  }

  /** At one clock reading and with no failures, pruning base by base, in any
      order and with any repetition, removes exactly what a sweep removes once
      every base that has siblings is among the bases. */
  lemma PrunesInAnyOrder(names: Scheme, s: Stores, bases: seq<string>, policy: RetentionPolicy, now: Time)
    requires Keyed(s.journal)
    ensures PruneEach(names, s, bases, policy, now) ==
            Evict(s, EvictedOfBases(names, s.journal, Distinct(bases), policy, now), NO_FAULTS)
    ensures (forall k :: k in s.journal && IsOld(names, k) ==> names.trim(k).base in Distinct(bases)) ==>
              PruneEach(names, s, bases, policy, now) == Evict(s, AllEvicted(names, s.journal, policy, now), NO_FAULTS)
  {
    PruneEachIs(names, s, bases, policy, now);
    hide Evict, PruneEach, EvictedOfBases, AllEvicted, Distinct;
    if forall k :: k in s.journal && IsOld(names, k) ==> names.trim(k).base in Distinct(bases) {
      EveryBase(names, s.journal, Distinct(bases), policy, now);
    }
  }
}
