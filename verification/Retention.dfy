/**
 * Retention of conflict losers (homedrive/internal/store/prune.go): which of a
 * base's siblings are expired or surplus, and what that selection guarantees.
 */
module Retention {
  import opened Naming
  import opened Journal
  import opened World

  /** A count of 0 or less keeps any number, an age of 0 or less any age. */
  datatype RetentionPolicy = RetentionPolicy(maxPerFile: int, maxAge: int)

  datatype Reason = MaxAge | MaxPerFile
  datatype Eviction = Eviction(entry: JournalEntry, reason: Reason)

  predicate Expired(policy: RetentionPolicy, now: Time, e: JournalEntry) {
    policy.maxAge > 0 && Since(now, e.lastSyncedAt) > policy.maxAge
  }

  /** The number a sibling's name carries. */
  function NumberOf(names: Scheme, e: JournalEntry): nat {
    match names.trim(e.path)
    case Plain => 0
    case Suffixed(_, n) => n
  }

  predicate IsSibling(names: Scheme, base: string, path: string) {
    names.trim(path).Suffixed? && names.trim(path).base == base
  }

  /** Later stamp first; of two equal stamps the higher number first. */
  predicate Newer(names: Scheme, a: JournalEntry, b: JournalEntry) {
    a.lastSyncedAt > b.lastSyncedAt ||
    (a.lastSyncedAt == b.lastSyncedAt && NumberOf(names, a) > NumberOf(names, b))
  }

  function NewerThan(names: Scheme, sibs: set<JournalEntry>, e: JournalEntry): set<JournalEntry> {
    set f | f in sibs && Newer(names, f, e)
  }

  /** How many siblings are newer. */
  function Rank(names: Scheme, sibs: set<JournalEntry>, e: JournalEntry): nat {
    |NewerThan(names, sibs, e)|
  }

  predicate Surplus(names: Scheme, sibs: set<JournalEntry>, policy: RetentionPolicy, e: JournalEntry) {
    policy.maxPerFile > 0 && Rank(names, sibs, e) >= policy.maxPerFile
  }

  /** What retention removes from a set of siblings. */
  function Evicted(names: Scheme, sibs: set<JournalEntry>, policy: RetentionPolicy, now: Time): set<JournalEntry> {
    set e | e in sibs && (Expired(policy, now, e) || Surplus(names, sibs, policy, e))
  }

  /** Entries of one base, one per path. */
  ghost predicate SiblingSet(names: Scheme, base: string, sibs: set<JournalEntry>) {
    && (forall e :: e in sibs ==> IsSibling(names, base, e.path))
    && (forall e, f :: e in sibs && f in sibs && e.path == f.path ==> e == f)
  }

  /** The order of siblings is strict and total. */
  lemma NewerTotal(names: Scheme, base: string, sibs: set<JournalEntry>, a: JournalEntry, b: JournalEntry)
    requires Lawful(names) && SiblingSet(names, base, sibs) && a in sibs && b in sibs
    ensures a == b || Newer(names, a, b) || Newer(names, b, a)
  {
    if NumberOf(names, a) == NumberOf(names, b) {
      assert names.format(base, NumberOf(names, a)) == a.path;
      assert names.format(base, NumberOf(names, b)) == b.path;
    }
  }

  lemma NotNewerTransitive(names: Scheme, f: JournalEntry, best: JournalEntry, e: JournalEntry)
    requires !Newer(names, f, best) && !Newer(names, best, e)
    ensures !Newer(names, f, e)
  {
  }

  lemma {:induction false} NewestExists(names: Scheme, pool: set<JournalEntry>) returns (e: JournalEntry)
    requires pool != {}
    ensures e in pool && forall f :: f in pool ==> !Newer(names, f, e)
    decreases |pool|
  {
    e :| e in pool;
    if pool != {e} {
      var best := NewestExists(names, pool - {e});
      if Newer(names, best, e) {
        e := best;
      } else {
        forall f | f in pool
          ensures !Newer(names, f, e)
        {
          if f != e { NotNewerTransitive(names, f, best, e); }
        }
      }
    }
  }

  /** Every sibling at the position that is its rank. */
  ghost predicate Ranked(names: Scheme, sibs: set<JournalEntry>, sorted: seq<JournalEntry>) {
    forall i :: 0 <= i < |sorted| ==> sorted[i] in sibs && Rank(names, sibs, sorted[i]) == i
  }

  /** sorted holds the done siblings, each newer than all still in the pool. */
  ghost predicate SortedSoFar(names: Scheme, sibs: set<JournalEntry>, sorted: seq<JournalEntry>, pool: set<JournalEntry>) {
    && pool <= sibs && |sorted| == |sibs - pool| && Ranked(names, sibs, sorted)
    && (forall d, p :: d in sibs - pool && p in pool ==> Newer(names, d, p))
    && (forall e :: e in sibs - pool ==> e in sorted)
  }

  lemma RankOfNext(names: Scheme, sibs: set<JournalEntry>, pool: set<JournalEntry>, e: JournalEntry)
    requires pool <= sibs && e in pool && forall f :: f in pool ==> !Newer(names, f, e)
    requires forall d, p :: d in sibs - pool && p in pool ==> Newer(names, d, p)
    ensures Rank(names, sibs, e) == |sibs - pool|
  {
    hide Newer;
    assert NewerThan(names, sibs, e) == sibs - pool;
  }

  lemma StillNewer(names: Scheme, base: string, sibs: set<JournalEntry>, pool: set<JournalEntry>, e: JournalEntry)
    requires Lawful(names) && SiblingSet(names, base, sibs)
    requires pool <= sibs && e in pool && forall f :: f in pool ==> !Newer(names, f, e)
    requires forall d, p :: d in sibs - pool && p in pool ==> Newer(names, d, p)
    ensures forall d, p :: d in sibs - (pool - {e}) && p in pool - {e} ==> Newer(names, d, p)
  {
    hide Newer;
    forall p | p in pool - {e}
      ensures Newer(names, e, p)
    {
      NewerTotal(names, base, sibs, e, p);
    }
  }

  lemma SortStep(names: Scheme, base: string, sibs: set<JournalEntry>, sorted: seq<JournalEntry>, pool: set<JournalEntry>, e: JournalEntry)
    requires Lawful(names) && SiblingSet(names, base, sibs) && SortedSoFar(names, sibs, sorted, pool)
    requires e in pool && forall f :: f in pool ==> !Newer(names, f, e)
    ensures SortedSoFar(names, sibs, sorted + [e], pool - {e})
  {
    hide Newer, Rank, Lawful, SiblingSet;
    RankOfNext(names, sibs, pool, e);
    StillNewer(names, base, sibs, pool, e);
    RankedSnoc(names, sibs, sorted, e);
    hide Ranked;
    assert sibs - (pool - {e}) == (sibs - pool) + {e};
    forall d | d in sibs - (pool - {e})
      ensures d in sorted + [e]
    {
      assert d == e || d in sorted;
    }
  }

  lemma RankedSnoc(names: Scheme, sibs: set<JournalEntry>, sorted: seq<JournalEntry>, e: JournalEntry)
    requires Ranked(names, sibs, sorted) && e in sibs && Rank(names, sibs, e) == |sorted|
    ensures Ranked(names, sibs, sorted + [e])
  {
    hide Rank;
  }

  /** Sorting by recency. */
  method SortNewest(names: Scheme, ghost base: string, sibs: set<JournalEntry>) returns (sorted: seq<JournalEntry>)
    requires Lawful(names) && SiblingSet(names, base, sibs)
    ensures |sorted| == |sibs| && Ranked(names, sibs, sorted)
    ensures forall e :: e in sibs ==> e in sorted
  {
    sorted := [];
    var pool := sibs;
    assert SortedSoFar(names, sibs, sorted, pool);
    hide SortedSoFar, Lawful, SiblingSet, Newer;
    while pool != {}
      invariant SortedSoFar(names, sibs, sorted, pool)
      decreases pool
    {
      ghost var newest := NewestExists(names, pool);
      var e :| e in pool && forall f :: f in pool ==> !Newer(names, f, e);
      SortStep(names, base, sibs, sorted, pool, e);
      sorted := sorted + [e];
      pool := pool - {e};
    }
    SortDone(names, sibs, sorted);
  }

  lemma SortDone(names: Scheme, sibs: set<JournalEntry>, sorted: seq<JournalEntry>)
    requires SortedSoFar(names, sibs, sorted, {})
    ensures |sorted| == |sibs| && Ranked(names, sibs, sorted) && forall e :: e in sibs ==> e in sorted
  {
    assert sibs - {} == sibs;
  }

  function EntriesOf(evs: seq<Eviction>): set<JournalEntry> {
    set i | 0 <= i < |evs| :: evs[i].entry
  }

  lemma EntriesSnoc(evs: seq<Eviction>, ev: Eviction)
    ensures EntriesOf(evs + [ev]) == EntriesOf(evs) + {ev.entry}
  {
    var more := evs + [ev];
    forall e
      ensures e in EntriesOf(more) <==> e in EntriesOf(evs) + {ev.entry}
    {
      if e in EntriesOf(evs) {
        var i :| 0 <= i < |evs| && evs[i].entry == e;
        assert more[i].entry == e;
      }
      assert more[|evs|].entry == ev.entry;
    }
  }

  /** The evicted among the k newest. */
  function EvictedBelow(names: Scheme, sibs: set<JournalEntry>, policy: RetentionPolicy, now: Time, k: nat): set<JournalEntry> {
    set e | e in Evicted(names, sibs, policy, now) && Rank(names, sibs, e) < k
  }

  lemma EvictedStep(names: Scheme, sibs: set<JournalEntry>, policy: RetentionPolicy, now: Time, sorted: seq<JournalEntry>, k: nat)
    requires Ranked(names, sibs, sorted) && k < |sorted| && forall e :: e in sibs ==> e in sorted
    ensures EvictedBelow(names, sibs, policy, now, k + 1) ==
            EvictedBelow(names, sibs, policy, now, k) +
            (if Expired(policy, now, sorted[k]) || (policy.maxPerFile > 0 && k >= policy.maxPerFile) then {sorted[k]} else {})
  {
    hide Rank, Expired;
    forall e | e in sibs && Rank(names, sibs, e) == k
      ensures e == sorted[k]
    {
      var i :| 0 <= i < |sorted| && sorted[i] == e;
    }
    assert sorted[k] in sibs && Rank(names, sibs, sorted[k]) == k;
  }

  lemma EvictedAll(names: Scheme, sibs: set<JournalEntry>, policy: RetentionPolicy, now: Time, sorted: seq<JournalEntry>)
    requires Ranked(names, sibs, sorted) && forall e :: e in sibs ==> e in sorted
    ensures EvictedBelow(names, sibs, policy, now, |sorted|) == Evicted(names, sibs, policy, now)
    ensures EvictedBelow(names, sibs, policy, now, 0) == {}
  {
    hide Rank, Expired;
    forall e | e in sibs
      ensures Rank(names, sibs, e) < |sorted|
    {
      var i :| 0 <= i < |sorted| && sorted[i] == e;
    }
  }

  /** The siblings of base in a raw scan, which may also hold entries of other
      bases and of nested chains. */
  function SiblingsAmong(names: Scheme, base: string, candidates: seq<JournalEntry>): set<JournalEntry> {
    set e | e in candidates && IsSibling(names, base, e.path)
  }

  predicate DistinctEntries(es: seq<JournalEntry>) {
    forall i, j :: 0 <= i < j < |es| ==> es[i].path != es[j].path
  }

  /** The eviction decision, with the rule that took each entry. */
  method SelectEvictions(names: Scheme, base: string, candidates: seq<JournalEntry>, policy: RetentionPolicy, now: Time)
    returns (evictions: seq<Eviction>)
    requires Lawful(names) && DistinctEntries(candidates)
    ensures EntriesOf(evictions) == Evicted(names, SiblingsAmong(names, base, candidates), policy, now)
    ensures forall i :: 0 <= i < |evictions| ==>
              (evictions[i].reason == MaxAge <==> Expired(policy, now, evictions[i].entry))
    ensures forall i, j :: 0 <= i < j < |evictions| ==> evictions[i].entry != evictions[j].entry
  {
    var siblings := CollectSiblings(names, base, candidates);
    assert SiblingSet(names, base, siblings) by { hide Lawful; }
    hide *;
    var sorted := SortNewest(names, base, siblings);
    evictions := MarkEvictions(names, siblings, sorted, policy, now);
  }

  /** Goes down the order of recency: an expired sibling is evicted for its
      age, any other from position maxPerFile on for the count. */
  method MarkEvictions(names: Scheme, ghost sibs: set<JournalEntry>, sorted: seq<JournalEntry>, policy: RetentionPolicy, now: Time)
    returns (evictions: seq<Eviction>)
    requires Ranked(names, sibs, sorted) && forall e :: e in sibs ==> e in sorted
    ensures EntriesOf(evictions) == Evicted(names, sibs, policy, now)
    ensures forall i :: 0 <= i < |evictions| ==>
              (evictions[i].reason == MaxAge <==> Expired(policy, now, evictions[i].entry))
    ensures forall i, j :: 0 <= i < j < |evictions| ==> evictions[i].entry != evictions[j].entry
  {
    evictions := [];
    EvictedAll(names, sibs, policy, now, sorted);
    NoEntries();
    hide *;
    for i := 0 to |sorted|
      invariant EntriesOf(evictions) == EvictedBelow(names, sibs, policy, now, i)
      invariant forall k :: 0 <= k < |evictions| ==>
                  Rank(names, sibs, evictions[k].entry) < i &&
                  (evictions[k].reason == MaxAge <==> Expired(policy, now, evictions[k].entry))
      invariant forall k, l :: 0 <= k < l < |evictions| ==> evictions[k].entry != evictions[l].entry
    {
      var e := sorted[i];
      EvictedStep(names, sibs, policy, now, sorted, i);
      RankedAt(names, sibs, sorted, i);
      if Expired(policy, now, e) || (policy.maxPerFile > 0 && i >= policy.maxPerFile) {
        var ev := Eviction(e, if Expired(policy, now, e) then MaxAge else MaxPerFile);
        EntriesSnoc(evictions, ev);
        evictions := evictions + [ev];
      }
    }
  }

  lemma RankedAt(names: Scheme, sibs: set<JournalEntry>, sorted: seq<JournalEntry>, i: nat)
    requires Ranked(names, sibs, sorted) && i < |sorted|
    ensures Rank(names, sibs, sorted[i]) == i
  {
  }

  method CollectSiblings(names: Scheme, base: string, candidates: seq<JournalEntry>) returns (siblings: set<JournalEntry>)
    ensures siblings == SiblingsAmong(names, base, candidates)
  {
    siblings := {};
    for i := 0 to |candidates|
      invariant siblings == SiblingsAmong(names, base, candidates[..i])
    {
      assert candidates[..i + 1] == candidates[..i] + [candidates[i]];
      if IsSibling(names, base, candidates[i].path) {
        siblings := siblings + {candidates[i]};
      }
    }
    assert candidates[..|candidates|] == candidates;
  }

  lemma NoEntries()
    ensures EntriesOf([]) == {}
  {
  }

  // ---------------------------------------------------------------------
  // The selection is canonical
  // ---------------------------------------------------------------------

  function Unexpired(policy: RetentionPolicy, now: Time, sibs: set<JournalEntry>): set<JournalEntry> {
    set e | e in sibs && !Expired(policy, now, e)
  }

  /** How many siblings survive. */
  function Kept(policy: RetentionPolicy, now: Time, sibs: set<JournalEntry>): nat {
    var young := |Unexpired(policy, now, sibs)|;
    if 0 < policy.maxPerFile < young then policy.maxPerFile else young
  }

  /** An unexpired sibling has only unexpired ones before it, an expired one
      has all unexpired ones before it. */
  lemma AgeIsARankBound(names: Scheme, base: string, sibs: set<JournalEntry>, policy: RetentionPolicy, now: Time, e: JournalEntry)
    requires Lawful(names) && SiblingSet(names, base, sibs) && e in sibs
    ensures Expired(policy, now, e) <==> Rank(names, sibs, e) >= |Unexpired(policy, now, sibs)|
  {
    var young := Unexpired(policy, now, sibs);
    if Expired(policy, now, e) {
      assert young <= NewerThan(names, sibs, e);
      SubsetSize(young, NewerThan(names, sibs, e));
    } else {
      assert NewerThan(names, sibs, e) <= young && e in young && e !in NewerThan(names, sibs, e);
      SubsetSize(NewerThan(names, sibs, e), young);
    }
  }

  /** The survivors are the newest ones: the prefix, of the length allowed by
      count and age, of the order by stamp and number. Input order is no part
      of it. */
  lemma SurvivorsAreNewest(names: Scheme, base: string, sibs: set<JournalEntry>, policy: RetentionPolicy, now: Time, e: JournalEntry)
    requires Lawful(names) && SiblingSet(names, base, sibs) && e in sibs
    ensures e !in Evicted(names, sibs, policy, now) <==> Rank(names, sibs, e) < Kept(policy, now, sibs)
  {
    AgeIsARankBound(names, base, sibs, policy, now, e);
  }

  function RankedBelow(names: Scheme, sibs: set<JournalEntry>, k: nat): set<JournalEntry> {
    set e | e in sibs && Rank(names, sibs, e) < k
  }

  /** Ranks are 0, 1, 2, ..: for every k no larger than the set, k siblings
      rank below k. */
  lemma {:induction false} RanksAreDense(names: Scheme, base: string, sibs: set<JournalEntry>, k: nat)
    requires Lawful(names) && SiblingSet(names, base, sibs) && k <= |sibs|
    ensures |RankedBelow(names, sibs, k)| == k
    decreases k
  {
    if k == 0 {
      assert RankedBelow(names, sibs, k) == {};
    } else {
      hide *;
      RanksAreDense(names, base, sibs, k - 1);
      var below := RankedBelow(names, sibs, k - 1);
      BelowIsPart(names, sibs, k - 1);
      SomeLeft(below, sibs);
      var next := NewestExists(names, sibs - below);
      NextRank(names, base, sibs, below, k - 1, next);
      NextJoins(names, base, sibs, k - 1, next);
    }
  }

  lemma SomeLeft<T>(a: set<T>, b: set<T>)
    requires a <= b && |a| < |b|
    ensures b - a != {}
  {
    assert b == a + (b - a);
  }

  lemma BelowIsPart(names: Scheme, sibs: set<JournalEntry>, k: nat)
    ensures RankedBelow(names, sibs, k) <= sibs
  {
  }

  lemma NextJoins(names: Scheme, base: string, sibs: set<JournalEntry>, k: nat, next: JournalEntry)
    requires Lawful(names) && SiblingSet(names, base, sibs) && next in sibs && Rank(names, sibs, next) == k
    ensures |RankedBelow(names, sibs, k + 1)| == |RankedBelow(names, sibs, k)| + 1
  {
    hide Rank;
    forall e | e in sibs && Rank(names, sibs, e) == k
      ensures e == next
    {
      RankInjective(names, base, sibs, e, next);
    }
    assert RankedBelow(names, sibs, k + 1) == RankedBelow(names, sibs, k) + {next};
  }

  lemma RankInjective(names: Scheme, base: string, sibs: set<JournalEntry>, a: JournalEntry, b: JournalEntry)
    requires Lawful(names) && SiblingSet(names, base, sibs) && a in sibs && b in sibs
    ensures Newer(names, a, b) ==> Rank(names, sibs, a) < Rank(names, sibs, b)
    ensures Rank(names, sibs, a) == Rank(names, sibs, b) ==> a == b
  {
    NewerTotal(names, base, sibs, a, b);
    if Newer(names, a, b) {
      assert NewerThan(names, sibs, a) < NewerThan(names, sibs, b) by { assert a in NewerThan(names, sibs, b); }
      SubsetSize(NewerThan(names, sibs, a), NewerThan(names, sibs, b));
    }
    if Newer(names, b, a) {
      assert NewerThan(names, sibs, b) < NewerThan(names, sibs, a) by { assert b in NewerThan(names, sibs, a); }
      SubsetSize(NewerThan(names, sibs, b), NewerThan(names, sibs, a));
    }
  }

  /** The newest sibling outside the k lowest ranks has rank k. */
  lemma NextRank(names: Scheme, base: string, sibs: set<JournalEntry>, below: set<JournalEntry>, k: nat, next: JournalEntry)
    requires Lawful(names) && SiblingSet(names, base, sibs)
    requires below == RankedBelow(names, sibs, k) && |below| == k
    requires next in sibs - below && forall f :: f in sibs - below ==> !Newer(names, f, next)
    ensures Rank(names, sibs, next) == k
  {
    forall d | d in below
      ensures Newer(names, d, next)
    {
      NewerTotal(names, base, sibs, d, next);
      RankInjective(names, base, sibs, next, d);
    }
    hide Newer, Rank;
    assert NewerThan(names, sibs, next) == below;
    assert Rank(names, sibs, next) == |NewerThan(names, sibs, next)| by { RankCounts(names, sibs, next); }
  }

  lemma RankCounts(names: Scheme, sibs: set<JournalEntry>, e: JournalEntry)
    ensures Rank(names, sibs, e) == |NewerThan(names, sibs, e)|
  {
  }

  /** Exactly Kept siblings survive. */
  lemma SurvivorCount(names: Scheme, base: string, sibs: set<JournalEntry>, policy: RetentionPolicy, now: Time)
    requires Lawful(names) && SiblingSet(names, base, sibs)
    ensures |sibs - Evicted(names, sibs, policy, now)| == Kept(policy, now, sibs)
  {
    SubsetSize(Unexpired(policy, now, sibs), sibs);
    RanksAreDense(names, base, sibs, Kept(policy, now, sibs));
    forall e | e in sibs
      ensures e !in Evicted(names, sibs, policy, now) <==> Rank(names, sibs, e) < Kept(policy, now, sibs)
    {
      SurvivorsAreNewest(names, base, sibs, policy, now, e);
    }
    hide Rank, Kept, Evicted;
    assert sibs - Evicted(names, sibs, policy, now) == RankedBelow(names, sibs, Kept(policy, now, sibs));
  }

  /** A second prune at the same clock removes nothing. */
  lemma PruneIsIdempotent(names: Scheme, sibs: set<JournalEntry>, policy: RetentionPolicy, now: Time)
    ensures Evicted(names, sibs - Evicted(names, sibs, policy, now), policy, now) == {}
  {
    var left := sibs - Evicted(names, sibs, policy, now);
    forall e | e in left
      ensures Rank(names, left, e) <= Rank(names, sibs, e)
    {
      SubsetSize(NewerThan(names, left, e), NewerThan(names, sibs, e));
    }
  }

  /** A loser stamped later than all others survives the prune that follows
      it, exactly when it has not expired. */
  lemma JustRecordedSurvives(names: Scheme, sibs: set<JournalEntry>, policy: RetentionPolicy, now: Time, e: JournalEntry)
    requires e in sibs && forall f :: f in sibs && f != e ==> f.lastSyncedAt < e.lastSyncedAt
    ensures e !in Evicted(names, sibs, policy, now) <==> !Expired(policy, now, e)
  {
    assert NewerThan(names, sibs, e) == {};
  }

  /** Which rule removes a sibling, said by its stamp and number: it is older
      than the age limit, unless the limit is the longest duration there is, or
      at least as many siblings as are kept were stamped later, or at the same
      time with a higher number. */
  lemma EvictedIff(names: Scheme, base: string, sibs: set<JournalEntry>, policy: RetentionPolicy, now: Time, e: JournalEntry)
    requires SiblingSet(names, base, sibs) && e in sibs && policy.maxAge <= MAX_DURATION
    ensures var n := names.trim(e.path).n;
            var ahead := set f | f in sibs && (f.lastSyncedAt > e.lastSyncedAt || (f.lastSyncedAt == e.lastSyncedAt && names.trim(f.path).n > n));
            e in Evicted(names, sibs, policy, now) <==>
              || (0 < policy.maxAge < MAX_DURATION && now - e.lastSyncedAt > policy.maxAge)
              || 0 < policy.maxPerFile <= |ahead|
  {
    var n := names.trim(e.path).n;
    var ahead := set f | f in sibs && (f.lastSyncedAt > e.lastSyncedAt || (f.lastSyncedAt == e.lastSyncedAt && names.trim(f.path).n > n));
    assert NewerThan(names, sibs, e) == ahead;
  }
}
