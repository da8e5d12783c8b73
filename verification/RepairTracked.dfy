/**
 * Chain repair and the invariant a bisync pass needs, that every suffix-named
 * file is journaled. A link's one journal entry goes with the first copy that
 * is renamed, so the invariant survives when every link is on one side only,
 * and when the two sides hold the same paths.
 */
module RepairTracked {
  import opened Keys
  import opened Naming
  import opened Journal
  import opened World
  import opened Repair
  import opened RepairProofs

  function Other(side: Side): Side { if side == Local then Remote else Local }

  /** Every suffix-named file of both trees is journaled. */
  ghost predicate AllTracked(names: Scheme, s: RepairState) {
    Journaled(names, s.local, s.remote, s.journal)
  }

  /** One repair keeps every file journaled exactly when the link has no copy
      on the other side: the copy is left without an entry. */
  lemma OneRepairKeepsTracked(names: Scheme, s: RepairState, c: Candidate, t: string, u: RepairState)
    requires Lawful(names) && AllTracked(names, s) && Genuine(names, c) && LinkMoved(s, c, t, u)
    requires t != "" && t != c.path && IsOld(names, t)
    ensures AllTracked(names, u) <==> c.path !in TreeOf(s, Other(c.side))
  {
    GenuineIsOld(names, c);
    assert c.path in s.journal;
    assert c.path !in u.journal && t in u.journal;
    assert forall p :: p in s.journal && p != c.path ==> p in u.journal;
    assert TreeOf(u, Other(c.side)) == TreeOf(s, Other(c.side));
  }

  /** A failed write of its entry leaves any journaled link without one. */
  lemma LostEntryUntracks(names: Scheme, s: RepairState, c: Candidate, t: string, u: RepairState)
    requires Lawful(names) && AllTracked(names, s) && Genuine(names, c) && c.path in TreeOf(s, c.side)
    requires Repaired(s, c, t, PutFails, u) && IsOld(names, t)
    ensures AllTracked(names, u) <==> t in s.journal && t != c.path && t != "" && c.path !in TreeOf(s, Other(c.side))
  {
    GenuineIsOld(names, c);
    assert c.path in s.journal && t in TreeOf(u, c.side);
    assert u.journal == s.journal - {c.path};
    assert TreeOf(u, Other(c.side)) == TreeOf(s, Other(c.side));
  }

  // ---------------------------------------------------------------------
  // A whole pass, base by base
  // ---------------------------------------------------------------------

  function Mirror(c: Candidate): Candidate { c.(side := Other(c.side)) }

  /** No link of x has a copy on the other side. */
  ghost predicate NoCopies(s: RepairState, cs: seq<Candidate>, x: string) {
    forall c :: c in Members(cs) && c.base == x ==> c.path !in TreeOf(s, Other(c.side))
  }

  /** Both sides hold the same links and the same flat siblings of x, and none
      of these links fails. */
  ghost predicate Alike(names: Scheme, s: RepairState, cs: seq<Candidate>, fate: Candidate -> Fate, x: string) {
    && TakenNumbers(names, x, s.localSet) == TakenNumbers(names, x, s.remoteSet)
    && forall c :: c in Members(cs) && c.base == x ==> Mirror(c) in Members(cs) && fate(c).Moves?
  }

  /** Every base with links is of one kind or the other, and every entry that
      has to move can be written. */
  ghost predicate QueueSafe(names: Scheme, s: RepairState, cs: seq<Candidate>, fate: Candidate -> Fate) {
    forall c :: c in Members(cs) ==>
      !fate(c).PutFails? && (NoCopies(s, cs, c.base) || Alike(names, s, cs, fate, c.base))
  }

  lemma StepFlat(names: Scheme, b: string, present: set<string>, t: string)
    requires Lawful(names) && NextFlat(names, b, present, t)
    ensures IsOld(names, t) && t != "" && Flat(names, t)
  {
    assert names.trim(t).Suffixed?;
  }

  lemma TailInOrder(cs: seq<Candidate>, n: nat)
    requires InOrder(cs) && n <= |cs|
    ensures InOrder(cs[n..])
  {
    hide Earlier;
    forall i, j | 0 <= i < j < |cs[n..]|
      ensures !Earlier(cs[n..][j], cs[n..][i])
    {
      assert cs[n..][i] == cs[i + n] && cs[n..][j] == cs[j + n];
    }
  }

  /** Numbers of a base none of whose links moves stay what they are. */
  lemma OtherNumbers(names: Scheme, present: set<string>, c: Candidate, t: string, y: string)
    requires Lawful(names) && Genuine(names, c) && NextFlat(names, c.base, present, t)
    requires y != "" && !IsOld(names, y)
    ensures TakenNumbers(names, y, present - {c.path} + {t}) ==
            TakenNumbers(names, y, present) + if y == c.base then {names.trim(t).n} else {}
  {
    GenuineIsOld(names, c);
    MovedNumbers(names, present, c.path, c.base, t, y);
  }

  /** One link without a copy moves or stays; the rest of the queue is as safe
      as before. */
  lemma SingleKeepsSafe(names: Scheme, s: RepairState, cs: seq<Candidate>, fate: Candidate -> Fate, t: string, u: RepairState)
    requires cs != [] && Lawful(names) && Queue(names, s, cs) && QueueSafe(names, s, cs, fate) && NoCopies(s, cs, cs[0].base)
    requires u == s || (FileMoved(s, cs[0], t, u) && NextFlat(names, cs[0].base, SetOf(s, cs[0].side), t))
    ensures QueueSafe(names, u, cs[1..], fate)
  {
    var c := cs[0];
    assert c in Members(cs) && Genuine(names, c);
    hide Alike, NoCopies, FileMoved, NextFlat, TakenNumbers;
    forall d | d in Members(cs[1..])
      ensures NoCopies(u, cs[1..], d.base) || Alike(names, u, cs[1..], fate, d.base)
    {
      assert d in Members(cs) && Genuine(names, d);
      if NoCopies(s, cs, d.base) {
        if u == s {
          NoCopiesLeft(s, cs, d.base);
        } else {
          StepFlat(names, c.base, SetOf(s, c.side), t);
          CopiesStayAway(names, s, cs, d.base, t, u);
        }
      } else {
        AlikeAfterSingle(names, s, cs, fate, d.base, t, u);
      }
    }
  }

  lemma AlikeAfterSingle(names: Scheme, s: RepairState, cs: seq<Candidate>, fate: Candidate -> Fate, y: string, t: string, u: RepairState)
    requires cs != [] && Lawful(names) && Genuine(names, cs[0]) && Alike(names, s, cs, fate, y)
    requires y != cs[0].base && y != "" && !IsOld(names, y)
    requires u == s || (FileMoved(s, cs[0], t, u) && NextFlat(names, cs[0].base, SetOf(s, cs[0].side), t))
    ensures Alike(names, u, cs[1..], fate, y)
  {
    if u != s { OtherNumbers(names, SetOf(s, cs[0].side), cs[0], t, y); }
    hide TakenNumbers, NextFlat, Genuine, Lawful;
    forall e | e in Members(cs[1..]) && e.base == y
      ensures Mirror(e) in Members(cs[1..]) && fate(e).Moves?
    {
      assert e in Members(cs) && Mirror(e) in Members(cs);
    }
  }

  lemma NoCopiesLeft(s: RepairState, cs: seq<Candidate>, x: string)
    requires cs != [] && NoCopies(s, cs, x)
    ensures NoCopies(s, cs[1..], x)
  {
  }

  lemma CopiesStayAway(names: Scheme, s: RepairState, cs: seq<Candidate>, x: string, t: string, u: RepairState)
    requires cs != [] && Lawful(names) && Queue(names, s, cs) && NoCopies(s, cs, x)
    requires FileMoved(s, cs[0], t, u) && Flat(names, t)
    ensures NoCopies(u, cs[1..], x)
  {
    forall c | c in Members(cs[1..]) && c.base == x
      ensures c.path !in TreeOf(u, Other(c.side))
    {
      assert c in Members(cs) && Genuine(names, c);
      GenuineIsOld(names, c);
    }
  }

  lemma NextFlatSame(names: Scheme, b: string, present: set<string>, other: set<string>, t: string, t': string)
    requires Lawful(names) && NextFlat(names, b, present, t) && NextFlat(names, b, other, t')
    requires TakenNumbers(names, b, present) == TakenNumbers(names, b, other)
    ensures t == t'
  {
    var n, n' := names.trim(t).n, names.trim(t').n;
    assert t == names.format(b, n) && t' == names.format(b, n');
    assert n !in TakenNumbers(names, b, present) && n' !in TakenNumbers(names, b, other);
  }

  /** Both copies of a link move to the same name, and the entry with them. */
  ghost predicate PairMoved(s: RepairState, p: string, t: string, u: RepairState) {
    && u.localSet == s.localSet - {p} + {t} && u.remoteSet == s.remoteSet - {p} + {t}
    && u.local.Keys == u.localSet && u.remote.Keys == u.remoteSet
    && u.journal == Carried(s.journal, p, t)
  }

  lemma PairMoves(names: Scheme, s: RepairState, cs: seq<Candidate>, fate: Candidate -> Fate) returns (t: string, u: RepairState)
    requires Ready(names, s, cs) && |cs| >= 2 && cs[1] == Mirror(cs[0]) && fate(cs[0]).Moves? && fate(cs[1]).Moves?
    requires TakenNumbers(names, cs[0].base, s.localSet) == TakenNumbers(names, cs[0].base, s.remoteSet)
    ensures RepairRun(names, s, cs, fate) == RepairRun(names, u, cs[2..], fate)
    ensures Ready(names, u, cs[2..]) && Genuine(names, cs[0]) && cs[0].path in s.localSet && cs[0].path in s.remoteSet
    ensures NextFlat(names, cs[0].base, s.localSet, t) && NextFlat(names, cs[0].base, s.remoteSet, t)
    ensures PairMoved(s, cs[0].path, t, u)
  {
    var c, d, rest := cs[0], cs[1], cs[1..];
    t := TargetOf(names, s, c);
    var mid := RepairOne(s, c, t, Moves);
    StepReady(names, s, cs, Moves);
    RunUnfold(names, s, cs, fate);
    var t' := TargetOf(names, mid, d);
    u := RepairOne(mid, d, t', Moves);
    assert rest[0] == d && rest[1..] == cs[2..];
    StepReady(names, mid, rest, Moves);
    RunUnfold(names, mid, rest, fate);
    GenuineIsOld(names, c);
    hide RepairOne, TargetOf, RepairRun, Genuine, TakenNumbers;
    assert SetOf(mid, d.side) == SetOf(s, d.side);
    NextFlatSame(names, c.base, SetOf(s, c.side), SetOf(s, d.side), t, t');
    assert t != c.path by { StepFlat(names, c.base, SetOf(s, c.side), t); }
    CarriedTwice(s.journal, c.path, t);
    assert Listed(u);
  }

  lemma CarriedTwice(j: Bucket, p: string, t: string)
    requires t != p
    ensures Carried(Carried(j, p, t), p, t) == Carried(j, p, t)
  {
    var k := Carried(j, p, t);
    assert p !in k;
    assert k - {p} == k;
  }

  lemma PairKeepsTracked(names: Scheme, s: RepairState, c: Candidate, t: string, u: RepairState)
    requires Lawful(names) && AllTracked(names, s) && Listed(s)
    requires Genuine(names, c) && c.path in s.localSet && PairMoved(s, c.path, t, u)
    requires t != "" && t != c.path
    ensures AllTracked(names, u)
  {
    GenuineIsOld(names, c);
    assert c.path in s.local;
    assert t in u.journal;
  }

  lemma PairKeepsSafe(names: Scheme, s: RepairState, cs: seq<Candidate>, fate: Candidate -> Fate, t: string, u: RepairState)
    requires |cs| >= 2 && cs[1] == Mirror(cs[0]) && Lawful(names) && Listed(s) && Queue(names, s, cs) && QueueSafe(names, s, cs, fate)
    requires PairMoved(s, cs[0].path, t, u)
    requires NextFlat(names, cs[0].base, s.localSet, t) && NextFlat(names, cs[0].base, s.remoteSet, t)
    ensures QueueSafe(names, u, cs[2..], fate)
  {
    var c, rest := cs[0], cs[2..];
    assert cs[1..][1..] == rest;
    assert Members(cs) == {c} + Members(cs[1..]) && Members(cs[1..]) == {cs[1]} + Members(rest);
    assert c in Members(cs) && Genuine(names, c);
    StepFlat(names, c.base, s.localSet, t);
    hide Alike, NoCopies, PairMoved, NextFlat, TakenNumbers, Listed;
    forall d | d in Members(rest)
      ensures !fate(d).PutFails? && (NoCopies(u, rest, d.base) || Alike(names, u, rest, fate, d.base))
    {
      assert d in Members(cs) && Genuine(names, d);
      if NoCopies(s, cs, d.base) {
        PairCopiesStayAway(names, s, cs, d.base, t, u);
      } else {
        AlikeAfterPair(names, s, cs, fate, d.base, t, u);
      }
    }
  }

  lemma AlikeAfterPair(names: Scheme, s: RepairState, cs: seq<Candidate>, fate: Candidate -> Fate, y: string, t: string, u: RepairState)
    requires |cs| >= 2 && cs[1] == Mirror(cs[0]) && Lawful(names) && NoRepeats(cs) && Genuine(names, cs[0])
    requires Alike(names, s, cs, fate, y) && y != "" && !IsOld(names, y) && PairMoved(s, cs[0].path, t, u)
    requires NextFlat(names, cs[0].base, s.localSet, t) && NextFlat(names, cs[0].base, s.remoteSet, t)
    ensures Alike(names, u, cs[2..], fate, y)
  {
    OtherNumbers(names, s.localSet, cs[0], t, y);
    OtherNumbers(names, s.remoteSet, cs[0], t, y);
    PairStaysClosed(cs, y);
    hide TakenNumbers, NextFlat, Genuine, Lawful;
    forall e | e in Members(cs[2..]) && e.base == y
      ensures fate(e).Moves?
    {
      assert cs[1..][1..] == cs[2..] && e in Members(cs[1..]) && e in Members(cs);
    }
  }

  lemma PairCopiesStayAway(names: Scheme, s: RepairState, cs: seq<Candidate>, x: string, t: string, u: RepairState)
    requires |cs| >= 2 && Lawful(names) && Listed(s) && Queue(names, s, cs) && NoCopies(s, cs, x)
    requires PairMoved(s, cs[0].path, t, u) && Flat(names, t)
    ensures NoCopies(u, cs[2..], x)
  {
    assert cs[1..][1..] == cs[2..];
    forall c | c in Members(cs[2..]) && c.base == x
      ensures c.path !in TreeOf(u, Other(c.side))
    {
      assert c in Members(cs[1..]) && c in Members(cs) && Genuine(names, c);
      GenuineIsOld(names, c);
    }
  }

  /** Without a link and its copy, the queue still has every other copy. */
  lemma PairStaysClosed(cs: seq<Candidate>, x: string)
    requires |cs| >= 2 && cs[1] == Mirror(cs[0]) && NoRepeats(cs)
    requires forall c :: c in Members(cs) && c.base == x ==> Mirror(c) in Members(cs)
    ensures forall c :: c in Members(cs[2..]) && c.base == x ==> Mirror(c) in Members(cs[2..])
  {
    assert cs[1..][1..] == cs[2..];
    forall c | c in Members(cs[2..]) && c.base == x
      ensures Mirror(c) in Members(cs[2..])
    {
      assert c in Members(cs[1..]) && c in Members(cs) && Mirror(c) in Members(cs);
      assert c != cs[0] && c != cs[1];
      assert Mirror(Mirror(c)) == c;
    }
  }

  /** Only a candidate of the same path can stand between a link and its copy. */
  lemma BetweenCopies(c: Candidate, d: Candidate)
    requires !Earlier(d, c) && !Earlier(Mirror(c), d)
    ensures c.path == d.path
  {
    Trichotomy(c.path, d.path);
  }

  /** In the order of the pass, a link's copy comes right after it. */
  lemma CopyComesNext(names: Scheme, cs: seq<Candidate>)
    requires cs != [] && NoRepeats(cs) && InOrder(cs) && Mirror(cs[0]) in Members(cs)
    requires forall c :: c in Members(cs) ==> c == CandidateOf(names, c.path, c.side)
    ensures |cs| >= 2 && cs[1] == Mirror(cs[0])
  {
    assert cs[0] in Members(cs);
    SecondHasSamePath(cs);
    hide InOrder, NoRepeats, Members, Earlier;
    var c, d := cs[0], cs[1];
    assert c == CandidateOf(names, c.path, c.side) && d == CandidateOf(names, c.path, d.side);
  }

  lemma SecondHasSamePath(cs: seq<Candidate>)
    requires cs != [] && NoRepeats(cs) && InOrder(cs) && Mirror(cs[0]) in Members(cs)
    ensures |cs| >= 2 && cs[1] in Members(cs) && cs[1] != cs[0] && cs[1].path == cs[0].path
  {
    hide Earlier;
    var m := Mirror(cs[0]);
    MemberAt(cs, m);
    var j :| 0 <= j < |cs| && cs[j] == m;
    MemberAt(cs, cs[1]);
    MemberAt(cs[1..], cs[1]);
    assert cs[1..][0] == cs[1];
    if j > 1 {
      BetweenCopies(cs[0], cs[1]);
    }
  }

  /** Repair keeps every file journaled when each base with links is safe: its
      links have no copies, whatever renames fail, or both sides hold the same
      links and flat siblings of it and none of its links fails. Other bases
      may be of the other kind. */
  lemma {:induction false} SafeRepairKeepsTracked(names: Scheme, s: RepairState, cs: seq<Candidate>, fate: Candidate -> Fate)
    requires Ready(names, s, cs) && InOrder(cs) && AllTracked(names, s) && QueueSafe(names, s, cs, fate)
    ensures AllTracked(names, RepairRun(names, s, cs, fate))
    decreases |cs|
  {
    if cs != [] {
      var c := cs[0];
      assert c in Members(cs);
      if NoCopies(s, cs, c.base) {
        SingleStep(names, s, cs, fate);
        TailInOrder(cs, 1);
        var u := RepairOne(s, c, TargetOf(names, s, c), fate(c));
        RunUnfold(names, s, cs, fate);
        hide Ready, AllTracked, QueueSafe, RepairRun, RepairOne, TargetOf, InOrder;
        SafeRepairKeepsTracked(names, u, cs[1..], fate);
      } else {
        var t, u := PairStep(names, s, cs, fate);
        TailInOrder(cs, 2);
        hide Ready, AllTracked, QueueSafe, RepairRun, InOrder;
        SafeRepairKeepsTracked(names, u, cs[2..], fate);
      }
    }
  }

  lemma SingleStep(names: Scheme, s: RepairState, cs: seq<Candidate>, fate: Candidate -> Fate)
    requires Ready(names, s, cs) && cs != [] && AllTracked(names, s) && QueueSafe(names, s, cs, fate) && NoCopies(s, cs, cs[0].base)
    ensures var u := RepairOne(s, cs[0], TargetOf(names, s, cs[0]), fate(cs[0]));
            Ready(names, u, cs[1..]) && AllTracked(names, u) && QueueSafe(names, u, cs[1..], fate)
  {
    var c := cs[0];
    var t := TargetOf(names, s, c);
    var u := RepairOne(s, c, t, fate(c));
    assert c in Members(cs) && !fate(c).PutFails? && c.path !in TreeOf(s, Other(c.side));
    StepReady(names, s, cs, fate(c));
    StepFlat(names, c.base, SetOf(s, c.side), t);
    GenuineIsOld(names, c);
    hide RepairOne, TargetOf, NextFlat;
    if fate(c).Moves? {
      OneRepairKeepsTracked(names, s, c, t, u);
    }
    hide AllTracked, QueueSafe, NoCopies;
    SingleKeepsSafe(names, s, cs, fate, t, u);
  }

  lemma PairStep(names: Scheme, s: RepairState, cs: seq<Candidate>, fate: Candidate -> Fate) returns (t: string, u: RepairState)
    requires Ready(names, s, cs) && cs != [] && InOrder(cs) && AllTracked(names, s)
    requires QueueSafe(names, s, cs, fate) && Alike(names, s, cs, fate, cs[0].base)
    ensures |cs| >= 2 && RepairRun(names, s, cs, fate) == RepairRun(names, u, cs[2..], fate)
    ensures Ready(names, u, cs[2..]) && AllTracked(names, u) && QueueSafe(names, u, cs[2..], fate)
  {
    assert cs[0] in Members(cs) && Mirror(cs[0]) in Members(cs);
    assert forall c :: c in Members(cs) ==> Genuine(names, c);
    assert fate(cs[0]).Moves? && fate(Mirror(cs[0])).Moves?;
    CopyComesNext(names, cs);
    hide RepairRun, AllTracked, QueueSafe, Genuine, InOrder;
    t, u := PairMoves(names, s, cs, fate);
    StepFlat(names, cs[0].base, s.localSet, t);
    GenuineIsOld(names, cs[0]);
    hide PairMoved, NextFlat;
    PairKeepsTracked(names, s, cs[0], t, u);
    PairKeepsSafe(names, s, cs, fate, t, u);
  }

  /** With links that have no copy, repair keeps every file journaled, whatever
      renames fail. */
  lemma RepairKeepsTracked(names: Scheme, s: RepairState, cs: seq<Candidate>, fate: Candidate -> Fate)
    requires Ready(names, s, cs) && InOrder(cs) && AllTracked(names, s)
    requires forall c :: c in Members(cs) ==> c.path !in TreeOf(s, Other(c.side)) && !fate(c).PutFails?
    ensures AllTracked(names, RepairRun(names, s, cs, fate))
  {
    assert QueueSafe(names, s, cs, fate) by {
      assert forall x :: NoCopies(s, cs, x);
    }
    hide Ready, AllTracked, QueueSafe, RepairRun;
    SafeRepairKeepsTracked(names, s, cs, fate);
  }

  // ---------------------------------------------------------------------
  // The same paths on both sides
  // ---------------------------------------------------------------------

  /** The queue goes path by path: each link of one side next to its copy. */
  ghost predicate Paired(cs: seq<Candidate>) {
    cs != [] ==> |cs| >= 2 && cs[1] == Mirror(cs[0]) && Paired(cs[2..])
  }

  ghost predicate MirrorClosed(names: Scheme, pool: set<Candidate>) {
    forall c :: c in pool ==> Mirror(c) in pool && c == CandidateOf(names, c.path, c.side)
  }

  lemma {:induction false} PassIsPaired(names: Scheme, cs: seq<Candidate>)
    requires NoRepeats(cs) && InOrder(cs) && MirrorClosed(names, Members(cs))
    ensures Paired(cs)
    decreases |cs|
  {
    if cs != [] {
      assert cs[0] in Members(cs);
      CopyComesNext(names, cs);
      var rest := cs[2..];
      assert cs[1..][1..] == rest;
      assert Members(cs) == {cs[0]} + Members(cs[1..]) && Members(cs[1..]) == {cs[1]} + Members(rest);
      forall c | c in Members(rest)
        ensures Mirror(c) in Members(rest) && c == CandidateOf(names, c.path, c.side)
      {
        PairStaysClosed(cs, c.base);
        assert c in Members(cs);
      }
      TailInOrder(cs, 2);
      PassIsPaired(names, rest);
    }
  }

  lemma {:induction false} PairsStayAlike(names: Scheme, s: RepairState, cs: seq<Candidate>)
    requires Ready(names, s, cs) && Paired(cs) && s.localSet == s.remoteSet
    ensures var u := RepairRun(names, s, cs, NOTHING_FAILS);
            u.localSet == u.remoteSet
    decreases |cs|
  {
    if cs != [] {
      var t, u := PairMoves(names, s, cs, NOTHING_FAILS);
      hide Ready, RepairRun, NextFlat;
      PairsStayAlike(names, u, cs[2..]);
    }
  }

  lemma MirroredIsClosed(names: Scheme, s: RepairState, cs: seq<Candidate>)
    requires s.localSet == s.remoteSet
    requires Members(cs) == CandidatesIn(names, s.localSet, Local) + CandidatesIn(names, s.remoteSet, Remote)
    ensures MirrorClosed(names, Members(cs)) && QueueSafe(names, s, cs, NOTHING_FAILS)
  {
    assert MirrorClosed(names, Members(cs));
    hide CandidatesIn, Members, Base, TakenNumbers;
    assert forall x :: Alike(names, s, cs, NOTHING_FAILS, x);
  }

  /** Over two sides that hold the same paths, an error-free pass keeps every
      file journaled and the two sides alike. */
  lemma MirroredRepairKeepsTracked(names: Scheme, s: RepairState, cs: seq<Candidate>)
    requires Ready(names, s, cs) && AllTracked(names, s) && s.localSet == s.remoteSet
    requires Members(cs) == CandidatesIn(names, s.localSet, Local) + CandidatesIn(names, s.remoteSet, Remote)
    requires InOrder(cs)
    ensures var u := RepairRun(names, s, cs, NOTHING_FAILS);
            AllTracked(names, u) && u.localSet == u.remoteSet
  {
    MirroredIsClosed(names, s, cs);
    assert NoRepeats(cs);
    hide Ready, CandidatesIn, RepairRun, QueueSafe, MirrorClosed, AllTracked;
    PassIsPaired(names, cs);
    PairsStayAlike(names, s, cs);
    SafeRepairKeepsTracked(names, s, cs, NOTHING_FAILS);
  }

  // ---------------------------------------------------------------------
  // Copies that get different names
  // ---------------------------------------------------------------------

  /** f with the suffix 1, and that with the suffix 1 again. */
  lemma NestedTwice(names: Scheme, f: string)
    requires Lawful(names) && names.maxDepth >= 2 && f != "" && !IsOld(names, f)
    ensures var f1, f11 := names.format(f, 1), names.format(names.format(f, 1), 1);
            && Base(names, f) == Stripped(f, 0) && Base(names, f1) == Stripped(f, 1) && Base(names, f11) == Stripped(f, 2)
            && f != f1 && f != f11 && f1 != f11 && f1 != "" && f11 != ""
  {
    var f1 := names.format(f, 1);
    var f11 := names.format(f1, 1);
    assert names.trim(f1) == Suffixed(f, 1);
    assert names.trim(f11) == Suffixed(f1, 1);
    assert Strip(names, f, names.maxDepth - 1) == Stripped(f, 0) == Strip(names, f, names.maxDepth - 2);
    assert Strip(names, f1, names.maxDepth - 1) == Stripped(f, 1);
  }

  /** The start: the remote side lacks the flat sibling that the local side
      has, and everything is journaled. */
  ghost predicate Lopsided(names: Scheme, s: RepairState, f: string) {
    var f1, f11 := names.format(f, 1), names.format(names.format(f, 1), 1);
    && Listed(s) && s.localSet == {f, f1, f11} && s.remoteSet == {f, f11} && s.journal.Keys == {f, f1, f11}
  }

  /** Both copies of the link are repaired, the remote one first. */
  function LopsidedQueue(names: Scheme, f: string): seq<Candidate> {
    var f11 := names.format(names.format(f, 1), 1);
    [Candidate(f11, f, 2, Remote), Candidate(f11, f, 2, Local)]
  }

  lemma LopsidedIsQueue(names: Scheme, s: RepairState, f: string)
    requires Lawful(names) && names.maxDepth >= 2 && f != "" && !IsOld(names, f) && Lopsided(names, s, f)
    ensures var cs := LopsidedQueue(names, f);
            && Members(cs) == CandidatesIn(names, s.localSet, Local) + CandidatesIn(names, s.remoteSet, Remote)
            && NoRepeats(cs) && InOrder(cs)
  {
    NestedTwice(names, f);
    var f11 := names.format(names.format(f, 1), 1);
    var c, d := Candidate(f11, f, 2, Remote), Candidate(f11, f, 2, Local);
    var cs := [c, d];
    hide Base;
    assert cs[1..] == [d] && [d][1..] == [];
    assert Members([d]) == {d} && Members(cs) == {c, d};
    assert NoRepeats([d][1..]) && NoRepeats([d]) && c != d;
    assert CandidatesIn(names, s.localSet, Local) == {d};
    assert CandidatesIn(names, s.remoteSet, Remote) == {c};
    Irreflexive(f11);
  }

  /** Repairing both copies is not enough: they must get the same name. Here
      the remote copy takes the number the local side has in use, its entry
      replaces the one of that sibling, and the local copy moves on to the next
      number, without an entry. No rename fails. */
  lemma TwoNamesUntrack(names: Scheme, s: RepairState, f: string)
    requires Lawful(names) && names.maxDepth >= 2 && names.maxProbe >= 2
    requires f != "" && !IsOld(names, f) && Lopsided(names, s, f)
    ensures AllTracked(names, s)
    ensures var u := RepairRun(names, s, LopsidedQueue(names, f), NOTHING_FAILS);
            names.format(f, 2) in u.local && names.format(f, 2) !in u.journal && !AllTracked(names, u)
  {
    NestedTwice(names, f);
    var f1, f2, f11 := names.format(f, 1), names.format(f, 2), names.format(names.format(f, 1), 1);
    assert names.trim(f2) == Suffixed(f, 2) && names.trim(f1) == Suffixed(f, 1) && names.trim(f11) == Suffixed(f1, 1);
    var cs := LopsidedQueue(names, f);
    LopsidedTargets(names, {f, f11}, {f, f1, f11}, f);
    hide NextOldN, Base, Strip;
    var mid := RepairOne(s, cs[0], f1, Moves);
    assert TargetOf(names, s, cs[0]) == f1;
    assert mid.localSet == s.localSet && mid.local == s.local && mid.journal.Keys == {f, f1};
    assert TargetOf(names, mid, cs[1]) == f2;
    var u := RepairOne(mid, cs[1], f2, Moves);
    assert f2 in u.local && u.journal.Keys == {f, f1};
    RunUnfold(names, s, cs, NOTHING_FAILS);
    RunUnfold(names, mid, cs[1..], NOTHING_FAILS);
    assert cs[1..][1..] == [];
    assert RepairRun(names, s, cs, NOTHING_FAILS) == u;
  }

  lemma LopsidedTargets(names: Scheme, remote: set<string>, local: set<string>, f: string)
    requires Lawful(names) && names.maxDepth >= 2 && names.maxProbe >= 2 && f != "" && !IsOld(names, f)
    requires remote == {f, names.format(names.format(f, 1), 1)} && local == remote + {names.format(f, 1)}
    ensures NextOldN(names, f, remote) == Loser(f, 1) && NextOldN(names, f, local) == Loser(f, 2)
  {
    NestedTwice(names, f);
    var f1, f2 := names.format(f, 1), names.format(f, 2);
    assert names.trim(f2) == Suffixed(f, 2) && names.trim(f1) == Suffixed(f, 1) && names.trim(names.format(f1, 1)) == Suffixed(f1, 1);
    assert f1 !in remote && f1 in local && f2 !in local;
    assert Probe(names, f, local, 1) == Probe(names, f, local, 2) == 2;
  }

  // ---------------------------------------------------------------------
  // Room for losers after the pass
  // ---------------------------------------------------------------------

  /** Carrying an entry to the name t takes t's number and no other. */
  lemma CarriedNumbers(names: Scheme, j: Bucket, p: string, t: string, x: string)
    requires Lawful(names) && IsOld(names, t) && x != ""
    ensures |TakenNumbers(names, x, Carried(j, p, t).Keys)| <=
            |TakenNumbers(names, x, j.Keys)| + (if names.trim(t).base == x then 1 else 0)
  {
    TakenGrows(names, j.Keys, t, x);
    SubsetSize(TakenNumbers(names, x, Carried(j, p, t).Keys), TakenNumbers(names, x, j.Keys + {t}));
  }

  /** Each link takes at most one more number, of its own base. */
  lemma {:induction false} RepairLeavesRoom(names: Scheme, s: RepairState, cs: seq<Candidate>, fate: Candidate -> Fate, x: string)
    requires Ready(names, s, cs) && x != ""
    ensures |TakenNumbers(names, x, RepairRun(names, s, cs, fate).journal.Keys)| <=
            |TakenNumbers(names, x, s.journal.Keys)| + LinksOf(cs, x, Local) + LinksOf(cs, x, Remote)
    decreases |cs|
  {
    if cs != [] {
      var c, rest := cs[0], cs[1..];
      var t := TargetOf(names, s, c);
      var u := RepairOne(s, c, t, fate(c));
      StepReady(names, s, cs, fate(c));
      RunUnfold(names, s, cs, fate);
      StepFlat(names, c.base, SetOf(s, c.side), t);
      assert names.trim(t).base == c.base;
      hide RepairOne, TargetOf, RepairRun, NextFlat, Ready, TakenNumbers, Genuine;
      if !fate(c).RenameFails? {
        CarriedNumbers(names, s.journal, c.path, t, x);
        SubsetSize(TakenNumbers(names, x, u.journal.Keys), TakenNumbers(names, x, Carried(s.journal, c.path, t).Keys));
      }
      RepairLeavesRoom(names, u, rest, fate, x);
    }
  }
}
