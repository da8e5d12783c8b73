/**
 * What chain repair guarantees when the listings are complete and no path
 * carries more suffixes than the cap: it never renames onto an existing file,
 * it flattens exactly, and it carries the journal along. Past the cap the
 * first guarantee fails.
 */
module RepairProofs {
  import opened Text
  import opened Keys
  import opened Naming
  import opened Journal
  import opened World
  import opened Repair

  /** The listings name exactly the files of the two trees. */
  ghost predicate Listed(s: RepairState) {
    s.localSet == s.local.Keys && s.remoteSet == s.remote.Keys
  }

  /** No file carries more suffixes than Base strips. */
  ghost predicate WithinCap(names: Scheme, s: RepairState)
    requires Lawful(names)
  {
    forall p :: p in s.localSet || p in s.remoteSet ==> Depth(names, p) <= names.maxDepth
  }

  /** A candidate, whatever the listing: its base is fully stripped. */
  predicate Genuine(names: Scheme, c: Candidate) {
    c == CandidateOf(names, c.path, c.side) && c.depth >= 2 && c.base != "" && !IsOld(names, c.base)
  }

  predicate Waiting(s: RepairState, c: Candidate) {
    c.path in SetOf(s, c.side) && c.base in SetOf(s, c.side)
  }

  /** The candidates still to be processed. */
  ghost predicate Queue(names: Scheme, s: RepairState, cs: seq<Candidate>) {
    NoRepeats(cs) && forall c :: c in Members(cs) ==> Genuine(names, c) && Waiting(s, c)
  }

  /** How many candidates of one side hang off x. */
  function LinksOf(cs: seq<Candidate>, x: string, side: Side): nat {
    if cs == [] then 0
    else (if cs[0].base == x && cs[0].side == side then 1 else 0) + LinksOf(cs[1..], x, side)
  }

  /** Each base that links hang off has a number left on their side for every
      one of them. Nothing is asked of any other base. */
  ghost predicate QueueRoom(names: Scheme, s: RepairState, cs: seq<Candidate>) {
    forall c :: c in Members(cs) ==>
      |TakenNumbers(names, c.base, SetOf(s, c.side))| + LinksOf(cs, c.base, c.side) <= names.maxProbe
  }

  ghost predicate Ready(names: Scheme, s: RepairState, cs: seq<Candidate>) {
    Lawful(names) && Listed(s) && Queue(names, s, cs) && QueueRoom(names, s, cs)
  }

  /** Complete listings within the cap make every candidate a genuine one. */
  lemma ReadyToStart(names: Scheme, s: RepairState, cs: seq<Candidate>)
    requires Lawful(names) && Listed(s) && WithinCap(names, s) && NoRepeats(cs)
    requires Members(cs) == CandidatesIn(names, s.localSet, Local) + CandidatesIn(names, s.remoteSet, Remote)
    requires QueueRoom(names, s, cs)
    ensures Ready(names, s, cs)
  {
    forall c | c in Members(cs)
      ensures Genuine(names, c) && Waiting(s, c)
    {
      BaseComplete(names, c.path);
      BaseNonEmpty(names, c.path, names.maxDepth);
      assert names.trim(c.path).Suffixed?;
    }
  }

  // ---------------------------------------------------------------------
  // One link
  // ---------------------------------------------------------------------

  /** One suffix on a base that has none. */
  predicate Flat(names: Scheme, p: string) {
    IsOld(names, p) && !IsOld(names, names.trim(p).base)
  }

  /** t is the next free flat name of b among the names in use. */
  ghost predicate NextFlat(names: Scheme, b: string, present: set<string>, t: string) {
    && t !in present && Flat(names, t) && names.trim(t).base == b && 1 <= names.trim(t).n <= names.maxProbe
    && forall k :: 1 <= k < names.trim(t).n ==> k in TakenNumbers(names, b, present)
  }

  /** The target of a candidate is free, flat, and least. */
  lemma TargetIsFree(names: Scheme, s: RepairState, c: Candidate)
    requires Lawful(names) && Genuine(names, c)
    requires |TakenNumbers(names, c.base, SetOf(s, c.side))| < names.maxProbe
    ensures NextFlat(names, c.base, SetOf(s, c.side), TargetOf(names, s, c))
  {
    var present := SetOf(s, c.side);
    var l := NextOldN(names, c.base, present);
    BaseComplete(names, c.base);
    assert l.base == c.base;
    NextIsFree(names, c.base, present);
    assert names.trim(names.format(c.base, l.n)) == Suffixed(c.base, l.n);
  }

  lemma GenuineIsOld(names: Scheme, c: Candidate)
    requires Lawful(names) && Genuine(names, c)
    ensures IsOld(names, c.path) && !Flat(names, c.path) && c.path != ""
  {
    assert Strip(names, c.path, names.maxDepth).depth >= 2;
    assert Strip(names, names.trim(c.path).base, names.maxDepth - 1).depth >= 1;
  }

  /** The effect of one successful rename. */
  ghost predicate FileMoved(s: RepairState, c: Candidate, t: string, u: RepairState) {
    var other := if c.side == Local then Remote else Local;
    && c.path in TreeOf(s, c.side)
    && SetOf(u, c.side) == SetOf(s, c.side) - {c.path} + {t}
    && TreeOf(u, c.side) == (TreeOf(s, c.side) - {c.path})[t := TreeOf(s, c.side)[c.path]]
    && SetOf(u, other) == SetOf(s, other) && TreeOf(u, other) == TreeOf(s, other)
  }

  /** And of one successful repair. */
  ghost predicate LinkMoved(s: RepairState, c: Candidate, t: string, u: RepairState) {
    && FileMoved(s, c, t, u)
    && u.journal == Carried(s.journal, c.path, t)
    && u.links == s.links + [RepairedLink(c.path, t, c.side)]
  }

  /** The effect of any repair. */
  ghost predicate Repaired(s: RepairState, c: Candidate, t: string, fate: Fate, u: RepairState) {
    match fate
    case RenameFails => u == s
    case Moves => LinkMoved(s, c, t, u)
    case PutFails =>
      if c.path in s.journal then FileMoved(s, c, t, u) && u.journal == s.journal - {c.path} && u.links == s.links
      else LinkMoved(s, c, t, u)
  }

  lemma StepMoves(names: Scheme, s: RepairState, c: Candidate, fate: Fate)
    requires Lawful(names) && Listed(s) && Genuine(names, c) && Waiting(s, c)
    requires |TakenNumbers(names, c.base, SetOf(s, c.side))| < names.maxProbe
    ensures var t, u := TargetOf(names, s, c), RepairOne(s, c, TargetOf(names, s, c), fate);
            && NextFlat(names, c.base, SetOf(s, c.side), t)
            && Repaired(s, c, t, fate, u) && Listed(u)
  {
    TargetIsFree(names, s, c);
    hide TargetOf, NextFlat;
    var t := TargetOf(names, s, c);
    assert t !in TreeOf(s, c.side) by { NextFlatAbsent(names, c.base, SetOf(s, c.side), t); }
  }

  lemma NextFlatAbsent(names: Scheme, b: string, present: set<string>, t: string)
    requires NextFlat(names, b, present, t)
    ensures t !in present
  {
  }

  /** Renaming onto the next flat name of b takes exactly that one more number
      of b, and no number of any other base without a suffix. */
  lemma MovedNumbers(names: Scheme, present: set<string>, p: string, b: string, t: string, x: string)
    requires Lawful(names) && NextFlat(names, b, present, t) && x != ""
    ensures var before, after := TakenNumbers(names, x, present), TakenNumbers(names, x, present - {p} + {t});
            && after <= before + {names.trim(t).n}
            && (!Flat(names, p) && !IsOld(names, x) ==>
                  after == if x == b then before + {names.trim(t).n} else before)
  {
    var before, after := TakenNumbers(names, x, present), TakenNumbers(names, x, present - {p} + {t});
    forall n: nat | 1 <= n <= names.maxProbe
      ensures names.trim(names.format(x, n)) == Suffixed(x, n)
    {
    }
    assert names.format(b, names.trim(t).n) == t;
    hide NextFlat, Lawful;
  }

  /** The links left still have their numbers. */
  lemma RoomStays(names: Scheme, s: RepairState, cs: seq<Candidate>, t: string, u: RepairState)
    requires cs != [] && Lawful(names) && Queue(names, s, cs) && QueueRoom(names, s, cs)
    requires NextFlat(names, cs[0].base, SetOf(s, cs[0].side), t) && FileMoved(s, cs[0], t, u)
    ensures QueueRoom(names, u, cs[1..])
  {
    var c := cs[0];
    assert c in Members(cs) && Genuine(names, c);
    GenuineIsOld(names, c);
    forall d | d in Members(cs[1..])
      ensures |TakenNumbers(names, d.base, SetOf(u, d.side))| + LinksOf(cs[1..], d.base, d.side) <= names.maxProbe
    {
      assert d in Members(cs) && Genuine(names, d);
      hide TakenNumbers, NextFlat, Genuine, Lawful, Flat;
      if d.side == c.side {
        MovedNumbers(names, SetOf(s, c.side), c.path, c.base, t, d.base);
      }
    }
  }

  lemma RoomWithout(names: Scheme, s: RepairState, cs: seq<Candidate>)
    requires cs != [] && QueueRoom(names, s, cs)
    ensures QueueRoom(names, s, cs[1..])
    ensures |TakenNumbers(names, cs[0].base, SetOf(s, cs[0].side))| < names.maxProbe
  {
    hide TakenNumbers;
    assert cs[0] in Members(cs);
    forall d | d in Members(cs[1..])
      ensures |TakenNumbers(names, d.base, SetOf(s, d.side))| + LinksOf(cs[1..], d.base, d.side) <= names.maxProbe
    {
      assert d in Members(cs);
    }
  }

  /** Candidates that wait keep waiting while another one is moved. */
  lemma QueueStays(names: Scheme, s: RepairState, cs: seq<Candidate>, t: string, u: RepairState)
    requires cs != [] && Lawful(names) && Queue(names, s, cs) && FileMoved(s, cs[0], t, u)
    ensures Queue(names, u, cs[1..])
  {
    var c := cs[0];
    assert Genuine(names, c);
    GenuineIsOld(names, c);
    forall d | d in Members(cs[1..])
      ensures Waiting(u, d)
    {
      assert d in Members(cs) && d != c;
      assert Genuine(names, d) && Waiting(s, d);
    }
  }

  lemma StepReady(names: Scheme, s: RepairState, cs: seq<Candidate>, fate: Fate)
    requires cs != [] && Ready(names, s, cs)
    ensures var t, u := TargetOf(names, s, cs[0]), RepairOne(s, cs[0], TargetOf(names, s, cs[0]), fate);
            && Genuine(names, cs[0]) && NextFlat(names, cs[0].base, SetOf(s, cs[0].side), t)
            && Repaired(s, cs[0], t, fate, u)
            && Ready(names, u, cs[1..])
  {
    var c := cs[0];
    assert c in Members(cs);
    RoomWithout(names, s, cs);
    StepMoves(names, s, c, fate);
    hide TargetOf, RepairOne, NextFlat, QueueRoom, Genuine;
    var t, u := TargetOf(names, s, c), RepairOne(s, c, TargetOf(names, s, c), fate);
    if fate.RenameFails? {
      assert Queue(names, s, cs[1..]);
    } else {
      QueueStays(names, s, cs, t, u);
      RoomStays(names, s, cs, t, u);
    }
  }

  // ---------------------------------------------------------------------
  // A whole pass: nothing is lost
  // ---------------------------------------------------------------------

  /** The paths the candidates of one side stand at. */
  function MovedPaths(cs: seq<Candidate>, side: Side): set<string> {
    set c | c in Members(cs) && c.side == side :: c.path
  }

  /** A side keeps all its versions; files outside moved stay where they are,
      and whatever has a new name has a flat one. */
  ghost predicate SideKept(names: Scheme, s: RepairState, side: Side, moved: set<string>, u: RepairState) {
    && Values(TreeOf(u, side)) == Values(TreeOf(s, side))
    && (forall p :: p in TreeOf(s, side) && p !in moved ==>
          p in TreeOf(u, side) && TreeOf(u, side)[p] == TreeOf(s, side)[p])
    && (forall p :: p in TreeOf(u, side) && p !in TreeOf(s, side) ==> Flat(names, p))
  }

  lemma MoveKeeps(names: Scheme, s: RepairState, c: Candidate, t: string, u: RepairState, side: Side)
    requires FileMoved(s, c, t, u) && Flat(names, t) && t !in TreeOf(s, c.side)
    ensures SideKept(names, s, side, if side == c.side then {c.path} else {}, u)
  {
    hide Values;
    if side == c.side { ValuesMove(TreeOf(s, side), c.path, t); }
  }

  lemma KeptComposes(names: Scheme, s: RepairState, side: Side, a: set<string>, t: RepairState, b: set<string>, u: RepairState)
    requires SideKept(names, s, side, a, t) && SideKept(names, t, side, b, u)
    ensures SideKept(names, s, side, a + b, u)
  {
    hide Values, Flat;
  }

  /** Chain repair never clobbers. With any subset of the renames failing, each
      side ends with exactly the versions it had, and only candidates move. */
  lemma {:induction false} NeverClobbers(names: Scheme, s: RepairState, cs: seq<Candidate>, fate: Candidate -> Fate, side: Side)
    requires Ready(names, s, cs)
    ensures var u := RepairRun(names, s, cs, fate);
            Listed(u) && SideKept(names, s, side, MovedPaths(cs, side), u)
    decreases |cs|
  {
    if cs != [] {
      var c, rest := cs[0], cs[1..];
      var t := TargetOf(names, s, c);
      var u := RepairOne(s, c, t, fate(c));
      StepReady(names, s, cs, fate(c));
      assert Listed(s);
      hide RepairOne, TargetOf, Ready, Genuine;
      NeverClobbers(names, u, rest, fate, side);
      var first: set<string> := if side == c.side && !fate(c).RenameFails? then {c.path} else {};
      if fate(c).RenameFails? {
        StayKept(names, s, side);
      } else {
        MoveKeeps(names, s, c, t, u, side);
      }
      hide Repaired, FileMoved, SideKept, Members, RepairRun;
      KeptComposes(names, s, side, first, u, MovedPaths(rest, side), RepairRun(names, u, rest, fate));
      KeptWeakens(names, s, side, first + MovedPaths(rest, side), RepairRun(names, u, rest, fate), cs);
      assert RepairRun(names, s, cs, fate) == RepairRun(names, u, rest, fate) by { RunUnfold(names, s, cs, fate); }
    } else {
      StayKept(names, s, side);
      assert MovedPaths(cs, side) == {};
    }
  }

  lemma RunUnfold(names: Scheme, s: RepairState, cs: seq<Candidate>, fate: Candidate -> Fate)
    requires cs != []
    ensures RepairRun(names, s, cs, fate) ==
            RepairRun(names, RepairOne(s, cs[0], TargetOf(names, s, cs[0]), fate(cs[0])), cs[1..], fate)
  {
  }

  lemma StayKept(names: Scheme, s: RepairState, side: Side)
    ensures SideKept(names, s, side, {}, s)
  {
  }

  lemma KeptWeakens(names: Scheme, s: RepairState, side: Side, moved: set<string>, u: RepairState, cs: seq<Candidate>)
    requires cs != [] && SideKept(names, s, side, moved, u)
    requires moved <= (if cs[0].side == side then {cs[0].path} else {}) + MovedPaths(cs[1..], side)
    ensures SideKept(names, s, side, MovedPaths(cs, side), u)
  {
    hide Values, Flat;
    assert moved <= MovedPaths(cs, side);
  }

  // ---------------------------------------------------------------------
  // A whole pass: it flattens exactly
  // ---------------------------------------------------------------------

  const NOTHING_FAILS: Candidate -> Fate := _ => Moves

  /** filled is used plus the k smallest positive integers not in used. */
  ghost predicate FillsLeast(used: set<nat>, k: nat, filled: set<nat>) {
    && used <= filled && |filled| == |used| + k
    && forall n, m :: n in filled && n !in used && m >= 1 && m !in filled ==> 1 <= n < m
  }

  /** Only one set fills the k least gaps: the order of the work cannot matter. */
  lemma FillUnique(used: set<nat>, k: nat, a: set<nat>, b: set<nat>)
    requires FillsLeast(used, k, a) && FillsLeast(used, k, b)
    requires 0 !in a && 0 !in b
    ensures a == b
  {
    GainsComeFirst(used, k, a, b);
    GainsComeFirst(used, k, b, a);
    assert a - b == {} || b - a == {};
    assert a == a * b + (a - b) && b == a * b + (b - a);
    SubsetSize(a * b, a);
    SubsetSize(a * b, b);
  }

  lemma GainsComeFirst(used: set<nat>, k: nat, a: set<nat>, b: set<nat>)
    requires FillsLeast(used, k, a) && FillsLeast(used, k, b)
    requires 0 !in a && 0 !in b
    ensures forall n, m :: n in a - b && m in b - a ==> n < m
  {
  }

  /** Filling the least gap first, then k more. */
  lemma FillStep(used: set<nat>, n: nat, k: nat, filled: set<nat>)
    requires n >= 1 && n !in used && forall m :: 1 <= m < n ==> m in used
    requires FillsLeast(used + {n}, k, filled)
    ensures FillsLeast(used, k + 1, filled)
  {
    forall x, m | x in filled && x !in used && m >= 1 && m !in filled
      ensures 1 <= x < m
    {
      if x == n {
        assert m in used || m >= n;
      }
    }
  }

  /** Each base's numbers become the old ones plus the least free ones, one per
      link, whatever the order in which the links are processed. */
  lemma {:induction false} FlattensExactly(names: Scheme, s: RepairState, cs: seq<Candidate>, x: string, side: Side)
    requires Ready(names, s, cs) && x != "" && !IsOld(names, x)
    ensures FillsLeast(
              TakenNumbers(names, x, SetOf(s, side)),
              LinksOf(cs, x, side),
              TakenNumbers(names, x, SetOf(RepairRun(names, s, cs, NOTHING_FAILS), side)))
    decreases |cs|
  {
    if cs != [] {
      var c, rest := cs[0], cs[1..];
      var t := TargetOf(names, s, c);
      var u := RepairOne(s, c, t, Moves);
      StepReady(names, s, cs, Moves);
      RunUnfold(names, s, cs, NOTHING_FAILS);
      hide *;
      FlattensExactly(names, u, rest, x, side);
      FirstFill(names, s, cs, t, u, RepairRun(names, u, rest, NOTHING_FAILS), x, side);
    }
  }

  /** No link stays where it was. */
  lemma {:induction false} LinksGone(names: Scheme, s: RepairState, cs: seq<Candidate>, side: Side)
    requires Ready(names, s, cs)
    ensures MovedPaths(cs, side) !! SetOf(RepairRun(names, s, cs, NOTHING_FAILS), side)
    decreases |cs|
  {
    if cs == [] {
      assert MovedPaths(cs, side) == {};
    } else {
      var c, rest := cs[0], cs[1..];
      var t := TargetOf(names, s, c);
      var u := RepairOne(s, c, t, Moves);
      StepReady(names, s, cs, Moves);
      assert Listed(s) && Listed(u);
      RunUnfold(names, s, cs, NOTHING_FAILS);
      MovedUnfold(cs, side);
      hide Ready, RepairOne, TargetOf, RepairRun, LinkMoved, Genuine, NextFlat, Members, MovedPaths, SideKept;
      LinksGone(names, u, rest, side);
      NeverClobbers(names, u, rest, NOTHING_FAILS, side);
      FirstGone(names, s, c, t, u, rest, RepairRun(names, u, rest, NOTHING_FAILS), side);
    }
  }

  lemma MovedUnfold(cs: seq<Candidate>, side: Side)
    requires cs != []
    ensures MovedPaths(cs, side) == (if cs[0].side == side then {cs[0].path} else {}) + MovedPaths(cs[1..], side)
  {
  }

  lemma FirstFill(names: Scheme, s: RepairState, cs: seq<Candidate>, t: string, u: RepairState,
                  v: RepairState, x: string, side: Side)
    requires cs != [] && Lawful(names) && Genuine(names, cs[0]) && x != "" && !IsOld(names, x)
    requires NextFlat(names, cs[0].base, SetOf(s, cs[0].side), t) && LinkMoved(s, cs[0], t, u)
    requires FillsLeast(TakenNumbers(names, x, SetOf(u, side)), LinksOf(cs[1..], x, side), TakenNumbers(names, x, SetOf(v, side)))
    ensures FillsLeast(TakenNumbers(names, x, SetOf(s, side)), LinksOf(cs, x, side), TakenNumbers(names, x, SetOf(v, side)))
  {
    var c := cs[0];
    GenuineIsOld(names, c);
    if side == c.side {
      MovedNumbers(names, SetOf(s, side), c.path, c.base, t, x);
      if x == c.base {
        TargetNumber(names, c.base, SetOf(s, side), t);
        FillStep(TakenNumbers(names, x, SetOf(s, side)), names.trim(t).n, LinksOf(cs[1..], x, side), TakenNumbers(names, x, SetOf(v, side)));
      }
    }
  }

  lemma TargetNumber(names: Scheme, b: string, present: set<string>, t: string)
    requires Lawful(names) && NextFlat(names, b, present, t)
    ensures names.trim(t).n !in TakenNumbers(names, b, present)
  {
    assert names.format(b, names.trim(t).n) == t;
  }

  lemma FirstGone(names: Scheme, s: RepairState, c: Candidate, t: string, u: RepairState, rest: seq<Candidate>,
                  v: RepairState, side: Side)
    requires Lawful(names) && Genuine(names, c) && NextFlat(names, c.base, SetOf(s, c.side), t) && LinkMoved(s, c, t, u)
    requires Listed(s) && Listed(u) && Listed(v) && SideKept(names, u, side, MovedPaths(rest, side), v)
    ensures c.side == side ==> c.path !in SetOf(v, side)
  {
    GenuineIsOld(names, c);
    hide Genuine, Values;
    assert c.side == side ==> c.path !in TreeOf(u, side);
  }

  /** After an error-free pass no candidate remains on either side, so that a
      second pass has nothing to rename. */
  lemma {:induction false} SecondPassIsIdle(names: Scheme, s: RepairState, cs: seq<Candidate>, side: Side)
    requires Lawful(names) && WithinCap(names, s) && Ready(names, s, cs)
    requires Members(cs) == CandidatesIn(names, s.localSet, Local) + CandidatesIn(names, s.remoteSet, Remote)
    ensures CandidatesIn(names, SetOf(RepairRun(names, s, cs, NOTHING_FAILS), side), side) == {}
  {
    var u := RepairRun(names, s, cs, NOTHING_FAILS);
    NeverClobbers(names, s, cs, NOTHING_FAILS, side);
    LinksGone(names, s, cs, side);
    NestedMoved(names, s, cs, side);
    assert Listed(s);
    hide RepairRun, Ready, Values, MovedPaths;
    forall p | p in SetOf(u, side)
      ensures !IsNested(names, SetOf(u, side), p)
    {
      if p in SetOf(s, side) {
        BaseComplete(names, p);
      } else {
        FlatDepth(names, p);
      }
    }
  }

  lemma NestedMoved(names: Scheme, s: RepairState, cs: seq<Candidate>, side: Side)
    requires Members(cs) == CandidatesIn(names, s.localSet, Local) + CandidatesIn(names, s.remoteSet, Remote)
    ensures forall p :: IsNested(names, SetOf(s, side), p) ==> p in MovedPaths(cs, side)
  {
    forall p | IsNested(names, SetOf(s, side), p)
      ensures p in MovedPaths(cs, side)
    {
      assert CandidateOf(names, p, side) in CandidatesIn(names, SetOf(s, side), side);
    }
  }

  lemma FlatDepth(names: Scheme, p: string)
    requires Lawful(names) && Flat(names, p)
    ensures Base(names, p).depth == 1
  {
    assert Strip(names, names.trim(p).base, names.maxDepth - 1).depth == 0;
  }

  /** What is left of a name without any of its suffixes. */
  ghost function Root(names: Scheme, p: string): string
    requires Lawful(names)
    decreases |p|
  {
    if IsOld(names, p) then Root(names, names.trim(p).base) else p
  }

  lemma {:induction false} RootIsBase(names: Scheme, p: string, budget: nat)
    requires Lawful(names) && Depth(names, p) <= budget
    ensures Strip(names, p, budget).base == Root(names, p)
    decreases budget
  {
    if IsOld(names, p) { RootIsBase(names, names.trim(p).base, budget - 1); }
  }

  lemma DeepIsNested(names: Scheme, present: set<string>, p: string, side: Side)
    requires Lawful(names) && p in present && Root(names, p) in present && 2 <= Depth(names, p) <= names.maxDepth
    ensures CandidateOf(names, p, side) in CandidatesIn(names, present, side)
  {
    BaseComplete(names, p);
    RootIsBase(names, p, names.maxDepth);
  }

  lemma FlatIsShallow(names: Scheme, p: string)
    requires Lawful(names) && Flat(names, p)
    ensures Depth(names, p) == 1
  {
    assert Depth(names, names.trim(p).base) == 0;
  }

  /** After an error-free pass no file carries two suffixes or more while the
      file it is a loser of, or was once, exists on its side. */
  lemma NoChainLeft(names: Scheme, s: RepairState, cs: seq<Candidate>, side: Side, p: string)
    requires Lawful(names) && WithinCap(names, s) && Ready(names, s, cs)
    requires Members(cs) == CandidatesIn(names, s.localSet, Local) + CandidatesIn(names, s.remoteSet, Remote)
    ensures var t := TreeOf(RepairRun(names, s, cs, NOTHING_FAILS), side);
            p in t && Root(names, p) in t ==> Depth(names, p) <= 1
  {
    var u := RepairRun(names, s, cs, NOTHING_FAILS);
    assert Listed(s);
    hide RepairRun, Ready, Values, MovedPaths, CandidatesIn, CandidateOf, Lawful;
    SecondPassIsIdle(names, s, cs, side);
    NeverClobbers(names, s, cs, NOTHING_FAILS, side);
    if p in TreeOf(u, side) && Root(names, p) in TreeOf(u, side) && Depth(names, p) >= 2 {
      if p in TreeOf(s, side) {
        DeepIsNested(names, SetOf(u, side), p, side);
      } else {
        FlatIsShallow(names, p);
      }
    }
  }

  /** The queue goes from the deepest links up, and through those of one depth
      in byte order. */
  lemma DeepestFirst(names: Scheme, s: RepairState, cs: seq<Candidate>, i: nat, j: nat)
    requires Lawful(names) && WithinCap(names, s) && InOrder(cs) && i < j < |cs|
    requires Members(cs) == CandidatesIn(names, s.localSet, Local) + CandidatesIn(names, s.remoteSet, Remote)
    ensures Depth(names, cs[i].path) > Depth(names, cs[j].path) ||
            (Depth(names, cs[i].path) == Depth(names, cs[j].path) && !Less(cs[j].path, cs[i].path))
  {
    forall k | k == i || k == j
      ensures cs[k].depth == Depth(names, cs[k].path)
    {
      MemberAt(cs, cs[k]);
      assert cs[k] in cs;
      BaseComplete(names, cs[k].path);
    }
    assert !Earlier(cs[j], cs[i]);
  }

  // ---------------------------------------------------------------------
  // A whole pass: the journal goes along
  // ---------------------------------------------------------------------

  /** The journal's entries without their paths. */
  function Nameless(j: Bucket): map<string, JournalEntry> {
    map k | k in j :: j[k].(path := "")
  }

  /** Every journaled flat sibling of a candidate's base is on that side. */
  ghost predicate SiblingsListed(names: Scheme, s: RepairState, cs: seq<Candidate>, side: Side) {
    forall c, n :: c in Members(cs) && 1 <= n <= MAX_INT && names.format(c.base, n) in s.journal ==>
      names.format(c.base, n) in SetOf(s, side)
  }

  ghost predicate OnOneSide(cs: seq<Candidate>, side: Side) {
    forall c :: c in Members(cs) ==> c.side == side
  }

  /** The link's entry, if it had one, is now under the new path with all its
      other fields. */
  predicate LinkCarried(j: Bucket, k: Bucket, l: RepairedLink) {
    l.oldPath in j ==> l.newPath in k && k[l.newPath] == j[l.oldPath].(path := l.newPath)
  }

  ghost predicate JournalCarried(j: Bucket, moved: set<string>, k: Bucket) {
    && Keyed(k) && Values(Nameless(k)) == Values(Nameless(j))
    && (forall p :: p in j && p !in moved ==> p in k && k[p] == j[p])
  }

  lemma CarryOne(j: Bucket, p: string, t: string)
    requires Keyed(j) && t !in j && t != p
    ensures JournalCarried(j, {p}, Carried(j, p, t))
  {
    hide Values;
    if p in j {
      ValuesMove(Nameless(j), p, t);
      assert Nameless(Carried(j, p, t)) == (Nameless(j) - {p})[t := Nameless(j)[p]];
    } else {
      assert Carried(j, p, t) == j;
    }
  }

  lemma CarryComposes(j: Bucket, a: set<string>, k: Bucket, b: set<string>, l: Bucket)
    requires JournalCarried(j, a, k) && JournalCarried(k, b, l)
    ensures JournalCarried(j, a + b, l)
  {
    hide Values, Nameless;
  }

  /** One repair keeps the premise and carries its entry. */
  lemma StepCarries(names: Scheme, s: RepairState, cs: seq<Candidate>, side: Side, t: string, u: RepairState)
    requires cs != [] && Lawful(names) && Queue(names, s, cs) && OnOneSide(cs, side)
    requires NextFlat(names, cs[0].base, SetOf(s, side), t) && LinkMoved(s, cs[0], t, u)
    requires Keyed(s.journal) && SiblingsListed(names, s, cs, side)
    ensures JournalCarried(s.journal, {cs[0].path}, u.journal) && SiblingsListed(names, u, cs[1..], side)
    ensures t != cs[0].path && t !in s.journal && t !in MovedPaths(cs[1..], side)
  {
    var c := cs[0];
    assert c in Members(cs) && Genuine(names, c) && c.side == side;
    GenuineIsOld(names, c);
    assert names.format(c.base, names.trim(t).n) == t;
    CarryOne(s.journal, c.path, t);
    hide Values, JournalCarried;
    forall d, n | d in Members(cs[1..]) && 1 <= n <= MAX_INT && names.format(d.base, n) in u.journal
      ensures names.format(d.base, n) in SetOf(u, side)
    {
      assert d in Members(cs) && Genuine(names, d);
      assert names.trim(names.format(d.base, n)) == Suffixed(d.base, n);
      assert Flat(names, names.format(d.base, n));
    }
    forall d | d in Members(cs[1..])
      ensures d.path != t
    {
      assert d in Members(cs) && Genuine(names, d);
      GenuineIsOld(names, d);
    }
  }

  /** Chain repair carries the journal. With all candidates on one side and
      every journaled flat sibling of their bases listed there, no entry is
      lost or overwritten, untouched keys keep their entries, and each link's
      entry is found under its new path; renames may fail, but no write of an
      entry. */
  lemma {:induction false} CarriesJournal(names: Scheme, s: RepairState, cs: seq<Candidate>, fate: Candidate -> Fate, side: Side)
    requires Ready(names, s, cs) && OnOneSide(cs, side)
    requires Keyed(s.journal) && SiblingsListed(names, s, cs, side)
    requires forall c :: c in Members(cs) ==> !fate(c).PutFails?
    ensures var u := RepairRun(names, s, cs, fate);
            && JournalCarried(s.journal, MovedPaths(cs, side), u.journal)
            && |s.links| <= |u.links| && u.links[..|s.links|] == s.links
            && (forall i :: |s.links| <= i < |u.links| ==>
                  u.links[i].oldPath in MovedPaths(cs, side) && LinkCarried(s.journal, u.journal, u.links[i]))
    decreases |cs|
  {
    if cs == [] {
      assert MovedPaths(cs, side) == {};
    } else {
      var c, rest := cs[0], cs[1..];
      var t := TargetOf(names, s, c);
      var u := RepairOne(s, c, t, fate(c));
      assert c in Members(cs);
      StepReady(names, s, cs, fate(c));
      RunUnfold(names, s, cs, fate);
      MovedUnfold(cs, side);
      if fate(c).RenameFails? {
        hide Ready, RepairOne, TargetOf, RepairRun, JournalCarried;
        CarriesJournal(names, s, rest, fate, side);
        CarryWeakens(s.journal, MovedPaths(rest, side), MovedPaths(cs, side), RepairRun(names, s, rest, fate).journal);
      } else {
        assert Queue(names, s, cs);
        hide Ready, RepairOne, TargetOf, RepairRun, JournalCarried;
        StepCarries(names, s, cs, side, t, u);
        assert Keyed(u.journal) by { CarriedKeyed(s.journal, {c.path}, u.journal); }
        CarriesJournal(names, u, rest, fate, side);
        var v := RepairRun(names, u, rest, fate);
        CarryComposes(s.journal, {c.path}, u.journal, MovedPaths(rest, side), v.journal);
        LinksCarried(names, s, cs, side, t, u, v);
      }
    }
  }

  lemma CarriedKeyed(j: Bucket, moved: set<string>, k: Bucket)
    requires JournalCarried(j, moved, k)
    ensures Keyed(k)
  {
  }

  lemma CarryWeakens(j: Bucket, a: set<string>, b: set<string>, k: Bucket)
    requires JournalCarried(j, a, k) && a <= b
    ensures JournalCarried(j, b, k)
  {
  }

  lemma FirstNotMoved(names: Scheme, s: RepairState, cs: seq<Candidate>, side: Side)
    requires cs != [] && Queue(names, s, cs) && OnOneSide(cs, side)
    ensures cs[0].path !in MovedPaths(cs[1..], side)
  {
    assert cs[0] in Members(cs) && Genuine(names, cs[0]);
    forall d | d in Members(cs[1..])
      ensures d.path != cs[0].path
    {
      assert d in Members(cs) && Genuine(names, d);
    }
  }

  lemma LinksCarried(names: Scheme, s: RepairState, cs: seq<Candidate>, side: Side, t: string, u: RepairState, v: RepairState)
    requires cs != [] && Queue(names, s, cs) && OnOneSide(cs, side) && LinkMoved(s, cs[0], t, u)
    requires t != cs[0].path && t !in s.journal && t !in MovedPaths(cs[1..], side)
    requires JournalCarried(u.journal, MovedPaths(cs[1..], side), v.journal)
    requires |u.links| <= |v.links| && v.links[..|u.links|] == u.links
    requires forall i :: |u.links| <= i < |v.links| ==>
               v.links[i].oldPath in MovedPaths(cs[1..], side) && LinkCarried(u.journal, v.journal, v.links[i])
    ensures |s.links| <= |v.links| && v.links[..|s.links|] == s.links
    ensures forall i :: |s.links| <= i < |v.links| ==>
              v.links[i].oldPath in MovedPaths(cs, side) && LinkCarried(s.journal, v.journal, v.links[i])
  {
    hide Values, Nameless;
    var c := cs[0];
    assert c in Members(cs);
    MovedUnfold(cs, side);
    assert v.links[..|s.links|] == v.links[..|u.links|][..|s.links|] == s.links;
    forall i | |s.links| <= i < |v.links|
      ensures v.links[i].oldPath in MovedPaths(cs, side) && LinkCarried(s.journal, v.journal, v.links[i])
    {
      if i == |s.links| {
        assert v.links[i] == v.links[..|u.links|][i] == RepairedLink(c.path, t, c.side);
      } else {
        FirstNotMoved(names, s, cs, side);
      }
    }
  }

  // ---------------------------------------------------------------------
  // Past the cap
  // ---------------------------------------------------------------------

  lemma {:induction false} StripShortens(names: Scheme, p: string, budget: nat)
    requires Lawful(names)
    ensures |Strip(names, p, budget).base| + Strip(names, p, budget).depth <= |p|
    decreases budget
  {
    if budget > 0 && IsOld(names, p) { StripShortens(names, names.trim(p).base, budget - 1); }
  }

  lemma {:induction false} ProbeSame(names: Scheme, b: string, taken: set<string>, more: set<string>, n: nat)
    requires forall k :: 1 <= k <= names.maxProbe ==> (names.format(b, k) in taken <==> names.format(b, k) in more)
    requires n >= 1
    ensures Probe(names, b, taken, n) == Probe(names, b, more, n)
    decreases names.maxProbe + 1 - n
  {
    if n <= names.maxProbe { ProbeSame(names, b, taken, more, n + 1); }
  }

  /** The shapes of the three names: p hangs off b by two suffixes or more,
      and b off bb by one or more. */
  lemma PastTheCapShapes(names: Scheme, p: string)
    requires Lawful(names) && names.maxDepth >= 2 && IsOld(names, Base(names, p).base)
    ensures var b := Base(names, p).base;
            var bb := Base(names, b).base;
            && Base(names, p).depth >= 2 && Base(names, b).depth >= 1
            && bb != "" && |bb| < |b| && IsOld(names, p) && |b| < |names.trim(p).base|
  {
    var b := Base(names, p).base;
    StripDepth(names, p, names.maxDepth);
    BaseComplete(names, p);
    BaseComplete(names, b);
    StripShortens(names, b, names.maxDepth);
    BaseNonEmpty(names, b, names.maxDepth);
    StripShortens(names, names.trim(p).base, names.maxDepth - 1);
  }

  /** Probing for bb sees the same names whether or not a name of b is there,
      and of p, b and bb at most one carries a number of bb. */
  lemma PastTheCapProbe(names: Scheme, p: string, b: string, bb: string, n: nat)
    requires Lawful(names) && b != "" && bb != "" && |bb| < |b| && IsOld(names, p) && |b| < |names.trim(p).base|
    requires 1 <= n <= MAX_INT && names.maxProbe >= 2
    ensures var few := {p, b, bb};
            && Probe(names, bb, few, 1) == Probe(names, bb, few + {names.format(b, n)}, 1)
            && |TakenNumbers(names, bb, few + {names.format(b, n)})| < names.maxProbe
  {
    var few, t := {p, b, bb}, names.format(b, n);
    assert names.trim(t) == Suffixed(b, n);
    forall k: nat | 1 <= k <= names.maxProbe
      ensures names.format(bb, k) in few + {t} ==> names.format(bb, k) == b
    {
      assert names.trim(names.format(bb, k)) == Suffixed(bb, k);
    }
    ProbeSame(names, bb, few, few + {t}, 1);
    var only := if IsOld(names, b) then {names.trim(b).n} else {};
    forall k | k in TakenNumbers(names, bb, few + {t})
      ensures k in only
    {
      assert names.trim(names.format(bb, k)) == Suffixed(bb, k);
    }
    SubsetSize(TakenNumbers(names, bb, few + {t}), only);
  }

  /** The listing on which repair of p goes wrong: p, its base, the base of
      that, and a name of the base with the number that is free for the base's
      base. */
  function ClobberedListing(names: Scheme, p: string): set<string> {
    var b := Base(names, p).base;
    var bb := Base(names, b).base;
    {p, b, bb} + {names.format(b, Probe(names, bb, {p, b, bb}, 1))}
  }

  function LocalOnlyState(paths: set<string>): RepairState {
    RepairState(map x | x in paths :: File("", 0), map[], paths, {}, map[], [])
  }

  lemma ClobberedTarget(names: Scheme, p: string)
    requires Lawful(names) && names.maxDepth >= 2 && names.maxProbe >= 2 && IsOld(names, Base(names, p).base)
    ensures var b, s := Base(names, p).base, LocalOnlyState(ClobberedListing(names, p));
            && IsNested(names, s.localSet, p) && HasFree(names, b, s.localSet)
            && TargetOf(names, s, CandidateOf(names, p, Local)) in s.localSet
            && TargetOf(names, s, CandidateOf(names, p, Local)) != p
  {
    var b := Base(names, p).base;
    var bb := Base(names, b).base;
    var n := Probe(names, bb, {p, b, bb}, 1);
    PastTheCapShapes(names, p);
    ProbeIsLeast(names, bb, {p, b, bb}, 1);
    PastTheCapProbe(names, p, b, bb, n);
    assert names.trim(names.format(b, n)) == Suffixed(b, n);
    hide Strip, Probe, TakenNumbers, Lawful;
    var present := ClobberedListing(names, p);
    assert bb in present && NextOldN(names, b, present) == Loser(bb, n);
  }

  /** Past the cap: whenever a path's stripped base still carries a suffix,
      some listing makes the path a candidate whose number is computed for one
      base and printed on another, onto a file that exists. The rename replaces
      it, and the side ends with one file less. */
  lemma PastTheCapClobbers(names: Scheme, p: string)
    requires Lawful(names) && names.maxDepth >= 2 && names.maxProbe >= 2 && IsOld(names, Base(names, p).base)
    ensures var c, s := CandidateOf(names, p, Local), LocalOnlyState(ClobberedListing(names, p));
            && c in CandidatesIn(names, s.localSet, Local) && Listed(s)
            && TargetOf(names, s, c) in s.local
            && |RepairOne(s, c, TargetOf(names, s, c), Moves).local| == |s.local| - 1
  {
    ClobberedTarget(names, p);
    hide TargetOf, ClobberedListing, Base;
    var c, s := CandidateOf(names, p, Local), LocalOnlyState(ClobberedListing(names, p));
    var t := TargetOf(names, s, c);
    assert RepairOne(s, c, t, Moves).local.Keys == s.local.Keys - {p};
  }

  /** The target of a nested path is absent from every listing that leaves the
      allocator a number if and only if the path's stripped base carries no
      suffix, that is, the path is within the cap. */
  lemma TargetIsFreeIff(names: Scheme, p: string)
    requires Lawful(names) && names.maxDepth >= 2 && names.maxProbe >= 2 && p != ""
    ensures !IsOld(names, Base(names, p).base) <==>
            forall s: RepairState :: IsNested(names, s.localSet, p) && HasFree(names, Base(names, p).base, s.localSet) ==>
              TargetOf(names, s, CandidateOf(names, p, Local)) !in s.localSet
    ensures IsOld(names, Base(names, p).base) <==> Depth(names, p) > names.maxDepth
  {
    BaseComplete(names, p);
    if IsOld(names, Base(names, p).base) {
      ClobberedTarget(names, p);
    } else {
      BaseNonEmpty(names, p, names.maxDepth);
      BaseComplete(names, Base(names, p).base);
      forall s: RepairState | IsNested(names, s.localSet, p) && HasFree(names, Base(names, p).base, s.localSet)
        ensures TargetOf(names, s, CandidateOf(names, p, Local)) !in s.localSet
      {
        var c := CandidateOf(names, p, Local);
        assert NextOldN(names, c.base, s.localSet).base == c.base;
        hide Strip, NextOldN;
        TargetIsFree(names, s, c);
        NextFlatAbsent(names, c.base, s.localSet, TargetOf(names, s, c));
      }
    }
  }
}
