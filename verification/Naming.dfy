/**
 * What the sync engine needs to know about loser names: a naming scheme prints
 * one suffix and parses one suffix. Stripping every suffix and allocating the
 * next free loser name are defined over any scheme (the Base and NextOldN loops
 * of homedrive/internal/oldsuffix/oldsuffix.go); module OldSuffix shows that a
 * compiled matcher is a lawful scheme with maxDepth 64 and maxProbe 65536.
 */
module Naming {
  import opened Text

  /** What TrimOne returns: no well-formed suffix, or a base and a number. */
  datatype Trimmed = Plain | Suffixed(base: string, n: nat)
  datatype Stripped = Stripped(base: string, depth: nat)
  datatype Loser = Loser(base: string, n: nat)

  datatype Scheme = Scheme(
    trim: string -> Trimmed,
    format: (string, nat) -> string,
    pre: string,
    maxDepth: nat,
    maxProbe: nat)

  predicate IsOld(s: Scheme, path: string) {
    s.trim(path).Suffixed?
  }

  /** Printing and parsing undo each other, and parsing shortens. */
  ghost predicate Lawful(s: Scheme) {
    && 1 <= s.maxDepth && 1 <= s.maxProbe <= MAX_INT
    && (forall b, n :: b != "" && 1 <= n <= MAX_INT ==> s.trim(s.format(b, n)) == Suffixed(b, n))
    && (forall p :: s.trim(p).Suffixed? ==>
          var t := s.trim(p);
          t.base != "" && 1 <= t.n <= MAX_INT && |t.base| < |p| && s.format(t.base, t.n) == p)
    && (forall b, n :: b + s.pre <= s.format(b, n))
  }

  // ---------------------------------------------------------------------
  // Stripping every suffix
  // ---------------------------------------------------------------------

  /** Strips at most budget suffixes; Base is Strip with the scheme's cap. */
  function Strip(s: Scheme, path: string, budget: nat): (r: Stripped)
    ensures r.depth <= budget
    ensures r.depth == 0 ==> r.base == path
    decreases budget
  {
    if budget == 0 then Stripped(path, 0)
    else match s.trim(path)
      case Plain => Stripped(path, 0)
      case Suffixed(b, _) => var r := Strip(s, b, budget - 1); Stripped(r.base, r.depth + 1)
  }

  function Base(s: Scheme, path: string): Stripped {
    Strip(s, path, s.maxDepth)
  }

  /** How many suffixes path really carries, with no cap. */
  ghost function Depth(s: Scheme, path: string): nat
    requires Lawful(s)
    decreases |path|
  {
    match s.trim(path)
    case Plain => 0
    case Suffixed(b, _) => 1 + Depth(s, b)
  }

  /** The loop that strips suffixes. */
  method ComputeBase(s: Scheme, path: string) returns (base: string, depth: nat)
    ensures Stripped(base, depth) == Base(s, path)
  {
    base, depth := path, 0;
    while depth < s.maxDepth
      invariant depth <= s.maxDepth
      invariant Base(s, path).base == Strip(s, base, s.maxDepth - depth).base
      invariant Base(s, path).depth == Strip(s, base, s.maxDepth - depth).depth + depth
    {
      match s.trim(base)
      case Plain => return;
      case Suffixed(next, _) =>
        base := next;
        depth := depth + 1;
    }
  }

  /** The cap is the only difference between Base and complete stripping. */
  lemma {:induction false} StripDepth(s: Scheme, path: string, budget: nat)
    requires Lawful(s)
    ensures Strip(s, path, budget).depth == if Depth(s, path) <= budget then Depth(s, path) else budget
    ensures IsOld(s, Strip(s, path, budget).base) <==> Depth(s, path) > budget
    decreases budget
  {
    match s.trim(path)
    case Plain =>
    case Suffixed(b, _) => if budget > 0 { StripDepth(s, b, budget - 1); }
  }

  /** Budget beyond the real depth is not used. */
  lemma {:induction false} StripSlack(s: Scheme, path: string, budget: nat)
    requires Lawful(s) && Depth(s, path) <= budget
    ensures Strip(s, path, budget) == Strip(s, path, budget + 1)
    decreases budget
  {
    match s.trim(path)
    case Plain =>
    case Suffixed(b, _) => StripSlack(s, b, budget - 1);
  }

  /** Base strips completely exactly on paths within the cap. */
  lemma BaseComplete(s: Scheme, path: string)
    requires Lawful(s)
    ensures IsOld(s, Base(s, path).base) <==> Depth(s, path) > s.maxDepth
    ensures Depth(s, path) <= s.maxDepth ==> Base(s, path).depth == Depth(s, path)
    ensures Depth(s, path) == 0 <==> !IsOld(s, path)
    ensures IsOld(s, path) <==> Base(s, path).depth > 0
  {
    StripDepth(s, path, s.maxDepth);
  }

  /** One more suffix is one more level on the same base, exactly until the
      cap; past it the extra suffix is invisible to Base. */
  lemma BaseOfFormat(s: Scheme, b: string, n: nat)
    requires Lawful(s) && b != "" && 1 <= n <= MAX_INT
    ensures Depth(s, s.format(b, n)) == Depth(s, b) + 1
    ensures Base(s, s.format(b, n)) == Stripped(Base(s, b).base, Base(s, b).depth + 1) <==> Depth(s, b) < s.maxDepth
  {
    BaseComplete(s, b);
    BaseComplete(s, s.format(b, n));
    StripDepth(s, b, s.maxDepth);
    if Depth(s, b) < s.maxDepth {
      StripSlack(s, b, s.maxDepth - 1);
    }
  }

  // ---------------------------------------------------------------------
  // Allocating the next loser name
  // ---------------------------------------------------------------------

  /** The base a new loser of path hangs off: the stripped base if it is a
      known path, path itself if it is not. */
  function LoserBase(s: Scheme, path: string, taken: set<string>): string {
    var b := Base(s, path);
    if b.depth > 0 && b.base !in taken then path else b.base
  }

  /** The least n' >= n whose name is free, or maxProbe if there is none. */
  function Probe(s: Scheme, base: string, taken: set<string>, n: nat): nat
    decreases s.maxProbe + 1 - n
  {
    if n > s.maxProbe then s.maxProbe
    else if s.format(base, n) !in taken then n
    else Probe(s, base, taken, n + 1)
  }

  function NextOldN(s: Scheme, path: string, taken: set<string>): Loser {
    var b := LoserBase(s, path, taken);
    Loser(b, Probe(s, b, taken, 1))
  }

  function NextOldPath(s: Scheme, path: string, taken: set<string>): string {
    s.format(NextOldN(s, path, taken).base, NextOldN(s, path, taken).n)
  }

  /** The probing loop. */
  method ProbeNextOldN(s: Scheme, path: string, taken: set<string>) returns (base: string, n: nat)
    ensures Loser(base, n) == NextOldN(s, path, taken)
  {
    var depth: nat;
    base, depth := ComputeBase(s, path);
    if depth > 0 && base !in taken {
      base := path;
    }
    n := 1;
    while n <= s.maxProbe
      invariant Probe(s, base, taken, 1) == Probe(s, base, taken, n)
      decreases s.maxProbe + 1 - n
    {
      if s.format(base, n) !in taken {
        return;
      }
      n := n + 1;
    }
    n := s.maxProbe;
  }

  lemma {:induction false} ProbeIsLeast(s: Scheme, base: string, taken: set<string>, n: nat)
    requires 1 <= n <= s.maxProbe
    ensures var r := Probe(s, base, taken, n);
            && 1 <= r <= s.maxProbe
            && (s.format(base, r) in taken <==> forall k :: n <= k <= s.maxProbe ==> s.format(base, k) in taken)
            && (s.format(base, r) !in taken ==> n <= r && forall k :: n <= k < r ==> s.format(base, k) in taken)
    decreases s.maxProbe - n
  {
    if s.format(base, n) in taken && n < s.maxProbe {
      ProbeIsLeast(s, base, taken, n + 1);
    }
  }

  /** The numbers 1..maxProbe that siblings of base already use. */
  function TakenNumbers(s: Scheme, base: string, taken: set<string>): set<nat> {
    set n: nat | 1 <= n <= s.maxProbe && s.format(base, n) in taken
  }

  /** {1, .., n}. */
  function UpTo(n: nat): (r: set<nat>)
    ensures |r| == n && forall k :: k in r <==> 1 <= k <= n
  {
    if n == 0 then {} else UpTo(n - 1) + {n}
  }

  lemma SubsetSize<T>(a: set<T>, b: set<T>)
    requires a <= b
    ensures |a| <= |b|
    ensures |a| == |b| ==> a == b
  {
    assert b == a + (b - a);
  }

  /** The allocator by pigeonhole: the name is free exactly when some number up
      to the cap is unused; then it carries the least unused number, which is
      at most one more than the count of used ones. */
  lemma NextIsFree(s: Scheme, path: string, taken: set<string>)
    requires 1 <= s.maxProbe
    ensures var l := NextOldN(s, path, taken);
            var used := TakenNumbers(s, l.base, taken);
            && 1 <= l.n <= s.maxProbe
            && (NextOldPath(s, path, taken) !in taken <==> |used| < s.maxProbe)
            && (|used| < s.maxProbe ==>
                  && l.n <= |used| + 1
                  && forall k :: 1 <= k < l.n ==> s.format(l.base, k) in taken)
  {
    var l := NextOldN(s, path, taken);
    var used := TakenNumbers(s, l.base, taken);
    ProbeIsLeast(s, l.base, taken, 1);
    SubsetSize(used, UpTo(s.maxProbe));
    if NextOldPath(s, path, taken) !in taken {
      assert l.n !in used;
      SubsetSize(UpTo(l.n - 1), used);
    } else {
      assert used == UpTo(s.maxProbe);
    }
  }

  /** A finite set with fewer than maxProbe members always leaves a free name. */
  lemma SmallSetLeavesFree(s: Scheme, path: string, taken: set<string>)
    requires Lawful(s) && path != "" && |taken| < s.maxProbe
    ensures NextOldPath(s, path, taken) !in taken
  {
    var b := LoserBase(s, path, taken);
    BaseNonEmpty(s, path, s.maxDepth);
    NextIsFree(s, path, taken);
    var used := TakenNumbers(s, b, taken);
    NamesAreDistinct(s, b, taken, used);
  }

  lemma {:induction false} NamesAreDistinct(s: Scheme, b: string, taken: set<string>, used: set<nat>)
    requires Lawful(s) && b != ""
    requires forall n :: n in used ==> 1 <= n <= MAX_INT && s.format(b, n) in taken
    ensures |used| <= |taken|
    decreases |used|
  {
    if used != {} {
      var n :| n in used;
      assert forall k :: k in used - {n} ==> s.trim(s.format(b, k)).n == k;
      NamesAreDistinct(s, b, taken - {s.format(b, n)}, used - {n});
    }
  }

  lemma {:induction false} BaseNonEmpty(s: Scheme, path: string, budget: nat)
    requires Lawful(s) && path != ""
    ensures Strip(s, path, budget).base != ""
    decreases budget
  {
    if budget > 0 && IsOld(s, path) {
      BaseNonEmpty(s, s.trim(path).base, budget - 1);
    }
  }

  /** A conflict on a loser whose base is tracked collapses: the new loser is a
      direct sibling (depth 1). Otherwise the path keeps its own numbering and
      the new loser is one level deeper than the path itself. */
  lemma LoserDepth(s: Scheme, path: string, taken: set<string>)
    requires Lawful(s) && path != "" && Depth(s, path) <= s.maxDepth
    ensures var l := NextOldN(s, path, taken);
            var tracked := Base(s, path).base in taken;
            && (l.base == Base(s, path).base <==> !IsOld(s, path) || tracked)
            && Depth(s, NextOldPath(s, path, taken)) ==
                 (if IsOld(s, path) && !tracked then Depth(s, path) + 1 else 1)
  {
    var l := NextOldN(s, path, taken);
    BaseNonEmpty(s, path, s.maxDepth);
    ProbeIsLeast(s, l.base, taken, 1);
    BaseComplete(s, path);
    BaseComplete(s, Base(s, path).base);
    BaseOfFormat(s, l.base, l.n);
  }
}
