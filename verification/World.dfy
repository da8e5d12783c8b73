/**
 * The three stores the engine keeps in step: the local tree, the remote tree
 * and the journal. File operations fail as os.Rename and the in-memory remote
 * (homedrive/internal/rcloneclient/memfs.go) fail: a missing source is an
 * error, a remote move onto an existing name is an error, a local rename onto
 * an existing name silently replaces it. Transfers keep content and mtime.
 */
module World {
  import opened Text
  import opened Naming
  import opened Journal

  datatype File = File(content: string, mtime: Time)
  type Tree = map<string, File>

  /** What the engine is configured with: the naming scheme, MD5 as some
      function of content, and the successive readings of the clock. */
  datatype Env = Env(names: Scheme, md5: string -> string, clock: nat -> Time)

  /** pending holds the bases marked for retention; ticks counts clock readings. */
  datatype State = State(local: Tree, remote: Tree, journal: Bucket, pending: set<string>, ticks: nat)

  const MAX_DURATION: int := 0x7FFF_FFFF_FFFF_FFFF
  const MIN_DURATION: int := -0x8000_0000_0000_0000

  /** time.Time.Sub saturates at the range of a 64-bit duration. */
  function Since(later: Time, earlier: Time): int {
    if later - earlier > MAX_DURATION then MAX_DURATION
    else if later - earlier < MIN_DURATION then MIN_DURATION
    else later - earlier
  }

  /** The nearest duration to the real difference. */
  lemma SinceIsNearest(later: Time, earlier: Time, d: int)
    ensures MIN_DURATION <= Since(later, earlier) <= MAX_DURATION
    ensures MIN_DURATION <= later - earlier <= MAX_DURATION ==> Since(later, earlier) == later - earlier
    ensures d <= MAX_DURATION ==> (Since(later, earlier) >= d <==> later - earlier >= d || d <= MIN_DURATION)
  {
  }

  datatype FsResult = FsOk(tree: Tree) | FsErr

  function RenameLocal(t: Tree, src: string, dst: string): FsResult {
    if src !in t then FsErr else FsOk((t - {src})[dst := t[src]])
  }

  function MoveFile(t: Tree, src: string, dst: string): FsResult {
    if src !in t || dst in t then FsErr else FsOk((t - {src})[dst := t[src]])
  }

  /** CopyFile uploads and DownloadFile downloads path: from one tree to the
      other, under the same path. */
  function Transfer(from: Tree, to: Tree, path: string): FsResult {
    if path !in from then FsErr else FsOk(to[path := from[path]])
  }

  /** What a map holds after someone else sets or clears one key. */
  function SetAt<V>(m: map<string, V>, k: string, v: Option<V>): map<string, V> {
    match v
    case None => m - {k}
    case Some(x) => m[k := x]
  }

  // ---------------------------------------------------------------------
  // Counting versions
  // ---------------------------------------------------------------------

  /** Every value a map holds, with multiplicity. */
  ghost function Values<V(!new)>(m: map<string, V>): multiset<V> {
    if m == map[] then multiset{}
    else Values(m - {SomeKey(m)}) + multiset{m[SomeKey(m)]}
  }

  ghost function SomeKey<V>(m: map<string, V>): (k: string)
    requires m != map[]
    ensures k in m
  {
    var k :| k in m; k
  }

  lemma ValuesUnfold<V(!new)>(m: map<string, V>)
    requires m != map[]
    ensures Values(m) == Values(m - {SomeKey(m)}) + multiset{m[SomeKey(m)]}
  {
  }

  lemma {:induction false} ValuesRemove<V(!new)>(m: map<string, V>, k: string)
    requires k in m
    ensures Values(m) == Values(m - {k}) + multiset{m[k]}
    decreases |m|
  {
    hide Values;
    ValuesUnfold(m);
    var j := SomeKey(m);
    if j != k {
      ValuesRemove(m - {j}, k);
      ValuesRemove(m - {k}, j);
      assert m - {j} - {k} == m - {k} - {j};
    }
  }

  lemma ValuesAdd<V(!new)>(m: map<string, V>, k: string, v: V)
    requires k !in m
    ensures Values(m[k := v]) == Values(m) + multiset{v}
  {
    hide Values;
    ValuesRemove(m[k := v], k);
    assert m[k := v] - {k} == m;
  }

  lemma ValuesMove<V(!new)>(m: map<string, V>, src: string, dst: string)
    requires src in m && dst !in m
    ensures Values((m - {src})[dst := m[src]]) == Values(m)
  {
    hide Values;
    ValuesRemove(m, src);
    ValuesAdd(m - {src}, dst, m[src]);
  }

  // ---------------------------------------------------------------------
  // Loser names in use
  // ---------------------------------------------------------------------

  /** Every file that looks like a loser has a journal entry. */
  ghost predicate Journaled(names: Scheme, local: Tree, remote: Tree, journal: Bucket) {
    forall p :: p in local || p in remote ==> p != "" && (IsOld(names, p) ==> p in journal)
  }

  ghost predicate Tracked(env: Env, s: State) {
    Journaled(env.names, s.local, s.remote, s.journal)
  }

  /** A number of the base that the next loser of p hangs off is unused. */
  predicate HasFree(names: Scheme, p: string, taken: set<string>) {
    |TakenNumbers(names, NextOldN(names, p, taken).base, taken)| < names.maxProbe
  }

  /** With a number left, the next loser of a path has a loser name not taken. */
  lemma FreeName(names: Scheme, p: string, taken: set<string>)
    requires Lawful(names) && p != "" && HasFree(names, p, taken)
    ensures NextOldPath(names, p, taken) !in taken
  {
    NextIsFree(names, p, taken);
  }

  /** A loser name is a loser name, whether or not it is free. */
  lemma LoserIsOld(names: Scheme, p: string, taken: set<string>)
    requires Lawful(names) && p != ""
    ensures IsOld(names, NextOldPath(names, p, taken)) && NextOldPath(names, p, taken) != ""
  {
    var l := NextOldN(names, p, taken);
    BaseNonEmpty(names, p, names.maxDepth);
    NextIsFree(names, p, taken);
    assert names.trim(names.format(l.base, l.n)) == Suffixed(l.base, l.n);
  }

  /** The next loser of a file is named after no file and no journal entry. */
  lemma FreshLoser(env: Env, s: State, p: string)
    requires Lawful(env.names) && Tracked(env, s) && HasFree(env.names, p, s.journal.Keys)
    requires p in s.local || p in s.remote
    ensures var q := NextOldPath(env.names, p, s.journal.Keys);
            && IsOld(env.names, q) && q != "" && q != p
            && q !in s.journal && q !in s.local && q !in s.remote
  {
    FreeName(env.names, p, s.journal.Keys);
    LoserIsOld(env.names, p, s.journal.Keys);
  }

  /** The numbers of b after one more name is taken: the name's own number if
      it hangs off b, and otherwise the same. */
  lemma TakenGrows(names: Scheme, taken: set<string>, q: string, b: string)
    requires Lawful(names) && b != ""
    ensures var before, after := TakenNumbers(names, b, taken), TakenNumbers(names, b, taken + {q});
            && |after| <= |before| + 1
            && (q in taken || !IsOld(names, q) || names.trim(q).base != b ==> after == before)
  {
    var before, after := TakenNumbers(names, b, taken), TakenNumbers(names, b, taken + {q});
    forall n: nat | 1 <= n <= names.maxProbe
      ensures names.trim(names.format(b, n)) == Suffixed(b, n)
    {
    }
    if q in taken || !IsOld(names, q) || names.trim(q).base != b {
      assert after == before;
    } else {
      SubsetSize(after, before + {names.trim(q).n});
    }
  }
}
