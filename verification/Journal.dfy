/**
 * The sync journal: one Bolt bucket of entries keyed by path, and one bucket of
 * metadata (homedrive/internal/store/journal.go). Prefix listings and full
 * walks follow the cursor; RewritePrefix (homedrive/internal/store/rename.go)
 * buffers the renames and then deletes and puts one key after another.
 */
module Journal {
  import opened Text
  import opened Keys

  /** Nanoseconds; 0 is the zero time. */
  type Time = int

  datatype Side = Local | Remote

  datatype JournalEntry = JournalEntry(
    path: string,
    localMtime: Time,
    remoteMtime: Time,
    remoteMD5: string,
    lastSyncedAt: Time,
    lastOrigin: Side)

  type Bucket = map<string, JournalEntry>

  /** Put stores every entry under its own path. */
  predicate Keyed(b: Bucket) {
    forall k :: k in b ==> b[k].path == k
  }

  function WithPrefix(b: Bucket, prefix: string): set<string> {
    set k | k in b && prefix <= k
  }

  function Paths(es: seq<JournalEntry>): (ps: seq<string>)
    ensures |ps| == |es| && forall i :: 0 <= i < |es| ==> ps[i] == es[i].path
  {
    seq(|es|, i requires 0 <= i < |es| => es[i].path)
  }

  /** es lists exactly the entries of b under keys, in key order. */
  ghost predicate Lists(es: seq<JournalEntry>, b: Bucket, keys: set<string>) {
    && SortedListing(Paths(es), keys)
    && forall i :: 0 <= i < |es| ==> es[i].path in b && es[i] == b[es[i].path]
  }

  lemma ListsSnoc(es: seq<JournalEntry>, b: Bucket, keys: set<string>, k: string)
    requires Lists(es, b, keys) && Keyed(b) && k in b
    requires forall j :: j in keys ==> Less(j, k)
    ensures Lists(es + [b[k]], b, keys + {k})
  {
    var ps := Paths(es);
    var qs := Paths(es + [b[k]]);
    assert qs == ps + [k];
    forall i, j | 0 <= i < j < |qs|
      ensures Less(qs[i], qs[j])
    {
      if j == |ps| { assert ps[i] in keys; }
    }
  }

  // ---------------------------------------------------------------------
  // RewritePrefix, key by key
  // ---------------------------------------------------------------------

  function Lookup(b: Bucket, k: string): Option<JournalEntry> {
    if k in b then Some(b[k]) else None
  }

  /** Where the key k goes when oldP becomes newP. */
  function Target(k: string, oldP: string, newP: string): string
    requires oldP <= k
  {
    newP + k[|oldP|..]
  }

  lemma EmptyTarget(k: string, oldP: string, newP: string)
    requires oldP <= k
    ensures Target(k, oldP, newP) == "" <==> newP == "" && k == oldP
  {
  }

  /** The entry that replaces e. */
  function Moved(e: JournalEntry, oldP: string, newP: string): JournalEntry
    requires oldP <= e.path
  {
    e.(path := Target(e.path, oldP, newP))
  }

  /** Target and its inverse. */
  lemma TargetInverse(k: string, q: string, oldP: string, newP: string)
    ensures oldP <= k ==> newP <= Target(k, oldP, newP) && Target(Target(k, oldP, newP), newP, oldP) == k
    ensures oldP <= k && newP <= q ==> (Target(k, oldP, newP) == q <==> Target(q, newP, oldP) == k)
    ensures oldP <= k && Target(k, oldP, newP) == k ==> oldP == newP
  {
    if oldP <= k {
      var t := Target(k, oldP, newP);
      assert t[|newP|..] == k[|oldP|..] && k == oldP + k[|oldP|..];
      if t == k { assert newP == t[..|newP|] && oldP == k[..|oldP|]; }
      if newP <= q { assert q == newP + q[|newP|..]; }
    }
  }

  /** The entry under q once the keys in done have been deleted and put back,
      in key order: a moved entry, unless q is itself a later key of done (its
      own step deletes q again); else the old entry, unless done moved it. */
  function RewriteAt(b: Bucket, done: set<string>, oldP: string, newP: string, q: string): Option<JournalEntry>
    requires Keyed(b) && done <= WithPrefix(b, oldP)
  {
    if newP <= q && Target(q, newP, oldP) in done && !(q in done && Less(Target(q, newP, oldP), q)) then
      Some(Moved(b[Target(q, newP, oldP)], oldP, newP))
    else if q in b && q !in done then Some(b[q])
    else None
  }

  ghost predicate IsRewrite(r: Bucket, b: Bucket, done: set<string>, oldP: string, newP: string)
    requires Keyed(b) && done <= WithPrefix(b, oldP)
  {
    forall q :: Lookup(r, q) == RewriteAt(b, done, oldP, newP, q)
  }

  lemma RewriteStart(b: Bucket, oldP: string, newP: string)
    requires Keyed(b)
    ensures IsRewrite(b, b, {}, oldP, newP)
  {
  }

  /** Deleting the next key and putting its target extends the rewrite. */
  lemma RewriteStep(r: Bucket, b: Bucket, done: set<string>, k: string, oldP: string, newP: string)
    requires Keyed(b) && done <= WithPrefix(b, oldP) && k in b && oldP <= k && oldP != newP
    requires forall j :: j in done ==> Less(j, k)
    requires IsRewrite(r, b, done, oldP, newP)
    ensures var m := Moved(b[k], oldP, newP);
            IsRewrite((r - {k})[m.path := m], b, done + {k}, oldP, newP)
  {
    forall q
      ensures Lookup((r - {k})[Target(k, oldP, newP) := Moved(b[k], oldP, newP)], q) ==
              RewriteAt(b, done + {k}, oldP, newP, q)
    {
      assert Lookup(r, q) == RewriteAt(b, done, oldP, newP, q);
      RewriteStepAt(r, b, done, k, oldP, newP, q);
    }
  }

  lemma RewriteStepAt(r: Bucket, b: Bucket, done: set<string>, k: string, oldP: string, newP: string, q: string)
    requires Keyed(b) && done <= WithPrefix(b, oldP) && k in b && oldP <= k && oldP != newP
    requires forall j :: j in done ==> Less(j, k)
    requires Lookup(r, q) == RewriteAt(b, done, oldP, newP, q)
    ensures Lookup((r - {k})[Target(k, oldP, newP) := Moved(b[k], oldP, newP)], q) ==
            RewriteAt(b, done + {k}, oldP, newP, q)
  {
    var t := Target(k, oldP, newP);
    Irreflexive(k);
    TargetInverse(k, q, oldP, newP);
    TargetInverse(k, t, oldP, newP);
    if t in done { Asymmetric(t, k); }
    hide Less, Target, Moved;
  }

  function NewKey(k: string, oldP: string, newP: string): string {
    if oldP <= k then Target(k, oldP, newP) else k
  }

  function NewEntry(e: JournalEntry, oldP: string, newP: string): JournalEntry {
    e.(path := NewKey(e.path, oldP, newP))
  }

  /** Every entry survives under its new key, no two share one, and there is
      no other entry: a simultaneous renaming of the whole journal. */
  ghost predicate IsRenaming(r: Bucket, b: Bucket, oldP: string, newP: string) {
    && (forall k :: k in b ==> Lookup(r, NewKey(k, oldP, newP)) == Some(NewEntry(b[k], oldP, newP)))
    && (forall j, k :: j in b && k in b && NewKey(j, oldP, newP) == NewKey(k, oldP, newP) ==> j == k)
    && (forall q :: q in r ==> exists k :: k in b && NewKey(k, oldP, newP) == q)
  }

  /** No new key is taken, except by an old key renamed away before it. */
  ghost predicate TargetsClear(b: Bucket, oldP: string, newP: string) {
    forall k :: k in b && oldP <= k && NewKey(k, oldP, newP) in b ==>
      oldP <= NewKey(k, oldP, newP) && Less(NewKey(k, oldP, newP), k)
  }

  /** What happens to one entry. */
  lemma RewriteOne(r: Bucket, b: Bucket, oldP: string, newP: string, k: string)
    requires Keyed(b) && oldP != newP && k in b
    requires IsRewrite(r, b, WithPrefix(b, oldP), oldP, newP)
    ensures var t := NewKey(k, oldP, newP);
            oldP <= k ==> (Lookup(r, t) == Some(NewEntry(b[k], oldP, newP)) <==> !(t in b && oldP <= t && Less(k, t)))
    ensures !(oldP <= k) && !(newP <= k) ==> Lookup(r, k) == Some(b[k])
    ensures !(oldP <= k) && newP <= k && Target(k, newP, oldP) !in b ==> Lookup(r, k) == Some(b[k])
  {
    var t := NewKey(k, oldP, newP);
    TargetInverse(k, t, oldP, newP);
    TargetInverse(t, k, newP, oldP);
    assert Lookup(r, t) == RewriteAt(b, WithPrefix(b, oldP), oldP, newP, t);
  }

  /** The loop is a renaming exactly when the new keys are clear. */
  lemma RewriteIsRenaming(r: Bucket, b: Bucket, oldP: string, newP: string)
    requires Keyed(b) && oldP != newP
    requires IsRewrite(r, b, WithPrefix(b, oldP), oldP, newP)
    ensures IsRenaming(r, b, oldP, newP) <==> TargetsClear(b, oldP, newP)
  {
    if TargetsClear(b, oldP, newP) {
      ClearGivesRenaming(r, b, oldP, newP);
    } else {
      var k :| k in b && oldP <= k && NewKey(k, oldP, newP) in b &&
               !(oldP <= NewKey(k, oldP, newP) && Less(NewKey(k, oldP, newP), k));
      var t := NewKey(k, oldP, newP);
      RewriteOne(r, b, oldP, newP, k);
      TargetInverse(k, t, oldP, newP);
      Trichotomy(t, k);
      if !(oldP <= t) {
        assert NewKey(t, oldP, newP) == t;
      }
    }
  }

  lemma ClearGivesRenaming(r: Bucket, b: Bucket, oldP: string, newP: string)
    requires Keyed(b) && oldP != newP && TargetsClear(b, oldP, newP)
    requires IsRewrite(r, b, WithPrefix(b, oldP), oldP, newP)
    ensures IsRenaming(r, b, oldP, newP)
  {
    forall k | k in b
      ensures Lookup(r, NewKey(k, oldP, newP)) == Some(NewEntry(b[k], oldP, newP))
    {
      var t := NewKey(k, oldP, newP);
      RewriteOne(r, b, oldP, newP, k);
      if oldP <= k {
        if t in b { Asymmetric(t, k); }
      } else if newP <= k {
        var j := Target(k, newP, oldP);
        TargetInverse(k, j, newP, oldP);
        assert oldP <= j && NewKey(j, oldP, newP) == k;
      }
    }
    forall j, k | j in b && k in b && NewKey(j, oldP, newP) == NewKey(k, oldP, newP)
      ensures j == k
    {
      TargetInverse(j, NewKey(j, oldP, newP), oldP, newP);
      TargetInverse(k, NewKey(k, oldP, newP), oldP, newP);
    }
    forall q | q in r
      ensures exists k :: k in b && NewKey(k, oldP, newP) == q
    {
      assert Lookup(r, q) == RewriteAt(b, WithPrefix(b, oldP), oldP, newP, q);
      if newP <= q && Target(q, newP, oldP) in WithPrefix(b, oldP) {
        TargetInverse(Target(q, newP, oldP), q, oldP, newP);
        assert NewKey(Target(q, newP, oldP), oldP, newP) == q;
      } else {
        assert NewKey(q, oldP, newP) == q;
      }
    }
  }

  /** No key of the journal starts with p. */
  ghost predicate Unused(b: Bucket, p: string) {
    forall k :: k in b ==> !(p <= k)
  }

  /** A new prefix no key starts with loses nothing. */
  lemma RewriteToUnused(b: Bucket, r: Bucket, oldP: string, newP: string)
    requires Keyed(b) && oldP != newP && Unused(b, newP)
    requires IsRewrite(r, b, WithPrefix(b, oldP), oldP, newP)
    ensures IsRenaming(r, b, oldP, newP)
  {
    forall k | k in b && oldP <= k
      ensures NewKey(k, oldP, newP) !in b
    {
      TargetInverse(k, NewKey(k, oldP, newP), oldP, newP);
    }
    ClearGivesRenaming(r, b, oldP, newP);
  }

  /** Seen from the renamed journal, each key under newP came from one key. */
  lemma CameFrom(b: Bucket, r: Bucket, oldP: string, newP: string, q: string) returns (k: string)
    requires Keyed(b) && oldP != newP && Unused(b, newP) && IsRenaming(r, b, oldP, newP)
    requires q in r && newP <= q
    ensures k in b && oldP <= k && k == NewKey(q, newP, oldP) && q == NewKey(k, oldP, newP)
    ensures k !in r
  {
    k :| k in b && NewKey(k, oldP, newP) == q;
    TargetInverse(k, q, oldP, newP);
    assert Lookup(r, q) == Some(NewEntry(b[k], oldP, newP));
    if k in r {
      var j :| j in b && NewKey(j, oldP, newP) == k;
      TargetInverse(j, k, oldP, newP);
    }
  }

  /** Rewriting back restores the journal exactly, even when one prefix
      extends the other. */
  lemma RewriteThereAndBack(b: Bucket, r: Bucket, back: Bucket, oldP: string, newP: string)
    requires Keyed(b) && oldP != newP && Unused(b, newP)
    requires IsRewrite(r, b, WithPrefix(b, oldP), oldP, newP)
    requires Keyed(r) && IsRewrite(back, r, WithPrefix(r, newP), newP, oldP)
    ensures back == b
  {
    RewriteToUnused(b, r, oldP, newP);
    forall q | q in r && newP <= q
      ensures NewKey(q, newP, oldP) !in r
    {
      var _ := CameFrom(b, r, oldP, newP, q);
    }
    ClearGivesRenaming(back, r, newP, oldP);
    BackRestores(b, r, back, oldP, newP);
  }

  lemma BackRestores(b: Bucket, r: Bucket, back: Bucket, oldP: string, newP: string)
    requires Keyed(b) && oldP != newP && Unused(b, newP)
    requires IsRenaming(r, b, oldP, newP) && IsRenaming(back, r, newP, oldP)
    ensures back == b
  {
    hide NewKey, IsRenaming;
    forall k | k in b
      ensures k in back && back[k] == b[k]
    {
      RenamedTo(r, b, oldP, newP, k);
      RenamedTo(back, r, newP, oldP, NewKey(k, oldP, newP));
      NewKeyBack(b, k, oldP, newP);
    }
    forall k | k in back
      ensures k in b
    {
      var q := RenamedFrom(back, r, newP, oldP, k);
      var j := RenamedFrom(r, b, oldP, newP, q);
      NewKeyBack(b, j, oldP, newP);
    }
  }

  lemma RenamedTo(r: Bucket, b: Bucket, oldP: string, newP: string, k: string)
    requires IsRenaming(r, b, oldP, newP) && k in b
    ensures var q := NewKey(k, oldP, newP);
            q in r && r[q] == NewEntry(b[k], oldP, newP)
  {
    assert Lookup(r, NewKey(k, oldP, newP)) == Some(NewEntry(b[k], oldP, newP));
  }

  lemma RenamedFrom(r: Bucket, b: Bucket, oldP: string, newP: string, q: string) returns (k: string)
    requires IsRenaming(r, b, oldP, newP) && q in r
    ensures k in b && NewKey(k, oldP, newP) == q
  {
    k :| k in b && NewKey(k, oldP, newP) == q;
  }

  lemma NewKeyBack(b: Bucket, k: string, oldP: string, newP: string)
    requires k in b && Unused(b, newP)
    ensures NewKey(NewKey(k, oldP, newP), newP, oldP) == k
  {
    TargetInverse(k, NewKey(k, oldP, newP), oldP, newP);
  }

  /** Renaming "a" to "ab" without a trailing separator loses the entry of "a"
      when "ab" is journaled too: it is put under "ab" and deleted again. */
  lemma SiblingPrefixLoses(b: Bucket, r: Bucket)
    requires Keyed(b) && b.Keys == {"a", "ab"}
    requires IsRewrite(r, b, WithPrefix(b, "a"), "a", "ab")
    ensures "a" !in r && "ab" !in r && !IsRenaming(r, b, "a", "ab")
  {
    assert Target("a", "a", "ab") == "ab" && Target("ab", "ab", "a") == "a";
    assert Less("a", "ab") by { assert "a"[1..] == "" && "ab"[1..] == "b"; }
    assert Lookup(r, "a") == RewriteAt(b, WithPrefix(b, "a"), "a", "ab", "a");
    assert Lookup(r, "ab") == RewriteAt(b, WithPrefix(b, "a"), "a", "ab", "ab");
    assert NewKey("a", "a", "ab") == "ab";
  }

  /** The Bolt-backed journal. Each method is one transaction, and a failing one
      leaves no trace. Bolt takes no empty key. */
  class Journal {
    var bucket: Bucket

    ghost predicate Valid() reads this { Keyed(bucket) && "" !in bucket }

    constructor ()
      ensures Valid() && bucket == map[]
    {
      bucket := map[];
    }

    method Put(entry: JournalEntry) returns (ok: bool)
      requires Valid()
      modifies this
      ensures Valid() && ok == (entry.path != "")
      ensures bucket == if ok then old(bucket)[entry.path := entry] else old(bucket)
    {
      ok := entry.path != "";
      if ok {
        bucket := bucket[entry.path := entry];
      }
    }

    /** None is ErrNotFound. What is found carries the path it was asked for. */
    method Get(path: string) returns (r: Option<JournalEntry>)
      requires Valid()
      ensures r.None? <==> path !in bucket
      ensures r.Some? ==> r.value == bucket[path] && r.value.path == path
    {
      r := Lookup(bucket, path);
    }

    method Delete(path: string)
      requires Valid()
      modifies this
      ensures Valid() && bucket == old(bucket) - {path}
    {
      bucket := bucket - {path};
    }

    /** The byte-wise prefix test of the cursor loops. */
    static method HasPrefix(key: string, prefix: string) returns (r: bool)
      ensures r <==> prefix <= key
    {
      if |key| < |prefix| {
        return false;
      }
      for i := 0 to |prefix|
        invariant key[..i] == prefix[..i]
      {
        if key[i] != prefix[i] {
          return false;
        }
      }
      assert key[..|prefix|] == prefix;
      r := true;
    }

    /** Seek to the prefix and step while it holds: every key with the prefix
        and no other, in key order. */
    method ListByPrefix(prefix: string) returns (entries: seq<JournalEntry>)
      requires Valid()
      ensures Lists(entries, bucket, WithPrefix(bucket, prefix))
    {
      entries := [];
      var cur := Seek(bucket.Keys, prefix);
      CursorStart(bucket.Keys, prefix, cur);
      while cur.Some?
        invariant AtCursor(bucket.Keys, prefix, cur)
        invariant Lists(entries, bucket, Before(bucket.Keys, prefix, cur))
        decreases Remaining(bucket.Keys, cur)
      {
        var k := cur.value;
        var has := HasPrefix(k, prefix);
        if !has {
          CursorEnd(bucket.Keys, prefix, k);
          break;
        }
        ListsSnoc(entries, bucket, Before(bucket.Keys, prefix, cur), k);
        entries := entries + [bucket[k]];
        cur := Next(bucket.Keys, k);
        CursorStep(bucket.Keys, prefix, k, cur);
      }
      assert Before(bucket.Keys, prefix, None) == WithPrefix(bucket, prefix);
    }

    /** First, then Next to the end: every entry once, in key order. The
        callback of the source is the caller's loop over the result. */
    method ForEach() returns (entries: seq<JournalEntry>)
      requires Valid()
      ensures Lists(entries, bucket, bucket.Keys)
    {
      entries := ListByPrefix("");
      assert WithPrefix(bucket, "") == bucket.Keys;
    }

    /** Renames every entry under oldPrefix, one delete and one put at a time.
        The walk only buffers the operations: a cursor forbids mutation. It
        fails, and changes nothing, exactly when some key would become empty. */
    method RewritePrefix(oldPrefix: string, newPrefix: string) returns (ok: bool, count: nat)
      requires Valid()
      modifies this
      ensures Valid()
      ensures ok == (oldPrefix == newPrefix || newPrefix != "" || oldPrefix !in old(bucket))
      ensures !ok || oldPrefix == newPrefix ==> bucket == old(bucket) && count == 0
      ensures ok && oldPrefix != newPrefix ==>
                && IsRewrite(bucket, old(bucket), WithPrefix(old(bucket), oldPrefix), oldPrefix, newPrefix)
                && count == |WithPrefix(old(bucket), oldPrefix)|
    {
      if oldPrefix == newPrefix {
        return true, 0;
      }
      var ops := BufferRewrites(oldPrefix, newPrefix);
      var before := bucket;
      ghost var b := bucket;
      ghost var done: set<string> := {};
      count := 0;
      RewriteStart(b, oldPrefix, newPrefix);
      hide IsRewrite;
      for i := 0 to |ops|
        invariant Keyed(bucket) && "" !in bucket
        invariant count == i == |done| && done <= WithPrefix(b, oldPrefix)
        invariant forall k :: k in done <==> k in OldKeys(ops)[..i]
        invariant forall k :: k in done ==> Target(k, oldPrefix, newPrefix) != ""
        invariant IsRewrite(bucket, b, done, oldPrefix, newPrefix)
      {
        var op := ops[i];
        ghost var keys := OldKeys(ops);
        assert keys[i] == op.oldKey && keys[..i + 1] == keys[..i] + [op.oldKey];
        EmptyTarget(op.oldKey, oldPrefix, newPrefix);
        if op.entry.path == "" {
          bucket := before;
          return false, 0;
        }
        RewriteStep(bucket, b, done, op.oldKey, oldPrefix, newPrefix);
        Irreflexive(op.oldKey);
        bucket := bucket - {op.oldKey};
        bucket := bucket[op.entry.path := op.entry];
        count := count + 1;
        done := done + {op.oldKey};
      }
      assert OldKeys(ops)[..|ops|] == OldKeys(ops);
      assert done == WithPrefix(b, oldPrefix);
      EmptyTarget(oldPrefix, oldPrefix, newPrefix);
      ok := true;
    }

    method BufferRewrites(oldPrefix: string, newPrefix: string) returns (ops: seq<RewriteOp>)
      requires Valid()
      ensures SortedListing(OldKeys(ops), WithPrefix(bucket, oldPrefix))
      ensures forall i :: 0 <= i < |ops| ==> ops[i].oldKey in WithPrefix(bucket, oldPrefix)
      ensures forall i :: 0 <= i < |ops| ==> ops[i].entry == Moved(bucket[ops[i].oldKey], oldPrefix, newPrefix)
    {
      var listed := ListByPrefix(oldPrefix);
      assert forall i :: 0 <= i < |listed| ==> Paths(listed)[i] in WithPrefix(bucket, oldPrefix);
      ops := seq(|listed|, i requires 0 <= i < |listed| && oldPrefix <= listed[i].path =>
        RewriteOp(listed[i].path, Moved(listed[i], oldPrefix, newPrefix)));
      assert OldKeys(ops) == Paths(listed);
    }
  }

  function OldKeys(ops: seq<RewriteOp>): (ks: seq<string>)
    ensures |ks| == |ops| && forall i :: 0 <= i < |ops| ==> ks[i] == ops[i].oldKey
  {
    seq(|ops|, i requires 0 <= i < |ops| => ops[i].oldKey)
  }

  datatype RewriteOp = RewriteOp(oldKey: string, entry: JournalEntry)

  // ---------------------------------------------------------------------
  // The cursor walk over a prefix
  // ---------------------------------------------------------------------

  /** The keys with the prefix that a walk standing at cur has passed. */
  function Before(keys: set<string>, prefix: string, cur: Option<string>): set<string> {
    set k | k in keys && prefix <= k && (cur.Some? ==> Less(k, cur.value))
  }

  predicate AtCursor(keys: set<string>, prefix: string, cur: Option<string>) {
    cur.Some? ==> cur.value in keys && !Less(cur.value, prefix)
  }

  function Remaining(keys: set<string>, cur: Option<string>): set<string> {
    if cur.Some? then From(keys, cur.value) else {}
  }

  lemma CursorStart(keys: set<string>, prefix: string, cur: Option<string>)
    requires cur.None? <==> From(keys, prefix) == {}
    requires cur.Some? ==> IsLeast(From(keys, prefix), cur.value)
    ensures AtCursor(keys, prefix, cur) && Before(keys, prefix, cur) == {}
  {
    forall k | k in keys && prefix <= k
      ensures k in From(keys, prefix)
    {
      PrefixNotBelow(prefix, k);
    }
  }

  lemma CursorStep(keys: set<string>, prefix: string, k: string, next: Option<string>)
    requires AtCursor(keys, prefix, Some(k)) && prefix <= k
    requires next.None? <==> After(keys, k) == {}
    requires next.Some? ==> IsLeast(After(keys, k), next.value)
    ensures AtCursor(keys, prefix, next)
    ensures Before(keys, prefix, next) == Before(keys, prefix, Some(k)) + {k}
    ensures Remaining(keys, next) < Remaining(keys, Some(k))
  {
    Irreflexive(k);
    forall j | j in keys
      ensures next.None? || Less(j, next.value) <==> j == k || Less(j, k)
      ensures next.Some? && !Less(j, next.value) ==> !Less(j, k)
    {
      Trichotomy(j, k);
      assert Less(k, j) ==> j in After(keys, k);
      if next.Some? && Less(j, k) { Transitive(j, k, next.value); }
    }
    if next.Some? {
      if Less(next.value, prefix) { Transitive(k, next.value, prefix); }
    }
    assert k in From(keys, k) && (next.Some? ==> k !in From(keys, next.value));
  }

  lemma CursorEnd(keys: set<string>, prefix: string, k: string)
    requires AtCursor(keys, prefix, Some(k)) && !(prefix <= k)
    ensures Before(keys, prefix, Some(k)) == Before(keys, prefix, None)
  {
    forall j | j in keys && prefix <= j
      ensures Less(j, k)
    {
      Trichotomy(j, k);
      if Less(k, j) { PrefixContiguous(prefix, k, j); }
    }
  }
}
