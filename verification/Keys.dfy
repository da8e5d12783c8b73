/**
 * The key order of a Bolt bucket (byte-wise lexicographic) and its cursor:
 * First, Seek and Next return the least key at or above, or above, a point.
 */
module Keys {
  import opened Text

  /** bytes.Compare(a, b) < 0. */
  predicate Less(a: string, b: string) {
    b != "" && (a == "" || a[0] < b[0] || (a[0] == b[0] && Less(a[1..], b[1..])))
  }

  /** A key comes before another if it is a proper prefix of it, or if it has
      the smaller byte where they first differ. */
  lemma {:induction false} LessIff(a: string, b: string)
    ensures Less(a, b) <==> a < b || exists i :: 0 <= i < |a| && i < |b| && a[..i] == b[..i] && a[i] < b[i]
  {
    if a != "" && b != "" && a[0] == b[0] {
      LessIff(a[1..], b[1..]);
      assert a == [a[0]] + a[1..] && b == [b[0]] + b[1..];
      if i :| 0 <= i < |a[1..]| && i < |b[1..]| && a[1..][..i] == b[1..][..i] && a[1..][i] < b[1..][i] {
        assert a[..i + 1] == [a[0]] + a[1..][..i] && b[..i + 1] == [b[0]] + b[1..][..i] && a[i + 1] < b[i + 1];
      }
      if i :| 0 <= i < |a| && i < |b| && a[..i] == b[..i] && a[i] < b[i] {
        assert a[1..][..i - 1] == a[..i][1..] && b[1..][..i - 1] == b[..i][1..] && a[1..][i - 1] < b[1..][i - 1];
      }
    } else if a != "" && b != "" {
      assert a[..0] == b[..0];
      if i :| 0 <= i < |a| && i < |b| && a[..i] == b[..i] && a[i] < b[i] {
        assert i > 0 ==> a[..i][0] == b[..i][0];
      }
    }
  }

  lemma {:induction false} Irreflexive(a: string)
    ensures !Less(a, a)
  {
    if a != "" { Irreflexive(a[1..]); }
  }

  lemma {:induction false} Transitive(a: string, b: string, c: string)
    requires Less(a, b) && Less(b, c)
    ensures Less(a, c)
  {
    if a != "" && a[0] == b[0] == c[0] { Transitive(a[1..], b[1..], c[1..]); }
  }

  lemma {:induction false} Trichotomy(a: string, b: string)
    ensures a == b || Less(a, b) || Less(b, a)
  {
    if a != "" && b != "" && a[0] == b[0] {
      Trichotomy(a[1..], b[1..]);
      assert a == [a[0]] + a[1..] && b == [b[0]] + b[1..];
    }
  }

  lemma Asymmetric(a: string, b: string)
    requires Less(a, b)
    ensures !Less(b, a) && a != b
  {
    Irreflexive(a);
    if Less(b, a) { Transitive(a, b, a); }
  }

  /** No key with prefix p sorts below p. */
  lemma {:induction false} PrefixNotBelow(p: string, k: string)
    requires p <= k
    ensures !Less(k, p)
  {
    if p != "" { PrefixNotBelow(p[1..], k[1..]); }
  }

  /** Keys with prefix p are contiguous: once the walk from p leaves them, it
      has left them for good. */
  lemma {:induction false} PrefixContiguous(p: string, k: string, later: string)
    requires !Less(k, p) && !(p <= k) && Less(k, later)
    ensures !(p <= later)
  {
    if p <= later {
      if k != "" && k[0] == p[0] {
        assert p == [p[0]] + p[1..] && k == [k[0]] + k[1..];
        PrefixContiguous(p[1..], k[1..], later[1..]);
      }
    }
  }

  /** k is the least key of keys. */
  predicate IsLeast(keys: set<string>, k: string) {
    k in keys && forall j :: j in keys ==> !Less(j, k)
  }

  method Least(keys: set<string>) returns (r: Option<string>)
    ensures r.None? <==> keys == {}
    ensures r.Some? ==> IsLeast(keys, r.value)
  {
    if keys == {} {
      return None;
    }
    var k :| k in keys;
    var rest := keys - {k};
    Irreflexive(k);
    while rest != {}
      invariant k in keys && rest <= keys
      invariant forall j :: j in keys - rest ==> !Less(j, k)
      decreases rest
    {
      var j :| j in rest;
      if Less(j, k) {
        forall i | i in keys - rest
          ensures !Less(i, j)
        {
          if Less(i, j) { Transitive(i, j, k); }
        }
        Irreflexive(j);
        k := j;
      }
      rest := rest - {j};
    }
    r := Some(k);
  }

  function From(keys: set<string>, at: string): set<string> {
    set k | k in keys && !Less(k, at)
  }

  function After(keys: set<string>, at: string): set<string> {
    set k | k in keys && Less(at, k)
  }

  /** Cursor.Seek: the first key at or above at. */
  method Seek(keys: set<string>, at: string) returns (r: Option<string>)
    ensures r.None? <==> From(keys, at) == {}
    ensures r.Some? ==> IsLeast(From(keys, at), r.value)
  {
    r := Least(From(keys, at));
  }

  /** Cursor.Next: the first key above the current one. */
  method Next(keys: set<string>, at: string) returns (r: Option<string>)
    ensures r.None? <==> After(keys, at) == {}
    ensures r.Some? ==> IsLeast(After(keys, at), r.value)
  {
    r := Least(After(keys, at));
  }

  predicate Sorted(ks: seq<string>) {
    forall i, j :: 0 <= i < j < |ks| ==> Less(ks[i], ks[j])
  }

  ghost predicate SortedListing(ks: seq<string>, keys: set<string>) {
    Sorted(ks) && forall k :: k in ks <==> k in keys
  }

  lemma {:induction false} ListingSize(a: seq<string>, keys: set<string>)
    requires SortedListing(a, keys)
    ensures |a| == |keys|
  {
    if a == [] {
      assert keys == {};
    } else {
      forall k
        ensures k in a[1..] <==> k in keys - {a[0]}
      {
        ListingTail(a, keys, k);
      }
      ListingSize(a[1..], keys - {a[0]});
      assert a[0] in keys;
    }
  }

  /** A set of keys has one sorted listing. */
  lemma {:induction false} ListingUnique(a: seq<string>, b: seq<string>, keys: set<string>)
    requires SortedListing(a, keys) && SortedListing(b, keys)
    ensures a == b
  {
    ListingSize(a, keys);
    ListingSize(b, keys);
    if a != [] {
      assert a[0] in b;
      var x, y := a[0], b[0];
      assert y in a;
      if x != y {
        var i :| 0 <= i < |a| && a[i] == y;
        var j :| 0 <= j < |b| && b[j] == x;
        Asymmetric(x, y);
      }
      forall k
        ensures k in a[1..] <==> k in keys - {x}
        ensures k in b[1..] <==> k in keys - {x}
      {
        ListingTail(a, keys, k);
        ListingTail(b, keys, k);
      }
      ListingUnique(a[1..], b[1..], keys - {x});
    }
  }

  lemma ListingTail(a: seq<string>, keys: set<string>, k: string)
    requires a != [] && SortedListing(a, keys)
    ensures k in a[1..] <==> k in keys - {a[0]}
  {
    Irreflexive(a[0]);
    if k in a[1..] {
      var i :| 0 <= i < |a[1..]| && a[1..][i] == k;
      assert Less(a[0], a[i + 1]);
    }
    if k in keys - {a[0]} {
      var i :| 0 <= i < |a| && a[i] == k;
      assert a[1..][i - 1] == k;
    }
  }
}
