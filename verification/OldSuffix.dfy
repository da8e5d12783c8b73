/**
 * The conflict-loser suffix (default ".old.<N>"): compiling a format, printing
 * and parsing one suffix (homedrive/internal/oldsuffix/oldsuffix.go). A matcher
 * whose literal has a non-digit is a lawful naming scheme in the sense of
 * module Naming; a matcher without one is not.
 */
module OldSuffix {
  import opened Text
  import opened Naming

  const MAX_DEPTH: nat := 64
  const MAX_PROBE: nat := 0x1_0000
  const DEFAULT_FORMAT := ".old.%d"

  datatype Matcher = Matcher(pre: string, post: string)

  datatype FormatError = VerbCount | WrongVerb | EmptyLiteral
  datatype Cut = NotFound | Cut(before: string, after: string)
  datatype NewResult = Compiled(m: Matcher) | BadFormat(err: FormatError)

  function CountPercent(s: string): nat {
    if s == "" then 0 else (if s[0] == '%' then 1 else 0) + CountPercent(s[1..])
  }

  /** strings.Cut at the first "%d". */
  function CutVerb(s: string): (r: Cut)
    ensures r.Cut? ==> s == r.before + "%d" + r.after
    ensures r.NotFound? ==> forall k :: !Occurs(s, "%d", k)
  {
    if |s| < 2 then NotFound
    else if s[..2] == "%d" then Cut("", s[2..])
    else
      var r := CutVerb(s[1..]);
      assert r.NotFound? ==> forall k :: Occurs(s, "%d", k) ==> k == 0 || Occurs(s[1..], "%d", k - 1);
      if r.NotFound? then NotFound else Cut([s[0]] + r.before, r.after)
  }

  function New(format: string): NewResult {
    var f := if format == "" then DEFAULT_FORMAT else format;
    if CountPercent(f) != 1 then BadFormat(VerbCount)
    else match CutVerb(f)
      case NotFound => BadFormat(WrongVerb)
      case Cut(pre, post) =>
        if pre == "" then BadFormat(EmptyLiteral) else Compiled(Matcher(pre, post))
  }

  lemma {:induction false} CountPercentConcat(a: string, b: string)
    ensures CountPercent(a + b) == CountPercent(a) + CountPercent(b)
  {
    if a == "" {
      assert a + b == b;
    } else {
      CountPercentConcat(a[1..], b);
      assert (a + b)[1..] == a[1..] + b;
    }
  }

  lemma {:induction false} PercentFree(s: string)
    requires CountPercent(s) == 0
    ensures forall k :: 0 <= k < |s| ==> s[k] != '%'
  {
    if s != "" { PercentFree(s[1..]); assert s == [s[0]] + s[1..]; }
  }

  /** A format compiles to (pre, post) exactly when it is pre + "%d" + post
      with pre non-empty and no other '%'; compiling loses nothing. */
  lemma CompileExactly(format: string, pre: string, post: string)
    requires format != ""
    ensures New(format) == Compiled(Matcher(pre, post)) <==>
            format == pre + "%d" + post && pre != "" && CountPercent(pre) == 0 && CountPercent(post) == 0
  {
    if format == pre + "%d" + post {
      CountPercentConcat(pre + "%d", post);
      CountPercentConcat(pre, "%d");
      assert CountPercent("%d") == 1 + CountPercent("d") == 1 + 0 by {
        assert "%d"[1..] == "d" && "d"[1..] == "";
      }
      if CountPercent(format) == 1 {
        CutUnique(format, pre, post);
      }
    }
  }

  lemma CutUnique(s: string, pre: string, post: string)
    requires s == pre + "%d" + post && CountPercent(pre) == 0 && CountPercent(post) == 0
    ensures CutVerb(s) == Cut(pre, post)
  {
    assert Occurs(s, "%d", |pre|);
    var r := CutVerb(s);
    var a, b := r.before, r.after;
    PercentFree(pre);
    PercentFree(post);
    forall k | 0 <= k < |s| && k != |pre|
      ensures s[k] != '%'
    {
      if k < |pre| {
        assert s[k] == pre[k];
      } else if k > |pre| + 1 {
        assert s[k] == post[k - |pre| - 2];
      }
    }
    assert s[|a|] == '%' && s[|pre|] == '%';
    assert s[..|a|] == a && s[..|pre|] == pre;
    assert s[|a| + 2..] == b && s[|pre| + 2..] == post;
  }

  // ---------------------------------------------------------------------
  // Printing and parsing one suffix
  // ---------------------------------------------------------------------

  function Format(m: Matcher, base: string, n: nat): (p: string)
    ensures |p| > |base| && base <= p
  {
    base + m.pre + Itoa(n) + m.post
  }

  /** The number a suffix may carry: digits only, no leading zero, a positive
      int. None is every case the code rejects, an out-of-range Atoi included. */
  function ParseNumber(digits: string): (r: Option<nat>)
    ensures r.Some? ==> 1 <= r.value <= MAX_INT && digits != ""
  {
    if digits == "" then None
    else if !AllDigits(digits) then None
    else if |digits| > 1 && digits[0] == '0' then None
    else match Atoi(digits)
      case None => None
      case Some(n) => if n < 1 then None else Some(n)
  }

  /** Strips exactly one trailing suffix. */
  function TrimOne(m: Matcher, path: string): (r: Trimmed)
    ensures r.Suffixed? ==> r.base != "" && 1 <= r.n <= MAX_INT && |r.base| < |path|
  {
    if !HasSuffix(path, m.post) then Plain
    else
      var rest := path[..|path| - |m.post|];
      TrimAt(m, rest, LastIndex(rest, m.pre))
  }

  /** Reads the base before the literal found at i and the number after it. */
  function TrimAt(m: Matcher, rest: string, i: int): (r: Trimmed)
    requires i == -1 || Occurs(rest, m.pre, i)
    ensures r.Suffixed? ==> r.base != "" && 1 <= r.n <= MAX_INT && |r.base| < |rest|
  {
    if i < 0 then Plain
    else match ParseNumber(rest[i + |m.pre|..])
      case None => Plain
      case Some(n) => if i == 0 then Plain else Suffixed(rest[..i], n)
  }

  /** Whatever parses is printed back unchanged. */
  lemma PrintOfParse(m: Matcher, path: string)
    requires TrimOne(m, path).Suffixed?
    ensures Format(m, TrimOne(m, path).base, TrimOne(m, path).n) == path
  {
    var rest := path[..|path| - |m.post|];
    var i := LastIndex(rest, m.pre);
    var digits := rest[i + |m.pre|..];
    assert ParseNumber(digits).Some?;
    ItoaOfParseNumber(digits);
    hide ParseNumber, Itoa;
    SplitAt(rest, m.pre, i);
    assert path == rest + m.post;
  }

  /** No copy of the literal starts inside the printed number: the position at
      which a parser finds the literal last is the position it was printed at. */
  ghost predicate ParsesBack(m: Matcher, n: nat) {
    forall k :: k > 0 ==> !Occurs(m.pre + Itoa(n), m.pre, k)
  }

  /** Printing then parsing returns the same base and number, for every base,
      exactly when the literal does not recur inside literal + number. */
  lemma RoundTrip(m: Matcher, n: nat, base: string)
    requires base != "" && 1 <= n <= MAX_INT
    ensures TrimOne(m, Format(m, base, n)) == Suffixed(base, n) <==> ParsesBack(m, n)
  {
    ParseNumberOfItoa(n);
    TrimOneOfParts(m, base, Itoa(n));
    LiteralRecurs(m, Itoa(n));
  }

  lemma LiteralRecurs(m: Matcher, num: string)
    ensures LastIndex(m.pre + num, m.pre) >= 0
    ensures LastIndex(m.pre + num, m.pre) == 0 <==> forall k :: k > 0 ==> !Occurs(m.pre + num, m.pre, k)
  {
    assert Occurs(m.pre + num, m.pre, 0);
  }

  /** Parsing base + literal + digits + tail text depends only on where the
      literal occurs last in literal + digits. */
  lemma TrimOneOfParts(m: Matcher, base: string, num: string)
    requires base != ""
    ensures var j, r := LastIndex(m.pre + num, m.pre), TrimOne(m, base + m.pre + num + m.post);
            && (j == 0 && ParseNumber(num).Some? ==> r == Suffixed(base, ParseNumber(num).value))
            && (j != 0 ==> r.Plain? || r.base != base)
  {
    hide ParseNumber;
    var tail := m.pre + num;
    var rest := base + tail;
    var j := LastIndex(tail, m.pre);
    assert base + m.pre + num == rest;
    TrimOneOfConcat(m, rest);
    assert Occurs(tail, m.pre, 0);
    LastIndexConcat(base, tail, m.pre);
    assert |rest[..|base| + j]| == |base| + j;
    if j == 0 {
      assert rest[|base| + |m.pre|..] == num && rest[..|base|] == base;
    }
  }

  lemma TrimOneOfConcat(m: Matcher, rest: string)
    ensures TrimOne(m, rest + m.post) == TrimAt(m, rest, LastIndex(rest, m.pre))
  {
    assert (rest + m.post)[..|rest|] == rest && (rest + m.post)[|rest|..] == m.post;
  }

  lemma SplitAt(s: string, sub: string, i: int)
    requires Occurs(s, sub, i)
    ensures s == s[..i] + sub + s[i + |sub|..]
  {
  }

  lemma ItoaOfParseNumber(digits: string)
    requires ParseNumber(digits).Some?
    ensures Itoa(ParseNumber(digits).value) == digits
  {
    PrintValue(digits);
  }

  lemma ParseNumberOfItoa(n: nat)
    requires 1 <= n <= MAX_INT
    ensures ParseNumber(Itoa(n)) == Some(n)
  {
  }

  /** The literal has a byte that is not a digit. */
  predicate Unambiguous(m: Matcher) {
    !AllDigits(m.pre)
  }

  lemma NonDigitParsesBack(m: Matcher, n: nat)
    requires Unambiguous(m)
    ensures ParsesBack(m, n)
  {
    var tail := m.pre + Itoa(n);
    var j := LastNonDigit(m.pre);
    forall k | 0 < k <= |tail| - |m.pre|
      ensures !Occurs(tail, m.pre, k)
    {
      assert IsDigit(tail[k + j]) by {
        if k + j < |m.pre| { assert tail[k + j] == m.pre[k + j]; }
      }
      assert tail[k..k + |m.pre|][j] == tail[k + j];
    }
  }

  function LastNonDigit(s: string): (j: nat)
    requires !AllDigits(s)
    ensures j < |s| && !IsDigit(s[j]) && AllDigits(s[j + 1..])
    ensures forall k :: j < k < |s| ==> IsDigit(s[k])
  {
    if !IsDigit(s[|s| - 1]) then |s| - 1
    else
      assert s == s[..|s| - 1] + [s[|s| - 1]];
      LastNonDigit(s[..|s| - 1])
  }

  /** Every literal with a non-digit round-trips on every base and number. */
  lemma ParseOfPrint(m: Matcher, base: string, n: nat)
    requires Unambiguous(m) && base != "" && 1 <= n <= MAX_INT
    ensures TrimOne(m, Format(m, base, n)) == Suffixed(base, n)
  {
    NonDigitParsesBack(m, n);
    RoundTrip(m, n, base);
  }

  /** A literal of digits alone, which New accepts, breaks parsing: the number
      "1" followed by the literal's own digits is read at the wrong place. */
  lemma DigitLiteralFails(m: Matcher, base: string, n: nat)
    requires m.pre != "" && AllDigits(m.pre) && base != "" && 1 <= n <= MAX_INT
    requires Itoa(n) == "1" + m.pre
    ensures New(m.pre + "%d") == Compiled(Matcher(m.pre, ""))
    ensures !ParsesBack(m, n) && TrimOne(m, Format(m, base, n)) != Suffixed(base, n)
  {
    var tail := m.pre + Itoa(n);
    assert tail[|m.pre| + 1..|m.pre| + 1 + |m.pre|] == m.pre;
    assert Occurs(tail, m.pre, |m.pre| + 1);
    RoundTrip(m, n, base);
    NoPercent(m.pre);
    assert m.pre + "%d" == m.pre + "%d" + "";
    CompileExactly(m.pre + "%d", m.pre, "");
  }

  lemma {:induction false} NoPercent(s: string)
    requires forall k :: 0 <= k < |s| ==> s[k] != '%'
    ensures CountPercent(s) == 0
  {
    if s != "" { NoPercent(s[1..]); }
  }

  /** The naming scheme the sync engine works with, for a compiled matcher. */
  function SchemeOf(m: Matcher): Scheme {
    Scheme(p => TrimOne(m, p), (b: string, n: nat) => Format(m, b, n), m.pre, MAX_DEPTH, MAX_PROBE)
  }

  /** Every matcher whose literal has a non-digit obeys the naming laws. */
  lemma MatcherIsLawful(m: Matcher)
    requires Unambiguous(m)
    ensures Lawful(SchemeOf(m))
  {
    var s := SchemeOf(m);
    forall b: string, n: nat | b != "" && 1 <= n <= MAX_INT
      ensures s.trim(s.format(b, n)) == Suffixed(b, n)
    {
      ParseOfPrint(m, b, n);
    }
    forall p | s.trim(p).Suffixed?
      ensures s.format(s.trim(p).base, s.trim(p).n) == p
    {
      PrintOfParse(m, p);
    }
    forall b: string, n: nat
      ensures b + s.pre <= s.format(b, n)
    {
      assert s.format(b, n) == (b + s.pre) + (Itoa(n) + m.post);
    }
  }

  /** The default ".old.%d" compiles, and to a lawful scheme. */
  lemma DefaultIsLawful()
    ensures New("") == New(DEFAULT_FORMAT) == Compiled(Matcher(".old.", ""))
    ensures Lawful(SchemeOf(Matcher(".old.", "")))
  {
    assert DEFAULT_FORMAT == ".old." + "%d" + "";
    assert CountPercent(".old.") == 0 by { NoPercent(".old."); }
    CompileExactly(DEFAULT_FORMAT, ".old.", "");
    assert !IsDigit(".old."[0]);
    MatcherIsLawful(Matcher(".old.", ""));
  }
}
