/**
 * Byte strings with the meaning of the Go standard library calls the agent
 * relies on: strings.LastIndex, strconv.Itoa and strconv.Atoi on a 64-bit int.
 * A string is a sequence of bytes, one char per byte.
 */
module Text {
  datatype Option<+T> = None | Some(value: T)

  const MAX_INT: nat := 0x7FFF_FFFF_FFFF_FFFF

  predicate HasSuffix(s: string, t: string) {
    |t| <= |s| && s[|s| - |t|..] == t
  }

  /** True iff sub starts at position k of s. */
  predicate Occurs(s: string, sub: string, k: int) {
    0 <= k <= |s| - |sub| && s[k..k + |sub|] == sub
  }

  /** The last position at which sub starts in s, or -1. */
  function LastIndex(s: string, sub: string): (i: int)
    ensures i == -1 || Occurs(s, sub, i)
    ensures forall k :: Occurs(s, sub, k) ==> k <= i
  {
    LastIndexFrom(s, sub, |s| - |sub|)
  }

  function LastIndexFrom(s: string, sub: string, hi: int): (i: int)
    requires hi <= |s| - |sub|
    ensures i == -1 || Occurs(s, sub, i)
    ensures forall k :: Occurs(s, sub, k) && k <= hi ==> k <= i
    decreases hi + 1
  {
    if hi < 0 then -1
    else if Occurs(s, sub, hi) then hi
    else LastIndexFrom(s, sub, hi - 1)
  }

  lemma OccursConcat(a: string, b: string, sub: string, k: int)
    requires k >= 0
    ensures Occurs(a + b, sub, |a| + k) <==> Occurs(b, sub, k)
  {
    if k <= |b| - |sub| {
      assert (a + b)[|a| + k..|a| + k + |sub|] == b[k..k + |sub|];
    }
  }

  lemma LastIndexConcat(a: string, b: string, sub: string)
    requires Occurs(b, sub, 0)
    ensures LastIndex(a + b, sub) == |a| + LastIndex(b, sub)
  {
    var i, j := LastIndex(a + b, sub), LastIndex(b, sub);
    OccursConcat(a, b, sub, 0);
    OccursConcat(a, b, sub, j);
    OccursConcat(a, b, sub, i - |a|);
  }

  predicate IsDigit(c: char) { '0' <= c <= '9' }

  predicate AllDigits(s: string) {
    forall k :: 0 <= k < |s| ==> IsDigit(s[k])
  }

  /** A numeral strconv.Itoa could have printed: no sign, no leading zero. */
  predicate Canonical(s: string) {
    s != "" && AllDigits(s) && (|s| > 1 ==> s[0] != '0')
  }

  function Itoa(n: nat): (s: string)
    ensures Canonical(s)
    ensures Value(s) == n
    ensures n > 0 ==> s[0] != '0'
  {
    if n < 10 then [('0' as int + n) as char]
    else
      var s := Itoa(n / 10) + [('0' as int + n % 10) as char];
      assert s[..|s| - 1] == Itoa(n / 10);
      s
  }

  function Value(s: string): nat
    requires AllDigits(s)
  {
    if s == "" then 0
    else Value(s[..|s| - 1]) * 10 + (s[|s| - 1] as int - '0' as int)
  }

  /** strconv.Atoi on a non-empty digit string; None is ErrRange. */
  function Atoi(s: string): Option<nat>
    requires AllDigits(s)
  {
    if Value(s) <= MAX_INT then Some(Value(s)) else None
  }

  /** A number has one canonical numeral, so no two names share a number. */
  lemma {:induction false} PrintValue(s: string)
    requires Canonical(s)
    ensures Itoa(Value(s)) == s
  {
    var last := s[|s| - 1] as int - '0' as int;
    if |s| == 1 {
      assert Value(s[..0]) == 0;
      assert s == [s[0]];
    } else {
      var t := s[..|s| - 1];
      PrintValue(t);
      PositiveValue(t);
      assert Value(s) / 10 == Value(t) && Value(s) % 10 == last;
      assert s == t + [s[|s| - 1]];
    }
  }

  lemma {:induction false} PositiveValue(s: string)
    requires s != "" && AllDigits(s) && s[0] != '0'
    ensures Value(s) > 0
  {
    if |s| > 1 {
      PositiveValue(s[..|s| - 1]);
    } else {
      assert Value(s[..0]) == 0;
    }
  }
}
