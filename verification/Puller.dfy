/**
 * One pull cycle over the persisted page token, and the delay before the next
 * one (homedrive/internal/syncer/puller.go). The remote's answers are inputs.
 */
module Puller {
  import opened Text
  import opened Pull

  const OAUTH_BACKOFF_MAX: nat := 1_800_000_000_000  // 30 minutes

  /** What ListChanges answers. The first two failures mean the token is
      unusable: they reset it. */
  datatype Answer = Listed(items: seq<Change>, next: string) | Unlisted(failure: Failure)

  datatype Failure = Gone | TokenRejected | OAuthClientMissing | OtherFailure

  datatype Outcome = Finished | TokenFailed | ListFailed | Cancelled

  predicate ResetWorthy(a: Answer) { a == Unlisted(Gone) || a == Unlisted(TokenRejected) }

  function Pow2(k: nat): nat {
    if k == 0 then 1 else 2 * Pow2(k - 1)
  }

  lemma {:induction false} Pow2Grows(j: nat, k: nat)
    requires j <= k
    ensures 1 <= Pow2(j) <= Pow2(k)
  {
    if j < k { Pow2Grows(j, k - 1); } else if k > 0 { Pow2Grows(k - 1, k - 1); }
  }

  function Min(a: nat, b: nat): nat { if a < b then a else b }

  /** The delay after streak consecutive OAuth failures. */
  function Delay(interval: nat, streak: nat): nat {
    if streak == 0 then interval else Min(interval * Pow2(streak - 1), OAUTH_BACKOFF_MAX)
  }

  /** The configured interval without a failure; with each failure in a row
      after the first the delay doubles, up to the cap. */
  lemma DelayDoubles(interval: nat, streak: nat)
    ensures Delay(interval, 0) == interval && Delay(interval, 1) == Min(interval, OAUTH_BACKOFF_MAX)
    ensures streak > 0 ==> Delay(interval, streak + 1) == Min(2 * Delay(interval, streak), OAUTH_BACKOFF_MAX)
  {
    assert Pow2(0) == 1;
    if streak > 0 {
      assert Pow2(streak) == 2 * Pow2(streak - 1);
      var d := interval * Pow2(streak - 1);
      assert interval * Pow2(streak) == 2 * d;
    }
  }

  predicate Slows(interval: nat, j: nat, k: nat) { Delay(interval, j) <= Delay(interval, k) }

  lemma LongerStreaksWaitLonger(interval: nat, j: nat, k: nat)
    requires 0 < interval <= OAUTH_BACKOFF_MAX && j <= k
    ensures Slows(interval, j, k)
  {
    if j > 0 {
      Pow2Grows(j - 1, k - 1);
      Scale(interval, Pow2(j - 1), Pow2(k - 1));
    } else if k > 0 {
      Pow2Grows(0, k - 1);
      Scale(interval, 1, Pow2(k - 1));
    }
  }

  /** Backing off never polls sooner, and longer streaks never sooner than
      shorter ones, exactly when the configured interval is within the cap;
      beyond it the first failure makes the next poll come early. */
  lemma BackoffSlowsDown(interval: nat)
    requires interval > 0
    ensures interval <= OAUTH_BACKOFF_MAX <==> forall j: nat, k: nat :: j <= k ==> Slows(interval, j, k)
  {
    if interval <= OAUTH_BACKOFF_MAX {
      forall j: nat, k: nat | j <= k
        ensures Slows(interval, j, k)
      {
        LongerStreaksWaitLonger(interval, j, k);
      }
    } else {
      assert !Slows(interval, 0, 1) by { assert Pow2(0) == 1; }
    }
  }

  lemma Scale(a: nat, x: nat, y: nat)
    requires x <= y
    ensures a * x <= a * y
  {
  }

  class Puller {
    const interval: nat
    var pageToken: string
    var oauthMissingStreak: nat
    var handed: seq<Change>

    constructor (interval: nat, token: string)
      requires interval > 0
      ensures this.interval == interval && pageToken == token && oauthMissingStreak == 0 && handed == []
    {
      this.interval, pageToken, oauthMissingStreak, handed := interval, token, 0, [];
    }

    /** Doubles per consecutive failure, up to the cap. */
    method NextPollInterval() returns (d: nat)
      requires interval > 0
      ensures d == Delay(interval, oauthMissingStreak)
    {
      if oauthMissingStreak == 0 {
        return interval;
      }
      d := interval;
      var i := 1;
      while i < oauthMissingStreak && d < OAUTH_BACKOFF_MAX
        invariant 1 <= i <= oauthMissingStreak
        invariant d == interval * Pow2(i - 1)
      {
        d := d * 2;
        i := i + 1;
      }
      if i < oauthMissingStreak {
        Pow2Grows(i - 1, oauthMissingStreak - 1);
        Scale(interval, Pow2(i - 1), Pow2(oauthMissingStreak - 1));
      }
      if d > OAUTH_BACKOFF_MAX {
        d := OAUTH_BACKOFF_MAX;
      }
    }

    /** One cycle. mints are the start tokens the remote would give, if any, on
        the first request and on a reset; retried is the answer to the list
        call after a reset; cancelAt is the item before which the context is
        cancelled. The token moves past a listing only when every item of that
        listing was handed on; otherwise it is the old one or a fresh start
        token, and the items handed on are a prefix of the listing. */
    method Poll(mints: Option<string>, answer: Answer, resetMints: Option<string>, retried: Answer, cancelAt: nat)
      returns (outcome: Outcome)
      modifies this
      ensures var start := if old(pageToken) != "" then Some(old(pageToken)) else mints;
              var last := if ResetWorthy(answer) then retried else answer;
              var listing := start.Some? && last.Listed? && (ResetWorthy(answer) ==> resetMints.Some?);
              var base := if start.None? then old(pageToken)
                          else if ResetWorthy(answer) && resetMints.Some? then resetMints.value
                          else start.value;
              && (outcome == TokenFailed <==> start.None?)
              && (outcome == ListFailed <==> start.Some? && !listing)
              && (outcome == Cancelled <==> listing && cancelAt < |last.items|)
              && (outcome == Finished <==> listing && cancelAt >= |last.items|)
              && (outcome == Finished ==>
                    handed == old(handed) + last.items && pageToken == (if last.next != "" then last.next else base))
              && (outcome == Cancelled ==> handed == old(handed) + last.items[..cancelAt] && pageToken == base)
              && (outcome == TokenFailed || outcome == ListFailed ==> handed == old(handed) && pageToken == base)
              && (start.None? ==> oauthMissingStreak == old(oauthMissingStreak))
              && (start.Some? ==> oauthMissingStreak == if answer == Unlisted(OAuthClientMissing) then old(oauthMissingStreak) + 1 else 0)
    {
      if pageToken == "" {
        if mints.None? {
          return TokenFailed;
        }
        pageToken := mints.value;
      }
      var changes := answer;
      oauthMissingStreak := if answer == Unlisted(OAuthClientMissing) then oauthMissingStreak + 1 else 0;
      if ResetWorthy(answer) {
        if resetMints.None? {
          return ListFailed;
        }
        pageToken := resetMints.value;
        changes := retried;
      }
      if !changes.Listed? {
        return ListFailed;
      }
      var i := 0;
      ghost var handed0, token := handed, pageToken;
      while i < |changes.items|
        invariant i <= |changes.items| && i <= cancelAt
        invariant handed == handed0 + changes.items[..i]
        invariant pageToken == token && oauthMissingStreak == 0
        decreases |changes.items| - i
      {
        if i == cancelAt {
          return Cancelled;
        }
        handed := handed + [changes.items[i]];
        assert changes.items[..i + 1] == changes.items[..i] + [changes.items[i]];
        i := i + 1;
      }
      assert changes.items[..i] == changes.items;
      if changes.next != "" {
        pageToken := changes.next;
      }
      outcome := Finished;
    }
  }
}
