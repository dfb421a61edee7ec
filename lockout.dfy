/**
 * Brute-force protection: per provider, the number of failed attempts to
 * store a key and the time of the latest one. Five failures lock the
 * provider until more than fifteen minutes have passed since the latest.
 */
module Lockout {
  const MaxFailedAttempts: int := 5
  const LockoutDuration: int := 15 * 60 * 1000

  datatype Attempts = Attempts(count: int, timestamp: int)

  /** The `failedAttempts` map. */
  type Table = map<string, Attempts>

  /** A record older than the lockout duration; checkFailedAttempts discards it. */
  predicate Stale(a: Attempts, now: int) {
    now - a.timestamp > LockoutDuration
  }

  /** What checkFailedAttempts returns, and the table it leaves. */
  datatype Checked = Checked(open: bool, table: Table)

  /**
   * checkFailedAttempts at time `now`: a provider is refused exactly when it
   * has a record with at least five failures that is not stale; a stale
   * record is deleted and nothing else changes.
   */
  function Check(t: Table, provider: string, now: int): (r: Checked)
    ensures !r.open <==> provider in t && t[provider].count >= MaxFailedAttempts && !Stale(t[provider], now)
    ensures r.table == if provider in t && Stale(t[provider], now) then t - {provider} else t
  {
    if provider !in t then Checked(true, t)
    else if Stale(t[provider], now) then Checked(true, t - {provider})
    else Checked(t[provider].count < MaxFailedAttempts, t)
  }

  /**
   * recordFailedAttempt at time `now`: the count goes up by one (from zero
   * when there is no record) and the timestamp becomes `now`, whether or not
   * the old record was stale. Other providers keep their records.
   */
  function Record(t: Table, provider: string, now: int): (r: Table)
    ensures provider in r && r[provider].timestamp == now
    ensures r[provider].count == (if provider in t then t[provider].count else 0) + 1
    ensures forall q :: q != provider ==> (q in r <==> q in t) && (q in t ==> r[q] == t[q])
  {
    var attempts := if provider in t then t[provider] else Attempts(0, now);
    t[provider := Attempts(attempts.count + 1, now)]
  }

  /** recordFailedAttempt called once for each of `times`, in order. */
  function RecordAll(t: Table, provider: string, times: seq<int>): Table {
    if times == [] then t else Record(RecordAll(t, provider, times[..|times| - 1]), provider, times[|times| - 1])
  }

  /**
   * A run of failures adds its length to the count and leaves the timestamp
   * at the last of them.
   */
  lemma {:induction false} RecordAllCounts(t: Table, provider: string, times: seq<int>)
    requires times != []
    ensures provider in RecordAll(t, provider, times)
    ensures RecordAll(t, provider, times)[provider]
         == Attempts((if provider in t then t[provider].count else 0) + |times|, times[|times| - 1])
  {
    if |times| > 1 {
      RecordAllCounts(t, provider, times[..|times| - 1]);
    }
  }

  /**
   * Five failures with no earlier record lock the provider for as long as at
   * most fifteen minutes have passed since the last of them.
   */
  lemma FiveFailuresLock(t: Table, provider: string, times: seq<int>, now: int)
    requires provider !in t && |times| == MaxFailedAttempts
    requires times[|times| - 1] <= now <= times[|times| - 1] + LockoutDuration
    ensures !Check(RecordAll(t, provider, times), provider, now).open
  {
    RecordAllCounts(t, provider, times);
  }

  /**
   * A refused attempt records another failure, which moves the timestamp:
   * the lockout then lasts fifteen minutes from the refusal, not from the
   * failure that first locked the provider.
   */
  lemma RefusalRenewsLockout(t: Table, provider: string, now: int, later: int)
    requires !Check(t, provider, now).open
    requires now <= later <= now + LockoutDuration
    ensures !Check(Record(Check(t, provider, now).table, provider, now), provider, later).open
  {
  }

  /**
   * recordFailedAttempt does not discard a stale record: four old failures
   * and one new failure that is not preceded by a check (an empty key) lock
   * the provider at once.
   */
  lemma StaleFailuresStillCount(t: Table, provider: string, t0: int, now: int)
    requires provider in t && t[provider] == Attempts(4, t0) && now > t0 + LockoutDuration
    ensures Check(t, provider, now).open
    ensures !Check(Record(t, provider, now), provider, now).open
  {
  }
}
