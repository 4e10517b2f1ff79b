/**
 The outbox shipper's delivery records: edge/pi-outbox-shipper/shipper/state.py. Times are
 seconds on one clock; the sqlite table is a map from file names.
 */
module DeliveryRecords {
  import opened Prelude

  type Name = string

  datatype Status = Pending | Retry | Sent

  datatype Record = Record(status: Status, attempts: nat, nextRetry: Option<nat>)

  type Records = map<Name, Record>

  /** The tables agree on every other name. */
  ghost predicate OthersSame(a: Records, b: Records, name: Name) {
    && (forall n | n != name :: n in a <==> n in b)
    && (forall n | n != name && n in a :: a[n] == b[n])
  }

  function Ensured(rs: Records, name: Name): (r: Records)
    ensures name in r && OthersSame(rs, r, name)
    ensures name in rs ==> r == rs
  {
    if name in rs then rs else rs[name := Record(Pending, 0, None)]
  }

  function Retried(rs: Records, name: Name, now: nat, backoff: nat): (r: Records)
    ensures OthersSame(rs, r, name)
  {
    var current := Ensured(rs, name);
    current[name := Record(Retry, current[name].attempts + 1, Some(now + backoff))]
  }

  function MarkedSent(rs: Records, name: Name): (r: Records)
    ensures OthersSame(rs, r, name)
  {
    var current := Ensured(rs, name);
    current[name := current[name].(status := Sent, nextRetry := None)]
  }

  /** A file is tried unless it was sent or waits for its next retry. */
  predicate Due(rs: Records, name: Name, now: nat) {
    name !in rs
    || (rs[name].status != Sent && (rs[name].nextRetry.None? || rs[name].nextRetry.value <= now))
  }

  // ---------- backoff ----------

  function Power2(n: nat): (p: nat)
    ensures p > n
  {
    if n == 0 then 1 else 2 * Power2(n - 1)
  }

  /** compute_backoff_seconds: doubling from the initial delay, with the exponent and the result capped. */
  function Backoff(attempt: int, initial: nat, limit: nat): nat {
    Min(initial * Power2(Min(Max(1, attempt) - 1, 20)), limit)
  }

  lemma {:induction false} Power2Monotone(m: nat, n: nat)
    requires m <= n
    ensures Power2(m) <= Power2(n)
  {
    if m < n {
      Power2Monotone(m, n - 1);
    }
  }

  lemma TimesMonotone(k: nat, a: nat, b: nat)
    requires a <= b
    ensures k * a <= k * b
  {
  }

  /** A later attempt never waits for less. */
  lemma BackoffMonotone(a: int, b: int, initial: nat, limit: nat)
    requires a <= b
    ensures Backoff(a, initial, limit) <= Backoff(b, initial, limit) <= limit
  {
    var m, n := Min(Max(1, a) - 1, 20), Min(Max(1, b) - 1, 20);
    Power2Monotone(m, n);
    TimesMonotone(initial, Power2(m), Power2(n));
  }

  /** Until a cap is reached each attempt waits twice as long as the one before. */
  lemma BackoffDoubles(attempt: int, initial: nat, limit: nat)
    requires 1 <= attempt <= 20 && Backoff(attempt + 1, initial, limit) < limit
    ensures Backoff(attempt + 1, initial, limit) == 2 * Backoff(attempt, initial, limit)
  {
    var p := Power2(attempt - 1);
    assert Power2(attempt) == 2 * p;
    assert initial * (2 * p) == 2 * (initial * p);
  }

  /** The first wait is the initial delay, the exponent stops at 20, and no wait exceeds the limit. */
  lemma BackoffEnds(attempt: int, initial: nat, limit: nat)
    ensures attempt <= 1 ==> Backoff(attempt, initial, limit) == Min(initial, limit)
    ensures attempt >= 21 ==> Backoff(attempt, initial, limit) == Min(1048576 * initial, limit)
  {
    assert Power2(10) == 1024;
    Power2Splits(10, 10);
  }

  lemma {:induction false} Power2Splits(m: nat, n: nat)
    ensures Power2(m + n) == Power2(m) * Power2(n)
  {
    if m > 0 {
      Power2Splits(m - 1, n);
      assert 2 * (Power2(m - 1) * Power2(n)) == (2 * Power2(m - 1)) * Power2(n);
    }
  }

  /** A file that just failed is not due before its backoff is over, and due from then on unless marked again. */
  lemma RetryWaits(rs: Records, name: Name, now: nat, backoff: nat, later: nat)
    ensures Due(Retried(rs, name, now, backoff), name, later) <==> later >= now + backoff
    ensures !Due(MarkedSent(rs, name), name, later)
  {
  }

  /** A name without a record is due at once and has no failure behind it. */
  lemma NewNamesAreDue(rs: Records, name: Name, now: nat)
    requires name !in rs
    ensures Ensured(rs, name)[name].attempts == 0 && Ensured(rs, name)[name].status == Pending
    ensures Due(rs, name, now) && Due(Ensured(rs, name), name, now)
  {
  }

  /** Every failure counts one attempt, whatever came before; being sent counts none. */
  lemma FailuresAreCounted(rs: Records, name: Name, now: nat, backoff: nat)
    ensures var before := if name in rs then rs[name].attempts else 0;
            && Retried(rs, name, now, backoff)[name].attempts == before + 1
            && MarkedSent(rs, name)[name].attempts == before
  {
  }

  /** The deliveries table. */
  class DeliveryStateStore {
    var records: Records

    constructor ()
      ensures records == map[]
    {
      records := map[];
    }

    method EnsureRecord(name: Name) returns (r: Record)
      modifies this
      ensures records == Ensured(old(records), name) && r == records[name]
    {
      if name !in records {
        records := records[name := Record(Pending, 0, None)];
      }
      r := records[name];
    }

    method MarkRetry(name: Name, now: nat, backoff: nat)
      modifies this
      ensures records == Retried(old(records), name, now, backoff)
    {
      var current := EnsureRecord(name);
      records := records[name := Record(Retry, current.attempts + 1, Some(now + backoff))];
    }

    method MarkSent(name: Name)
      modifies this
      ensures records == MarkedSent(old(records), name)
    {
      var current := EnsureRecord(name);
      records := records[name := current.(status := Sent, nextRetry := None)];
    }

    method DueForSend(name: Name, now: nat) returns (due: bool)
      ensures due == Due(records, name, now)
    {
      if name !in records {
        return true;
      }
      var record := records[name];
      if record.status == Sent {
        return false;
      }
      if record.nextRetry.None? {
        return true;
      }
      due := record.nextRetry.value <= now;
    }
  }
}
