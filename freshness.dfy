/**
 The freshness engine of the Postgres cache: the envelope `Store` writes and the
 decision `Load` takes when it reads one back (fresh, stale but reusable, expired).

 Instants are integers counting nanoseconds since Go's zero `time.Time`, so an envelope
 whose `CreatedAt` was never set carries instant 0. Durations are Go `time.Duration`
 values, i.e. 64-bit nanosecond counts.
 */
module Freshness {
  import opened Base

  type Duration = int64
  type Bytes = seq<byte>

  /** The zero `time.Time`, which an unstamped envelope carries. */
  const ZeroTime: int := 0

  /** The three windows of a cache instance. */
  datatype Policy = Policy(ttl: Duration, errTtl: Duration, reuseTtl: Duration)

  /** `pgData`: the gob-encoded value, the error text if the call failed, the creation instant. */
  datatype Envelope = Envelope(data: Bytes, err: Option<string>, createdAt: int)

  datatype State = Fresh | Stale | Expired

  /** The four results of `Load`. */
  datatype LoadResult = LoadResult(value: Option<Bytes>, hasCache: bool, alive: bool, err: Option<string>)

  const Miss := LoadResult(None, false, false, None)

  /** `time.Since(t)` at instant `now`: the difference, saturated to the range of a Duration. */
  function Since(now: int, t: int): (d: Duration)
    ensures d == now - t || (d == MaxInt64 && now - t > MaxInt64) || (d == MinInt64 && now - t < MinInt64)
  {
    var d := now - t;
    if d > MaxInt64 then MaxInt64 else if d < MinInt64 then MinInt64 else d
  }

  /** Go's `+` on two Durations, which wraps around modulo 2^64. */
  function WrapAdd(a: Duration, b: Duration): (s: Duration)
    ensures (s - (a + b)) % 0x1_0000_0000_0000_0000 == 0
  {
    var sum := a + b;
    if sum > MaxInt64 then sum - 0x1_0000_0000_0000_0000
    else if sum < MinInt64 then sum + 0x1_0000_0000_0000_0000
    else sum
  }

  /** The expiry test of `Load`: past the success window, or an error past the error window. */
  function IsExpired(p: Policy, elapsed: int, hasErr: bool): (b: bool)
    ensures !hasErr ==> (b <==> p.ttl > 0 && elapsed > p.ttl)
    ensures p.ttl > 0 && elapsed > p.ttl ==> b
    ensures hasErr && p.errTtl < 0 ==> (b <==> p.ttl > 0 && elapsed > p.ttl)
    ensures hasErr && p.errTtl >= 0 && elapsed > p.errTtl ==> b
  {
    (p.ttl > 0 && elapsed > p.ttl) || (p.errTtl >= 0 && hasErr && elapsed > p.errTtl)
  }

  /** The decision as written: the reuse window end `reuseTtl + ttl` is a wrapping int64 sum. */
  function ClassifyAsWritten(p: Policy, elapsed: int, hasErr: bool): (s: State)
    ensures s == Fresh <==> !IsExpired(p, elapsed, hasErr)
    ensures s == Stale ==> p.reuseTtl > 0 && elapsed < WrapAdd(p.reuseTtl, p.ttl)
  {
    if IsExpired(p, elapsed, hasErr) then
      if p.reuseTtl > 0 && elapsed < WrapAdd(p.reuseTtl, p.ttl) then Stale else Expired
    else
      Fresh
  }

  /** The decision with the reuse window end computed exactly, as evidently intended. */
  function Classify(p: Policy, elapsed: int, hasErr: bool): (s: State)
    ensures s == Fresh <==> !IsExpired(p, elapsed, hasErr)
    ensures s == Stale ==> p.reuseTtl > 0 && elapsed < p.ttl + p.reuseTtl
  {
    if IsExpired(p, elapsed, hasErr) then
      if p.reuseTtl > 0 && elapsed < p.reuseTtl + p.ttl then Stale else Expired
    else
      Fresh
  }

  /** Where the sum does not overflow, the two decisions agree. */
  lemma ClassifyAgreesWithoutOverflow(p: Policy, elapsed: int, hasErr: bool)
    requires p.reuseTtl + p.ttl <= MaxInt64
    ensures ClassifyAsWritten(p, elapsed, hasErr) == Classify(p, elapsed, hasErr)
  {
  }

  /**
   A "keep forever" ttl of MaxInt64 with errors cached for 1ns and a reuse window of
   1ns: the error entry `Store` writes is read back 2ns later, one nanosecond past its
   error window. It should be reusable, but the wrapped sum is negative and the code
   reports a miss.
   */
  lemma AsWrittenReuseOverflow(data: Bytes, msg: string, t0: int)
    ensures var p := Policy(MaxInt64, 1, 1);
      var row := NewEnvelope(p, Some(data), Some(msg), t0);
      && row.Some? && row.value.createdAt == t0
      && Lookup(p, row, t0 + 2, None, None) == Miss
      && ClassifyAsWritten(p, 2, true) == Expired
      && Classify(p, 2, true) == Stale
  {
  }

  /** How far along the three states an entry is. */
  function Rank(s: State): (n: nat) {
    match s
    case Fresh => 0
    case Stale => 1
    case Expired => 2
  }

  /** In both versions, the decision is a function of elapsed time that only ever moves forward. */
  lemma ClassifyMonotone(p: Policy, e1: int, e2: int, hasErr: bool)
    requires e1 <= e2
    ensures Rank(ClassifyAsWritten(p, e1, hasErr)) <= Rank(ClassifyAsWritten(p, e2, hasErr))
    ensures Rank(Classify(p, e1, hasErr)) <= Rank(Classify(p, e2, hasErr))
  {
  }

  /**
   Inclusive boundaries, in both versions: an entry exactly `ttl` old is fresh; with
   `ttl == 0` successes never expire.
   */
  lemma SuccessExpiry(p: Policy, elapsed: int)
    ensures ClassifyAsWritten(p, elapsed, false) == Fresh <==> p.ttl <= 0 || elapsed <= p.ttl
    ensures p.ttl > 0 ==> ClassifyAsWritten(p, p.ttl, false) == Fresh
    ensures p.ttl == 0 ==> ClassifyAsWritten(p, elapsed, false) == Fresh
    ensures Classify(p, elapsed, false) == Fresh <==> p.ttl <= 0 || elapsed <= p.ttl
    ensures p.ttl > 0 ==> Classify(p, p.ttl, false) == Fresh
    ensures p.ttl == 0 ==> Classify(p, elapsed, false) == Fresh
  {
  }

  /** In both versions, an error entry expires once past either window that is active. */
  lemma ErrorExpiry(p: Policy, elapsed: int)
    ensures ClassifyAsWritten(p, elapsed, true) == Fresh <==>
      (p.ttl <= 0 || elapsed <= p.ttl) && (p.errTtl < 0 || elapsed <= p.errTtl)
    ensures Classify(p, elapsed, true) == Fresh <==>
      (p.ttl <= 0 || elapsed <= p.ttl) && (p.errTtl < 0 || elapsed <= p.errTtl)
  {
  }

  /**
   The three states of a success entry with both windows set: fresh up to `ttl`
   inclusive, stale strictly inside the reuse window, expired from `ttl + reuseTtl` on.
   */
  lemma {:induction false} ThreeStates(p: Policy, elapsed: int)
    requires p.ttl > 0 && p.reuseTtl > 0
    ensures Classify(p, elapsed, false) == Fresh <==> elapsed <= p.ttl
    ensures Classify(p, elapsed, false) == Stale <==> p.ttl < elapsed < p.ttl + p.reuseTtl
    ensures Classify(p, elapsed, false) == Expired <==> elapsed >= p.ttl + p.reuseTtl
  {
  }

  /** Without a reuse window nothing is ever stale, in either version: expired means a miss. */
  lemma NoReuseNoStale(p: Policy, elapsed: int, hasErr: bool)
    requires p.reuseTtl <= 0
    ensures ClassifyAsWritten(p, elapsed, hasErr) != Stale
    ensures ClassifyAsWritten(p, elapsed, hasErr) == Expired <==> IsExpired(p, elapsed, hasErr)
    ensures Classify(p, elapsed, hasErr) != Stale
    ensures Classify(p, elapsed, hasErr) == Expired <==> IsExpired(p, elapsed, hasErr)
  {
  }

  /** An expired error entry gets the reuse window measured from `ttl`, not from `errTtl`. */
  lemma ErrorReuseMeasuredFromTtl(p: Policy, elapsed: int)
    requires IsExpired(p, elapsed, true) && p.reuseTtl > 0
    ensures Classify(p, elapsed, true) == Stale <==> elapsed < p.ttl + p.reuseTtl
  {
  }

  /**
   The envelope `Store` writes, or None when it writes nothing: the value failed to
   encode, or the call failed and errors are not cached.
   */
  function NewEnvelope(p: Policy, data: Option<Bytes>, err: Option<string>, now: int): (r: Option<Envelope>)
    ensures r.None? <==> data.None? || (err.Some? && p.errTtl <= 0)
    ensures r.Some? ==> r.value.data == data.value && r.value.err == err
    ensures r.Some? ==> (r.value.createdAt == now || r.value.createdAt == ZeroTime)
    ensures r.Some? && (p.ttl > 0 || p.errTtl >= 0) ==> r.value.createdAt == now
    ensures r.Some? && p.ttl <= 0 && p.errTtl < 0 ==> r.value.createdAt == ZeroTime
  {
    if data.None? then None
    else if err.Some? && p.errTtl <= 0 then None
    else
      var createdAt := if p.ttl > 0 || p.errTtl >= 0 then now else ZeroTime;
      Some(Envelope(data.value, err, createdAt))
  }

  /**
   The answer of `Load` for the row it fetched (None when there is none), given the
   outcome of the fetch and of decoding the row. The decision is the one the code
   takes, with the wrapping window end.
   */
  function Lookup(p: Policy, row: Option<Envelope>, now: int, fetchErr: Option<string>, decodeErr: Option<string>): (r: LoadResult)
    ensures r.hasCache <==> r.value.Some?
    ensures r.hasCache ==> row.Some? && r.value.value == row.value.data
    ensures r.alive ==> r.hasCache
    ensures r.err.Some? ==> !r.hasCache
    ensures r.err.Some? <==> fetchErr.Some? || (row.Some? && decodeErr.Some?)
    ensures fetchErr.Some? ==> r.err == fetchErr
    ensures fetchErr.None? && row.None? ==> r == Miss
  {
    if fetchErr.Some? then LoadResult(None, false, false, fetchErr)
    else if row.None? then Miss
    else if decodeErr.Some? then LoadResult(None, false, false, decodeErr)
    else
      var e := row.value;
      match ClassifyAsWritten(p, Since(now, e.createdAt), e.err.Some?)
      case Fresh => LoadResult(Some(e.data), true, true, None)
      case Stale => LoadResult(Some(e.data), true, false, None)
      case Expired => Miss
  }

  /** A successful row read back: every outcome carries no error, and follows the classification. */
  lemma LookupOfRow(p: Policy, e: Envelope, now: int)
    ensures var r := Lookup(p, Some(e), now, None, None);
      var s := ClassifyAsWritten(p, Since(now, e.createdAt), e.err.Some?);
      && r.err == None
      && (r.alive <==> s == Fresh)
      && (r.hasCache && !r.alive <==> s == Stale)
      && (r == Miss <==> s == Expired)
  {
  }

  /**
   A fresh hit reports no error even when the envelope recorded one: a cached failure
   is served as a live value.
   */
  lemma FreshHitDropsStoredError(p: Policy, e: Envelope, now: int)
    requires e.err.Some? && ClassifyAsWritten(p, Since(now, e.createdAt), true) == Fresh
    ensures Lookup(p, Some(e), now, None, None) == LoadResult(Some(e.data), true, true, None)
  {
  }

  /**
   Store then Load of a successful call: within the success window (or with none set),
   the value comes back as a live hit with no error.
   */
  lemma {:induction false} StoreThenLoad(p: Policy, data: Bytes, t0: int, now: int)
    requires p.ttl <= 0 || now - t0 <= p.ttl
    ensures NewEnvelope(p, Some(data), None, t0).Some?
    ensures Lookup(p, NewEnvelope(p, Some(data), None, t0), now, None, None)
            == LoadResult(Some(data), true, true, None)
  {
    var e := NewEnvelope(p, Some(data), None, t0).value;
    SuccessExpiry(p, Since(now, e.createdAt));
  }

  /**
   The life of a stored success entry with `ttl` and `reuseTtl` both set, for Loads
   within 292 years of the Store: live up to `ttl`, then stale until the window end
   `reuseTtl + ttl` as Go computes it, then a miss. Where that sum does not overflow
   the window end is the exact sum.
   */
  lemma {:induction false} StoredSuccessLifecycle(p: Policy, data: Bytes, t0: int, now: int)
    requires p.ttl > 0 && p.reuseTtl > 0
    requires MinInt64 <= now - t0 <= MaxInt64
    ensures var r := Lookup(p, NewEnvelope(p, Some(data), None, t0), now, None, None);
      var end := WrapAdd(p.reuseTtl, p.ttl);
      && (now - t0 <= p.ttl ==> r == LoadResult(Some(data), true, true, None))
      && (p.ttl < now - t0 < end ==> r == LoadResult(Some(data), true, false, None))
      && (p.ttl < now - t0 && now - t0 >= end ==> r == Miss)
      && (p.ttl + p.reuseTtl <= MaxInt64 ==> end == p.ttl + p.reuseTtl)
  {
    var e := NewEnvelope(p, Some(data), None, t0).value;
    assert Since(now, e.createdAt) == now - t0;
  }

  /** Storing a failure while errors are not cached writes nothing. */
  lemma ErrorNotStored(p: Policy, data: Option<Bytes>, msg: string, now: int)
    requires p.errTtl <= 0
    ensures NewEnvelope(p, data, Some(msg), now) == None
  {
  }

  /**
   A stored failure, with errors cached: within both windows it is served as a live
   hit carrying the value and no error; past the error window it is no longer live.
   */
  lemma {:induction false} StoredErrorLifecycle(p: Policy, data: Bytes, msg: string, t0: int, now: int)
    requires p.errTtl > 0
    requires MinInt64 <= now - t0 <= MaxInt64
    ensures var r := Lookup(p, NewEnvelope(p, Some(data), Some(msg), t0), now, None, None);
      && ((p.ttl <= 0 || now - t0 <= p.ttl) && now - t0 <= p.errTtl ==> r == LoadResult(Some(data), true, true, None))
      && (now - t0 > p.errTtl ==> !r.alive)
  {
    ErrorExpiry(p, now - t0);
  }

  /**
   The decisions of the reuse-window test, with its windows (ttl 100ms, reuse 50ms):
   a success stored at t0 and read between the ttl and the end of the reuse window
   is a stale hit; the result stored again then and read at least 150ms later is a miss.
   */
  lemma ReuseWindowScenario(t0: int, d1: int, d2: int)
    requires 100_000_000 < d1 < 150_000_000 && d2 >= 150_000_000
    ensures var p := Policy(100_000_000, 0, 50_000_000);
      && Lookup(p, NewEnvelope(p, Some([1]), None, t0), t0 + d1, None, None) == LoadResult(Some([1]), true, false, None)
      && Lookup(p, NewEnvelope(p, Some([2]), None, t0 + d1), t0 + d1 + d2, None, None) == Miss
  {
  }
}
