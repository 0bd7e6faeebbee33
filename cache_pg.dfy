/**
 The cache instance `pgMap` and the Postgres table it writes to. Every instance names
 the same table, so instances attached to one database share it: the table is an
 object of its own, passed to each instance by reference. Its rows map storage keys
 to envelopes (gob encoding is the identity here).
 */
module CachePg {
  import opened Base
  import opened Freshness
  import KeyCanon

  /**
   The table `gofnext_cache_map`: one envelope per storage key. Go's `CacheTable`
   struct is the type of one row (key, value, creation time), not the table.
   */
  class PgTable {
    var rows: map<string, Envelope>

    constructor ()
      ensures rows == map[]
    {
      rows := map[];
    }
  }

  /**
   One memoised function's cache. `serialString` and `digests` stand for the library
   functions `strkey` calls; `error` is the exported `Error` field.
   */
  class PgMap<K> {
    const tableName: string
    const funcKey: string
    const db: PgTable
    const serialString: K -> string
    const digests: KeyCanon.Digests
    var ttl: Duration
    var errTtl: Duration
    var reuseTtl: Duration
    var maxHashKeyLen: int64
    var error: Option<string>

    /** `NewCachePg(funcKey)` followed by `SetPgDb(db)`; an empty namespace panics. */
    constructor (funcKey: string, db: PgTable, serialString: K -> string, digests: KeyCanon.Digests)
      requires funcKey != ""
      ensures this.funcKey == funcKey && this.db == db && tableName == "gofnext_cache_map"
      ensures this.serialString == serialString && this.digests == digests
      ensures ttl == 0 && errTtl == 0 && reuseTtl == 0 && maxHashKeyLen == 0 && error == None
    {
      tableName := "gofnext_cache_map";
      this.funcKey := funcKey;
      this.db := db;
      this.serialString := serialString;
      this.digests := digests;
      ttl, errTtl, reuseTtl, maxHashKeyLen, error := 0, 0, 0, 0, None;
    }

    function Policy(): (p: Freshness.Policy)
      reads this
    {
      Freshness.Policy(ttl, errTtl, reuseTtl)
    }

    /**
     `strkey` as written: the storage key of a call key, under the current limit. It
     starts with the namespace except when the FNV bucket hashes the raw key.
     */
    function StorageKey(key: KeyCanon.Key<K>): (k: string)
      reads this
      ensures var raw := KeyCanon.RawKey(key, serialString);
        (!KeyCanon.NeedsHash(maxHashKeyLen, raw) ==> k == funcKey + raw)
        && (!KeyCanon.NeedsHash(maxHashKeyLen, raw) || maxHashKeyLen > 8 ==> funcKey <= k)
    {
      KeyCanon.StrKeyAsWritten(funcKey, maxHashKeyLen, digests, KeyCanon.RawKey(key, serialString))
    }

    /** The row stored under `k`, if any. */
    function Row(k: string): (r: Option<Envelope>)
      reads db
    {
      if k in db.rows then Some(db.rows[k]) else None
    }

    /**
     `Store(key, value, err)` at instant `now`. `value` is the gob encoding of the value
     (None when encoding fails); `writeFails` says whether the upsert is refused.
     Either the row of this key is replaced by the new envelope, or nothing changes.
     */
    method Store(key: KeyCanon.Key<K>, value: Option<Bytes>, err: Option<string>, now: int, writeFails: bool)
      modifies db
      ensures var w := NewEnvelope(Policy(), value, err, now);
        db.rows == if w.Some? && !writeFails then old(db.rows)[StorageKey(key) := w.value] else old(db.rows)
      ensures value.Some? && err.None? && !writeFails ==>
        StorageKey(key) in db.rows && db.rows[StorageKey(key)].data == value.value
      ensures err.Some? && errTtl <= 0 ==> db.rows == old(db.rows)
      ensures forall k :: k != StorageKey(key) ==> Row(k) == old(Row(k))
    {
      var pkey := StorageKey(key);
      if value.None? {
        return;
      }
      if err.Some? && errTtl <= 0 {
        return;
      }
      var createdAt := ZeroTime;
      if ttl > 0 || errTtl >= 0 {
        createdAt := now;
      }
      var cacheData := Envelope(value.value, err, createdAt);
      if !writeFails {
        db.rows := db.rows[pkey := cacheData];
      }
    }

    /**
     `Load(key)` at instant `now`, where `fetchErr` is the outcome of the query and
     `decodeErr` that of decoding the fetched row. Nothing is modified.
     */
    method Load(key: KeyCanon.Key<K>, now: int, fetchErr: Option<string>, decodeErr: Option<string>) returns (r: LoadResult)
      ensures r == Lookup(Policy(), Row(StorageKey(key)), now, fetchErr, decodeErr)
      ensures fetchErr.Some? ==> r == LoadResult(None, false, false, fetchErr)
      ensures fetchErr.None? && StorageKey(key) !in db.rows ==> r == Miss
      ensures fetchErr.None? && StorageKey(key) in db.rows && decodeErr.Some? ==>
        r == LoadResult(None, false, false, decodeErr)
    {
      var pkey := StorageKey(key);
      if fetchErr.Some? {
        return LoadResult(None, false, false, fetchErr);
      }
      if pkey !in db.rows {
        return Miss;
      }
      if decodeErr.Some? {
        return LoadResult(None, false, false, decodeErr);
      }
      var cacheData := db.rows[pkey];
      var elapsed := Since(now, cacheData.createdAt);
      if IsExpired(Policy(), elapsed, cacheData.err.Some?) {
        if reuseTtl > 0 && elapsed < WrapAdd(reuseTtl, ttl) {
          return LoadResult(Some(cacheData.data), true, false, None);
        } else {
          return Miss;
        }
      } else {
        return LoadResult(Some(cacheData.data), true, true, None);
      }
    }

    /**
     `ClearCache`: deletes every row of the shared table, of every namespace, and
     records the outcome of the statement in `error`.
     */
    method ClearCache(execErr: Option<string>)
      modifies this, db
      ensures error == execErr
      ensures db.rows == if execErr.None? then map[] else old(db.rows)
      ensures execErr.None? ==> forall k :: Row(k) == None
      ensures ttl == old(ttl) && errTtl == old(errTtl) && reuseTtl == old(reuseTtl)
      ensures maxHashKeyLen == old(maxHashKeyLen)
    {
      error := execErr;
      if execErr.None? {
        db.rows := map[];
      }
    }

    method SetTTL(ttl: Duration)
      modifies this
      ensures this.ttl == ttl
      ensures errTtl == old(errTtl) && reuseTtl == old(reuseTtl)
      ensures maxHashKeyLen == old(maxHashKeyLen) && error == old(error)
    {
      this.ttl := ttl;
    }

    method SetErrTTL(errTtl: Duration)
      modifies this
      ensures this.errTtl == errTtl
      ensures ttl == old(ttl) && reuseTtl == old(reuseTtl)
      ensures maxHashKeyLen == old(maxHashKeyLen) && error == old(error)
    {
      this.errTtl := errTtl;
    }

    method SetReuseTTL(reuseTtl: Duration)
      modifies this
      ensures this.reuseTtl == reuseTtl
      ensures ttl == old(ttl) && errTtl == old(errTtl)
      ensures maxHashKeyLen == old(maxHashKeyLen) && error == old(error)
    {
      this.reuseTtl := reuseTtl;
    }

    method SetMaxHashKeyLen(l: int64)
      modifies this
      ensures maxHashKeyLen == l
      ensures ttl == old(ttl) && errTtl == old(errTtl) && reuseTtl == old(reuseTtl)
      ensures error == old(error)
    {
      maxHashKeyLen := l;
    }
  }

  /**
   The reuse-window test of the test suite, replayed on one instance with its windows
   (ttl 100ms, reuse 50ms). The first call misses and stores its result at t0. After
   sleeping the ttl, the call at t0 + d1 gets a stale hit, and the result recomputed
   in the background is stored at that instant. After sleeping the ttl and the reuse
   window again, the call at d2 later misses; its result is stored and read back live.
   */
  method ReuseTtlScenario(t0: int, d1: int, d2: int) returns (r1: LoadResult, r2: LoadResult, r3: LoadResult, r4: LoadResult)
    requires 100_000_000 < d1 < 150_000_000 && d2 >= 150_000_000
    ensures r1 == Miss
    ensures r2 == LoadResult(Some([1]), true, false, None)
    ensures r3 == Miss
    ensures r4 == LoadResult(Some([3]), true, true, None)
  {
    var table := new PgTable();
    var digests := KeyCanon.Digests(
      s => 0, s => seq(16, _ => 0), s => seq(32, _ => 0), s => seq(64, _ => 0));
    var m := new PgMap<int>("getNum", table, (x: int) => "0", digests);
    m.SetTTL(100_000_000);
    m.SetReuseTTL(50_000_000);
    m.ClearCache(None);
    var key := KeyCanon.ValueKey(0);
    r1 := m.Load(key, t0, None, None);
    m.Store(key, Some([1]), None, t0, false);
    r2 := m.Load(key, t0 + d1, None, None);
    m.Store(key, Some([2]), None, t0 + d1, false);
    r3 := m.Load(key, t0 + d1 + d2, None, None);
    m.Store(key, Some([3]), None, t0 + d1 + d2, false);
    r4 := m.Load(key, t0 + d1 + d2, None, None);
  }

  /**
   With errors not cached, storing a failure leaves the table as it was: a key that
   had no row still misses.
   */
  method ErrorSuppressionScenario(now: int) returns (r: LoadResult)
    ensures r == Miss
  {
    var table := new PgTable();
    var digests := KeyCanon.Digests(
      s => 0, s => seq(16, _ => 0), s => seq(32, _ => 0), s => seq(64, _ => 0));
    var m := new PgMap<int>("getUser", table, (x: int) => "5", digests);
    var key := KeyCanon.ValueKey(5);
    m.Store(key, Some([5]), Some("someError"), now, false);
    r := m.Load(key, now, None, None);
  }

  /**
   Two functions' caches on the one shared table, both with a limit of 8: a result the
   "getUser" cache stores under a long key is read back as a live hit by the "getNum"
   cache, because the FNV branch of `strkey` drops the namespace.
   */
  method NamespaceCollisionScenario(now: int) returns (r: LoadResult)
    ensures r == LoadResult(Some([7]), true, true, None)
  {
    var table := new PgTable();
    var digests := KeyCanon.Digests(
      s => 0, s => seq(16, _ => 0), s => seq(32, _ => 0), s => seq(64, _ => 0));
    var getUser := new PgMap<int>("getUser", table, (x: int) => "", digests);
    var getNum := new PgMap<int>("getNum", table, (x: int) => "", digests);
    getUser.SetMaxHashKeyLen(8);
    getNum.SetMaxHashKeyLen(8);
    var key := KeyCanon.StringKey("123456789");
    getUser.Store(key, Some([7]), None, now, false);
    r := getNum.Load(key, now, None, None);
  }
}
