# gofnext_pg: freshness engine and key canonicaliser

This project models the Postgres-backed cache map `pgMap` of `gofnext_pg` in Dafny. The memoisation layer `gofnext` uses the map to ask whether a stored result for a call is fresh, stale but reusable, or gone. The model covers two parts:

- **Key canonicalisation** (`keys.dfy`, with `hex.dfy`). `strkey` turns a call key into the storage key of a table row. A string is used verbatim and any other value goes through `serial.String`. When a positive `maxHashKeyLen` is exceeded, the raw key is replaced by a hex digest, and the limit picks the hash: FNV-64a, MD5, SHA-512/256 or SHA-512. `HashKeyFunc` turns an argument tuple into serialised bytes.
- **Freshness engine** (`freshness.dfy`, `cache_pg.dfy`). `Store` builds the `pgData` envelope (value bytes, error text, creation instant) and upserts it. `Load` reads the envelope back and classifies it from the elapsed time against `ttl`, `errTtl` and `reuseTtl`. `ClearCache` and the four setters change the instance or the table in place.

Modules:

- `Base`: `Option` and Go's fixed-width integers.
- `Hex`: `strconv.FormatUint(n, 16)` and `hex.EncodeToString`, each with its inverse.
- `KeyCanon`: `strkey` and `HashKeyFunc`.
- `Freshness`: the policy, the envelope, the expiry decision, and `Lookup`, the pure decision behind `Load`.
- `CachePg`: two classes. `PgTable` is the table `gofnext_cache_map`, which instances attached to one database share by reference (Go's `CacheTable` is the type of one of its rows). `PgMap<K>` holds an instance's configuration and implements `Store`, `Load`, `ClearCache` and the setters.

Modelling choices:

- Instants are integers counting nanoseconds since Go's zero `time.Time`. An unstamped envelope therefore carries instant 0. `time.Since` saturates to the `time.Duration` range, as Go's `Time.Sub` does.
- Durations are 64-bit integers.
- `now`, the outcome of the database query, of gob decoding and of the upsert are explicit parameters.
- gob encoding is the identity. A value that fails to encode is passed as `None`.
- `serial.String`, `serial.Bytes` and the four hash functions are functions given to the model. Their digest widths appear as subset types: 16, 32 and 64 bytes, and a 64-bit number for FNV.

Behaviour of the code a reader may not expect:

- **Fresh hits carry no error.** A fresh hit returns a nil error even when the envelope recorded one: the error rebuilt at cache-gorm.go:211-213 is dropped by line 225. A cached failure is therefore served as a live value.
- **Error suppression keeps the old row.** Storing a failure while errors are not cached writes nothing. An earlier success row under that key stays, and `Load` keeps serving it while it is fresh.
- **ClearCache clears every namespace.** It deletes every row of the shared table, not only the rows of its own `funcKey`.
- **The key length bound is the longer of the limit and the digest width.** After the namespace, a key is at most the longer of `maxHashKeyLen` and the bucket's digest width. Above 128 an unhashed key can be longer than any digest.
- **Argument count is not part of the `HashKeyFunc` bytes.** A single argument that is itself a slice serialises exactly like that slice passed as several arguments.
- **The default `errTtl` is 0.** By default errors are therefore not cached, yet every envelope is still stamped with its creation instant.

## Model

| member | source | states |
|---|---|---|
| `Hex.FormatUint` | cache-gorm.go:134 | base-16 text of a number: at least one lower-case hex digit, and a leading `0` only for zero (no padding) |
| `Hex.ParseFormatUint` | cache-gorm.go:134 | reading the base-16 text back gives the number again |
| `Hex.FormatUintInjective` | cache-gorm.go:132-134 | distinct FNV sums give distinct key text |
| `Hex.FormatUint64Length` | cache-gorm.go:132-134 | a 64-bit FNV sum takes 1 to 16 hex digits |
| `Hex.Encode` | cache-gorm.go:137 | `hex.EncodeToString` gives exactly two hex digits per digest byte |
| `Hex.DecodeEncode` | cache-gorm.go:136-143 | hex encoding of a digest is invertible |
| `Hex.EncodeInjective` | cache-gorm.go:136-143 | distinct digests give distinct hex text |
| `KeyCanon.RawKey` | cache-gorm.go:123-129 | a string key is used verbatim; any other value becomes its `serial.String` text |
| `KeyCanon.DigestBytes` | cache-gorm.go:135-144 | limits up to 32 use a 16-byte digest, up to 64 a 32-byte one, otherwise a 64-byte one |
| `KeyCanon.Digest` | cache-gorm.go:130-144 | the replacement text is hex; 1 to 16 digits in the FNV bucket, exactly 32, 64 or 128 in the others |
| `KeyCanon.StrKeyAsWritten` | cache-gorm.go:122-147 | `strkey` as written: `funcKey` + raw key when no hashing applies; the bare FNV hex of 1 to 16 digits for limits 1 to 8; `funcKey` + the hex of the bucket's digest bytes above 8 |
| `KeyCanon.StrKey` | cache-gorm.go:122-147 | corrected `strkey`: every storage key starts with `funcKey` |
| `KeyCanon.UnhashedKey` | cache-gorm.go:122-130 | with no positive limit, or a raw key within it, the storage key is `funcKey` + raw key (as written and corrected) |
| `KeyCanon.AsWrittenFnvKey` | cache-gorm.go:130-134 | as written, a limit from 1 to 8 yields the bare FNV hex of 1 to 16 digits, with no `funcKey` |
| `KeyCanon.HashedKey` | cache-gorm.go:135-146 | limits above 8 yield `funcKey` + 32, 64 or 128 hex digits of the bucket's digest |
| `KeyCanon.KeyLengthBound` | cache-gorm.go:130-146 | with a positive limit, the key after `funcKey` is no longer than max(limit, bucket width), as written and corrected |
| `KeyCanon.UnhashedKeysDistinct` | cache-gorm.go:146 | below the limit, distinct raw keys give distinct storage keys, as written and corrected |
| `KeyCanon.HashedKeysCollideIffDigestsDo` | cache-gorm.go:130-146 | two hashed keys of one namespace are equal iff their FNV sums (limit up to 8) or digest bytes (above 8) are, as written and corrected |
| `KeyCanon.AsWrittenNamespaceCollision` | cache-gorm.go:131-134 | as written, with a limit up to 8, every namespace maps the same long raw key to the same row |
| `KeyCanon.AsWrittenCollisionExample` | cache-gorm.go:131-134 | namespaces "getUser" and "getNum" share a row as written and do not once corrected |
| `KeyCanon.Namespaced` | cache-gorm.go:146 | corrected: namespaces that are not prefixes of one another never share a storage key |
| `KeyCanon.HashKeyFunc` | cache-gorm.go:112-120 | nil exactly when there are no arguments; one argument is serialised alone, several as the argument slice |
| `KeyCanon.HashKeyFuncInjective` | cache-gorm.go:112-120 | with an injective serialiser and slice packing, equal results mean equal argument tuples, unless a single argument equals the other tuple's slice |
| `KeyCanon.HashKeyFuncArityCollision` | cache-gorm.go:115-118 | one argument that is the slice of several arguments gives the same bytes as those arguments, under any serialiser |
| `Freshness.Since` | cache-gorm.go:214-217 | `time.Since`: the exact difference, or the int64 bound it passed |
| `Freshness.IsExpired` | cache-gorm.go:214-215 | a success expires only past a positive `ttl`; anything past a positive `ttl` expires; an error also expires past a non-negative `errTtl`, and with a negative `errTtl` it expires like a success |
| `Freshness.ClassifyAsWritten` | cache-gorm.go:214-222 | the decision as written: fresh iff not expired; stale only with a positive reuse window and before its wrapping end `reuseTtl + ttl` |
| `Freshness.Classify` | cache-gorm.go:214-222 | corrected decision: fresh iff not expired; stale only with a positive reuse window and before the exact end `ttl + reuseTtl` |
| `Freshness.WrapAdd` | cache-gorm.go:217 | Go's Duration sum agrees with the exact sum modulo 2^64 |
| `Freshness.ClassifyAgreesWithoutOverflow` | cache-gorm.go:214-222 | as-written and corrected decisions agree whenever `reuseTtl + ttl` fits in int64 |
| `Freshness.AsWrittenReuseOverflow` | cache-gorm.go:217 | ttl = MaxInt64, errTtl = 1, reuseTtl = 1: the error entry `Store` writes is read back 2ns later as a miss, where the exact window makes it stale |
| `Freshness.ClassifyMonotone` | cache-gorm.go:214-226 | as elapsed time grows an entry only moves from fresh to stale to expired, as written and corrected |
| `Freshness.SuccessExpiry` | cache-gorm.go:214 | a success entry is fresh iff `ttl <= 0` or elapsed <= `ttl`; `elapsed == ttl` is fresh; `ttl == 0` never expires; as written and corrected |
| `Freshness.ErrorExpiry` | cache-gorm.go:214-215 | an error entry is fresh iff it is within `ttl` (when positive) and within `errTtl` (when non-negative), as written and corrected |
| `Freshness.ThreeStates` | cache-gorm.go:214-225 | with ttl and reuse positive: fresh iff elapsed <= ttl, stale iff ttl < elapsed < ttl + reuse, expired iff elapsed >= ttl + reuse |
| `Freshness.NoReuseNoStale` | cache-gorm.go:216-222 | with `reuseTtl <= 0` nothing is stale; expired iff the expiry test holds; as written and corrected |
| `Freshness.ErrorReuseMeasuredFromTtl` | cache-gorm.go:215-218 | an expired error entry is stale iff elapsed < `ttl + reuseTtl` (measured from ttl, not errTtl) |
| `Freshness.NewEnvelope` | cache-gorm.go:149-170 | nothing is written iff encoding fails or the call failed with `errTtl <= 0`; otherwise the envelope holds the value and error text, and is stamped with now iff `ttl > 0 or errTtl >= 0` |
| `Freshness.Lookup` | cache-gorm.go:191-226 | the code's decision, with the wrapping window end: `hasCache` iff a value is returned, it is the row's data, `alive` implies `hasCache`, any error comes with `hasCache = false`, an error is reported iff the fetch fails or a fetched row fails to decode, no row is a plain miss |
| `Freshness.LookupOfRow` | cache-gorm.go:210-226 | a decoded row yields no error, is alive iff the as-written classification is fresh, a stale hit iff stale, a miss iff expired |
| `Freshness.FreshHitDropsStoredError` | cache-gorm.go:210-225 | an error entry that the as-written classification finds fresh is returned as (data, true, true, nil) |
| `Freshness.StoreThenLoad` | cache-gorm.go:158-225 | a stored success read back within the ttl (or with none set) is (data, true, true, nil) |
| `Freshness.StoredSuccessLifecycle` | cache-gorm.go:165-225 | a stored success with ttl and reuse positive is live up to ttl, stale before the window end `reuseTtl + ttl` as Go computes it, a miss from then on; without overflow the end is the exact sum |
| `Freshness.ErrorNotStored` | cache-gorm.go:162-164 | with `errTtl <= 0` a failed call produces no envelope |
| `Freshness.StoredErrorLifecycle` | cache-gorm.go:162-225 | with `errTtl > 0` a stored failure is a live hit with no error inside both windows, and not alive past errTtl |
| `Freshness.ReuseWindowScenario` | examples/cache-gorm_test.go:72-96 | with the test's windows (ttl 100ms, reuse 50ms): a stored success read between 100ms and 150ms later is a stale hit; stored again then and read 150ms or more later, a miss |
| `CachePg.PgTable.constructor` | cache-gorm.go:23-27 | a new table has no rows |
| `CachePg.PgMap.constructor` | cache-gorm.go:48-56 | a new instance has its namespace, table name `gofnext_cache_map` and all windows and the limit zero |
| `CachePg.PgMap.StorageKey` | cache-gorm.go:150 | the instance's `strkey`: `funcKey` + raw key when no hashing applies, and prefixed by `funcKey` unless the FNV bucket hashes |
| `CachePg.PgMap.Store` | cache-gorm.go:149-189 | the row of `strkey(key)` (as written) is replaced by the new envelope unless nothing is written; no other row changes; a suppressed error leaves the table unchanged |
| `CachePg.PgMap.Load` | cache-gorm.go:191-227 | the result is `Lookup` of the row under `strkey(key)` (as written); a fetch error, a missing row and a decode error give their fixed results; nothing is modified |
| `CachePg.PgMap.ClearCache` | cache-gorm.go:92-99 | on success every row of the shared table is gone; the `Error` field records the outcome; configuration unchanged |
| `CachePg.PgMap.SetTTL` | cache-gorm.go:229-232 | sets `ttl` and nothing else |
| `CachePg.PgMap.SetErrTTL` | cache-gorm.go:233-236 | sets `errTtl` and nothing else |
| `CachePg.PgMap.SetReuseTTL` | cache-gorm.go:237-240 | sets `reuseTtl` and nothing else |
| `CachePg.PgMap.SetMaxHashKeyLen` | cache-gorm.go:242-245 | sets `maxHashKeyLen` and nothing else |
| `CachePg.ReuseTtlScenario` | examples/cache-gorm_test.go:72-96 | the test's call sequence on one cleared instance: a miss at first, a stale hit after the ttl, a miss after the ttl and reuse window more, then a live hit of the result stored last |
| `CachePg.NamespaceCollisionScenario` | cache-gorm.go:130-146 | two instances "getUser" and "getNum" on the shared table with limit 8: what one stores under a long key the other reads as a live hit |
| `CachePg.ErrorSuppressionScenario` | cache-gorm.go:162-164 | with the default `errTtl` of 0, storing a failure and loading gives a miss |

## Left out

- Concurrency is a concern the model leaves out. It omits the mutex held by `Load` (cache-gorm.go:192-193) and the atomicity of the `ON CONFLICT` upsert, and it models calls as sequential.
- `db.go`, `SetPgDsn`, `SetPgDb`, `initTable`, `DropCacheTable`, `Table`, `GetPgDb` and `checkDb` are driver plumbing. The constructor takes the table directly, and the model assumes a database is attached, where the code would panic.
- The gob byte format is not modelled, and the encoding is the identity. Encoding the envelope itself is assumed to succeed. gob omits an empty `[]byte`, so an error whose message is empty reads back as no error. The model keeps it as an empty message.
- `serial.String`, `serial.Bytes`, FNV-64a, MD5, SHA-512/256 and SHA-512 are library code. Only their digest widths are known to the model.
- Go's `len` counts UTF-8 bytes. The model treats each character of a key as one byte.
- A database error is logged and does not change the table. The model covers it through the `writeFails`, `fetchErr`, `decodeErr` and `execErr` parameters. That includes a key longer than the `varchar(2048)` column.
- The row's own `CreatedAt` column, which gorm fills in, is never read by `Load`, so the model omits it.
- Instants are not required to be realistic, i.e. more than MaxInt64 ns after Go's zero time. For an earlier `now`, an unstamped envelope (instant 0) is not seen as infinitely old. An envelope stored while `ttl <= 0` and `errTtl < 0` is unstamped; if `ttl` is then raised above `now`, it reads back as a live hit, where Go's saturated `time.Since` would make it a miss. Every real clock reading is far past that bound.
- `Load` calls `time.Since` up to three times. The model evaluates all three at one instant `now`, and it ignores Go's monotonic clock readings.
- `println` logging on the write path is a side channel only.
- `NeedMarshal` always returns true and carries no logic.
- `NewCachePg` panics on an empty `funcKey`. The model states this as the constructor's precondition.
- `KeyCanon.HashKeyFuncInjective` states injectivity only under the hypotheses that the serialiser and the packing of the argument slice are injective, because `serial.Bytes` is not modelled.

## Findings

| source | as written | input that shows it | evidently intended | confidence | as-written member | corrected member |
|---|---|---|---|---|---|---|
| cache-gorm.go:131-134 | with `maxHashKeyLen` from 1 to 8, the FNV branch returns the bare hex sum, without the `funcKey` prefix every other branch adds | two instances "getUser" and "getNum" with limit 8 and raw key "123456789" map to the same row of the shared table, so one function's result is served for the other | prefix the FNV hex with `funcKey`, like the other buckets | medium, not executed | `KeyCanon.AsWrittenCollisionExample` | `KeyCanon.StrKey` |
| cache-gorm.go:217 | the reuse window ends at `m.reuseTtl+m.ttl`, an int64 sum that wraps around | ttl = MaxInt64, errTtl = 1, reuseTtl = 1: the error entry `Store` writes, read back 2ns later, is reported as a miss instead of a stale hit | end the window at the exact sum `ttl + reuseTtl` | low, not executed | `Freshness.AsWrittenReuseOverflow` | `Freshness.Classify` |

The cache instance (`CachePg.PgMap.Store`, `CachePg.PgMap.Load`) and `Freshness.Lookup` follow the code as written: they use `KeyCanon.StrKeyAsWritten` and `Freshness.ClassifyAsWritten`. `CachePg.NamespaceCollisionScenario` shows the first finding on two instances. The corrected halves, `KeyCanon.StrKey` and `Freshness.Classify`, carry the intended properties (`KeyCanon.Namespaced`, `Freshness.ThreeStates`, `Freshness.ErrorReuseMeasuredFromTtl`). `KeyCanon.HashedKey`, `KeyCanon.UnhashedKey` and `Freshness.ClassifyAgreesWithoutOverflow` show that the two versions agree everywhere outside these cases.
