/**
 Key canonicalisation of the Postgres cache: `pgMap.strkey` turns a call key into the
 storage key of a table row, and `pgMap.HashKeyFunc` turns a tuple of arguments into
 the bytes the memoisation layer uses as that call key.

 The serialiser (`serial.String`, `serial.Bytes`) and the hash functions (FNV-64a, MD5,
 SHA-512/256, SHA-512) are library code that is not modelled: they are passed in as
 functions, and only the digest widths are known about them.
 */
module KeyCanon {
  import opened Base
  import Hex

  /** The dynamic type switch of `strkey`: a Go `string`, or any other value. */
  datatype Key<K> = StringKey(s: string) | ValueKey(v: K)

  type Md5Sum = b: seq<byte> | |b| == 16 witness seq(16, _ => 0)
  type Sha512_256Sum = b: seq<byte> | |b| == 32 witness seq(32, _ => 0)
  type Sha512Sum = b: seq<byte> | |b| == 64 witness seq(64, _ => 0)

  /** The four hash functions `strkey` may use, each applied to the bytes of a string. */
  datatype Digests = Digests(
    fnv64a: string -> uint64,
    md5: string -> Md5Sum,
    sha512_256: string -> Sha512_256Sum,
    sha512: string -> Sha512Sum)

  /** The raw key: a string is used verbatim, anything else goes through `serial.String`. */
  function RawKey<K>(key: Key<K>, serialString: K -> string): (raw: string)
    ensures key.StringKey? ==> raw == key.s
    ensures key.ValueKey? ==> raw == serialString(key.v)
  {
    match key
    case StringKey(s) => s
    case ValueKey(v) => serialString(v)
  }

  /** Hashing applies when a positive limit is set and the raw key is longer than it. */
  predicate NeedsHash(maxHashKeyLen: int, raw: string) {
    maxHashKeyLen > 0 && |raw| > maxHashKeyLen
  }

  /** The widest digest text of the bucket that `maxHashKeyLen` selects. */
  function DigestLen(maxHashKeyLen: int): (n: nat) {
    if maxHashKeyLen <= 8 then 16
    else if maxHashKeyLen <= 32 then 32
    else if maxHashKeyLen <= 64 then 64
    else 128
  }

  /** The digest bytes of the three cryptographic buckets (limits above 8). */
  function DigestBytes(maxHashKeyLen: int, d: Digests, raw: string): (b: seq<byte>)
    requires maxHashKeyLen > 8
    ensures 2 * |b| == DigestLen(maxHashKeyLen)
  {
    if maxHashKeyLen <= 32 then d.md5(raw)
    else if maxHashKeyLen <= 64 then d.sha512_256(raw)
    else d.sha512(raw)
  }

  /** The digest text that replaces a raw key that is too long. */
  function Digest(maxHashKeyLen: int, d: Digests, raw: string): (h: string)
    ensures Hex.IsHex(h)
    ensures maxHashKeyLen <= 8 ==> 1 <= |h| <= DigestLen(maxHashKeyLen)
    ensures maxHashKeyLen > 8 ==> |h| == DigestLen(maxHashKeyLen)
  {
    if maxHashKeyLen <= 8 then
      var n := d.fnv64a(raw);
      Hex.FormatUint64Length(n);
      Hex.FormatUint(n)
    else
      Hex.Encode(DigestBytes(maxHashKeyLen, d, raw))
  }

  /**
   `strkey` as written, which the cache instance uses: the FNV branch returns the bare
   digest, without `funcKey`.
   */
  function StrKeyAsWritten(funcKey: string, maxHashKeyLen: int, d: Digests, raw: string): (k: string)
    ensures !NeedsHash(maxHashKeyLen, raw) ==> k == funcKey + raw
    ensures NeedsHash(maxHashKeyLen, raw) && maxHashKeyLen <= 8 ==>
      k == Hex.FormatUint(d.fnv64a(raw)) && 1 <= |k| <= 16 && Hex.IsHex(k)
    ensures NeedsHash(maxHashKeyLen, raw) && maxHashKeyLen > 8 ==>
      k == funcKey + Hex.Encode(DigestBytes(maxHashKeyLen, d, raw))
  {
    if NeedsHash(maxHashKeyLen, raw) then
      if maxHashKeyLen <= 8 then Digest(maxHashKeyLen, d, raw)
      else funcKey + Digest(maxHashKeyLen, d, raw)
    else
      funcKey + raw
  }

  /** `strkey` with every branch prefixed by `funcKey`, as evidently intended. */
  function StrKey(funcKey: string, maxHashKeyLen: int, d: Digests, raw: string): (k: string)
    ensures |funcKey| <= |k| && k[..|funcKey|] == funcKey
  {
    var suffix := if NeedsHash(maxHashKeyLen, raw) then Digest(maxHashKeyLen, d, raw) else raw;
    assert (funcKey + suffix)[..|funcKey|] == funcKey;
    funcKey + suffix
  }

  /** A key that needs no hashing is the namespace followed by the raw key, in both versions. */
  lemma UnhashedKey(funcKey: string, maxHashKeyLen: int, d: Digests, raw: string)
    requires maxHashKeyLen <= 0 || |raw| <= maxHashKeyLen
    ensures StrKeyAsWritten(funcKey, maxHashKeyLen, d, raw) == funcKey + raw
    ensures StrKey(funcKey, maxHashKeyLen, d, raw) == funcKey + raw
  {
  }

  /** The FNV bucket as written: one to sixteen hex digits and no namespace prefix at all. */
  lemma AsWrittenFnvKey(funcKey: string, maxHashKeyLen: int, d: Digests, raw: string)
    requires 0 < maxHashKeyLen <= 8 && |raw| > maxHashKeyLen
    ensures var k := StrKeyAsWritten(funcKey, maxHashKeyLen, d, raw);
      k == Hex.FormatUint(d.fnv64a(raw)) && 1 <= |k| <= 16 && Hex.IsHex(k)
  {
  }

  /**
   The cryptographic buckets (limits above 8): the key is the namespace followed by
   exactly 32, 64 or 128 hex digits, and the two versions agree.
   */
  lemma HashedKey(funcKey: string, maxHashKeyLen: int, d: Digests, raw: string)
    requires maxHashKeyLen > 8 && |raw| > maxHashKeyLen
    ensures var k := StrKey(funcKey, maxHashKeyLen, d, raw);
      && k == StrKeyAsWritten(funcKey, maxHashKeyLen, d, raw)
      && k == funcKey + Hex.Encode(DigestBytes(maxHashKeyLen, d, raw))
      && |k| == |funcKey| + DigestLen(maxHashKeyLen)
      && (maxHashKeyLen <= 32 ==> |k| == |funcKey| + 32)
      && (32 < maxHashKeyLen <= 64 ==> |k| == |funcKey| + 64)
      && (64 < maxHashKeyLen ==> |k| == |funcKey| + 128)
  {
  }

  /**
   With a positive limit the part after the namespace is at most the longer of the
   limit and the bucket's digest width (the limit itself wins above 128), in both
   versions.
   */
  lemma KeyLengthBound(funcKey: string, maxHashKeyLen: int, d: Digests, raw: string)
    requires maxHashKeyLen > 0
    ensures |StrKeyAsWritten(funcKey, maxHashKeyLen, d, raw)| - |funcKey|
      <= if maxHashKeyLen > DigestLen(maxHashKeyLen) then maxHashKeyLen else DigestLen(maxHashKeyLen)
    ensures |StrKey(funcKey, maxHashKeyLen, d, raw)| - |funcKey|
      <= if maxHashKeyLen > DigestLen(maxHashKeyLen) then maxHashKeyLen else DigestLen(maxHashKeyLen)
  {
  }

  /** Below the limit, distinct raw keys give distinct storage keys, in both versions. */
  lemma UnhashedKeysDistinct(funcKey: string, maxHashKeyLen: int, d: Digests, raw1: string, raw2: string)
    requires !NeedsHash(maxHashKeyLen, raw1) && !NeedsHash(maxHashKeyLen, raw2)
    requires raw1 != raw2
    ensures StrKeyAsWritten(funcKey, maxHashKeyLen, d, raw1) != StrKeyAsWritten(funcKey, maxHashKeyLen, d, raw2)
    ensures StrKey(funcKey, maxHashKeyLen, d, raw1) != StrKey(funcKey, maxHashKeyLen, d, raw2)
  {
    var k1, k2 := funcKey + raw1, funcKey + raw2;
    assert k1[|funcKey|..] == raw1 && k2[|funcKey|..] == raw2;
  }

  /**
   Two hashed keys of one namespace coincide exactly when the underlying digests do,
   in both versions: the hex text adds no collisions of its own.
   */
  lemma {:induction false} HashedKeysCollideIffDigestsDo(funcKey: string, maxHashKeyLen: int, d: Digests, raw1: string, raw2: string)
    requires NeedsHash(maxHashKeyLen, raw1) && NeedsHash(maxHashKeyLen, raw2)
    ensures maxHashKeyLen <= 8 ==>
      (StrKeyAsWritten(funcKey, maxHashKeyLen, d, raw1) == StrKeyAsWritten(funcKey, maxHashKeyLen, d, raw2)
       <==> d.fnv64a(raw1) == d.fnv64a(raw2))
    ensures maxHashKeyLen > 8 ==>
      (StrKeyAsWritten(funcKey, maxHashKeyLen, d, raw1) == StrKeyAsWritten(funcKey, maxHashKeyLen, d, raw2)
       <==> DigestBytes(maxHashKeyLen, d, raw1) == DigestBytes(maxHashKeyLen, d, raw2))
    ensures maxHashKeyLen <= 8 ==>
      (StrKey(funcKey, maxHashKeyLen, d, raw1) == StrKey(funcKey, maxHashKeyLen, d, raw2)
       <==> d.fnv64a(raw1) == d.fnv64a(raw2))
    ensures maxHashKeyLen > 8 ==>
      (StrKey(funcKey, maxHashKeyLen, d, raw1) == StrKey(funcKey, maxHashKeyLen, d, raw2)
       <==> DigestBytes(maxHashKeyLen, d, raw1) == DigestBytes(maxHashKeyLen, d, raw2))
  {
    var h1, h2 := Digest(maxHashKeyLen, d, raw1), Digest(maxHashKeyLen, d, raw2);
    var k1, k2 := funcKey + h1, funcKey + h2;
    assert k1[|funcKey|..] == h1 && k2[|funcKey|..] == h2;
    if maxHashKeyLen <= 8 {
      Hex.FormatUintInjective(d.fnv64a(raw1), d.fnv64a(raw2));
    } else {
      Hex.EncodeInjective(DigestBytes(maxHashKeyLen, d, raw1), DigestBytes(maxHashKeyLen, d, raw2));
    }
  }

  /**
   As written, two caches with different namespaces and a limit of at most 8 map the
   same long raw key to the same row of the shared table.
   */
  lemma AsWrittenNamespaceCollision(funcKey1: string, funcKey2: string, maxHashKeyLen: int, d: Digests, raw: string)
    requires 0 < maxHashKeyLen <= 8 && |raw| > maxHashKeyLen
    ensures StrKeyAsWritten(funcKey1, maxHashKeyLen, d, raw) == StrKeyAsWritten(funcKey2, maxHashKeyLen, d, raw)
  {
  }

  /** The two test namespaces "getUser" and "getNum" collide as written. */
  lemma AsWrittenCollisionExample(d: Digests)
    ensures StrKeyAsWritten("getUser", 8, d, "123456789") == StrKeyAsWritten("getNum", 8, d, "123456789")
    ensures StrKey("getUser", 8, d, "123456789") != StrKey("getNum", 8, d, "123456789")
  {
    assert "getUser"[3] == 'U' && "getNum"[3] == 'N';
    Namespaced("getUser", "getNum", 8, d, "123456789", "123456789");
  }

  /**
   With every branch prefixed, caches whose namespaces are not prefixes of one another
   never share a storage key, whatever their raw keys.
   */
  lemma Namespaced(funcKey1: string, funcKey2: string, maxHashKeyLen: int, d: Digests, raw1: string, raw2: string)
    requires !(funcKey1 <= funcKey2) && !(funcKey2 <= funcKey1)
    ensures StrKey(funcKey1, maxHashKeyLen, d, raw1) != StrKey(funcKey2, maxHashKeyLen, d, raw2)
  {
  }

  /**
   `HashKeyFunc`: nil for no arguments, else `serial.Bytes` of the single argument or of
   the argument slice. `K` stands for Go's `any`; `pack` turns the argument slice into
   the one `any` value that is serialised.
   */
  function HashKeyFunc<K>(serialBytes: K -> seq<byte>, pack: seq<K> -> K, key: seq<K>): (r: Option<seq<byte>>)
    ensures r.None? <==> |key| == 0
    ensures |key| == 1 ==> r == Some(serialBytes(key[0]))
    ensures |key| >= 2 ==> r == Some(serialBytes(pack(key)))
  {
    if |key| == 0 then None
    else if |key| == 1 then Some(serialBytes(key[0]))
    else Some(serialBytes(pack(key)))
  }

  /**
   Different argument tuples give different bytes when the serialiser and the packing
   of slices are injective and neither tuple is a single argument that equals the
   other tuple packed as a slice.
   */
  lemma HashKeyFuncInjective<K>(serialBytes: K -> seq<byte>, pack: seq<K> -> K, a: seq<K>, b: seq<K>)
    requires forall x, y :: serialBytes(x) == serialBytes(y) ==> x == y
    requires forall xs, ys :: pack(xs) == pack(ys) ==> xs == ys
    requires |a| == 1 && |b| >= 2 ==> a[0] != pack(b)
    requires |b| == 1 && |a| >= 2 ==> b[0] != pack(a)
    ensures HashKeyFunc(serialBytes, pack, a) == HashKeyFunc(serialBytes, pack, b) ==> a == b
  {
    if HashKeyFunc(serialBytes, pack, a) == HashKeyFunc(serialBytes, pack, b) {
      if |a| == 1 && |b| == 1 {
        assert a == [a[0]] && b == [b[0]];
      } else if |a| >= 2 && |b| >= 2 {
        InjectiveAt(serialBytes, pack(a), pack(b));
        InjectiveAt(pack, a, b);
      } else if |a| == 1 && |b| >= 2 {
        InjectiveAt(serialBytes, a[0], pack(b));
      } else if |b| == 1 && |a| >= 2 {
        InjectiveAt(serialBytes, pack(a), b[0]);
      }
    }
  }

  lemma InjectiveAt<X, Y>(f: X -> Y, x: X, y: X)
    requires forall a, b :: f(a) == f(b) ==> a == b
    requires f(x) == f(y)
    ensures x == y
  {
  }

  /**
   The argument count is not part of the key: one argument that is itself the slice of
   several arguments serialises exactly as those arguments do, whatever the serialiser.
   */
  lemma HashKeyFuncArityCollision<K>(serialBytes: K -> seq<byte>, pack: seq<K> -> K, xs: seq<K>)
    requires |xs| >= 2
    ensures [pack(xs)] != xs
    ensures HashKeyFunc(serialBytes, pack, [pack(xs)]) == HashKeyFunc(serialBytes, pack, xs)
  {
  }
}
