/** The Bloom filter (util/bloom_filter.cc): bits set in place by double hashing with 64-bit
    wrap-around, and the membership test. */
module Bloom {
  import opened Bytes
  import opened Keys
  import opened TableImages
  import opened TableTheorems

  type Hash = Data -> Hash64
  type Hash64 = h: nat | h < 0x1_0000_0000_0000_0000

  // (h >> 33) | (h << 31): the two parts share no bit.
  function GetDelta(h: Hash64): Hash64 {
    h / 0x2_0000_0000 + h % 0x2_0000_0000 * 0x8000_0000
  }

  function Advance(h: Hash64, delta: Hash64): Hash64 {
    (h + delta) % 0x1_0000_0000_0000_0000
  }

  // The i-th probe's hash.
  function Probe(h: Hash64, i: nat): Hash64 {
    if i == 0 then h else Advance(Probe(h, i - 1), GetDelta(h))
  }

  // Double hashing: the i-th probe lies i steps on, each the hash turned by 31 bits, in 64 bits.
  lemma {:induction false} ProbeExact(h: Hash64, i: nat)
    ensures Probe(h, i) == (h + i * GetDelta(h)) % 0x1_0000_0000_0000_0000
    ensures GetDelta(h) == h / 0x2_0000_0000 + h * 0x8000_0000 % 0x1_0000_0000_0000_0000
  {
    hide GetDelta;
    Turned(h);
    if i > 0 {
      ProbeExact(h, i - 1);
      var d := GetDelta(h);
      assert i * d == (i - 1) * d + d;
      SumMod(h + (i - 1) * d, d);
    }
  }

  lemma SumMod(a: nat, b: nat)
    ensures (a % 0x1_0000_0000_0000_0000 + b) % 0x1_0000_0000_0000_0000 == (a + b) % 0x1_0000_0000_0000_0000
  {}

  lemma Turned(h: Hash64)
    ensures GetDelta(h) == h / 0x2_0000_0000 + h * 0x8000_0000 % 0x1_0000_0000_0000_0000
  {
    var q, r := h / 0x2_0000_0000, h % 0x2_0000_0000;
    assert h * 0x8000_0000 == q * 0x1_0000_0000_0000_0000 + r * 0x8000_0000;
  }

  /* ---------------------------------------------------------------------- bits */

  // (b & (1 << i)) != 0
  predicate HasBit(b: nat, i: nat) {
    if i == 0 then b % 2 == 1 else HasBit(b / 2, i - 1)
  }

  // b | (1 << i)
  function WithBit(b: nat, i: nat): nat {
    if i == 0 then b / 2 * 2 + 1 else WithBit(b / 2, i - 1) * 2 + b % 2
  }

  lemma {:induction false} WithBitMeans(b: nat, i: nat, j: nat)
    ensures HasBit(WithBit(b, i), j) <==> j == i || HasBit(b, j)
  {
    if i > 0 && j > 0 {
      WithBitMeans(b / 2, i - 1, j - 1);
    }
  }

  function Power(n: nat): nat {
    if n == 0 then 1 else 2 * Power(n - 1)
  }

  lemma WithBitStep(b: nat, i: nat)
    ensures WithBit(b, i) == if i == 0 then b / 2 * 2 + 1 else WithBit(b / 2, i - 1) * 2 + b % 2
  {}

  lemma PowerStep(n: nat)
    requires n > 0
    ensures Power(n) == 2 * Power(n - 1)
  {}

  lemma {:induction false} WithBitFits(b: nat, i: nat, n: nat)
    requires i < n && b < Power(n)
    ensures WithBit(b, i) < Power(n)
  {
    hide WithBit, Power;
    PowerStep(n);
    WithBitStep(b, i);
    if i > 0 {
      WithBitFits(b / 2, i - 1, n - 1);
    }
  }

  function SetBit(b: Byte, i: nat): Byte
    requires i < 8
  {
    WithBitFits(b, i, 8);
    assert Power(8) == 0x100;
    WithBit(b, i)
  }

  // Bit p of a run of bytes.
  predicate BitAt(rep: Data, p: nat)
    requires p / 8 < |rep|
  {
    HasBit(rep[p / 8], p % 8)
  }

  function BitSet(rep: Data, p: nat): (r: Data)
    requires p / 8 < |rep|
    ensures |r| == |rep|
  {
    rep[p / 8 := SetBit(rep[p / 8], p % 8)]
  }

  lemma BitSetMeans(rep: Data, p: nat, q: nat)
    requires p / 8 < |rep| && q / 8 < |rep|
    ensures BitAt(BitSet(rep, p), q) <==> q == p || BitAt(rep, q)
  {
    if p / 8 == q / 8 {
      WithBitMeans(rep[p / 8], p % 8, q % 8);
    }
  }

  /* ---------------------------------------------------------- building a filter */

  // Bits per key, as long as the filter of one key has a size.
  type KeyBits = n: nat | n <= 0xffff_ffff_ffff_fff8

  datatype Params = Params(hash: Hash, keyBits: KeyBits)

  // static_cast<size_t>(num_key_bits * 0.69314), within 1..60
  function K(c: Params): (k: nat)
    ensures 1 <= k <= 60
  {
    var k := (c.keyBits as real * 0.69314).Floor;
    if k < 1 then 1 else if k > 60 then 60 else k
  }

  // The size of the bit array, computed in 64 bits: it wraps to zero when the number of bits is too
  // near to 2^64, and the remainder by the number of bits is then not defined.
  function ByteCount(c: Params, n: nat): nat {
    var bits := n * c.keyBits % 0x1_0000_0000_0000_0000;
    ((if bits > 64 then bits else 64) + 7) % 0x1_0000_0000_0000_0000 / 8
  }

  predicate HasBits(c: Params, n: nat) {
    n * c.keyBits % 0x1_0000_0000_0000_0000 <= 0xffff_ffff_ffff_fff8
  }

  lemma HasBitsExactly(c: Params, n: nat)
    ensures HasBits(c, n) <==> ByteCount(c, n) >= 1
    ensures HasBits(c, n) ==> ByteCount(c, n) >= 8
    ensures n <= 1 ==> HasBits(c, n)
  {}

  // As long as nothing wraps, the bytes are as few as hold the bits of all keys, and at least eight.
  lemma ByteCountExact(c: Params, n: nat)
    requires n * c.keyBits <= 0xffff_ffff_ffff_fff8
    ensures ByteCount(c, n) >= 8 && 8 * ByteCount(c, n) >= n * c.keyBits
    ensures ByteCount(c, n) > 8 ==> 8 * (ByteCount(c, n) - 1) < n * c.keyBits
  {}

  // The number of probes is 0.69314 times the bits per key, rounded down, between 1 and 60.
  lemma KExact(c: Params)
    ensures 1 < K(c) < 60 ==> K(c) as real <= c.keyBits as real * 0.69314 < K(c) as real + 1.0
    ensures K(c) == 1 ==> c.keyBits as real * 0.69314 < 2.0
    ensures K(c) == 60 ==> c.keyBits as real * 0.69314 >= 60.0
  {}

  function Position(c: Params, key: Data, i: nat, bits: nat): nat
    requires bits > 0
  {
    Probe(c.hash(key), i) % bits
  }

  function SetKey(c: Params, rep: Data, key: Data, k: nat): (r: Data)
    requires rep != []
    ensures |r| == |rep|
  {
    if k == 0 then rep else BitSet(SetKey(c, rep, key, k - 1), Position(c, key, k - 1, 8 * |rep|))
  }

  function SetKeys(c: Params, rep: Data, keys: seq<Data>): (r: Data)
    requires rep != []
    ensures |r| == |rep|
  {
    if keys == [] then rep else SetKey(c, SetKeys(c, rep, keys[..|keys| - 1]), keys[|keys| - 1], K(c))
  }

  function Zeros(n: nat): Data {
    seq(n, _ => 0)
  }

  // The filter of a list of keys: its bits, and the number of probes in the last byte.
  function Filter(c: Params, keys: seq<Data>): Data
    requires HasBits(c, |keys|)
  {
    HasBitsExactly(c, |keys|);
    SetKeys(c, Zeros(ByteCount(c, |keys|)), keys) + [K(c)]
  }

  // The probes of one key, set in place.
  method SetProbes(c: Params, key: Data, arr: array<Byte>)
    requires arr.Length >= 1
    modifies arr
    ensures arr[..] == SetKey(c, old(arr[..]), key, K(c))
  {
    hide Position, BitSet, SetBit, GetDelta, Advance, K;
    var bits := arr.Length * 8;
    var h := c.hash(key);
    var delta := GetDelta(h);
    for i := 0 to K(c)
      invariant h == Probe(c.hash(key), i) && arr[..] == SetKey(c, old(arr[..]), key, i)
    {
      var bitpos := h % bits;
      PositionIs(c, key, i, bits);
      BitSetIs(arr[..], bitpos);
      arr[bitpos / 8] := SetBit(arr[bitpos / 8], bitpos % 8);
      h := Advance(h, delta);
    }
  }

  // append_new_filter, on the destination grown by the bits and the last byte.
  method AppendNewFilter(c: Params, keys: seq<Data>, dst: Data) returns (out: Data)
    requires HasBits(c, |keys|)
    ensures out == dst + Filter(c, keys)
  {
    hide ByteCount, SetKey, K, HasBits;
    HasBitsExactly(c, |keys|);
    var bytes := ByteCount(c, |keys|);
    var arr := new Byte[bytes](_ => 0);
    assert arr[..] == Zeros(bytes);
    for n := 0 to |keys|
      invariant arr[..] == SetKeys(c, Zeros(bytes), keys[..n])
    {
      SetProbes(c, keys[n], arr);
      assert keys[..n + 1][..n] == keys[..n];
    }
    assert keys[..|keys|] == keys;
    out := dst + (arr[..] + [K(c)]);
  }

  lemma PositionIs(c: Params, key: Data, i: nat, bits: nat)
    requires bits > 0
    ensures Position(c, key, i, bits) == Probe(c.hash(key), i) % bits < bits
  {}

  lemma BitSetIs(rep: Data, p: nat)
    requires p / 8 < |rep|
    ensures BitSet(rep, p) == rep[p / 8 := SetBit(rep[p / 8], p % 8)]
  {}

  /* --------------------------------------------------------------- membership */

  // Every probe finds its bit.
  predicate AllProbesSet(c: Params, key: Data, rep: Data, k: nat)
    requires rep != []
  {
    forall i | 0 <= i < k :: ProbeSet(c, key, rep, i)
  }

  predicate ProbeSet(c: Params, key: Data, rep: Data, i: nat)
    requires rep != []
  {
    BitAt(rep, Position(c, key, i, 8 * |rep|))
  }

  function MayMatch(c: Params, key: Data, filter: Data): bool {
    if |filter| < 2 then false
    else
      var k := filter[|filter| - 1];
      k > 30 || AllProbesSet(c, key, filter[..|filter| - 1], k)
  }

  // may_match: the probes are tried one after the other.
  method TryMatch(c: Params, key: Data, filter: Data) returns (r: bool)
    ensures r == MayMatch(c, key, filter)
  {
    hide BitAt, GetDelta, Advance;
    if |filter| < 2 {
      return false;
    }
    var bits, k := (|filter| - 1) * 8, filter[|filter| - 1];
    if k > 30 {
      return true;
    }
    ghost var rep := filter[..|filter| - 1];
    var h := c.hash(key);
    var delta := GetDelta(h);
    for i := 0 to k
      invariant h == Probe(c.hash(key), i) && AllProbesSet(c, key, rep, i)
    {
      var bitpos := h % bits;
      PositionIs(c, key, i, bits);
      assert filter[bitpos / 8] == rep[bitpos / 8];
      if !HasBit(filter[bitpos / 8], bitpos % 8) {
        BitIs(rep, bitpos);
        assert !ProbeSet(c, key, rep, i);
        return false;
      }
      BitIs(rep, bitpos);
      h := Advance(h, delta);
    }
    return true;
  }

  lemma BitIs(rep: Data, p: nat)
    requires p / 8 < |rep|
    ensures BitAt(rep, p) == HasBit(rep[p / 8], p % 8)
  {}

  lemma {:induction false} SetKeyMeans(c: Params, rep: Data, key: Data, k: nat, q: nat)
    requires q / 8 < |rep|
    ensures BitAt(SetKey(c, rep, key, k), q) <==>
              BitAt(rep, q) || exists i :: 0 <= i < k && Position(c, key, i, 8 * |rep|) == q
  {
    hide Position, BitAt, BitSet;
    if k > 0 {
      SetKeyMeans(c, rep, key, k - 1, q);
      PositionIs(c, key, k - 1, 8 * |rep|);
      BitSetMeans(SetKey(c, rep, key, k - 1), Position(c, key, k - 1, 8 * |rep|), q);
    }
  }

  // A bit is set exactly when it was, or when a probe of a listed key hits it.
  lemma {:induction false} SetKeysMeans(c: Params, rep: Data, keys: seq<Data>, q: nat)
    requires q / 8 < |rep|
    ensures BitAt(SetKeys(c, rep, keys), q)
        <==> BitAt(rep, q) || exists n, i :: 0 <= n < |keys| && 0 <= i < K(c) && Position(c, keys[n], i, 8 * |rep|) == q
  {
    hide Position, BitAt, SetKey, K;
    if keys != [] {
      var front, last := keys[..|keys| - 1], keys[|keys| - 1];
      SetKeysMeans(c, rep, front, q);
      SetKeyMeans(c, SetKeys(c, rep, front), last, K(c), q);
    }
  }

  lemma ZerosEmpty(n: nat, q: nat)
    requires q / 8 < n
    ensures !BitAt(Zeros(n), q)
  {
    NoBits(q % 8);
  }

  lemma NoBits(i: nat)
    ensures !HasBit(0, i)
  {}

  // A filter built by one call answers yes exactly for keys all of whose probes hit probes of
  // listed keys; with more than 30 probes, for every key.
  lemma MatchExact(c: Params, keys: seq<Data>, key: Data)
    requires HasBits(c, |keys|)
    ensures ByteCount(c, |keys|) >= 8
    ensures MayMatch(c, key, Filter(c, keys))
        <==> K(c) > 30 || forall i | 0 <= i < K(c) :: Hit(c, keys, Position(c, key, i, 8 * ByteCount(c, |keys|)))
  {
    hide Position, BitAt, SetKeys, K, ByteCount, Zeros, HasBits;
    HasBitsExactly(c, |keys|);
    var bytes := ByteCount(c, |keys|);
    ZerosLength(bytes);
    var rep := SetKeys(c, Zeros(bytes), keys);
    assert Filter(c, keys)[..|rep|] == rep;
    forall i | 0 <= i < K(c) ensures ProbeSet(c, key, rep, i) <==> Hit(c, keys, Position(c, key, i, 8 * bytes)) {
      var q := Position(c, key, i, 8 * bytes);
      PositionIs(c, key, i, 8 * bytes);
      SetKeysMeans(c, Zeros(bytes), keys, q);
      ZerosEmpty(bytes, q);
    }
  }

  lemma ZerosLength(n: nat)
    ensures |Zeros(n)| == n
  {}

  // Some probe of a listed key lands on bit q.
  predicate Hit(c: Params, keys: seq<Data>, q: nat)
    requires HasBits(c, |keys|)
  {
    HasBitsExactly(c, |keys|);
    exists n, i :: 0 <= n < |keys| && 0 <= i < K(c) && Position(c, keys[n], i, 8 * ByteCount(c, |keys|)) == q
  }

  // No false negatives, for any hash and any number of bits per key.
  lemma ListedKeysMatch(c: Params, keys: seq<Data>, key: Data)
    requires key in keys && HasBits(c, |keys|)
    ensures MayMatch(c, key, Filter(c, keys))
  {
    hide MayMatch, Filter, Position, K, ByteCount, HasBits;
    MatchExact(c, keys, key);
    var n :| 0 <= n < |keys| && keys[n] == key;
    forall i | 0 <= i < K(c) ensures Hit(c, keys, Position(c, key, i, 8 * ByteCount(c, |keys|))) {
      assert keys[n] == key;
    }
  }

  /* ------------------------------------------------------------ in the database */

  // make_bloom_filter as the table builder uses it: one filter appended per user key.
  function Policy(c: Params): FilterPolicy {
    HasBitsExactly(c, 1);
    FilterPolicy((key, rep) => rep + Filter(c, [key]), (key, filter) => MayMatch(c, key, filter))
  }

  lemma {:induction false} LastByte(c: Params, es: seq<Entry>)
    requires es != []
    ensures var f := FilterOf(Policy(c), es); |f| >= 2 && f[|f| - 1] == K(c)
  {
    hide K, SerUser, SetKeys;
    var front, e := es[..|es| - 1], es[|es| - 1];
    if front != [] && front[|front| - 1].key.user == e.key.user {
      LastByte(c, front);
    } else {
      HasBitsExactly(c, 1);
      FilterEnd(c, [SerUser(e.key.user)]);
    }
  }

  lemma FilterEnd(c: Params, keys: seq<Data>)
    requires HasBits(c, |keys|)
    ensures |Filter(c, keys)| >= 2 && Filter(c, keys)[|Filter(c, keys)| - 1] == K(c)
  {
    hide K;
  }

  // One key's filter has nine bytes.
  lemma DatabaseFilterGrows(hash: Hash, key: Data, rep: Data)
    ensures |Policy(Params(hash, 64)).append(key, rep)| == |rep| + 9
  {
    hide SetKeys, K;
    assert ByteCount(Params(hash, 64), 1) == 8;
    ZerosLength(8);
  }

  // The database's 64 bits per key mean 44 probes, so a table's filter never rules a stored key out.
  lemma DatabaseFilterKeeps(cfg: TableConfig, hash: Hash, es: seq<Entry>)
    requires cfg.filter == Policy(Params(hash, 64))
    ensures K(Params(hash, 64)) == 44 && FilterKeeps(cfg, es)
  {
    hide FilterOf, SerUser;
    if es != [] {
      LastByte(Params(hash, 64), es);
    }
  }
}
