/** internal/kv: the sharded in-memory store with lazy and swept expiry.

    Times are nanoseconds since the zero time, so `expiresAt == 0` is "never".
    The hash is any function into 32 bits; the janitor is a caller of Sweep.
 */
module KV {
  import opened Options

  datatype Entry<V> = Entry(value: V, expiresAt: int)

  type Store<V> = map<string, Entry<V>>

  predicate Live<V>(e: Entry<V>, now: int) {
    e.expiresAt == 0 || now < e.expiresAt
  }

  // ---------------------------------------------------------------------
  // Shard selection
  // ---------------------------------------------------------------------

  const WORD: nat := 0x1_0000_0000

  type Hash = x: nat | x < 0x1_0000_0000

  function Pow2(k: nat): (p: nat)
    ensures 1 <= p
  {
    if k == 0 then 1 else 2 * Pow2(k - 1)
  }

  /** Bitwise and, one binary digit at a time. */
  function And(a: nat, b: nat): (r: nat)
    ensures r <= b
  {
    if a == 0 || b == 0 then 0 else (if a % 2 == 1 && b % 2 == 1 then 1 else 0) + 2 * And(a / 2, b / 2)
  }

  lemma Multiples(m: nat, d: int)
    ensures d >= 1 ==> m * d >= m
    ensures d <= -1 ==> m * d <= 0 - m
  {
    if d >= 1 {
      assert m * (d - 1) >= 0;
    } else if d <= -1 {
      assert m * (-d - 1) >= 0;
    }
  }

  lemma RemainderIs(a: nat, m: nat, q: nat, r: nat)
    requires r < m && a == m * q + r
    ensures a % m == r
  {
    assert m * (a / m - q) == r - a % m;
    Multiples(m, a / m - q);
  }

  lemma HalvedRemainder(a: nat, p: nat)
    requires 1 <= p
    ensures a % (2 * p) == 2 * (a / 2 % p) + a % 2
  {
    var q := a / 2 / p;
    assert a / 2 == p * q + a / 2 % p;
    assert a == 2 * p * q + (2 * (a / 2 % p) + a % 2);
    RemainderIs(a, 2 * p, q, 2 * (a / 2 % p) + a % 2);
  }

  lemma AndDigit(a: nat, p: nat)
    requires 1 <= p && 0 < a
    ensures And(a, 2 * p - 1) == 2 * And(a / 2, p - 1) + a % 2
  {
    assert (2 * p - 1) / 2 == p - 1 && (2 * p - 1) % 2 == 1;
  }

  lemma AndOdd(a: nat, p: nat)
    requires 1 <= p && 0 < a && And(a / 2, p - 1) == a / 2 % p
    ensures And(a, 2 * p - 1) == a % (2 * p)
  {
    AndDigit(a, p);
    HalvedRemainder(a, p);
  }

  lemma ZeroRemainder(p: nat)
    requires 1 <= p
    ensures 0 % p == 0
  {
  }

  /** Masking with 2^k - 1 is the remainder, so the mask spreads over all shards. */
  lemma {:induction false} MaskIsRemainder(a: nat, k: nat)
    ensures And(a, Pow2(k) - 1) == a % Pow2(k)
    decreases k
  {
    if a == 0 {
      ZeroRemainder(Pow2(k));
    } else if 0 < k {
      MaskIsRemainder(a / 2, k - 1);
      AndOdd(a, Pow2(k - 1));
    }
  }

  /** The same for the 32-bit mask of a power of two, however large. */
  lemma MaskedIsRemainder(h: Hash, n: nat)
    requires IsPow2(n)
    ensures And(h, (n - 1) % WORD) == h % n
  {
    var k: nat :| n == Pow2(k);
    Pow32();
    if k <= 32 {
      Pow2Grows(k, 32);
      RemainderIs(n - 1, WORD, 0, n - 1);
      MaskIsRemainder(h, k);
    } else {
      Pow2Adds(k - 32, 32);
      WideMask(n, Pow2(k - 32));
      MaskIsRemainder(h, 32);
      RemainderIs(h, WORD, 0, h);
      RemainderIs(h, n, 0, h);
    }
  }

  lemma WideMask(n: nat, blocks: nat)
    requires n == blocks * WORD && 1 <= blocks
    ensures WORD <= n && (n - 1) % WORD == WORD - 1
  {
    assert n - 1 == WORD * (blocks - 1) + (WORD - 1);
    RemainderIs(n - 1, WORD, blocks - 1, WORD - 1);
  }

  ghost predicate IsPow2(n: nat) {
    exists k :: n == Pow2(k)
  }

  /** The least power of two at or above `n`. */
  method NextPow2(n: int) returns (p: nat)
    ensures IsPow2(p) && n <= p
    ensures forall k :: n <= Pow2(k) ==> p <= Pow2(k)
  {
    p := 1;
    ghost var k := 0;
    while p < n
      invariant p == Pow2(k)
      invariant k == 0 || Pow2(k - 1) < n
    {
      p := p * 2;
      k := k + 1;
    }
    forall j: nat | n <= Pow2(j) ensures p <= Pow2(j) {
      if j < k { Pow2Grows(j, k - 1); } else { Pow2Grows(k, j); }
    }
  }

  lemma {:induction false} Pow2Grows(j: nat, k: nat)
    requires j <= k
    ensures Pow2(j) <= Pow2(k)
  {
    if j < k { Pow2Grows(j, k - 1); }
  }

  /** A 64-bit signed value after wrap-around. */
  function Wrap64(x: int): int {
    (x + 0x8000_0000_0000_0000) % 0x1_0000_0000_0000_0000 - 0x8000_0000_0000_0000
  }

  lemma WrapInRange(x: nat)
    requires x < 0x8000_0000_0000_0000
    ensures Wrap64(x) == x
  {
  }

  lemma WrapsAround()
    ensures Wrap64(0x8000_0000_0000_0000) == -0x8000_0000_0000_0000
    ensures Wrap64(-0x1_0000_0000_0000_0000) == 0 == Wrap64(0)
  {
  }

  /** `p` after `k` left shifts of a 64-bit int. */
  function Shifted(k: nat): int {
    if k == 0 then 1 else Wrap64(2 * Shifted(k - 1))
  }

  lemma {:induction false} Pow2Adds(a: nat, b: nat)
    ensures Pow2(a + b) == Pow2(a) * Pow2(b)
  {
    if 0 < a { Pow2Adds(a - 1, b); }
  }

  lemma Pow62()
    ensures Pow2(62) == 0x4000_0000_0000_0000
  {
    Pow15();
    Pow2Adds(15, 15);
    Pow2Adds(1, 30);
    Pow2Adds(31, 31);
  }

  lemma Pow32()
    ensures Pow2(32) == WORD
  {
    Pow15();
    Pow2Adds(15, 15);
    Pow2Adds(2, 30);
  }

  lemma Pow15()
    ensures Pow2(15) == 0x8000
  {
    assert Pow2(5) == 32;
    Pow2Adds(5, 5);
    Pow2Adds(5, 10);
  }

  lemma UpTo62(k: nat)
    requires k <= 62
    ensures Pow2(k) <= 0x4000_0000_0000_0000
  {
    Pow62();
    Pow2Grows(k, 62);
  }

  lemma {:induction false} ShiftedLow(k: nat)
    requires k <= 62
    ensures Shifted(k) == Pow2(k)
  {
    if 0 < k {
      ShiftedLow(k - 1);
      UpTo62(k);
      WrapInRange(Pow2(k));
    }
  }

  lemma {:induction false} ShiftedHigh(k: nat)
    requires 63 <= k
    ensures Shifted(k) == if k == 63 then -0x8000_0000_0000_0000 else 0
  {
    WrapsAround();
    if k == 63 {
      ShiftedLow(k - 1);
      Pow62();
    } else {
      ShiftedHigh(k - 1);
    }
  }

  /** In 64 bits the doubling loop ends exactly for requests up to 2^62. */
  lemma DoublingEndsIff(n: int)
    ensures (exists k :: Shifted(k) >= n) <==> n <= 0x4000_0000_0000_0000
  {
    if n <= 0x4000_0000_0000_0000 {
      ShiftedLow(62);
      Pow62();
      assert Shifted(62) >= n;
    } else {
      forall k: nat ensures Shifted(k) < n {
        if k <= 62 {
          ShiftedLow(k);
          UpTo62(k);
        } else {
          ShiftedHigh(k);
        }
      }
    }
  }

  // ---------------------------------------------------------------------
  // The flat map and its operations
  // ---------------------------------------------------------------------

  function Lookup<V>(m: Store<V>, key: string, now: int): Option<V> {
    if key in m && Live(m[key], now) then Some(m[key].value) else None
  }

  /** Get drops the entry it found expired. */
  function AfterGet<V>(m: Store<V>, key: string, now: int): Store<V> {
    if key in m && !Live(m[key], now) then m - {key} else m
  }

  function Fresh<V>(value: V, ttl: int, now: int): Entry<V> {
    Entry(value, if ttl <= 0 then 0 else now + ttl)
  }

  function Swept<V>(m: Store<V>, now: int): Store<V> {
    map k | k in m && Live(m[k], now) :: m[k]
  }

  /** Sweeping, or expiring on a Get, changes no answer given at that time or later. */
  lemma RemovalIsInvisible<V>(m: Store<V>, swept: string, now: int, key: string, at: int)
    requires now <= at
    ensures Lookup(Swept(m, now), key, at) == Lookup(m, key, at)
    ensures Lookup(AfterGet(m, swept, now), key, at) == Lookup(m, key, at)
  {
  }

  ghost function Flat<V>(shards: seq<Store<V>>): Store<V> {
    if shards == [] then map[] else Flat(shards[..|shards| - 1]) + shards[|shards| - 1]
  }

  /** A key lives only in the shard the index sends it to. */
  ghost predicate Placed<V>(shards: seq<Store<V>>, index: string -> nat) {
    forall i, k :: 0 <= i < |shards| && k in shards[i] ==> index(k) == i
  }

  lemma {:induction false} FlatLookup<V>(shards: seq<Store<V>>, key: string, i: nat)
    requires forall j :: 0 <= j < |shards| && key in shards[j] ==> j == i
    ensures key in Flat(shards) <==> i < |shards| && key in shards[i]
    ensures i < |shards| && key in shards[i] ==> Flat(shards)[key] == shards[i][key]
  {
    if shards != [] {
      FlatLookup(shards[..|shards| - 1], key, i);
    }
  }

  lemma FlatIs<V>(shards: seq<Store<V>>, index: string -> nat, m: Store<V>)
    requires Placed(shards, index) && forall k :: index(k) < |shards|
    requires forall k :: (k in m <==> k in shards[index(k)]) && (k in m ==> m[k] == shards[index(k)][k])
    ensures Flat(shards) == m
  {
    forall k ensures (k in Flat(shards) <==> k in m) && (k in m ==> Flat(shards)[k] == m[k]) {
      FlatLookup(shards, k, index(k));
    }
    assert Flat(shards).Keys == m.Keys;
  }

  /** Changing one shard under one key changes the flat map under that key. */
  lemma FlatReplaced<V>(shards: seq<Store<V>>, index: string -> nat, key: string, shard: Store<V>)
    requires Placed(shards, index) && forall k :: index(k) < |shards|
    requires forall k :: k != key ==>
               (k in shard <==> k in shards[index(k)] && index(k) == index(key))
               && (k in shard ==> shard[k] == shards[index(k)][k])
    ensures Placed(shards[index(key) := shard], index)
    ensures Flat(shards[index(key) := shard])
            == if key in shard then Flat(shards)[key := shard[key]] else Flat(shards) - {key}
  {
    forall k ensures (k in Flat(shards) <==> k in shards[index(k)])
                  && (k in Flat(shards) ==> Flat(shards)[k] == shards[index(k)][k]) {
      FlatLookup(shards, k, index(k));
    }
    FlatIs(shards[index(key) := shard], index,
           if key in shard then Flat(shards)[key := shard[key]] else Flat(shards) - {key});
  }

  function Sizes<V>(shards: seq<Store<V>>): nat {
    if shards == [] then 0 else Sizes(shards[..|shards| - 1]) + |shards[|shards| - 1]|
  }

  lemma {:induction false} FlatSize<V>(shards: seq<Store<V>>, index: string -> nat)
    requires Placed(shards, index)
    ensures |Flat(shards)| == Sizes(shards)
  {
    if shards != [] {
      var front, last := shards[..|shards| - 1], shards[|shards| - 1];
      FlatSize(front, index);
      forall k | k in last ensures k !in Flat(front) {
        FlatLookup(front, k, index(k));
      }
      assert Flat(shards).Keys == Flat(front).Keys + last.Keys;
      assert |Flat(shards)| == |Flat(shards).Keys| && |Flat(front)| == |Flat(front).Keys| && |last| == |last.Keys|;
    }
  }

  class Memory<V> {
    const hash: string -> Hash
    const mask: Hash
    var shards: seq<Store<V>>

    function Index(key: string): (i: nat)
    {
      And(hash(key), mask)
    }

    ghost predicate Valid()
      reads this
    {
      && IsPow2(|shards|) && mask == (|shards| - 1) % WORD
      && Placed(shards, Index)
    }

    /** The store as callers see it: one map from key to entry. */
    ghost function View(): Store<V>
      reads this
    {
      Flat(shards)
    }

    lemma IndexInRange(key: string)
      requires Valid()
      ensures Index(key) < |shards|
    {
    }

    /** The mask picks the remainder, even with more shards than hash values. */
    lemma IndexIsRemainder(key: string)
      requires Valid()
      ensures Index(key) == hash(key) % |shards|
    {
      MaskedIsRemainder(hash(key), |shards|);
    }

    /** NextPow2 only ends in 64 bits for requests up to 2^62 (DoublingEndsIff). */
    constructor (requested: int, hash: string -> Hash)
      requires requested <= 0x4000_0000_0000_0000
      ensures Valid() && View() == map[]
      ensures IsPow2(|shards|) && |shards| >= if requested <= 0 then 16 else requested
      ensures forall k :: requested <= Pow2(k) && 0 < requested ==> |shards| <= Pow2(k)
    {
      var n := NextPow2(if requested <= 0 then 16 else requested);
      this.hash := hash;
      this.mask := (n - 1) % WORD;
      this.shards := seq(n, _ => map[]);
      new;
      FlatIs(shards, Index, map[]);
    }

    method Get(key: string, now: int) returns (r: Option<V>)
      requires Valid()
      modifies this
      ensures Valid()
      ensures r == Lookup(old(View()), key, now)
      ensures View() == AfterGet(old(View()), key, now)
      ensures r.Some? <==> key in old(View()) && (old(View())[key].expiresAt == 0 || now < old(View())[key].expiresAt)
      ensures r.Some? ==> r.value == old(View())[key].value && View() == old(View())
      ensures r.None? ==> View() == old(View()) - {key}
    {
      var i := Index(key);
      FlatLookup(shards, key, i);
      if key !in shards[i] { return None; }
      var e := shards[i][key];
      if e.expiresAt != 0 && !(now < e.expiresAt) {
        if key in shards[i] && shards[i][key].expiresAt == e.expiresAt {
          Replace(key, shards[i] - {key});
        }
        return None;
      }
      return Some(e.value);
    }

    /** Puts a shard back after changing at most what it holds under `key`. */
    method Replace(key: string, shard: Store<V>)
      requires Valid()
      requires forall k :: k != key ==>
                 (k in shard <==> k in shards[Index(k)] && Index(k) == Index(key))
                 && (k in shard ==> shard[k] == shards[Index(k)][k])
      modifies this
      ensures Valid() && shards == old(shards)[Index(key) := shard]
      ensures View() == if key in shard then old(View())[key := shard[key]] else old(View()) - {key}
    {
      forall k ensures Index(k) < |shards| { IndexInRange(k); }
      FlatReplaced(shards, Index, key, shard);
      shards := shards[Index(key) := shard];
    }

    method SetWithTTL(key: string, value: V, ttl: int, now: int)
      requires Valid()
      modifies this
      ensures Valid() && View() == old(View())[key := Fresh(value, ttl, now)]
      ensures View() == old(View())[key := Entry(value, if ttl <= 0 then 0 else now + ttl)]
    {
      var i := Index(key);
      Replace(key, shards[i][key := Entry(value, if ttl <= 0 then 0 else now + ttl)]);
    }

    method Set(key: string, value: V)
      requires Valid()
      modifies this
      ensures Valid() && View() == old(View())[key := Entry(value, 0)]
    {
      SetWithTTL(key, value, 0, 0);
    }

    method Delete(key: string)
      requires Valid()
      modifies this
      ensures Valid() && View() == old(View()) - {key}
    {
      Replace(key, shards[Index(key)] - {key});
    }

    method Len() returns (n: nat)
      requires Valid()
      ensures n == |View()|
    {
      n := 0;
      for i := 0 to |shards|
        invariant n == Sizes(shards[..i])
      {
        assert shards[..i + 1][..i] == shards[..i];
        n := n + |shards[i]|;
      }
      assert shards[..|shards|] == shards;
      FlatSize(shards, Index);
    }

    /** Removes the expired entries of one shard, key by key. */
    method SweepShard(i: nat, now: int)
      requires i < |shards|
      modifies this
      ensures shards == old(shards)[i := Swept(old(shards[i]), now)]
    {
      var keys := shards[i].Keys;
      ghost var before := shards[i];
      while keys != {}
        invariant keys <= before.Keys && |shards| == |old(shards)|
        invariant shards == old(shards)[i := shards[i]]
        invariant forall k :: k in shards[i] <==> k in before && (k in keys || Live(before[k], now))
        invariant forall k :: k in shards[i] ==> shards[i][k] == before[k]
        decreases |keys|
      {
        var k :| k in keys;
        var e := shards[i][k];
        if e.expiresAt != 0 && !(now < e.expiresAt) {
          shards := shards[i := shards[i] - {k}];
        }
        keys := keys - {k};
      }
      assert shards[i] == Swept(before, now);
    }

    method Sweep(now: int)
      requires Valid()
      modifies this
      ensures Valid() && View() == Swept(old(View()), now)
      ensures forall k :: k in View() <==>
                k in old(View()) && (old(View())[k].expiresAt == 0 || now < old(View())[k].expiresAt)
      ensures forall k :: k in View() ==> View()[k] == old(View())[k]
    {
      ghost var before := shards;
      for i := 0 to |shards|
        invariant |shards| == |before|
        invariant forall j :: 0 <= j < |before| ==> shards[j] == if j < i then Swept(before[j], now) else before[j]
      {
        SweepShard(i, now);
      }
      forall k ensures (k in Flat(before) <==> k in before[Index(k)])
                    && (k in Flat(before) ==> Flat(before)[k] == before[Index(k)][k]) {
        FlatLookup(before, k, Index(k));
      }
      FlatIs(shards, Index, Swept(Flat(before), now));
    }

    /** `computed` is what the callback returns, None standing for its error; it
        runs without a lock, and `meanwhile` is what the shards hold by its end. */
    method GetOrSet(key: string, ttl: int, computed: Option<V>, meanwhile: seq<Store<V>>, now: int, later: int)
      returns (r: Option<V>)
      requires Valid() && |meanwhile| == |shards| && Placed(meanwhile, Index)
      modifies this
      ensures Valid()
      ensures var m := old(View());
              if key in m && (m[key].expiresAt == 0 || now < m[key].expiresAt)
              then r == Some(m[key].value) && View() == m
              else r == computed
                   && View() == if computed.None? then Flat(meanwhile)
                                else Flat(meanwhile)[key := Entry(computed.value, if ttl <= 0 then 0 else later + ttl)]
    {
      r := Get(key, now);
      if r.Some? { return; }
      shards := meanwhile;
      if computed.None? { return None; }
      if ttl > 0 {
        SetWithTTL(key, computed.value, ttl, later);
      } else {
        Set(key, computed.value);
      }
      r := computed;
    }
  }
}
