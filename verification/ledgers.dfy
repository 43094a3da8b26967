/** The plain JavaScript objects the dashboards accumulate into
    (`revenueByDoctor`, `revenueByDepartment`, `earningsByHospital`), as a
    list of key/amount entries in the order keys were first added. Each
    update is `m[k] = (m[k] || 0) + x`. */
module Ledgers {

  datatype Entry = Entry(key: string, amount: real)

  type Ledger = seq<Entry>

  /** `m[k] || 0`: the amount under `k`, or 0 when `k` is absent. */
  function Get(l: Ledger, k: string): real
  {
    if |l| == 0 then 0.0
    else if l[0].key == k then l[0].amount
    else Get(l[1..], k)
  }

  function Keys(l: Ledger): set<string>
  {
    if |l| == 0 then {} else {l[0].key} + Keys(l[1..])
  }

  /** No key is listed twice, as in an object. */
  predicate KeysUnique(l: Ledger)
  {
    |l| == 0 || (l[0].key !in Keys(l[1..]) && KeysUnique(l[1..]))
  }

  /** The sum of all the amounts (`Object.values(m)` added up). */
  function Total(l: Ledger): real
  {
    if |l| == 0 then 0.0 else l[0].amount + Total(l[1..])
  }

  /** `m[k] = (m[k] || 0) + x`: the amount under `k` grows by `x`, every
      other key keeps its amount, and the total grows by `x`. */
  function Add(l: Ledger, k: string, x: real): (r: Ledger)
    ensures Get(r, k) == Get(l, k) + x
    ensures forall k' {:trigger Get(r, k')} :: k' != k ==> Get(r, k') == Get(l, k')
    ensures Total(r) == Total(l) + x
    ensures Keys(r) == Keys(l) + {k}
    ensures KeysUnique(l) ==> KeysUnique(r)
  {
    if |l| == 0 then [Entry(k, x)]
    else if l[0].key == k then
      var r := [Entry(k, l[0].amount + x)] + l[1..];
      assert r[1..] == l[1..];
      r
    else
      var rest := Add(l[1..], k, x);
      var r := [l[0]] + rest;
      assert r[1..] == rest;
      r
  }

  /** `n` copies of `x` added up, i.e. `n * x`; kept recursive so that the
      sums below stay linear for the solver (see `TimesIsProduct`). */
  function Times(n: nat, x: real): real
  {
    if n == 0 then 0.0 else x + Times(n - 1, x)
  }

  lemma {:induction false} TimesIsProduct(n: nat, x: real)
    ensures Times(n, x) == n as real * x
  {
    if n > 0 {
      TimesIsProduct(n - 1, x);
    }
  }

  /** `Times` distributes over addition. */
  lemma {:induction false} TimesAdd(n: nat, a: real, b: real)
    ensures Times(n, a + b) == Times(n, a) + Times(n, b)
  {
    if n > 0 {
      TimesAdd(n - 1, a, b);
    }
  }

  /** Any number of zeros adds up to zero. */
  lemma {:induction false} TimesZero(n: nat)
    ensures Times(n, 0.0) == 0.0
  {
    if n > 0 {
      TimesZero(n - 1);
    }
  }

  /** Adding up non-negative amounts never goes below zero. */
  lemma {:induction false} TimesNonNegative(n: nat, x: real)
    requires x >= 0.0
    ensures Times(n, x) >= 0.0
  {
    if n > 0 {
      TimesNonNegative(n - 1, x);
    }
  }

  /** One copy or more of a non-negative amount is at least that amount. */
  lemma {:induction false} TimesAtLeastOnce(n: nat, x: real)
    requires n >= 1 && x >= 0.0
    ensures Times(n, x) >= x
  {
    TimesNonNegative(n - 1, x);
  }

  /** `keys.forEach(k => m[k] = (m[k] || 0) + x)`: every listed key gains
      `x` once per time it is listed, so the total gains `x` per listed key. */
  function AddEach(l: Ledger, keys: seq<string>, x: real): (r: Ledger)
    ensures forall k {:trigger Get(r, k)} :: Get(r, k) == Get(l, k) + Times(multiset(keys)[k], x)
    ensures Total(r) == Total(l) + Times(|keys|, x)
    ensures Keys(r) == Keys(l) + set k | k in keys
    ensures KeysUnique(l) ==> KeysUnique(r)
    decreases |keys|
  {
    if |keys| == 0 then l
    else
      var m := Add(l, keys[0], x);
      var r := AddEach(m, keys[1..], x);
      ListedKeys(keys);
      assert Times(|keys|, x) == x + Times(|keys[1..]|, x);
      forall k
        ensures Get(r, k) == Get(l, k) + Times(multiset(keys)[k], x)
      {
        ListingCount(keys, k);
        if k == keys[0] {
          assert Times(multiset(keys)[k], x) == x + Times(multiset(keys[1..])[k], x);
        }
      }
      r
  }

  /** How often `k` is listed: once more than in the tail when it heads the
      list. */
  lemma ListingCount(keys: seq<string>, k: string)
    requires |keys| > 0
    ensures multiset(keys)[k] == multiset(keys[1..])[k] + (if k == keys[0] then 1 else 0)
  {
    assert keys == [keys[0]] + keys[1..];
  }

  /** The keys listed: the head and those listed in the tail. */
  lemma ListedKeys(keys: seq<string>)
    requires |keys| > 0
    ensures (set k | k in keys) == {keys[0]} + set k | k in keys[1..]
  {
    assert keys == [keys[0]] + keys[1..];
  }
}
