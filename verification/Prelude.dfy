/**
 Values shared by the whole project: optional results, results that may raise,
 list comprehensions, sorting and dictionaries that remember insertion order.
 */
module Prelude {

  datatype Option<+T> = None | Some(value: T)

  /** The result of code that may raise. */
  datatype Outcome<+T, +E> = Ok(value: T) | Raised(error: E)

  function Min(a: int, b: int): int { if a <= b then a else b }

  function Max(a: int, b: int): int { if a <= b then b else a }

  ghost predicate NoDup<T>(s: seq<T>) {
    forall i, j :: 0 <= i < j < |s| ==> s[i] != s[j]
  }

  ghost predicate Disjoint<T>(s: seq<T>, t: seq<T>) {
    forall x :: x in s ==> x !in t
  }

  /** The list comprehension `[x for x in s if p(x)]`. */
  function Filter<T(!new)>(p: T -> bool, s: seq<T>): (r: seq<T>)
    ensures forall x :: x in r <==> x in s && p(x)
    ensures NoDup(s) ==> NoDup(r)
  {
    if s == [] then []
    else
      var last := s[|s| - 1];
      assert s == s[..|s| - 1] + [last];
      var init := Filter(p, s[..|s| - 1]);
      if p(last) then init + [last] else init
  }

  lemma {:induction false} FilterCongruence<T(!new)>(p: T -> bool, q: T -> bool, s: seq<T>)
    requires forall x :: x in s ==> p(x) == q(x)
    ensures Filter(p, s) == Filter(q, s)
  {
    if s != [] {
      FilterCongruence(p, q, s[..|s| - 1]);
    }
  }

  /** The dictionary comprehension `{k: m[k] for k in ks}`. */
  function Restrict<V>(m: map<nat, V>, ks: seq<nat>): (r: map<nat, V>)
    requires forall k :: k in ks ==> k in m
    ensures forall k :: k in r <==> k in ks
    ensures forall k :: k in r ==> r[k] == m[k]
  {
    map k | k in ks :: m[k]
  }

  lemma MapExt<V>(a: map<nat, V>, b: map<nat, V>)
    requires forall k :: k in a <==> k in b
    requires forall k :: k in a ==> a[k] == b[k]
    ensures a == b
  {
    assert a.Keys == b.Keys;
  }

  lemma OneElement(s: seq<nat>, x: nat)
    requires x in s && NoDup(s) && forall y :: y in s ==> y == x
    ensures |s| == 1
  {
    assert |s| <= 1 || s[0] != s[1];
    forall i | 0 <= i < |s|
      ensures s[i] == x
    {
      assert s[i] in s;
    }
  }

  lemma SplitLast<T>(s: seq<T>)
    requires s != []
    ensures s == s[..|s| - 1] + [s[|s| - 1]]
  {
  }

  lemma TakeNext<T>(s: seq<T>, i: nat)
    requires i < |s|
    ensures s[..i + 1] == s[..i] + [s[i]] && s[..i + 1][..i] == s[..i]
  {
  }

  /** The position of x in s, if s holds it. */
  function IndexOf<T(==)>(s: seq<T>, x: T): (i: nat)
    requires x in s
    ensures i < |s| && s[i] == x
    ensures NoDup(s) ==> forall k :: 0 <= k < |s| && s[k] == x ==> k == i
  {
    if s[0] == x then 0 else 1 + IndexOf(s[1..], x)
  }

  function Flatten<T>(ss: seq<seq<T>>): seq<T> {
    if ss == [] then [] else Flatten(ss[..|ss| - 1]) + ss[|ss| - 1]
  }
}

module Arithmetic {
  lemma MulLe(a: nat, b: nat, c: nat)
    requires a <= b
    ensures a * c <= b * c
  {
  }

  lemma DivOfMultiple(q: nat, d: nat)
    requires d > 0
    ensures q * d / d == q && q * d % d == 0
  {
    var k, r := q * d / d, q * d % d;
    assert q * d == k * d + r;
    if k < q {
      MulLe(k + 1, q, d);
    } else {
      MulLe(q, k, d);
      if k > q {
        MulLe(q + 1, k, d);
      }
    }
  }

  /** The least multiple of d that is not below n. */
  function RoundUp(n: nat, d: nat): (r: nat)
    requires d > 0
    ensures n <= r < n + d && r % d == 0 && r == r / d * d
  {
    var q := (n + d - 1) / d;
    assert q * d <= n + d - 1 < q * d + d;
    DivOfMultiple(q, d);
    q * d
  }

  /** Every multiple of d that holds n is at least as large. */
  lemma RoundUpLeast(n: nat, d: nat, k: nat)
    requires d > 0 && n <= k * d
    ensures RoundUp(n, d) <= k * d
  {
    var q := (n + d - 1) / d;
    assert q * d <= n + d - 1;
    if k < q {
      MulLe(k + 1, q, d);
    } else {
      MulLe(q, k, d);
    }
  }

  /** A multiple of d less than d above n is the least one. */
  lemma RoundUpIs(n: nat, d: nat, k: nat)
    requires d > 0 && n <= k * d < n + d
    ensures RoundUp(n, d) == k * d
  {
    RoundUpLeast(n, d, k);
    var j := RoundUp(n, d) / d;
    if j < k {
      MulLe(j + 1, k, d);
    }
  }
}

/** Decimal digits as text. */
module Decimal {
  predicate AllDigits(s: string) {
    forall i :: 0 <= i < |s| ==> '0' <= s[i] <= '9'
  }

  function DigitsValue(s: string): nat
    requires AllDigits(s)
  {
    if s == "" then 0 else DigitsValue(s[..|s| - 1]) * 10 + (s[|s| - 1] as nat - '0' as nat)
  }
}

module Devices {
  datatype DeviceType = A2 | A3 | A310P | A5
}

module Sorting {
  import opened Prelude

  ghost predicate Ascending(s: seq<nat>) {
    forall i, j :: 0 <= i < j < |s| ==> s[i] <= s[j]
  }

  ghost predicate StrictlyAscending(s: seq<nat>) {
    forall i, j :: 0 <= i < j < |s| ==> s[i] < s[j]
  }

  lemma AscendingNoDup(s: seq<nat>)
    ensures StrictlyAscending(s) ==> NoDup(s)
  {
  }

  lemma ConsAscending(h: nat, t: seq<nat>)
    requires Ascending(t) && forall y :: y in t ==> h <= y
    ensures Ascending([h] + t)
  {
    var r := [h] + t;
    forall i, j | 0 <= i < j < |r|
      ensures r[i] <= r[j]
    {
      assert r[j] == t[j - 1] && t[j - 1] in t;
      if i > 0 {
        assert r[i] == t[i - 1];
      }
    }
  }

  lemma ConsStrictlyAscending(h: nat, t: seq<nat>)
    requires StrictlyAscending(t) && forall y :: y in t ==> h < y
    ensures StrictlyAscending([h] + t)
  {
    var r := [h] + t;
    forall i, j | 0 <= i < j < |r|
      ensures r[i] < r[j]
    {
      assert r[j] == t[j - 1] && t[j - 1] in t;
      if i > 0 {
        assert r[i] == t[i - 1];
      }
    }
  }

  function Insert(x: nat, s: seq<nat>): (r: seq<nat>)
    requires Ascending(s)
    ensures Ascending(r)
    ensures multiset(r) == multiset(s) + multiset{x}
    ensures forall y :: y in r <==> y == x || y in s
    ensures |r| == |s| + 1
  {
    if s == [] then [x]
    else if x <= s[0] then
      ConsAscending(x, s);
      [x] + s
    else
      assert s == [s[0]] + s[1..];
      var rest := Insert(x, s[1..]);
      ConsAscending(s[0], rest);
      [s[0]] + rest
  }

  /** `sorted(s)` on a list. */
  function Sorted(s: seq<nat>): (r: seq<nat>)
    ensures Ascending(r)
    ensures multiset(r) == multiset(s)
    ensures |r| == |s|
    ensures forall x :: x in r <==> x in s
  {
    if s == [] then []
    else
      assert s == [s[0]] + s[1..];
      Insert(s[0], Sorted(s[1..]))
  }

  function InsertNew(x: nat, s: seq<nat>): (r: seq<nat>)
    requires StrictlyAscending(s)
    ensures StrictlyAscending(r)
    ensures forall y :: y in r <==> y == x || y in s
  {
    if s == [] then [x]
    else if x == s[0] then s
    else if x < s[0] then [x] + s
    else
      assert s == [s[0]] + s[1..];
      var rest := InsertNew(x, s[1..]);
      ConsStrictlyAscending(s[0], rest);
      [s[0]] + rest
  }

  /** `sorted(set(s))`. */
  function SortedSet(s: seq<nat>): (r: seq<nat>)
    ensures StrictlyAscending(r)
    ensures forall x :: x in r <==> x in s
  {
    if s == [] then [] else InsertNew(s[0], SortedSet(s[1..]))
  }

  lemma MultisetNoDup<T>(s: seq<T>, t: seq<T>)
    requires NoDup(s) && multiset(s) == multiset(t)
    ensures NoDup(t)
  {
    forall i, j | 0 <= i < j < |t|
      ensures t[i] != t[j]
    {
      if t[i] == t[j] {
        assert t == t[..i] + [t[i]] + t[i + 1..j] + [t[j]] + t[j + 1..];
        assert multiset(t)[t[i]] >= 2;
        NoDupCount(s, t[i]);
      }
    }
  }

  lemma {:induction false} NoDupCount<T>(s: seq<T>, x: T)
    requires NoDup(s)
    ensures multiset(s)[x] <= 1
  {
    if s != [] {
      assert s == [s[0]] + s[1..];
      NoDupCount(s[1..], x);
      if s[0] == x {
        assert x !in s[1..];
      }
    }
  }

  lemma SortedNoDup(s: seq<nat>)
    ensures NoDup(s) ==> NoDup(Sorted(s))
  {
    if NoDup(s) {
      MultisetNoDup(s, Sorted(s));
    }
  }

  /** Sorting a list without repeats makes it strictly ascending. */
  lemma SortedAscends(s: seq<nat>)
    ensures NoDup(s) ==> StrictlyAscending(Sorted(s))
  {
    SortedNoDup(s);
  }

  lemma {:induction false} FilterAscends(p: nat -> bool, s: seq<nat>)
    ensures StrictlyAscending(s) ==> StrictlyAscending(Filter(p, s))
  {
    if s != [] && StrictlyAscending(s) {
      var k := |s| - 1;
      FilterAscends(p, s[..k]);
      var init := Filter(p, s[..k]);
      forall i | 0 <= i < |init|
        ensures init[i] < s[k]
      {
        assert init[i] in s[..k];
      }
    }
  }

  lemma HeadAndTail(s: seq<nat>)
    requires s != []
    ensures multiset(s) == multiset{s[0]} + multiset(s[1..])
  {
    assert s == [s[0]] + s[1..];
  }

  lemma SameHead(s: seq<nat>, t: seq<nat>)
    requires Ascending(s) && Ascending(t) && multiset(s) == multiset(t) && s != [] && t != []
    ensures s[0] == t[0]
  {
    assert s[0] in multiset(t) && t[0] in multiset(s);
    var i, j := IndexOf(t, s[0]), IndexOf(s, t[0]);
    assert t[0] <= t[i] && s[0] <= s[j];
  }

  lemma SameTail(s: seq<nat>, t: seq<nat>)
    requires multiset(s) == multiset(t) && s != [] && t != [] && s[0] == t[0]
    ensures multiset(s[1..]) == multiset(t[1..])
  {
    HeadAndTail(s);
    HeadAndTail(t);
    assert multiset(s[1..]) == multiset(s) - multiset{s[0]};
  }

  lemma SameLength(s: seq<nat>, t: seq<nat>)
    requires multiset(s) == multiset(t)
    ensures |s| == |t|
  {
    assert |multiset(s)| == |multiset(t)|;
  }

  /** An ascending list is determined by its elements. */
  lemma {:induction false} AscendingUnique(s: seq<nat>, t: seq<nat>)
    requires Ascending(s) && Ascending(t) && multiset(s) == multiset(t)
    ensures s == t
    decreases |s|
  {
    SameLength(s, t);
    if s != [] {
      SameHead(s, t);
      SameTail(s, t);
      AscendingUnique(s[1..], t[1..]);
      assert s == [s[0]] + s[1..] && t == [t[0]] + t[1..];
    }
  }
}

module Dictionaries {
  import opened Prelude

  datatype Dict<K(==,!new), V> = Dict(keys: seq<K>, items: map<K, V>) {
    ghost predicate Valid() {
      && NoDup(keys)
      && forall k :: k in keys <==> k in items
    }

    predicate Has(k: K) { k in items }

    function At(k: K): V
      requires Has(k)
    {
      items[k]
    }

    function Put(k: K, v: V): (d: Dict<K, V>)
      ensures Valid() ==> d.Valid()
    {
      if k in items then Dict(keys, items[k := v]) else Dict(keys + [k], items[k := v])
    }
  }

  function Empty<K(!new), V>(): (d: Dict<K, V>)
    ensures d.Valid()
  {
    Dict([], map[])
  }

  /** The dictionary built by visiting the keys in order, or None as soon as one has no entry. */
  function Collect<K(!new, ==), V>(keys: seq<K>, entry: K -> Option<(K, V)>): (r: Option<Dict<K, V>>)
    ensures r.Some? ==> r.value.Valid()
  {
    if keys == [] then Some(Empty())
    else
      var before, e := Collect(keys[..|keys| - 1], entry), entry(keys[|keys| - 1]);
      if before.Some? && e.Some? then Some(before.value.Put(e.value.0, e.value.1)) else None
  }

  /** Entries under their own keys make a dictionary with those keys in the same order. */
  lemma {:induction false} CollectAll<K(!new), V>(keys: seq<K>, entry: K -> Option<(K, V)>)
    requires NoDup(keys) && forall k :: k in keys ==> entry(k).Some? && entry(k).value.0 == k
    ensures Collect(keys, entry).Some? && Collect(keys, entry).value.keys == keys
    ensures forall k :: k in keys ==>
              Collect(keys, entry).value.Has(k) && Collect(keys, entry).value.At(k) == entry(k).value.1
  {
    if keys != [] {
      var init, last := keys[..|keys| - 1], keys[|keys| - 1];
      SplitLast(keys);
      CollectAll(init, entry);
      assert last !in init;
    }
  }

  /** What holds of every entry holds of the dictionary. */
  lemma {:induction false} CollectHolds<K(!new), V>(keys: seq<K>, entry: K -> Option<(K, V)>, p: (K, V) -> bool)
    requires forall k :: k in keys && entry(k).Some? ==> p(entry(k).value.0, entry(k).value.1)
    ensures Collect(keys, entry).Some? ==>
              forall k :: Collect(keys, entry).value.Has(k) ==> p(k, Collect(keys, entry).value.At(k))
  {
    if keys != [] {
      var init, last := keys[..|keys| - 1], keys[|keys| - 1];
      CollectHolds(init, entry, p);
      if Collect(keys, entry).Some? {
        assert last in keys;
        var d := Collect(keys, entry).value;
        forall k | d.Has(k)
          ensures p(k, d.At(k))
        {
          assert k == entry(last).value.0 || Collect(init, entry).value.Has(k);
        }
      }
    }
  }

  lemma CollectNext<K(!new), V>(keys: seq<K>, entry: K -> Option<(K, V)>, i: nat, d: Dict<K, V>, k: K, v: V)
    requires i < |keys| && Collect(keys[..i], entry) == Some(d) && entry(keys[i]) == Some((k, v))
    ensures Collect(keys[..i + 1], entry) == Some(d.Put(k, v))
  {
    TakeNext(keys, i);
  }

  /** One key without an entry is enough for None. */
  lemma {:induction false} CollectStops<K(!new), V>(keys: seq<K>, entry: K -> Option<(K, V)>, i: nat)
    requires i < |keys| && entry(keys[i]).None?
    ensures Collect(keys, entry).None?
  {
    if i < |keys| - 1 {
      CollectStops(keys[..|keys| - 1], entry, i);
    }
  }

  function NewKeys<K(!new, ==), V>(b: map<K, V>, keys: seq<K>): (r: seq<K>) {
    if keys == [] then []
    else
      var before, last := NewKeys(b, keys[..|keys| - 1]), keys[|keys| - 1];
      if last in b then before else before + [last]
  }

  /** b after `for k, v in x.items(): b[k] = v`. */
  function Update<K(!new, ==), V>(b: Dict<K, V>, x: Dict<K, V>): Dict<K, V> {
    Dict(b.keys + NewKeys(b.items, x.keys), b.items + x.items)
  }

  lemma NewKeysAppend<K(!new), V>(b: map<K, V>, keys: seq<K>, k: K)
    ensures NewKeys(b, keys + [k]) == if k in b then NewKeys(b, keys) else NewKeys(b, keys) + [k]
  {
    assert (keys + [k])[..|keys|] == keys;
  }

  /** Updating with one more entry is updating and then putting the entry. */
  lemma UpdatePut<K(!new), V>(b: Dict<K, V>, x: Dict<K, V>, k: K, v: V)
    ensures Update(b, x.Put(k, v)) == Update(b, x).Put(k, v)
  {
    NewKeysAppend(b.items, x.keys, k);
    assert b.items + x.items[k := v] == (b.items + x.items)[k := v];
    assert b.keys + NewKeys(b.items, x.keys) + [k] == b.keys + (NewKeys(b.items, x.keys) + [k]);
  }

  /** The first n entries in insertion order. */
  function First<K(!new, ==), V>(x: Dict<K, V>, n: nat): (r: Dict<K, V>)
    requires x.Valid() && n <= |x.keys|
    ensures r.keys == x.keys[..n] && r.items.Keys <= x.items.Keys
    ensures forall k :: k in x.keys[..n] <==> k in r.items
    ensures forall k :: k in r.items ==> r.items[k] == x.items[k]
  {
    if n == 0 then Empty()
    else
      var k := x.keys[n - 1];
      assert k in x.keys;
      TakeNext(x.keys, n - 1);
      First(x, n - 1).Put(k, x.At(k))
  }

  lemma FirstAll<K(!new), V>(x: Dict<K, V>)
    requires x.Valid()
    ensures First(x, |x.keys|) == x
  {
    assert x.keys[..|x.keys|] == x.keys;
    assert First(x, |x.keys|).items == x.items;
  }

  method UpdateAll<K(!new, ==), V>(b: Dict<K, V>, x: Dict<K, V>) returns (r: Dict<K, V>)
    requires x.Valid()
    ensures r == Update(b, x)
  {
    r := b;
    assert b.keys + [] == b.keys && b.items + map[] == b.items;
    for i := 0 to |x.keys|
      invariant r == Update(b, First(x, i))
    {
      var k := x.keys[i];
      assert k in x.keys;
      UpdatePut(b, First(x, i), k, x.At(k));
      r := r.Put(k, x.At(k));
    }
    FirstAll(x);
  }
}
