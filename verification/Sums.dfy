/** Running sums of bags and running concatenations of lists. */
module Sums {

  /** The first `n` bags together. */
  function Sum<K>(parts: seq<multiset<K>>, n: nat): multiset<K>
    requires n <= |parts|
  {
    if n == 0 then multiset{} else Sum(parts, n - 1) + parts[n - 1]
  }

  /** The first `n` lists, one after another. */
  function Concat<T>(parts: seq<seq<T>>, n: nat): seq<T>
    requires n <= |parts|
  {
    if n == 0 then [] else Concat(parts, n - 1) + parts[n - 1]
  }

  function Total(parts: seq<nat>, n: nat): nat
    requires n <= |parts|
  {
    if n == 0 then 0 else Total(parts, n - 1) + parts[n - 1]
  }

  // ---------------------------------------------------------------------------
  // Drawing on a stock
  // ---------------------------------------------------------------------------

  lemma SpendTwice<K>(stock: multiset<K>, first: multiset<K>, second: multiset<K>)
    ensures stock - first - second == stock - (first + second)
  {
  }

  lemma SpendNothing<K>(stock: multiset<K>)
    ensures stock - multiset{} == stock
  {
  }

  /** Bag `i` is still in stock after the bags before it were taken. */
  predicate StillThere<K>(stock: multiset<K>, parts: seq<multiset<K>>, i: nat)
    requires i < |parts|
  {
    parts[i] <= stock - Sum(parts, i)
  }

  /** Taking bag after bag, each is still there when its turn comes exactly when
      the stock held all of them together. */
  lemma {:induction false} SequentialDraws<K>(stock: multiset<K>, parts: seq<multiset<K>>, n: nat)
    requires n <= |parts|
    ensures Sum(parts, n) <= stock <==> forall i :: 0 <= i < n ==> StillThere(stock, parts, i)
  {
    if n > 0 {
      SequentialDraws(stock, parts, n - 1);
      assert StillThere(stock, parts, n - 1) <==> parts[n - 1] <= stock - Sum(parts, n - 1);
    }
  }

  /** Something drawn at all was drawn a first time. */
  lemma {:induction false} FirstDraw<K>(parts: seq<multiset<K>>, n: nat, k: K) returns (i: nat)
    requires n <= |parts| && Sum(parts, n)[k] > 0
    ensures i < n && parts[i][k] > 0 && Sum(parts, i)[k] == 0
  {
    if Sum(parts, n - 1)[k] > 0 {
      i := FirstDraw(parts, n - 1, k);
    } else {
      i := n - 1;
    }
  }

  lemma {:induction false} SameCounts<K>(a: seq<multiset<K>>, b: seq<multiset<K>>, n: nat, k: K)
    requires n <= |a| && n <= |b| && forall i :: 0 <= i < n ==> a[i][k] == b[i][k]
    ensures Sum(a, n)[k] == Sum(b, n)[k]
  {
    if n > 0 {
      SameCounts(a, b, n - 1, k);
    }
  }

  /** Something drawn at all was drawn a last time. */
  lemma {:induction false} LastDraw<K>(parts: seq<multiset<K>>, n: nat, k: K) returns (i: nat)
    requires n <= |parts| && Sum(parts, n)[k] > 0
    ensures i < n && parts[i][k] > 0 && Sum(parts, n)[k] == Sum(parts, i)[k] + parts[i][k]
  {
    if parts[n - 1][k] > 0 {
      i := n - 1;
    } else {
      i := LastDraw(parts, n - 1, k);
    }
  }

  lemma {:induction false} SumGrows<K>(parts: seq<multiset<K>>, m: nat, n: nat)
    requires m <= n <= |parts|
    ensures Sum(parts, m) <= Sum(parts, n)
  {
    if m < n {
      SumGrows(parts, m, n - 1);
    }
  }

  lemma {:induction false} SumOfBoth<K>(a: seq<multiset<K>>, b: seq<multiset<K>>, c: seq<multiset<K>>, n: nat)
    requires n <= |a| && n <= |b| && n <= |c|
    requires forall i :: 0 <= i < n ==> c[i] == a[i] + b[i]
    ensures Sum(c, n) == Sum(a, n) + Sum(b, n)
  {
    if n > 0 {
      SumOfBoth(a, b, c, n - 1);
    }
  }

  /** The bag of a concatenation is the sum of the bags. */
  lemma {:induction false} BagOfConcat<T>(lists: seq<seq<T>>, bags: seq<multiset<T>>, n: nat)
    requires n <= |lists| && n <= |bags|
    requires forall i :: 0 <= i < n ==> bags[i] == multiset(lists[i])
    ensures multiset(Concat(lists, n)) == Sum(bags, n)
  {
    if n > 0 {
      BagOfConcat(lists, bags, n - 1);
    }
  }

  /** Bags taken from distinct places of `all`, in order, fit into what `all`
      holds up to a bound on those places. */
  lemma {:induction false} InOrderFits<K>(picked: seq<multiset<K>>, places: seq<int>, all: seq<multiset<K>>, n: nat,
                                          bound: nat)
    requires n <= |picked| == |places| && bound <= |all|
    requires forall i :: 0 <= i < n && places[i] < 0 ==> picked[i] == multiset{}
    requires forall i :: 0 <= i < n && places[i] >= 0 ==> places[i] < bound && picked[i] == all[places[i]]
    requires forall i, j :: 0 <= i < j < n && 0 <= places[i] && 0 <= places[j] ==> places[i] < places[j]
    ensures Sum(picked, n) <= Sum(all, bound)
  {
    if n > 0 {
      var p := places[n - 1];
      if p < 0 {
        InOrderFits(picked, places, all, n - 1, bound);
      } else {
        InOrderFits(picked, places, all, n - 1, p);
        SumGrows(all, p + 1, bound);
      }
    }
  }

  lemma {:induction false} SumBelow<K>(a: seq<multiset<K>>, b: seq<multiset<K>>, n: nat)
    requires n <= |a| && n <= |b| && forall i :: 0 <= i < n ==> a[i] <= b[i]
    ensures Sum(a, n) <= Sum(b, n)
  {
    if n > 0 {
      SumBelow(a, b, n - 1);
      BothBelow(Sum(a, n - 1), Sum(b, n - 1), a[n - 1], b[n - 1]);
    }
  }

  lemma BothBelow<K>(a: multiset<K>, b: multiset<K>, x: multiset<K>, y: multiset<K>)
    requires a <= b && x <= y
    ensures a + x <= b + y
  {
  }

  lemma KeysTo<K>(keys: seq<K>, j: nat)
    requires j < |keys|
    ensures multiset(keys[..j + 1]) == multiset(keys[..j]) + multiset{keys[j]}
  {
    assert keys[..j + 1] == keys[..j] + [keys[j]];
  }

  /** Draws that ask for no key but the one in their own place ask for no more
      than the keys up to there. */
  lemma {:induction false} AskedIsThere<K>(parts: seq<multiset<K>>, keys: seq<K>, j: nat)
    requires j <= |parts| == |keys|
    requires forall k :: 0 <= k < |keys| ==> parts[k] <= multiset{keys[k]}
    ensures Sum(parts, j) <= multiset(keys[..j])
  {
    if j > 0 {
      var before, asked, key := Sum(parts, j - 1), parts[j - 1], keys[j - 1];
      AskedIsThere(parts, keys, j - 1);
      KeysTo(keys, j - 1);
      BothBelow(before, multiset(keys[..j - 1]), asked, multiset{key});
      assert Sum(parts, j) == before + asked;
      assert multiset(keys[..j]) == multiset(keys[..j - 1]) + multiset{key};
    }
  }

  /** The next key is still there after everything asked for before it. */
  lemma NextIsThere<K>(parts: seq<multiset<K>>, keys: seq<K>, j: nat)
    requires j < |parts| == |keys|
    requires forall k :: 0 <= k < |keys| ==> parts[k] <= multiset{keys[k]}
    ensures keys[j] in multiset(keys) - Sum(parts, j)
  {
    AskedIsThere(parts, keys, j);
    OneMoreKey(keys, j);
  }

  lemma OneMoreKey<K>(keys: seq<K>, j: nat)
    requires j < |keys|
    ensures multiset(keys)[keys[j]] > multiset(keys[..j])[keys[j]]
  {
    assert keys == keys[..j] + ([keys[j]] + keys[j + 1..]);
    assert multiset(keys) == multiset(keys[..j]) + multiset([keys[j]] + keys[j + 1..]);
    assert keys[j] in [keys[j]] + keys[j + 1..];
  }

  lemma NothingLeft<K>(keys: seq<K>, stock: multiset<K>, spent: multiset<K>)
    requires keys != [] && stock == multiset{}
    ensures !(multiset(keys) <= stock - spent)
  {
    assert keys[0] in multiset(keys);
    assert keys[0] !in stock - spent;
  }

  // ---------------------------------------------------------------------------
  // Concatenations
  // ---------------------------------------------------------------------------

  lemma Regroup<T>(a: seq<T>, b: seq<T>, c: seq<T>)
    ensures a + (b + c) == a + b + c
  {
  }

  lemma {:induction false} InConcat<T>(parts: seq<seq<T>>, n: nat, x: T)
    requires n <= |parts|
    ensures x in Concat(parts, n) <==> exists i :: 0 <= i < n && x in parts[i]
  {
    if n > 0 {
      InConcat(parts, n - 1, x);
    }
  }

  lemma {:induction false} ConcatEmpty<T>(parts: seq<seq<T>>, n: nat)
    requires n <= |parts|
    ensures Concat(parts, n) == [] <==> forall i :: 0 <= i < n ==> parts[i] == []
  {
    if n > 0 {
      ConcatEmpty(parts, n - 1);
    }
  }

  lemma {:induction false} TotalOfBoth(a: seq<nat>, b: seq<nat>, c: seq<nat>, n: nat)
    requires n <= |a| && n <= |b| && n <= |c|
    requires forall i :: 0 <= i < n ==> c[i] == a[i] + b[i]
    ensures Total(c, n) == Total(a, n) + Total(b, n)
  {
    if n > 0 {
      TotalOfBoth(a, b, c, n - 1);
    }
  }

  lemma {:induction false} ZeroIff(parts: seq<nat>, n: nat)
    requires n <= |parts|
    ensures Total(parts, n) == 0 <==> forall k :: 0 <= k < n ==> parts[k] == 0
  {
    if n > 0 {
      ZeroIff(parts, n - 1);
    }
  }

  lemma {:induction false} TotalPrefix(short: seq<nat>, long: seq<nat>, n: nat)
    requires n <= |short| && n <= |long| && forall i :: 0 <= i < n ==> short[i] == long[i]
    ensures Total(short, n) == Total(long, n)
  {
    if n > 0 {
      TotalPrefix(short, long, n - 1);
    }
  }
}
