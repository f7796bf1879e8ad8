/** The comparator's two hash tables: a counting ledger that is drawn down, and
    a table of position queues that is drawn down in order. */
module Ledger {
  import opened Text

  /** The multiset a `key -> remaining` table stands for. */
  ghost predicate Holds<K(!new)>(counts: map<K, nat>, stock: multiset<K>) {
    forall k :: stock[k] == if k in counts then counts[k] else 0
  }

  /** `counted`: how often each key occurs. */
  method Counted<K(!new, ==)>(values: seq<K>) returns (counts: map<K, nat>)
    ensures Holds(counts, multiset(values))
  {
    counts := map[];
    for n := 0 to |values|
      invariant Holds(counts, multiset(values[..n]))
    {
      assert values[..n + 1] == values[..n] + [values[n]];
      counts := counts[values[n] := (if values[n] in counts then counts[values[n]] else 0) + 1];
    }
    assert values[..|values|] == values;
  }

  /** `take`: draw `key` from the stock, and say whether it was there. */
  method Take<K(!new, ==)>(counts: map<K, nat>, key: K, ghost stock: multiset<K>)
    returns (rest: map<K, nat>, found: bool)
    requires Holds(counts, stock)
    ensures Holds(rest, stock - multiset{key})
    ensures found <==> key in stock
  {
    if key in counts && counts[key] > 0 {
      return counts[key := counts[key] - 1], true;
    }
    return counts, false;
  }

  lemma SpendOne<K>(stock: multiset<K>, spent: multiset<K>, key: K)
    ensures stock - spent - multiset{key} == stock - (spent + multiset{key})
    ensures spent + multiset{key} <= stock <==> spent <= stock && key in stock - spent
  {
    if key !in stock - spent {
      assert (spent + multiset{key})[key] > stock[key];
    }
    if !(spent <= stock) {
      var k :| spent[k] > stock[k];
      assert (spent + multiset{key})[k] > stock[k];
    }
  }

  /** Spend every key in `keys`, found or not, and count the ones found. All are
      found exactly when the ledger held the whole bag. */
  method TakeAll<K(!new, ==)>(counts: map<K, nat>, keys: seq<K>, ghost stock: multiset<K>)
    returns (rest: map<K, nat>, kept: nat)
    requires Holds(counts, stock)
    ensures Holds(rest, stock - multiset(keys))
    ensures kept <= |keys|
    ensures kept == |keys| <==> multiset(keys) <= stock
  {
    rest, kept := counts, 0;
    ghost var spent: multiset<K> := multiset{};
    for n := 0 to |keys|
      invariant spent == multiset(keys[..n])
      invariant kept <= n
      invariant Holds(rest, stock - spent)
      invariant kept == n <==> spent <= stock
    {
      var found;
      rest, found := Take(rest, keys[n], stock - spent);
      SpendOne(stock, spent, keys[n]);
      if found {
        kept := kept + 1;
      }
      spent := spent + multiset{keys[n]};
      assert keys[..n + 1] == keys[..n] + [keys[n]];
    }
    assert keys[..|keys|] == keys;
  }

  // ---------------------------------------------------------------------------
  // Position queues
  // ---------------------------------------------------------------------------

  function QueueOf<K(==)>(queues: map<K, seq<nat>>, key: K): seq<nat> {
    if key in queues then queues[key] else []
  }

  /** `queue` lists, in order, target positions that hold `key`, and misses none
      at or after `next`. Positions before `next` may still be queued: stale. */
  ghost predicate Tracks<K>(queue: seq<nat>, target: seq<K>, key: K, next: nat) {
    && (forall i :: 0 <= i < |queue| ==> queue[i] < |target| && target[queue[i]] == key)
    && (forall i, j :: 0 <= i < j < |queue| ==> queue[i] < queue[j])
    && (forall p :: next <= p < |target| && target[p] == key ==> p in queue)
  }

  ghost predicate Queues<K(!new)>(queues: map<K, seq<nat>>, target: seq<K>, next: nat) {
    forall k :: Tracks(QueueOf(queues, k), target, k, next)
  }

  lemma TracksExtend<K>(queue: seq<nat>, target: seq<K>, value: K, key: K)
    requires Tracks(queue, target, key, 0)
    ensures Tracks(if value == key then queue + [|target|] else queue, target + [value], key, 0)
  {
    var longer := if value == key then queue + [|target|] else queue;
    forall p | 0 <= p < |target + [value]| && (target + [value])[p] == key
      ensures p in longer
    {
      if p < |target| {
        assert target[p] == key;
        assert p in queue;
      } else {
        assert longer[|queue|] == p;
      }
    }
  }

  /** `queued`: a queue of target positions for every key. */
  method Queued<K(!new, ==)>(values: seq<K>) returns (queues: map<K, seq<nat>>)
    ensures Queues(queues, values, 0)
  {
    queues := map[];
    for n := 0 to |values|
      invariant Queues(queues, values[..n], 0)
    {
      ghost var before := queues;
      queues := queues[values[n] := QueueOf(queues, values[n]) + [n]];
      assert values[..n + 1] == values[..n] + [values[n]];
      forall k
        ensures Tracks(QueueOf(queues, k), values[..n + 1], k, 0)
      {
        TracksExtend(QueueOf(before, k), values[..n], values[n], k);
      }
    }
    assert values[..|values|] == values;
  }

  /** The earliest position at or after `from` holding `key`. */
  function FirstAt<K(==)>(target: seq<K>, key: K, from: nat): (hit: Option<nat>)
    ensures hit.Some? ==>
              from <= hit.value < |target| && target[hit.value] == key &&
              forall p :: from <= p < hit.value ==> target[p] != key
    ensures hit.None? ==> forall p :: from <= p < |target| ==> target[p] != key
    decreases |target| - from
  {
    if from >= |target| then None
    else if target[from] == key then Some(from)
    else FirstAt(target, key, from + 1)
  }

  lemma QueuesUpdate<K(!new)>(queues: map<K, seq<nat>>, key: K, rear: seq<nat>, target: seq<K>, from: nat,
                              next: nat)
    requires Queues(queues, target, from) && from <= next
    requires Tracks(rear, target, key, next)
    ensures Queues(queues[key := rear], target, next)
  {
    var updated := queues[key := rear];
    forall k
      ensures Tracks(QueueOf(updated, k), target, k, next)
    {
      assert Tracks(QueueOf(queues, k), target, k, from);
    }
  }

  /** Discard positions before `from`: no later key can use them either. */
  method DropStale<K(!new)>(queue: seq<nat>, from: nat, ghost target: seq<K>, ghost key: K) returns (rest: seq<nat>)
    requires Tracks(queue, target, key, from)
    ensures Tracks(rest, target, key, from)
    ensures rest != [] ==> from <= rest[0]
  {
    rest := queue;
    while rest != [] && rest[0] < from
      invariant Tracks(rest, target, key, from)
    {
      rest := rest[1..];
    }
  }

  /** The head of a queue without stale positions is the earliest occurrence. */
  lemma HeadIsFirst<K>(queue: seq<nat>, target: seq<K>, key: K, from: nat)
    requires Tracks(queue, target, key, from)
    requires queue != [] ==> from <= queue[0]
    ensures FirstAt(target, key, from) == if queue == [] then None else Some(queue[0])
    ensures queue != [] ==> Tracks(queue[1..], target, key, queue[0] + 1)
  {
  }

  /** `take_after`: discard the stale head of the queue and spend what follows.
      Although it only ever looks at the front of one queue, it finds the
      earliest occurrence in the whole target. */
  method TakeAfter<K(!new, ==)>(queues: map<K, seq<nat>>, key: K, from: nat, ghost target: seq<K>)
    returns (rest: map<K, seq<nat>>, hit: Option<nat>)
    requires Queues(queues, target, from)
    ensures hit == FirstAt(target, key, from)
    ensures Queues(rest, target, if hit.Some? then hit.value + 1 else from)
  {
    assert Tracks(QueueOf(queues, key), target, key, from);
    if key !in queues {
      HeadIsFirst([], target, key, from);
      return queues, None;
    }
    var queue := DropStale(queues[key], from, target, key);
    HeadIsFirst(queue, target, key, from);
    if queue == [] {
      QueuesUpdate(queues, key, queue, target, from, from);
      return queues[key := queue], None;
    }
    QueuesUpdate(queues, key, queue[1..], target, from, queue[0] + 1);
    return queues[key := queue[1..]], Some(queue[0]);
  }
}
