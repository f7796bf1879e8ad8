/** In-order matching of one list of keys against another: what it means, and
    the queue-driven matcher that computes it. */
module Matching {
  import opened Text
  import opened Ledger

  /** The first target position still open when source position `i` comes up. */
  function NextAt<K(==)>(source: seq<K>, target: seq<K>, i: nat): (next: nat)
    requires i <= |source|
    ensures next <= |target|
    decreases i, 0
  {
    if i == 0 then 0
    else
      var hit := MatchAt(source, target, i - 1);
      if hit.Some? then hit.value + 1 else NextAt(source, target, i - 1)
  }

  /** What source position `i` is matched to: the earliest open target position
      with its key. */
  function MatchAt<K(==)>(source: seq<K>, target: seq<K>, i: nat): (hit: Option<nat>)
    requires i < |source|
    ensures hit.Some? ==>
              NextAt(source, target, i) <= hit.value < |target| && target[hit.value] == source[i]
    decreases i, 1
  {
    FirstAt(target, source[i], NextAt(source, target, i))
  }

  /** The whole matching. */
  function Matches<K(==)>(source: seq<K>, target: seq<K>): (matched: seq<Option<nat>>)
    ensures |matched| == |source|
  {
    seq(|source|, i requires 0 <= i < |source| => MatchAt(source, target, i))
  }

  /** One step of the matcher: the queues give the position the definition does. */
  method MatchStep<K(!new, ==)>(queues: map<K, seq<nat>>, next: nat, ghost source: seq<K>, ghost target: seq<K>,
                                key: K, ghost i: nat)
    returns (queues': map<K, seq<nat>>, next': nat, hit: Option<nat>)
    requires i < |source| && source[i] == key
    requires next == NextAt(source, target, i)
    requires Queues(queues, target, next)
    ensures hit == MatchAt(source, target, i)
    ensures next' == NextAt(source, target, i + 1)
    ensures Queues(queues', target, next')
  {
    queues', hit := TakeAfter(queues, key, next, target);
    next' := if hit.Some? then hit.value + 1 else next;
  }

  // ---------------------------------------------------------------------------
  // What the greedy matcher achieves
  // ---------------------------------------------------------------------------

  lemma {:induction false} NextGrows<K>(source: seq<K>, target: seq<K>, i: nat, j: nat)
    requires i <= j <= |source|
    ensures NextAt(source, target, i) <= NextAt(source, target, j)
    decreases j
  {
    if i < j {
      NextGrows(source, target, i, j - 1);
    }
  }

  /** Matched positions strictly increase, so no target event serves twice. */
  lemma MatchesIncrease<K>(source: seq<K>, target: seq<K>, i: nat, j: nat)
    requires i < j < |source|
    requires MatchAt(source, target, i).Some? && MatchAt(source, target, j).Some?
    ensures MatchAt(source, target, i).value < MatchAt(source, target, j).value
  {
    NextGrows(source, target, i + 1, j);
  }

  /** `places` embeds `source` in `target`, in order. */
  ghost predicate Embeds<K>(places: seq<nat>, source: seq<K>, target: seq<K>) {
    && |places| == |source|
    && (forall i :: 0 <= i < |places| ==> places[i] < |target| && target[places[i]] == source[i])
    && (forall i, j :: 0 <= i < j < |places| ==> places[i] < places[j])
  }

  ghost predicate Subsequence<K>(source: seq<K>, target: seq<K>) {
    exists places :: Embeds(places, source, target)
  }

  ghost predicate EverythingMatches<K>(source: seq<K>, target: seq<K>) {
    forall i :: 0 <= i < |source| ==> MatchAt(source, target, i).Some?
  }

  /** Greedy matching stays at or behind any embedding. */
  lemma {:induction false} StaysAhead<K>(places: seq<nat>, source: seq<K>, target: seq<K>, i: nat)
    requires Embeds(places, source, target) && i < |source|
    ensures MatchAt(source, target, i).Some? && MatchAt(source, target, i).value <= places[i]
  {
    if i > 0 {
      StaysAhead(places, source, target, i - 1);
    }
  }

  /** Every source event is matched exactly when the source's shapes occur in
      the target in order. */
  lemma MatchesAllIffSubsequence<K>(source: seq<K>, target: seq<K>)
    ensures EverythingMatches(source, target) <==> Subsequence(source, target)
  {
    if EverythingMatches(source, target) {
      var places := seq(|source|, i requires 0 <= i < |source| => MatchAt(source, target, i).value);
      forall i, j | 0 <= i < j < |places|
        ensures places[i] < places[j]
      {
        MatchesIncrease(source, target, i, j);
      }
      assert Embeds(places, source, target);
    }
    if Subsequence(source, target) {
      var places :| Embeds(places, source, target);
      forall i | 0 <= i < |source|
        ensures MatchAt(source, target, i).Some?
      {
        StaysAhead(places, source, target, i);
      }
    }
  }

  /** When not everything matches, greedy need not match as much as it could:
      here it spends its one match on the first key and forgoes two. */
  lemma GreedyIsNotLongest()
    ensures
      var source, target := [1, 2, 3], [2, 3, 1];
      && MatchAt(source, target, 0) == Some(2)
      && MatchAt(source, target, 1) == None
      && MatchAt(source, target, 2) == None
      && Embeds([0, 1], source[1..], target)
  {
    var source, target := [1, 2, 3], [2, 3, 1];
    assert MatchAt(source, target, 0) == FirstAt(target, 1, 0);
    assert FirstAt(target, 1, 0) == FirstAt(target, 1, 1) == FirstAt(target, 1, 2);
    assert NextAt(source, target, 1) == 3;
    assert MatchAt(source, target, 1) == FirstAt(target, 2, 3);
    assert NextAt(source, target, 2) == 3;
    assert MatchAt(source, target, 2) == FirstAt(target, 3, 3);
  }
}
