/** What a clean report certifies when bytes tell the vendors apart, without a word
    about ledgers: bags of keys, and nothing about the order of draws. */
module CompareStray {
  import opened Ir
  import opened Sums
  import opened Reduce
  import opened Compare
  import opened CompareClean

  /** A same-vendor capsule of an event without a match. */
  predicate Stray(c: Crossing, i: nat, j: nat)
    requires i < |c.src| && j < |c.src[i].capsules|
  {
    MatchOf(c, i).None? && !Foreign(c, c.src[i].capsules[j])
  }

  function StrayParts(c: Crossing, i: nat): seq<multiset<string>>
    requires i < |c.src|
  {
    seq(|c.src[i].capsules|, j requires 0 <= j < |c.src[i].capsules| =>
      if Stray(c, i, j) then multiset{c.src[i].capsules[j].sealed} else multiset{})
  }

  function StrayBags(c: Crossing): seq<multiset<string>> {
    seq(|c.src|, i requires 0 <= i < |c.src| => Sum(StrayParts(c, i), |c.src[i].capsules|))
  }

  /** The same-vendor sealed keys of all unmatched events. */
  function StrayKeys(c: Crossing): multiset<string> {
    Sum(StrayBags(c), |c.src|)
  }

  /** `key` is the key of some same-vendor source capsule. */
  ghost predicate NativeKey(c: Crossing, key: string) {
    exists p, q :: 0 <= p < |c.src| && 0 <= q < |c.src[p].capsules| && !Foreign(c, c.src[p].capsules[q]) &&
      c.src[p].capsules[q].sealed == key
  }

  lemma SameDraw(c: Crossing, i: nat, j: nat, key: string)
    requires BytesTellVendors(c) && NativeKey(c, key) && i < |c.src| && j < |c.src[i].capsules|
    ensures GlobalParts(c, i)[j][key] == StrayParts(c, i)[j][key]
  {
    var cap := c.src[i].capsules[j];
    assert Foreign(c, cap) ==> cap.sealed != key;
  }

  /** Of a same-vendor key, an event draws on the file what strays it has. */
  lemma SameDraws(c: Crossing, i: nat, n: nat, key: string)
    requires BytesTellVendors(c) && NativeKey(c, key) && i < |c.src| && n <= |c.src[i].capsules|
    ensures Sum(GlobalParts(c, i), n)[key] == Sum(StrayParts(c, i), n)[key]
  {
    forall j | 0 <= j < n
      ensures GlobalParts(c, i)[j][key] == StrayParts(c, i)[j][key]
    {
      SameDraw(c, i, j, key);
    }
    SameCounts(GlobalParts(c, i), StrayParts(c, i), n, key);
  }

  lemma SameEventDraws(c: Crossing, n: nat, key: string)
    requires BytesTellVendors(c) && NativeKey(c, key) && n <= |c.src|
    ensures Sum(EventDraws(c), n)[key] == Sum(StrayBags(c), n)[key]
  {
    forall i | 0 <= i < n
      ensures EventDraws(c)[i][key] == StrayBags(c)[i][key]
    {
      SameDraws(c, i, |c.src[i].capsules|, key);
    }
    SameCounts(EventDraws(c), StrayBags(c), n, key);
  }

  /** How many strays with the key of capsule `j` of event `i` come before it. */
  function StraysBefore(c: Crossing, i: nat, j: nat, key: string): nat
    requires i < |c.src| && j <= |c.src[i].capsules|
  {
    Sum(StrayBags(c), i)[key] + Sum(StrayParts(c, i), j)[key]
  }

  /** A stray is found exactly when the file holds more of its key than the strays
      before it took. */
  lemma StrayFoundIff(c: Crossing, i: nat, j: nat)
    requires BytesTellVendors(c) && i < |c.src| && j < |c.src[i].capsules| && Stray(c, i, j)
    ensures
      var key := c.src[i].capsules[j].sealed;
      Astray(c, i, j) <==> AllSealed(c)[key] <= StraysBefore(c, i, j, key)
  {
    var key := c.src[i].capsules[j].sealed;
    assert NativeKey(c, key);
    SameEventDraws(c, i, key);
    SameDraws(c, i, j, key);
  }

  /** A stray is one more than the strays before it, and they are all among the
      strays of the source. */
  lemma StrayCounts(c: Crossing, i: nat, j: nat)
    requires i < |c.src| && j < |c.src[i].capsules| && Stray(c, i, j)
    ensures
      var key := c.src[i].capsules[j].sealed;
      StraysBefore(c, i, j, key) < StrayKeys(c)[key]
  {
    var key := c.src[i].capsules[j].sealed;
    SumCounts(StrayParts(c, i), j, key);
    SumCounts(StrayBags(c), i, key);
    assert StrayParts(c, i)[j] == multiset{key};
  }

  /** What comes before a place and what is at it are within the whole. */
  lemma SumCounts<K>(bags: seq<multiset<K>>, i: nat, key: K)
    requires i < |bags|
    ensures Sum(bags, i)[key] + bags[i][key] <= Sum(bags, |bags|)[key]
  {
    SumGrows(bags, i + 1, |bags|);
    assert Sum(bags, i + 1) == Sum(bags, i) + bags[i];
  }

  /** The last stray of a key: all others come before it. */
  lemma LastStray(c: Crossing, key: string) returns (i: nat, j: nat)
    requires key in StrayKeys(c)
    ensures i < |c.src| && j < |c.src[i].capsules| && Stray(c, i, j) && c.src[i].capsules[j].sealed == key
    ensures StrayKeys(c)[key] == StraysBefore(c, i, j, key) + 1
  {
    i := LastDraw(StrayBags(c), |c.src|, key);
    j := LastDraw(StrayParts(c, i), |c.src[i].capsules|, key);
    assert StrayParts(c, i)[j] == if Stray(c, i, j) then multiset{c.src[i].capsules[j].sealed} else multiset{};
  }

  /** Every stray is found exactly when the file holds all of them together. */
  lemma StraysFoundIff(c: Crossing)
    requires BytesTellVendors(c)
    ensures StraysFound(c) <==> StrayKeys(c) <= AllSealed(c)
  {
    if StraysFound(c) {
      forall key
        ensures StrayKeys(c)[key] <= AllSealed(c)[key]
      {
        if key in StrayKeys(c) {
          var i, j := LastStray(c, key);
          StrayFoundIff(c, i, j);
        }
      }
    }
    if StrayKeys(c) <= AllSealed(c) {
      forall i, j | 0 <= i < |c.src| && 0 <= j < |c.src[i].capsules| && MatchOf(c, i).None?
        ensures !Astray(c, i, j)
      {
        if Stray(c, i, j) {
          StrayFoundIff(c, i, j);
          StrayCounts(c, i, j);
        }
      }
    }
  }

  /** No foreign capsule's bytes are on any target event. */
  ghost predicate NoForeignBytes(c: Crossing) {
    forall i, j :: 0 <= i < |c.src| && 0 <= j < |c.src[i].capsules| && Foreign(c, c.src[i].capsules[j]) ==>
      c.src[i].capsules[j].sealed !in AllSealed(c)
  }

  /** Bags only: what a clean report certifies when bytes tell the vendors apart. */
  lemma CleanIffConserved(s: Serde, src: seq<Event>, tgt: seq<Event>, vendor: string)
    requires PrintsTellContent(s) && BytesTellVendors(CrossingOf(s, src, tgt, vendor))
    ensures
      var c := CrossingOf(s, src, tgt, vendor);
      Compared(c).IsClean() <==>
      && ReadableConserved(c) && NoBareHusk(c)
      && CapsulesInPlace(c) && StrayKeys(c) <= AllSealed(c)
      && NoForeignBytes(c)
  {
    var c := CrossingOf(s, src, tgt, vendor);
    CleanIff(s, src, tgt, vendor);
    NothingCarriedIff(c);
    NothingCarriedIffNowhere(c);
    StraysFoundIff(c);
  }
}
