/** Pairs in the replay a budget returns. Calls and results are paired by position
    within their id, and the fitted replay has other positions; still every
    survivor is paired, in the shorter replay, with the partner it always had. */
module BudgetPairs {
  import opened Text
  import opened Ir
  import opened Pairing
  import opened Budget
  import opened BudgetAccounts

  /** Where position `p` of the replay comes to stand among the kept ones. */
  function Place(keep: seq<bool>, p: nat): nat
    requires p <= |keep|
  {
    |LivePositions(keep, p)|
  }

  /** The kept ones among the first `n` halves. */
  function Survivors(halves: seq<Half>, keep: seq<bool>, n: nat): seq<Half>
    requires |halves| == |keep| && n <= |halves|
  {
    if n == 0 then []
    else Survivors(halves, keep, n - 1) + if keep[n - 1] then [halves[n - 1]] else []
  }

  lemma {:induction false} SurvivorsOfRetained(events: seq<Event>, keep: seq<bool>, n: nat)
    requires |events| == |keep| && n <= |events|
    ensures Halves(Retained(events, keep, n)) == Survivors(Halves(events), keep, n)
    ensures |Survivors(Halves(events), keep, n)| == Place(keep, n)
  {
    if n > 0 {
      SurvivorsOfRetained(events, keep, n - 1);
      var before := Retained(events, keep, n - 1);
      if keep[n - 1] {
        assert Halves(before + [events[n - 1]]) == Halves(before) + [HalfOf(events[n - 1].body)];
      }
    }
  }

  lemma {:induction false} SurvivorAt(halves: seq<Half>, keep: seq<bool>, p: nat, n: nat)
    requires |halves| == |keep| && p < n <= |halves| && keep[p]
    ensures Place(keep, p) < |Survivors(halves, keep, n)|
    ensures Survivors(halves, keep, n)[Place(keep, p)] == halves[p]
    decreases n
  {
    SurvivorsCount(halves, keep, n - 1);
    if p < n - 1 {
      SurvivorAt(halves, keep, p, n - 1);
    }
  }

  lemma {:induction false} SurvivorsCount(halves: seq<Half>, keep: seq<bool>, n: nat)
    requires |halves| == |keep| && n <= |halves|
    ensures |Survivors(halves, keep, n)| == Place(keep, n)
  {
    if n > 0 {
      SurvivorsCount(halves, keep, n - 1);
    }
  }

  predicate Within(list: seq<nat>, keep: seq<bool>) {
    forall k :: 0 <= k < |list| ==> list[k] < |keep|
  }

  /** The places of the kept ones of a list of positions. */
  function Places(list: seq<nat>, keep: seq<bool>): seq<nat>
    requires Within(list, keep)
  {
    if list == [] then []
    else
      var last := list[|list| - 1];
      Places(list[..|list| - 1], keep) + if keep[last] then [Place(keep, last)] else []
  }

  lemma PlacesStep(list: seq<nat>, p: nat, keep: seq<bool>)
    requires Within(list, keep) && p < |keep|
    ensures Within(list + [p], keep)
    ensures Places(list + [p], keep) == Places(list, keep) + if keep[p] then [Place(keep, p)] else []
  {
    assert (list + [p])[..|list|] == list;
  }

  /** The positions of a half among the survivors are the places of its positions
      in the replay. */
  lemma {:induction false} PositionsMove(halves: seq<Half>, keep: seq<bool>, half: Half, n: nat)
    requires |halves| == |keep| && n <= |halves|
    ensures Place(keep, n) <= |Survivors(halves, keep, |halves|)|
    ensures Positions(Survivors(halves, keep, |halves|), half, Place(keep, n)) ==
            Places(Positions(halves, half, n), keep)
  {
    var all := Survivors(halves, keep, |halves|);
    SurvivorsCount(halves, keep, |halves|);
    PlaceGrows(keep, n, |halves|);
    if n > 0 {
      PositionsMove(halves, keep, half, n - 1);
      var p := n - 1;
      if keep[p] {
        SurvivorAt(halves, keep, p, |halves|);
        assert Place(keep, n) == Place(keep, p) + 1;
      } else {
        assert LivePositions(keep, n) == LivePositions(keep, p);
      }
      if halves[p] == half {
        PlacesStep(Positions(halves, half, p), p, keep);
      } else {
        assert Positions(halves, half, n) == Positions(halves, half, p);
      }
    }
  }

  lemma {:induction false} PlaceGrows(keep: seq<bool>, m: nat, n: nat)
    requires m <= n <= |keep|
    ensures Place(keep, m) <= Place(keep, n)
  {
    if m < n {
      PlaceGrows(keep, m, n - 1);
    }
  }

  lemma {:induction false} PlacesGrow(list: seq<nat>, keep: seq<bool>, k: nat)
    requires Within(list, keep) && k <= |list|
    ensures |Places(list[..k], keep)| <= |Places(list, keep)|
    ensures k < |list| && keep[list[k]] ==>
              |Places(list[..k], keep)| < |Places(list, keep)| &&
              Places(list, keep)[|Places(list[..k], keep)|] == Place(keep, list[k])
    decreases |list|
  {
    if k < |list| {
      var init := list[..|list| - 1];
      PlacesGrow(init, keep, k);
      assert init[..k] == list[..k];
    } else {
      assert list[..k] == list;
    }
  }

  /** Two lists kept alike have as many places. */
  lemma {:induction false} KeptAlike(a: seq<nat>, b: seq<nat>, keep: seq<bool>)
    requires Within(a, keep) && Within(b, keep) && |a| == |b|
    requires forall k :: 0 <= k < |a| ==> keep[a[k]] == keep[b[k]]
    ensures |Places(a, keep)| == |Places(b, keep)|
  {
    if a != [] {
      KeptAlike(a[..|a| - 1], b[..|b| - 1], keep);
    }
  }

  /** The first `k` of both sides of an id are kept alike. */
  lemma SidesKeptAlike(halves: seq<Half>, keep: seq<bool>, half: Half, k: nat)
    requires |halves| == |keep| && PairsWhole(halves, keep) && half != Neither
    requires k <= |All(halves, half)| && k <= |All(halves, half.Other())|
    ensures |Places(All(halves, half)[..k], keep)| == |Places(All(halves, half.Other())[..k], keep)|
  {
    var mine, others := All(halves, half), All(halves, half.Other());
    forall j | 0 <= j < k
      ensures keep[mine[j]] == keep[others[j]]
    {
      assert half == Call(half.id) || half == Result(half.id);
    }
    KeptAlike(mine[..k], others[..k], keep);
  }

  /** Before position `i` stand the first of its kind, as many as its rank. */
  lemma BeforeIsPrefix(halves: seq<Half>, i: nat)
    requires i < |halves|
    ensures Rank(halves, i) < |All(halves, halves[i])|
    ensures Positions(halves, halves[i], i) == All(halves, halves[i])[..Rank(halves, i)]
  {
    AtItsRank(halves, i);
    PositionsGrow(halves, halves[i], i, |halves|);
  }

  /** A survivor's rank among the survivors. */
  lemma RankMoves(halves: seq<Half>, keep: seq<bool>, i: nat)
    requires |halves| == |keep| && i < |halves| && keep[i]
    ensures
      var all := Survivors(halves, keep, |halves|);
      && Place(keep, i) < |all| && all[Place(keep, i)] == halves[i]
      && Rank(halves, i) < |All(halves, halves[i])|
      && Rank(all, Place(keep, i)) == |Places(All(halves, halves[i])[..Rank(halves, i)], keep)|
  {
    SurvivorAt(halves, keep, i, |halves|);
    BeforeIsPrefix(halves, i);
    PositionsMove(halves, keep, halves[i], i);
  }

  lemma AllMove(halves: seq<Half>, keep: seq<bool>, half: Half)
    requires |halves| == |keep|
    ensures All(Survivors(halves, keep, |halves|), half) == Places(All(halves, half), keep)
  {
    SurvivorsCount(halves, keep, |halves|);
    PositionsMove(halves, keep, half, |halves|);
  }

  /** When pairs are whole, pairing the survivors anew gives each the partner it
      had, and none to one that had none. */
  lemma PartnersMove(halves: seq<Half>, keep: seq<bool>, i: nat)
    requires |halves| == |keep| && PairsWhole(halves, keep) && i < |halves| && keep[i]
    ensures
      var all, partner := Survivors(halves, keep, |halves|), Partner(halves, i);
      && Place(keep, i) < |all|
      && Partner(all, Place(keep, i)) ==
         if partner.None? then None else Some(Place(keep, partner.value))
  {
    var half, k := halves[i], Rank(halves, i);
    RankMoves(halves, keep, i);
    if half != Neither {
      var others := All(halves, half.Other());
      AllMove(halves, keep, half.Other());
      if k < |others| {
        SidesKeptAlike(halves, keep, half, k);
        WholeKeepsPartners(halves, keep, i);
        PlacesGrow(others, keep, k);
      } else {
        SidesKeptAlike(halves, keep, half, |others|);
        assert others[..|others|] == others;
        var mine := All(halves, half)[..k];
        PlacesGrow(mine, keep, |others|);
        assert mine[..|others|] == All(halves, half)[..|others|];
      }
    }
  }

  /** In the fitted replay every event is paired with the event it was paired with
      before, and with none if it had none: no answer that survives is given to
      another call. */
  lemma SurvivorsKeepPartners(b: ContextBudget, size: Measure, events: seq<Event>, i: nat)
    requires i < |events| && Kept(b, size, events)[i]
    ensures
      var keep, fitted := Kept(b, size, events), Applied(b, size, events).events;
      var partner := Partner(Halves(events), i);
      && Place(keep, i) < |fitted|
      && fitted[Place(keep, i)] == Staged(b, events)[i]
      && Partner(Halves(fitted), Place(keep, i)) ==
         if partner.None? then None else Some(Place(keep, partner.value))
  {
    var keep, staged := Kept(b, size, events), Staged(b, events);
    StagingKeepsHalves(b, events);
    SurvivorsOfRetained(staged, keep, |staged|);
    RepairedIsWhole(Halves(events), Capped(b, size, events));
    PartnersMove(Halves(events), keep, i);
    StandsAt(staged, keep, i, |staged|);
  }

  lemma {:induction false} StandsAt(events: seq<Event>, keep: seq<bool>, i: nat, n: nat)
    requires |events| == |keep| && i < n <= |events| && keep[i]
    ensures Place(keep, i) < |Retained(events, keep, n)|
    ensures Retained(events, keep, n)[Place(keep, i)] == events[i]
    decreases n
  {
    RetainedAt(events, keep, n - 1);
    if i < n - 1 {
      StandsAt(events, keep, i, n - 1);
    }
  }
}
